/** One recording at a time: codec, capture and sink are taken and released together
    (firmware/esp32-recorder/src/audio/RecordingSession.cpp), with the sink factory and the clip
    callback of firmware/esp32-recorder/src/main.cpp. */
module Recording {
  import opened Wrappers
  import opened QueueNames
  import opened SdQueue
  import opened Wav
  import opened Sinks

  datatype RecState = Standby | Recording | Stopping

  datatype StopReason = User | Full | Error

  /** The sink in use, one of the factory's two. */
  datatype SinkRef = NoSink | InMemory | OnCard

  /** How the hardware answers when a recording is started. */
  datatype StartLuck = StartLuck(sdReady: bool, full: bool, opens: bool, took: nat, removes: bool,
                                 codec: bool, capture: bool)

  // ---------------------------------------------------------------- the session as a value

  ghost predicate Commits(luck: CloseLuck) {
    luck.seek4 && luck.took4 == 4 && luck.seek40 && luck.took40 == 4 && luck.renames
  }

  /** What does not change: formats and capacities of the two sinks, and whether the card is mounted. */
  datatype Setup = Setup(memRate: nat, memChannels: nat, memCapacity: nat,
                         cardRate: nat, cardChannels: nat, cardCapacity: nat, ready: bool)

  /** `data`: the PCM bytes accepted by the recording in progress. `name`: its file, on the card.
      `next`: the queue's counter. `memOpen`: the memory sink is open. `slot`: the clip waiting in
      memory. `queued`: the clips on the card. `clips`: how many were delivered. */
  datatype Recorder = Recorder(sink: SinkRef, data: Bytes, name: string, next: nat, memOpen: bool,
                               slot: Option<Bytes>, queued: map<string, Bytes>, clips: nat, reason: StopReason)

  /** The button at rest: a recording starts if its sink opens and codec and capture do. A number taken
      from the queue is used up either way. */
  ghost function Started(c: Setup, r: Recorder, luck: StartLuck): Recorder {
    var reserved := luck.sdReady && c.ready && !luck.full && luck.opens;
    var granted := if luck.sdReady then reserved && luck.took == HEADER_BYTES
                   else !r.memOpen && c.memCapacity >= HEADER_BYTES;
    var next := if reserved then r.next + 1 else r.next;
    if granted && luck.codec && luck.capture
    then r.(sink := if luck.sdReady then OnCard else InMemory, data := [], next := next, reason := User,
            name := if luck.sdReady then WavName(r.next) else "", memOpen := r.memOpen || !luck.sdReady)
    else r.(next := next, reason := Error)
  }

  /** The end of a recording: a memory clip goes to the slot; a card clip is queued if the card patches
      the sizes and renames the file to a free name. `tail`: bytes of a short write, uncounted. */
  ghost function Ended(c: Setup, r: Recorder, reason: StopReason, luck: CloseLuck, tail: Bytes): Recorder {
    var idle := r.(sink := NoSink, data := [], name := "", reason := reason);
    if r.sink == InMemory then
      idle.(slot := Some(Clip(c.memRate, c.memChannels, r.data)), clips := r.clips + 1)
    else if Commits(luck) && r.name !in r.queued then
      idle.(queued := r.queued[r.name := Clip(c.cardRate, c.cardChannels, r.data) + tail], clips := r.clips + 1)
    else idle
  }

  ghost function Pressed(c: Setup, r: Recorder, start: StartLuck, stop: CloseLuck): Recorder {
    if r.sink == NoSink then Started(c, r, start) else Ended(c, r, User, stop, [])
  }

  function CapacityOf(c: Setup, sink: SinkRef): nat {
    match sink case InMemory => c.memCapacity case OnCard => c.cardCapacity case NoSink => 0
  }

  predicate HasRoom(c: Setup, r: Recorder, bytes: Bytes) {
    HEADER_BYTES + |r.data| + |bytes| <= CapacityOf(c, r.sink)
  }

  predicate Accepts(c: Setup, r: Recorder, bytes: Bytes, took: nat) {
    HasRoom(c, r, bytes) && (r.sink == OnCard ==> took == |bytes|)
  }

  /** A block of samples: kept whole, or the end of the recording. */
  ghost function Heard(c: Setup, r: Recorder, bytes: Bytes, took: nat, luck: CloseLuck): Recorder
    requires took <= |bytes|
  {
    if r.sink == NoSink then r
    else if Accepts(c, r, bytes, took) then r.(data := r.data + bytes)
    else
      Ended(c, r, if HEADER_BYTES + |r.data| >= CapacityOf(c, r.sink) then Full else Error, luck,
            if HasRoom(c, r, bytes) && r.sink == OnCard then bytes[..took] else [])
  }

  // ---------------------------------------------------------------- the session object

  class RecordingSession {
    const mem: WavMemorySink
    const file: WavFileSink
    var state: RecState
    var sink: SinkRef
    var powered: bool
    var capturing: bool
    var armed: bool
    var lastReason: StopReason
    /** The clip callback's single memory slot, and its count of finished clips. */
    var pendingClip: Option<Bytes>
    var clipCount: nat
    /** The PCM bytes accepted since the start, and those a short write left behind them. */
    ghost var pcm: Bytes
    ghost var tail: Bytes

    constructor (mem: WavMemorySink, file: WavFileSink)
      requires mem.Valid() && !mem.open && file.Valid() && !file.open
      ensures this.mem == mem && this.file == file
      ensures Valid() && state == Standby && pendingClip == None && clipCount == 0
    {
      this.mem, this.file := mem, file;
      state, sink, powered, capturing, armed := Standby, NoSink, false, false, true;
      lastReason, pendingClip, clipCount := User, None, 0;
      pcm, tail := [], [];
    }

    /** All components in use, or all released. */
    ghost predicate Consistent()
      reads this, mem, file, file.queue, file.writer
    {
      && mem.Valid() && file.Valid()
      && state != Stopping
      && (state == Recording <==> sink != NoSink)
      && powered == capturing == (state == Recording)
      && (mem.open && !mem.closed <==> sink == InMemory)
      && (file.open <==> sink == OnCard)
      && (sink == InMemory ==> mem.Pcm() == pcm && tail == [])
      && (sink == OnCard ==> file.Body() == pcm + tail && file.total == HEADER_BYTES + |pcm|
                             && (pcm != [] ==> file.total <= file.capacity))
    }

    ghost predicate Valid()
      reads this, mem, file, file.queue, file.writer
    {
      Consistent() && (state == Recording ==> tail == [])
    }

    function Fixed(): Setup
      reads file.queue
    {
      Setup(mem.sampleRate, mem.channels, mem.capacity, file.sampleRate, file.channels, file.capacity, file.queue.ready)
    }

    /** What the session and its surroundings amount to. */
    ghost function View(): Recorder
      reads this, mem, file, file.queue, file.writer
    {
      Recorder(sink, if state == Recording then pcm else [],
               if sink == OnCard && file.writer != null then file.writer.finalName else "", file.queue.nextN,
               mem.open, pendingClip, Clips(file.queue.dir), clipCount, lastReason)
    }

    method MakeSink(sd: bool) returns (made: SinkRef)
      ensures made == if sd then OnCard else InMemory
    {
      made := if sd then OnCard else InMemory;
    }

    method DiscardSink(removes: bool)
      requires mem.Valid() && file.Valid()
      modifies mem, file, file.writer, file.queue`dir
      ensures mem.Valid() && file.Valid() && !file.open
      requires sink != OnCard ==> !file.open
      ensures sink == InMemory ==> !mem.open
      ensures sink != InMemory ==> mem.Contents() == old(mem.Contents())
      ensures sink != OnCard ==> file.queue.dir == old(file.queue.dir)
      ensures Clips(file.queue.dir) == Clips(old(file.queue.dir))
    {
      if sink == InMemory {
        mem.Discard();
      }
      if sink == OnCard {
        file.Discard(removes);
      }
    }

    method OpenSink(luck: StartLuck) returns (ok: bool)
      requires mem.Valid() && (mem.open ==> mem.closed) && file.Valid() && !file.open
      requires file.queue.nextN < NUMBER_LIMIT - 1 && luck.took <= HEADER_BYTES
      modifies mem, file, file.queue
      ensures mem.Valid() && file.Valid()
      ensures ok <==> if sink == OnCard
                      then old(file.queue.ready) && !luck.full && luck.opens && luck.took == HEADER_BYTES
                      else !old(mem.open) && mem.capacity >= HEADER_BYTES
      ensures sink == OnCard ==> mem.Contents() == old(mem.Contents()) && (file.open <==> ok)
      ensures sink == OnCard && ok ==> && fresh(file.writer) && file.Body() == [] && file.total == HEADER_BYTES
                                       && file.writer.finalName == WavName(old(file.queue.nextN))
      ensures sink != OnCard ==> !file.open && file.queue.Contents() == old(file.queue.Contents())
      ensures sink != OnCard && ok ==> mem.open && !mem.closed && mem.Pcm() == []
      ensures sink != OnCard && !ok ==> mem.Contents() == old(mem.Contents())
      ensures Clips(file.queue.dir) == Clips(old(file.queue.dir)) && file.queue.ready == old(file.queue.ready)
      ensures file.queue.nextN == old(file.queue.nextN)
              + if sink == OnCard && file.queue.ready && !luck.full && luck.opens then 1 else 0
    {
      if sink == OnCard {
        ok := file.Open(luck.full, luck.opens, luck.took, luck.removes);
      } else {
        ok := mem.Open();
      }
    }

    /** A start that failed: nothing is held. */
    method Refuse()
      requires mem.Valid() && file.Valid() && !file.open && (mem.open ==> mem.closed)
      requires !powered && !capturing
      modifies this`sink, this`state, this`lastReason
      ensures Valid() && state == Standby && lastReason == Error && sink == NoSink
    {
      sink, state, lastReason := NoSink, Standby, Error;
    }

    /** The codec or the capture refused: the codec is off, the sink is thrown away. */
    method Undo(removes: bool)
      requires mem.Valid() && file.Valid() && !capturing
      requires if sink == OnCard then mem.open ==> mem.closed else sink == InMemory && !file.open
      modifies this`powered, this`sink, this`state, this`lastReason, mem, file, file.writer, file.queue`dir
      ensures Valid() && state == Standby && lastReason == Error && sink == NoSink
      ensures old(sink) != OnCard ==> file.queue.dir == old(file.queue.dir)
      ensures Clips(file.queue.dir) == Clips(old(file.queue.dir))
      ensures mem.open == (old(sink) == OnCard && old(mem.open))
    {
      powered := false;
      DiscardSink(removes);
      Refuse();
    }

    /** The sink is open: power the codec, start the capture, or give everything back. */
    method PowerUp(luck: StartLuck)
      requires mem.Valid() && file.Valid() && !powered && !capturing && pcm == tail == []
      requires if sink == OnCard
               then && (mem.open ==> mem.closed) && file.open && file.Body() == [] && file.total == HEADER_BYTES
               else sink == InMemory && !file.open && mem.open && !mem.closed && mem.Pcm() == []
      modifies this`powered, this`capturing, this`armed, this`sink, this`state, this`lastReason,
               mem, file, file.writer, file.queue`dir
      ensures Valid() && file.writer in {null, old(file.writer)}
      ensures state == Recording <==> luck.codec && luck.capture
      ensures state == Recording ==> armed && sink == old(sink) && file.writer == old(file.writer)
      ensures state != Recording ==> state == Standby && lastReason == Error
      ensures old(sink) != OnCard ==> file.queue.dir == old(file.queue.dir)
      ensures Clips(file.queue.dir) == Clips(old(file.queue.dir))
      ensures state == Recording ==> lastReason == User && pcm == []
      ensures View() == if state == Recording then old(View()).(data := [], reason := User)
                        else old(View()).(sink := NoSink, data := [], name := "", reason := Error,
                                          memOpen := old(sink) == OnCard && old(mem.open))
      ensures mem.open == if state == Recording || old(sink) == OnCard then old(mem.open) else false
    {
      powered := luck.codec;
      if !powered {
        Undo(luck.removes);
        return;
      }
      capturing := luck.capture;
      if !capturing {
        Undo(luck.removes);
        return;
      }
      state, armed, lastReason := Recording, true, User;
    }

    method StartRecording(luck: StartLuck)
      requires Valid() && state == Standby && file.queue.nextN < NUMBER_LIMIT - 1 && luck.took <= HEADER_BYTES
      modifies this, mem, file, file.queue
      ensures Valid() && pendingClip == old(pendingClip) && clipCount == old(clipCount)
      ensures file.writer != null ==> fresh(file.writer)
      ensures state == Recording <==>
        && (if luck.sdReady
            then old(file.queue.ready) && !luck.full && luck.opens && luck.took == HEADER_BYTES
            else !old(mem.open) && mem.capacity >= HEADER_BYTES)
        && luck.codec && luck.capture
      ensures state == Recording ==> pcm == [] && armed && sink == if luck.sdReady then OnCard else InMemory
      ensures state == Recording && luck.sdReady ==> file.writer.finalName == WavName(old(file.queue.nextN))
      ensures state != Recording ==> state == Standby && lastReason == Error
      ensures !luck.sdReady ==> file.queue.Contents() == old(file.queue.Contents())
      ensures !luck.sdReady && old(mem.open) ==> mem.Contents() == old(mem.Contents())
      ensures Fixed() == old(Fixed()) && View() == Started(Fixed(), old(View()), luck)
    {
      pcm, tail := [], [];
      sink := MakeSink(luck.sdReady);
      var granted := OpenSink(luck);
      if granted {
        PowerUp(luck);
      } else {
        Refuse();
        assert View() == Started(Fixed(), old(View()), luck);
      }
    }

    method BytesWritten() returns (n: nat)
      ensures n == match sink case InMemory => |mem.buf| case OnCard => file.total case NoSink => 0
    {
      n := match sink case InMemory => |mem.buf| case OnCard => file.total case NoSink => 0;
    }

    function Capacity(): nat
      reads this`sink
    {
      match sink case InMemory => mem.capacity case OnCard => file.capacity case NoSink => 0
    }

    /** The clip callback: a memory clip is taken out of the sink; a card clip is already queued. */
    method OnClip()
      requires mem.Valid() && (mem.open ==> mem.closed)
      modifies this`pendingClip, this`clipCount, mem`buf
      ensures mem.Valid() && clipCount == old(clipCount) + 1
      ensures pendingClip == if sink == InMemory then Some(old(mem.buf)) else old(pendingClip)
      ensures mem.open == old(mem.open) && mem.closed == old(mem.closed)
      ensures sink != InMemory ==> mem.buf == old(mem.buf)
    {
      clipCount := clipCount + 1;
      if sink != InMemory {
        return;
      }
      var bytes := mem.TakeBytes();
      pendingClip := Some(bytes);
    }

    /** The card file holds a header counting the accepted bytes, those bytes, and `rest`. */
    ghost predicate OnCardIs(name: string, data: Bytes, rest: Bytes)
      reads file.queue
    {
      name in file.queue.dir && file.queue.dir[name] == Clip(file.sampleRate, file.channels, data) + rest
    }

    method CloseSink(luck: CloseLuck) returns (closed: bool)
      requires mem.Valid() && file.Valid() && luck.took4 <= 4 && luck.took40 <= 4
      requires if sink == OnCard then file.open && file.Body() == pcm + tail && file.total == HEADER_BYTES + |pcm|
               else !file.open && mem.open && !mem.closed && mem.Pcm() == pcm
      modifies mem, file, file.writer, file.queue`dir
      ensures mem.Valid() && file.Valid() && !file.open
      ensures sink != OnCard ==> && closed && mem.open && mem.closed
                                 && mem.buf == Clip(mem.sampleRate, mem.channels, pcm) && |mem.buf| <= mem.capacity
      ensures sink == OnCard ==> mem.Contents() == old(mem.Contents())
      ensures sink == OnCard ==> (closed <==> Commits(luck) && old(file.writer.finalName) !in old(file.queue.dir))
      ensures sink == OnCard && closed ==> OnCardIs(old(file.writer.finalName), pcm, tail)
      ensures Clips(file.queue.dir) == if sink == OnCard && closed
        then Clips(old(file.queue.dir))[old(file.writer.finalName) := Clip(file.sampleRate, file.channels, pcm) + tail]
        else Clips(old(file.queue.dir))
    {
      if sink == OnCard {
        ghost var name := file.writer.finalName;
        closed := file.Close(luck);
        assert WavHeader(file.sampleRate, file.channels, |pcm|) + (pcm + tail)
            == Clip(file.sampleRate, file.channels, pcm) + tail;
      } else {
        closed := mem.Close();
      }
    }

    method FinishSink(luck: CloseLuck)
      requires mem.Valid() && file.Valid() && luck.took4 <= 4 && luck.took40 <= 4
      requires if sink == OnCard
               then file.open && file.Body() == pcm + tail && file.total == HEADER_BYTES + |pcm| && (mem.open ==> mem.closed)
               else !file.open && sink == InMemory && mem.open && !mem.closed && mem.Pcm() == pcm
      modifies this`pendingClip, this`clipCount, mem, file, file.writer, file.queue`dir
      ensures mem.Valid() && file.Valid() && !file.open && (mem.open ==> mem.closed)
      ensures sink == InMemory ==>
        && pendingClip == Some(Clip(mem.sampleRate, mem.channels, pcm))
        && |Clip(mem.sampleRate, mem.channels, pcm)| <= mem.capacity
        && clipCount == old(clipCount) + 1 && mem.open
      ensures sink == OnCard ==>
        var committed := Commits(luck) && old(file.writer.finalName) !in Clips(old(file.queue.dir));
        && clipCount == old(clipCount) + (if committed then 1 else 0)
        && pendingClip == old(pendingClip) && mem.Contents() == old(mem.Contents())
        && Clips(file.queue.dir) == if committed
             then Clips(old(file.queue.dir))[old(file.writer.finalName) := Clip(file.sampleRate, file.channels, pcm) + tail]
             else Clips(old(file.queue.dir))
      ensures sink != OnCard ==> Clips(file.queue.dir) == Clips(old(file.queue.dir))
    {
      var closed := CloseSink(luck);
      if closed {
        OnClip();
      } else {
        DiscardSink(luck.removes);
      }
    }

    /** Release everything; deliver the clip if the sink could be closed. */
    method StopRecording(reason: StopReason, luck: CloseLuck)
      requires Consistent() && state == Recording && luck.took4 <= 4 && luck.took40 <= 4
      modifies this, mem, file, file.writer, file.queue`dir
      ensures Valid() && state == Standby && armed && lastReason == reason
      ensures pcm == old(pcm) && tail == old(tail)
      ensures old(sink) == InMemory ==>
        && pendingClip == Some(Clip(mem.sampleRate, mem.channels, old(pcm)))
        && |Clip(mem.sampleRate, mem.channels, old(pcm))| <= mem.capacity
        && clipCount == old(clipCount) + 1 && mem.open
      ensures old(sink) == OnCard ==>
        var committed := Commits(luck) && old(file.writer.finalName) !in old(file.queue.dir);
        && clipCount == old(clipCount) + (if committed then 1 else 0)
        && (committed ==> OnCardIs(old(file.writer.finalName), old(pcm), old(tail)))
        && pendingClip == old(pendingClip) && mem.Contents() == old(mem.Contents())
      ensures file.writer == null
      ensures Fixed() == old(Fixed()) && View() == Ended(Fixed(), old(View()), reason, luck, old(tail))
    {
      ghost var committed := sink == OnCard && Commits(luck) && file.writer.finalName !in file.queue.dir;
      state, armed, capturing, powered := Stopping, false, false, false;
      FinishSink(luck);
      if committed {
        assert old(file.writer.finalName) in Clips(file.queue.dir);
      }
      Rest(reason);
    }

    /** Back to rest, with no sink and nothing running. */
    method Rest(reason: StopReason)
      requires mem.Valid() && file.Valid() && !file.open && (mem.open ==> mem.closed)
      requires !powered && !capturing
      modifies this`sink, this`state, this`armed, this`lastReason
      ensures Valid() && state == Standby && sink == NoSink && armed && lastReason == reason
    {
      sink, state, armed, lastReason := NoSink, Standby, true, reason;
    }

    method Toggle(start: StartLuck, stop: CloseLuck)
      requires Valid() && file.queue.nextN < NUMBER_LIMIT - 1
      requires start.took <= HEADER_BYTES && stop.took4 <= 4 && stop.took40 <= 4
      modifies this, mem, file, file.writer, file.queue
      ensures Valid() && (file.writer != null ==> fresh(file.writer))
      ensures Fixed() == old(Fixed()) && View() == Pressed(Fixed(), old(View()), start, stop)
      ensures old(state) == Recording ==> state == Standby && lastReason == User
      ensures old(state) == Recording && old(sink) == InMemory ==>
        pendingClip == Some(Clip(mem.sampleRate, mem.channels, old(pcm))) && mem.open && clipCount == old(clipCount) + 1
      ensures old(state) == Recording && old(sink) == OnCard ==>
        var committed := Commits(stop) && old(file.writer.finalName) !in old(file.queue.dir);
        && clipCount == old(clipCount) + (if committed then 1 else 0)
        && (committed ==> OnCardIs(old(file.writer.finalName), old(pcm), []))
      ensures old(state) == Standby ==> pendingClip == old(pendingClip) && clipCount == old(clipCount)
      ensures old(state) == Standby ==>
        (state == Recording <==>
          && (if start.sdReady
              then old(file.queue.ready) && !start.full && start.opens && start.took == HEADER_BYTES
              else !old(mem.open) && mem.capacity >= HEADER_BYTES)
          && start.codec && start.capture)
      ensures old(state) == Standby && state == Recording ==>
        pcm == [] && armed && sink == if start.sdReady then OnCard else InMemory
      ensures old(state) == Standby && state == Recording && start.sdReady ==>
        file.writer.finalName == WavName(old(file.queue.nextN))
      ensures old(state) == Standby && state != Recording ==> state == Standby && lastReason == Error
      ensures old(state) == Standby && !start.sdReady && old(mem.open) ==>
        state == Standby && lastReason == Error && mem.open
        && file.queue.Contents() == old(file.queue.Contents())
    {
      if state == Standby {
        StartRecording(start);
      } else if state == Recording {
        ghost var name, data := if sink == OnCard then file.writer.finalName else "", pcm;
        StopRecording(User, stop);
        assert Clip(file.sampleRate, file.channels, data) + [] == Clip(file.sampleRate, file.channels, data);
      }
    }

    method WriteSink(bytes: Bytes, took: nat) returns (accepted: bool)
      requires Valid() && state == Recording && took <= |bytes|
      modifies this`pcm, this`tail, mem, file, file.writer, file.queue`dir
      ensures Consistent() && (accepted ==> Valid())
      ensures file.writer == old(file.writer)
      ensures sink == OnCard ==> forall name :: name != file.writer.partialName ==>
        (name in file.queue.dir <==> name in old(file.queue.dir))
      ensures var room := HEADER_BYTES + |old(pcm)| + |bytes| <= Capacity();
              && (accepted <==> room && (sink == OnCard ==> took == |bytes|))
              && pcm == old(pcm) + (if accepted then bytes else [])
              && (!accepted ==> tail == if room && sink == OnCard then bytes[..took] else [])
      ensures Fixed() == old(Fixed())
      ensures View() == if accepted then old(View()).(data := old(View()).data + bytes) else old(View())
    {
      if sink == OnCard {
        ghost var room := file.total + |bytes| <= file.capacity;
        accepted := file.Write(bytes, took);
        if accepted {
          assert bytes[..took] == bytes;
          pcm := pcm + bytes;
          assert pcm + [] == pcm;
        } else {
          tail := if room then bytes[..took] else [];
          assert old(pcm) + [] == old(pcm);
        }
      } else {
        accepted := mem.Write(bytes);
        if accepted {
          pcm := pcm + bytes;
        }
      }
    }

    /** One block of samples; the card takes the first `took` bytes. A refused block ends the
        recording: as Full when the sink is exactly at capacity, else as Error. */
    method OnPcm(bytes: Bytes, took: nat, luck: CloseLuck)
      requires Valid() && took <= |bytes| && luck.took4 <= 4 && luck.took40 <= 4
      modifies this, mem, file, file.writer, file.queue`dir
      ensures Valid()
      ensures old(state) != Recording ==> state == old(state) && pcm == old(pcm) && clipCount == old(clipCount)
      ensures old(state) == Recording ==>
        var room := HEADER_BYTES + |old(pcm)| + |bytes| <= old(Capacity());
        var accepted := room && (old(sink) == OnCard ==> took == |bytes|);
        && pcm == old(pcm) + (if accepted then bytes else [])
        && (state == Recording <==> accepted)
        && (!accepted ==> lastReason == if HEADER_BYTES + |old(pcm)| >= old(Capacity()) then Full else Error)
        && (!accepted && old(sink) == InMemory ==> pendingClip == Some(Clip(mem.sampleRate, mem.channels, pcm)))
        && (!accepted && old(sink) == OnCard && Commits(luck) && old(file.writer.finalName) !in old(file.queue.dir) ==>
              OnCardIs(old(file.writer.finalName), pcm, if room then bytes[..took] else []))
      ensures file.writer == null || file.writer == old(file.writer)
      ensures Fixed() == old(Fixed()) && View() == Heard(Fixed(), old(View()), bytes, took, luck)
    {
      if state != Recording || sink == NoSink {
        return;
      }
      var accepted := WriteSink(bytes, took);
      if accepted {
        return;
      }
      var written := BytesWritten();
      if written >= Capacity() {
        StopRecording(Full, luck);
      } else {
        StopRecording(Error, luck);
      }
    }
  }

  // ---------------------------------------------------------------- sequences of presses and blocks

  datatype Event = Press(start: StartLuck, stop: CloseLuck) | Block(bytes: Bytes, took: nat, luck: CloseLuck)

  predicate Possible(e: Event) {
    match e
    case Press(start, stop) => start.took <= HEADER_BYTES && stop.took4 <= 4 && stop.took40 <= 4
    case Block(bytes, took, luck) => took <= |bytes| && luck.took4 <= 4 && luck.took40 <= 4
  }

  ghost function Step(c: Setup, r: Recorder, e: Event): Recorder
    requires Possible(e)
  {
    match e
    case Press(start, stop) => Pressed(c, r, start, stop)
    case Block(bytes, took, luck) => Heard(c, r, bytes, took, luck)
  }

  ghost predicate AllPossible(es: seq<Event>) {
    forall i :: 0 <= i < |es| ==> Possible(es[i])
  }

  ghost function After(c: Setup, r: Recorder, es: seq<Event>): Recorder
    requires AllPossible(es)
  {
    if es == [] then r else Step(c, After(c, r, es[..|es| - 1]), es[|es| - 1])
  }

  lemma NextGrowsByOne(c: Setup, r: Recorder, e: Event)
    requires Possible(e)
    ensures r.next <= Step(c, r, e).next <= r.next + 1
  {
  }

  /** Any sequence of button presses and sample blocks takes the session where it takes the value. */
  method Play(s: RecordingSession, es: seq<Event>)
    requires s.Valid() && AllPossible(es) && s.file.queue.nextN + |es| < NUMBER_LIMIT - 1
    modifies s, s.mem, s.file, s.file.writer, s.file.queue
    ensures s.Valid() && s.Fixed() == old(s.Fixed()) && s.View() == After(s.Fixed(), old(s.View()), es)
    ensures s.file.writer == null || s.file.writer == old(s.file.writer) || fresh(s.file.writer)
  {
    ghost var c, r := s.Fixed(), s.View();
    for i := 0 to |es|
      invariant s.Valid() && s.Fixed() == c && s.View() == After(c, r, es[..i])
      invariant s.file.queue.nextN <= r.next + i
      invariant s.file.writer == null || s.file.writer == old(s.file.writer) || fresh(s.file.writer)
    {
      assert es[..i + 1][..i] == es[..i];
      NextGrowsByOne(c, s.View(), es[i]);
      match es[i] {
        case Press(start, stop) => s.Toggle(start, stop);
        case Block(bytes, took, luck) => s.OnPcm(bytes, took, luck);
      }
    }
    assert es[..|es|] == es;
  }

  function Joined(es: seq<Event>): Bytes {
    if es == [] then []
    else Joined(es[..|es| - 1]) + match es[|es| - 1] case Block(bytes, _, _) => bytes case Press(_, _) => []
  }

  /** Event j starts the recording in progress: since then there were only blocks. */
  ghost predicate StartedAt(c: Setup, r: Recorder, es: seq<Event>, j: nat)
    requires AllPossible(es) && j < |es|
  {
    && es[j].Press? && After(c, r, es[..j]).sink == NoSink && After(c, r, es[..j + 1]).sink != NoSink
    && forall k :: j < k < |es| ==> es[k].Block?
  }

  ghost predicate InRoom(c: Setup, r: Recorder) {
    && (r.sink == InMemory ==> HEADER_BYTES + |r.data| <= c.memCapacity)
    && (r.sink == OnCard && r.data != [] ==> HEADER_BYTES + |r.data| <= c.cardCapacity)
  }

  lemma StepRecords(c: Setup, r: Recorder, e: Event)
    requires Possible(e) && Step(c, r, e).sink != NoSink
    ensures r.sink == NoSink ==> e.Press? && Step(c, r, e).data == [] && InRoom(c, Step(c, r, e))
    ensures r.sink != NoSink ==> e.Block? && Step(c, r, e) == r.(data := r.data + e.bytes)
    ensures r.sink != NoSink && InRoom(c, r) ==> InRoom(c, Step(c, r, e))
  {
  }

  lemma BlockExtends(c: Setup, r: Recorder, es: seq<Event>, j: nat)
    requires AllPossible(es) && es != [] && es[|es| - 1].Block? && j < |es| - 1
    requires StartedAt(c, r, es[..|es| - 1], j)
    ensures StartedAt(c, r, es, j)
    ensures Joined(es[j + 1..]) == Joined(es[..|es| - 1][j + 1..]) + es[|es| - 1].bytes
  {
    var n := |es| - 1;
    assert es[..n][..j] == es[..j] && es[..n][..j + 1] == es[..j + 1];
    assert es[j + 1..][..n - j - 1] == es[..n][j + 1..] && es[j + 1..][n - j - 1] == es[n];
    forall k | j < k < |es| ensures es[k].Block? {
      assert k < n ==> es[..n][k] == es[k];
    }
  }

  /** The press at j started what is being recorded, and its bytes are those of the blocks since. */
  ghost predicate HoldsBlocksSince(c: Setup, r: Recorder, es: seq<Event>, j: nat)
    requires AllPossible(es) && j < |es|
  {
    StartedAt(c, r, es, j) && After(c, r, es).data == Joined(es[j + 1..])
  }

  /** Main result: after any sequence of presses and blocks, a recording in progress was started by one
      press, and holds exactly the blocks heard since, all of them, in order, within capacity. */
  lemma {:induction false} RecordingIsItsBlocks(c: Setup, r: Recorder, es: seq<Event>)
    requires AllPossible(es) && r.sink == NoSink && After(c, r, es).sink != NoSink
    ensures exists j :: 0 <= j < |es| && HoldsBlocksSince(c, r, es, j)
    ensures InRoom(c, After(c, r, es))
  {
    var n := |es| - 1;
    StepRecords(c, After(c, r, es[..n]), es[n]);
    if After(c, r, es[..n]).sink == NoSink {
      assert es[..n + 1] == es && es[n + 1..] == [];
      assert HoldsBlocksSince(c, r, es, n);
    } else {
      RecordingIsItsBlocks(c, r, es[..n]);
      var j :| 0 <= j < n && HoldsBlocksSince(c, r, es[..n], j);
      BlockExtends(c, r, es, j);
      assert HoldsBlocksSince(c, r, es, j);
    }
  }

  lemma StepDelivers(c: Setup, r: Recorder, e: Event)
    requires Possible(e) && InRoom(c, r) && r.sink != NoSink && Step(c, r, e).sink == NoSink
    ensures Delivers(c, r, e, r.data)
  {
    var tail := match e
      case Press(_, _) => []
      case Block(bytes, took, _) => if HasRoom(c, r, bytes) then bytes[..took] else [];
    if r.sink == OnCard {
      assert var t := Step(c, r, e);
             t.queued == r.queued || t.queued == r.queued[r.name := Clip(c.cardRate, c.cardChannels, r.data) + tail];
    }
  }

  /** Main result: when an event ends a recording, the clip it delivers is the header that counts those
      blocks, and the blocks; in memory always, on the card if the card does its part and the name is
      free. A last block the card took in part follows, uncounted. */
  lemma ClipIsItsBlocks(c: Setup, r: Recorder, es: seq<Event>, e: Event)
    requires AllPossible(es) && Possible(e) && r.sink == NoSink
    requires After(c, r, es).sink != NoSink && Step(c, After(c, r, es), e).sink == NoSink
    ensures exists j :: 0 <= j < |es| && StartedAt(c, r, es, j) && Delivers(c, After(c, r, es), e, Joined(es[j + 1..]))
  {
    RecordingIsItsBlocks(c, r, es);
    var j :| 0 <= j < |es| && HoldsBlocksSince(c, r, es, j);
    StepDelivers(c, After(c, r, es), e);
  }

  ghost predicate Delivers(c: Setup, r: Recorder, e: Event, data: Bytes)
    requires Possible(e)
  {
    var t := Step(c, r, e);
    var luck := match e case Press(_, stop) => stop case Block(_, _, luck) => luck;
    var done := r.sink == InMemory || (Commits(luck) && r.name !in r.queued);
    && t.clips == r.clips + (if done then 1 else 0)
    && (r.sink == InMemory ==>
          && t.slot == Some(Clip(c.memRate, c.memChannels, data)) && t.queued == r.queued
          && |Clip(c.memRate, c.memChannels, data)| <= c.memCapacity)
    && (r.sink == OnCard ==> t.slot == r.slot)
    && (r.sink == OnCard && !done ==> t.queued == r.queued)
    && (r.sink == OnCard && done ==>
          exists tail :: t.queued == r.queued[r.name := Clip(c.cardRate, c.cardChannels, data) + tail]
                         && (e.Press? ==> tail == [])
                         && (e.Block? ==> tail == if HasRoom(c, r, e.bytes) then e.bytes[..e.took] else []))
  }

  /** Every number from `next` on is free, and so is the one being recorded under. */
  ghost predicate NamesAhead(r: Recorder) {
    && r.next <= NUMBER_LIMIT
    && (forall n: nat :: r.next <= n < NUMBER_LIMIT ==> WavName(n) !in r.queued)
    && (r.sink == OnCard ==> r.name !in r.queued && exists n: nat :: n < r.next && r.name == WavName(n))
  }

  /** So the name is free whenever it was so at the start, and only the card's part is left. */
  lemma {:induction false} NamesStayFree(c: Setup, r: Recorder, es: seq<Event>)
    requires AllPossible(es) && NamesAhead(r) && r.next + |es| < NUMBER_LIMIT
    ensures NamesAhead(After(c, r, es)) && After(c, r, es).next <= r.next + |es|
  {
    if es != [] {
      NamesStayFree(c, r, es[..|es| - 1]);
      StepKeepsNamesFree(c, After(c, r, es[..|es| - 1]), es[|es| - 1]);
    }
  }

  lemma StepKeepsNamesFree(c: Setup, r: Recorder, e: Event)
    requires Possible(e) && NamesAhead(r) && r.next + 1 < NUMBER_LIMIT
    ensures NamesAhead(Step(c, r, e)) && Step(c, r, e).next <= r.next + 1
  {
    var t := Step(c, r, e);
    forall n: nat | t.next <= n < NUMBER_LIMIT ensures WavName(n) !in t.queued {
      if r.sink == OnCard {
        var m: nat :| m < r.next && r.name == WavName(m);
        NamesSortLikeNumbers(m, n);
      }
    }
  }

  /** The factory's memory sink is used again and again, but a closed one stays open: once it has made
      a clip, whatever happens after, no recording goes to memory, and the clip stays in its slot. */
  lemma {:induction false} MemorySinkIsSpent(c: Setup, r: Recorder, es: seq<Event>)
    requires AllPossible(es) && r.memOpen && r.sink != InMemory
    ensures var t := After(c, r, es); t.memOpen && t.sink != InMemory && t.slot == r.slot
    ensures var t := After(c, r, es);
            forall start: StartLuck, stop: CloseLuck :: t.sink == NoSink && !start.sdReady && start.took <= HEADER_BYTES ==>
              Pressed(c, t, start, stop) == t.(reason := Error)
  {
    if es != [] {
      MemorySinkIsSpent(c, r, es[..|es| - 1]);
    }
  }

  /** Main result: until a restart there is one memory clip. After the event that ends it, any presses,
      blocks and card recordings leave it waiting, and every press without a card is refused. */
  lemma OneMemoryClipPerBoot(c: Setup, r: Recorder, last: Event, es: seq<Event>, start: StartLuck, stop: CloseLuck)
    requires Possible(last) && AllPossible(es) && Possible(Press(start, stop)) && !start.sdReady
    requires r.sink == InMemory && r.memOpen && Step(c, r, last).sink == NoSink
    ensures var t := After(c, Step(c, r, last), es);
            && t.slot == Some(Clip(c.memRate, c.memChannels, r.data)) && t.sink != InMemory
            && (t.sink == NoSink ==> Step(c, t, Press(start, stop)) == t.(reason := Error))
  {
    MemorySinkIsSpent(c, Step(c, r, last), es);
  }
}

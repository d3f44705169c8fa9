/** The two places a clip is recorded to: memory, or a file on the SD card
    (firmware/esp32-recorder/src/audio/WavMemorySink.cpp, WavFileSink.cpp). */
module Sinks {
  import opened Strings
  import opened QueueNames
  import opened SdQueue
  import opened Wav

  /** A finished clip: a header that states n bytes, and those n bytes. */
  function Clip(sampleRate: nat, channels: nat, pcm: Bytes): Bytes {
    WavHeader(sampleRate, channels, |pcm|) + pcm
  }

  method EmptyHeader(sampleRate: nat, channels: nat) returns (header: array<Byte>)
    ensures fresh(header) && header[..] == WavHeader(sampleRate, channels, 0)
  {
    header := new Byte[HEADER_BYTES];
    WriteWavHeader(header, sampleRate, channels, 0);
  }

  // ---------------------------------------------------------------- memory

  datatype Memory = Memory(buf: Bytes, open: bool, closed: bool)

  class WavMemorySink {
    const sampleRate: nat
    const channels: nat
    const capacity: nat
    var buf: Bytes
    var open: bool
    var closed: bool

    function Contents(): Memory
      reads this
    {
      Memory(buf, open, closed)
    }

    constructor (sampleRate: nat, channels: nat, capacity: nat)
      ensures this.sampleRate == sampleRate && this.channels == channels && this.capacity == capacity
      ensures Contents() == Memory([], false, false)
    {
      this.sampleRate, this.channels, this.capacity := sampleRate, channels, capacity;
      buf, open, closed := [], false, false;
    }

    /** The PCM bytes of a clip being recorded. */
    function Pcm(): Bytes
      reads this
    {
      if |buf| >= HEADER_BYTES then buf[HEADER_BYTES..] else []
    }

    ghost predicate Valid()
      reads this
    {
      open && !closed ==>
        HEADER_BYTES <= |buf| <= capacity && buf == WavHeader(sampleRate, channels, 0) + Pcm()
    }

    method Open() returns (ok: bool)
      requires Valid()
      modifies this
      ensures Valid()
      ensures ok <==> !old(open) && capacity >= HEADER_BYTES
      ensures ok ==> open && !closed && Pcm() == []
      ensures !ok ==> Contents() == old(Contents())
    {
      if open {
        return false;
      }
      if capacity < HEADER_BYTES {
        return false;
      }
      var header := EmptyHeader(sampleRate, channels);
      buf := header[..];
      open, closed := true, false;
      assert buf == WavHeader(sampleRate, channels, 0) + [];
      return true;
    }

    method Write(bytes: Bytes) returns (ok: bool)
      requires Valid()
      modifies this`buf
      ensures Valid()
      ensures ok <==> open && !closed && |old(buf)| + |bytes| <= capacity
      ensures ok ==> Pcm() == old(Pcm()) + bytes && |buf| == |old(buf)| + |bytes|
      ensures !ok ==> buf == old(buf)
    {
      if !open || closed {
        return false;
      }
      if |buf| + |bytes| > capacity {
        return false;
      }
      ghost var pcm := Pcm();
      buf := buf + bytes;
      assert buf[HEADER_BYTES..] == pcm + bytes;
      return true;
    }

    /** Leaves `open` set. */
    method Close() returns (ok: bool)
      requires Valid()
      modifies this`buf, this`closed
      ensures Valid()
      ensures ok <==> open && !old(closed)
      ensures ok ==> closed && buf == Clip(sampleRate, channels, old(Pcm())) && |buf| <= capacity
      ensures !ok ==> Contents() == old(Contents())
    {
      if !open || closed {
        return false;
      }
      PatchingIsRewriting(sampleRate, channels, 0, |buf| - HEADER_BYTES, Pcm());
      buf := Patched(buf, |buf| - HEADER_BYTES);
      closed := true;
      return true;
    }

    method Discard()
      modifies this
      ensures Valid() && Contents() == Memory([], false, false)
    {
      buf, open, closed := [], false, false;
    }

    method TakeBytes() returns (bytes: Bytes)
      requires Valid() && (open ==> closed)
      modifies this`buf
      ensures Valid() && bytes == old(buf) && buf == []
    {
      bytes := buf;
      buf := [];
    }
  }

  // ---------------------------------------------------------------- file

  /** How the card answers while a file is closed: each seek, the bytes taken of each size field,
      the rename, and the removal when something failed. */
  datatype CloseLuck = CloseLuck(seek4: bool, took4: nat, seek40: bool, took40: nat, renames: bool, removes: bool)

  /** Seek to each size field and overwrite it. */
  method PatchSizes(writer: SdFileWriter, dataBytes: nat, luck: CloseLuck) returns (ok: bool)
    requires writer.Open() && |writer.queue.dir[writer.partialName]| >= HEADER_BYTES
    requires luck.took4 <= 4 && luck.took40 <= 4
    modifies writer`pos, writer.queue`dir
    ensures writer.Open()
    ensures ok <==> luck.seek4 && luck.took4 == 4 && luck.seek40 && luck.took40 == 4
    ensures ok ==> writer.queue.dir == old(writer.queue.dir)[writer.partialName :=
      Patched(old(writer.queue.dir)[writer.partialName], dataBytes)]
    ensures forall name :: name != writer.partialName ==>
      (name in writer.queue.dir <==> name in old(writer.queue.dir))
      && (name in writer.queue.dir ==> writer.queue.dir[name] == old(writer.queue.dir)[name])
    ensures !EndsWith(writer.partialName, ".wav") ==> Clips(writer.queue.dir) == Clips(old(writer.queue.dir))
  {
    ghost var content := writer.queue.dir[writer.partialName];
    var sizeField := new Byte[4];
    PutLe32(sizeField, 0, RiffChunkSize(dataBytes));
    ok := writer.SeekTo(4, luck.seek4);
    if !ok {
      return;
    }
    var took := writer.Write(sizeField[..], luck.took4);
    if took != 4 {
      return false;
    }
    assert sizeField[..][..4] == Le32(RiffChunkSize(dataBytes));
    PutLe32(sizeField, 0, dataBytes);
    ok := writer.SeekTo(40, luck.seek40);
    if !ok {
      return;
    }
    took := writer.Write(sizeField[..], luck.took40);
    if took != 4 {
      return false;
    }
    assert sizeField[..][..4] == Le32(dataBytes);
    WritingBothSizesPatches(content, dataBytes);
    return true;
  }

  class WavFileSink {
    const queue: Queue
    const sampleRate: nat
    const channels: nat
    const capacity: nat
    var writer: SdFileWriter?
    var total: nat
    var open: bool

    constructor (queue: Queue, sampleRate: nat, channels: nat, capacity: nat)
      ensures this.queue == queue && this.sampleRate == sampleRate
      ensures this.channels == channels && this.capacity == capacity
      ensures writer == null && !open && total == 0
    {
      this.queue, this.sampleRate, this.channels, this.capacity := queue, sampleRate, channels, capacity;
      writer, open, total := null, false, 0;
    }

    /** While recording, the partial file starts with a header and is written at its end. */
    ghost predicate Valid()
      reads this, queue, writer
    {
      && (open <==> writer != null)
      && (writer != null ==>
            && !EndsWith(writer.partialName, ".wav") && EndsWith(writer.finalName, ".wav")
            && writer.queue == queue && writer.Open()
            && writer.pos == |Content()| >= total >= HEADER_BYTES
            && Content()[..HEADER_BYTES] == WavHeader(sampleRate, channels, 0))
    }

    /** The bytes of the partial file. */
    ghost function Content(): Bytes
      requires writer != null && writer.queue == queue && writer.partialName in queue.dir
      reads this, queue, writer
    {
      queue.dir[writer.partialName]
    }

    /** What follows the header. */
    ghost function Body(): Bytes
      requires Valid() && writer != null
      reads this, queue, writer
    {
      Content()[HEADER_BYTES..]
    }

    method Open(full: bool, opens: bool, took: nat, removes: bool) returns (ok: bool)
      requires Valid() && queue.nextN < NUMBER_LIMIT - 1 && took <= HEADER_BYTES
      modifies this, queue
      ensures Valid()
      ensures ok <==> !old(open) && old(queue.ready) && !full && opens && took == HEADER_BYTES
      ensures ok ==> open && fresh(writer) && total == HEADER_BYTES && Body() == []
      ensures ok ==> writer.finalName == WavName(old(queue.nextN)) && writer.partialName == PartialName(old(queue.nextN))
      ensures old(open) ==> writer == old(writer) && open
      ensures !old(open) && !ok ==> !open
      ensures old(open) ==> queue.dir == old(queue.dir) && queue.Contents() == old(queue.Contents())
      ensures Clips(queue.dir) == Clips(old(queue.dir)) && queue.ready == old(queue.ready)
      ensures queue.nextN == old(queue.nextN) + if !old(open) && queue.ready && !full && opens then 1 else 0
    {
      if open {
        return false;
      }
      writer := queue.OpenWriter(full, opens);
      if writer == null {
        return false;
      }
      var header := EmptyHeader(sampleRate, channels);
      var written := writer.Write(header[..], took);
      if written != HEADER_BYTES {
        writer.Abort(removes);
        writer := null;
        return false;
      }
      assert header[..][..took] == WavHeader(sampleRate, channels, 0);
      total := HEADER_BYTES;
      open := true;
      return true;
    }

    /** The card takes the first `took` bytes. A refusal for lack of room writes nothing; a short
        write leaves its bytes in the file without counting them. */
    method Write(bytes: Bytes, took: nat) returns (ok: bool)
      requires Valid() && took <= |bytes|
      modifies this`total, writer, queue`dir
      ensures Valid() && writer == old(writer) && open == old(open)
      ensures ok <==> open && old(total) + |bytes| <= capacity && took == |bytes|
      ensures total == if ok then old(total) + |bytes| else old(total)
      ensures open ==> Body() == old(Body()) + if old(total) + |bytes| <= capacity then bytes[..took] else []
      ensures forall name :: open && name != writer.partialName ==>
        (name in queue.dir <==> name in old(queue.dir)) && (name in queue.dir ==> queue.dir[name] == old(queue.dir)[name])
      ensures Clips(queue.dir) == Clips(old(queue.dir))
    {
      if !open || writer == null {
        return false;
      }
      ghost var before := Content();
      if total + |bytes| > capacity {
        assert Body() + [] == Body();
        return false;
      }
      var written := writer.Write(bytes, took);
      assert Content() == before + bytes[..took];
      assert Content()[HEADER_BYTES..] == before[HEADER_BYTES..] + bytes[..took];
      if written != |bytes| {
        return false;
      }
      total := total + |bytes|;
      return true;
    }

    /** Patch the sizes and commit. On success the final file is the counted header followed by
        everything that was physically written. */
    method Close(luck: CloseLuck) returns (ok: bool)
      requires Valid() && luck.took4 <= 4 && luck.took40 <= 4
      modifies this, writer, queue`dir
      ensures Valid() && !open && total == old(total)
      ensures ok <==> && old(open) && luck.seek4 && luck.took4 == 4 && luck.seek40 && luck.took40 == 4
                      && luck.renames && old(writer.finalName) !in old(queue.dir)
      ensures ok ==> && old(writer.finalName) in queue.dir
                     && queue.dir[old(writer.finalName)]
                        == WavHeader(sampleRate, channels, old(total) - HEADER_BYTES) + old(Body())
      ensures Clips(queue.dir) == if ok
        then Clips(old(queue.dir))[old(writer.finalName) :=
               WavHeader(sampleRate, channels, old(total) - HEADER_BYTES) + old(Body())]
        else Clips(old(queue.dir))
    {
      if !open || writer == null {
        return false;
      }
      open := false;
      var dataBytes := total - HEADER_BYTES;
      ghost var content := Content();
      ghost var body := content[HEADER_BYTES..];
      assert content == WavHeader(sampleRate, channels, 0) + body;
      ok := PatchSizes(writer, dataBytes, luck);
      if !ok {
        writer.Abort(luck.removes);
        writer := null;
        return false;
      }
      PatchingIsRewriting(sampleRate, channels, 0, dataBytes, body);
      ok := writer.Commit(luck.renames, luck.removes);
      writer := null;
    }

    method Discard(removes: bool)
      requires Valid()
      modifies this, writer, queue`dir
      ensures Valid() && !open && total == 0
      ensures old(writer) == null ==> queue.dir == old(queue.dir)
      ensures Clips(queue.dir) == Clips(old(queue.dir))
    {
      if writer != null {
        writer.Abort(removes);
        writer := null;
      }
      open := false;
      total := 0;
    }
  }
}

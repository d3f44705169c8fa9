/** Provisioning over BLE: the sender cuts a payload into 20-byte frames
    (ui/src-tauri/src/ble.rs), the recorder puts it together again
    (firmware/esp32-recorder/src/provisioning/ProvisioningProtocol.cpp). */
module Framing {
  import opened Wrappers

  type Byte = n: int | 0 <= n < 256
  type Frame = seq<Byte>

  const FRAME_VERSION := 1
  const HEADER_BYTES := 6
  const FRAME_MAX_BYTES := 20
  const DATA_MAX_BYTES := 14
  const MAX_PAYLOAD_BYTES := 4096
  const U16_MAX := 65535

  // ---------------------------------------------------------------- sender

  datatype SendError = EmptyPayload | TooManyFrames

  function DivCeil(n: nat, d: nat): nat
    requires d > 0
  {
    (n + d - 1) / d
  }

  function FrameCount(payload: seq<Byte>): nat {
    DivCeil(|payload|, DATA_MAX_BYTES)
  }

  function Chunk(payload: seq<Byte>, i: nat): seq<Byte>
    requires i < FrameCount(payload)
  {
    var from := DATA_MAX_BYTES * i;
    var to := from + DATA_MAX_BYTES;
    if to <= |payload| then payload[from..to] else payload[from..]
  }

  function FrameOf(payload: seq<Byte>, i: nat): Frame
    requires i < FrameCount(payload) <= U16_MAX
  {
    var total := FrameCount(payload);
    [FRAME_VERSION, i / 256, i % 256, total / 256, total % 256, |Chunk(payload, i)|] + Chunk(payload, i)
  }

  function ProvisionFrames(payload: seq<Byte>): Result<seq<Frame>, SendError> {
    if payload == [] then Failure(EmptyPayload)
    else if FrameCount(payload) > U16_MAX then Failure(TooManyFrames)
    else Success(seq(FrameCount(payload), i requires 0 <= i < FrameCount(payload) => FrameOf(payload, i)))
  }

  // ---------------------------------------------------------------- receiver

  datatype Refusal =
    | TooShort | TooLarge | BadVersion | ZeroTotal | PayloadTooLarge | LengthMismatch
    | OutOfRange | TotalChanged | Duplicate

  datatype Receiver = Receiver(total: nat, received: nat, chunks: seq<seq<Byte>>, seen: seq<bool>,
                               payload: seq<Byte>, error: Option<Refusal>)

  const FRESH := Receiver(0, 0, [], [], [], None)

  ghost predicate Sized(r: Receiver) {
    |r.chunks| == |r.seen| == r.total
  }

  predicate IsComplete(r: Receiver) {
    r.total > 0 && r.received == r.total && r.error == None
  }

  function Join(chunks: seq<seq<Byte>>): seq<Byte> {
    if chunks == [] then [] else Join(chunks[..|chunks| - 1]) + chunks[|chunks| - 1]
  }

  function Seq(frame: Frame): nat
    requires |frame| >= HEADER_BYTES
  {
    (frame[1] as int) * 256 + frame[2]
  }

  function Total(frame: Frame): nat
    requires |frame| >= HEADER_BYTES
  {
    (frame[3] as int) * 256 + frame[4]
  }

  /** Why a frame is refused, before the reassembler's own state is looked at. */
  function RefuseFrame(frame: Frame): Option<Refusal> {
    if |frame| < HEADER_BYTES then Some(TooShort)
    else if |frame| > FRAME_MAX_BYTES then Some(TooLarge)
    else if frame[0] != FRAME_VERSION then Some(BadVersion)
    else if Total(frame) == 0 then Some(ZeroTotal)
    else if Total(frame) * DATA_MAX_BYTES > MAX_PAYLOAD_BYTES then Some(PayloadTooLarge)
    else if frame[5] > DATA_MAX_BYTES || |frame| != HEADER_BYTES + frame[5] then Some(LengthMismatch)
    else if Seq(frame) >= Total(frame) then Some(OutOfRange)
    else None
  }

  /** The first good frame fixes the total. */
  function Announce(r: Receiver, total: nat): Receiver {
    if r.total == 0
    then r.(total := total, chunks := seq(total, _ => []), seen := seq(total, _ => false))
    else r
  }

  function Store(r: Receiver, i: nat, data: seq<Byte>): Receiver
    requires Sized(r) && i < r.total
  {
    var stored := r.(chunks := r.chunks[i := data], seen := r.seen[i := true], received := r.received + 1);
    if stored.received == stored.total then stored.(payload := Join(stored.chunks)) else stored
  }

  function Accepted(r: Receiver, frame: Frame): Receiver
    requires Sized(r)
  {
    if r.error.Some? || IsComplete(r) then r
    else
      match RefuseFrame(frame)
      case Some(e) => r.(error := Some(e))
      case None =>
        var a := Announce(r, Total(frame));
        if a.total != Total(frame) then a.(error := Some(TotalChanged))
        else if a.seen[Seq(frame)] then a.(error := Some(Duplicate))
        else Store(a, Seq(frame), frame[HEADER_BYTES..])
  }

  /** Which frames a receiver takes: of version 1, as long as they say, of a payload of at most 292
      frames, the total it has seen before if any, and a number below it that it has not had. */
  ghost predicate MayTake(r: Receiver, f: Frame)
    requires Sized(r)
  {
    && 6 <= |f| <= 20 && f[0] == 1 && |f| == 6 + f[5] as int
    && var number, total := 256 * f[1] as int + f[2], 256 * f[3] as int + f[4];
       && number < total <= 292
       && (r.total != 0 ==> total == r.total && !r.seen[number])
  }

  class FrameReassembler {
    var total: nat
    var received: nat
    var chunks: seq<seq<Byte>>
    var seen: seq<bool>
    var payload: seq<Byte>
    var error: Option<Refusal>

    function State(): Receiver
      reads this
    {
      Receiver(total, received, chunks, seen, payload, error)
    }

    constructor ()
      ensures State() == FRESH
    {
      total, received, chunks, seen, payload, error := 0, 0, [], [], [], None;
    }

    predicate Complete()
      reads this
    {
      total > 0 && received == total && error == None
    }

    method Reset()
      modifies this
      ensures State() == FRESH
    {
      total, received, chunks, seen, payload, error := 0, 0, [], [], [], None;
    }

    method Fail(why: Refusal) returns (done: bool)
      modifies this`error
      ensures error == Some(why) && !done
    {
      error := Some(why);
      done := false;
    }

    method Accept(frame: Frame) returns (done: bool)
      requires Sized(State())
      modifies this
      ensures State() == Accepted(old(State()), frame) && Sized(State())
      ensures done <==> !old(Complete()) && Complete()
      ensures old(error).None? && !old(Complete()) ==> (error.None? <==> MayTake(old(State()), frame))
      ensures !(old(error).None? && !old(Complete())) ==> State() == old(State())
    {
      if error.Some? || Complete() {
        return false;
      }
      if |frame| < HEADER_BYTES {
        done := Fail(TooShort);
        return;
      }
      if |frame| > FRAME_MAX_BYTES {
        done := Fail(TooLarge);
        return;
      }
      if frame[0] != FRAME_VERSION {
        done := Fail(BadVersion);
        return;
      }
      var i := (frame[1] as int) * 256 + frame[2];
      var n := (frame[3] as int) * 256 + frame[4];
      var len := frame[5];
      if n == 0 {
        done := Fail(ZeroTotal);
        return;
      }
      if n * DATA_MAX_BYTES > MAX_PAYLOAD_BYTES {
        done := Fail(PayloadTooLarge);
        return;
      }
      if len > DATA_MAX_BYTES || |frame| != HEADER_BYTES + len {
        done := Fail(LengthMismatch);
        return;
      }
      if i >= n {
        done := Fail(OutOfRange);
        return;
      }
      if total == 0 {
        total, chunks, seen := n, seq(n, _ => []), seq(n, _ => false);
      } else if n != total {
        done := Fail(TotalChanged);
        return;
      }
      if seen[i] {
        done := Fail(Duplicate);
        return;
      }
      chunks := chunks[i := frame[HEADER_BYTES..]];
      seen := seen[i := true];
      received := received + 1;
      if received == total {
        Assemble();
        return true;
      }
      return false;
    }

    method Assemble()
      modifies this`payload
      ensures payload == Join(chunks)
    {
      payload := [];
      for k := 0 to |chunks|
        invariant payload == Join(chunks[..k])
      {
        assert chunks[..k + 1][..k] == chunks[..k];
        payload := payload + chunks[k];
      }
      assert chunks[..|chunks|] == chunks;
    }
  }

  // ---------------------------------------------------------------- frames survive the trip

  /** A sender's frame passes the frame checks exactly when its total fits the receiver's limit. */
  lemma FrameIsWellFormed(payload: seq<Byte>, i: nat)
    requires i < FrameCount(payload) <= U16_MAX
    ensures var f := FrameOf(payload, i);
            && |f| == HEADER_BYTES + |Chunk(payload, i)| <= FRAME_MAX_BYTES
            && Seq(f) == i && Total(f) == FrameCount(payload)
            && f[0] == 1 && 256 * f[1] as int + f[2] == i && f[5] == |Chunk(payload, i)|
            && 14 * (256 * f[3] as int + f[4] - 1) < |payload| <= 14 * (256 * f[3] as int + f[4])
            && (i + 1 < FrameCount(payload) ==> f[5] == 14)
            && f[HEADER_BYTES..] == Chunk(payload, i)
            && RefuseFrame(f) == if |payload| <= 4088 then None else Some(PayloadTooLarge)
  {
    var f := FrameOf(payload, i);
    assert f[HEADER_BYTES..] == Chunk(payload, i);
    assert FrameCount(payload) * DATA_MAX_BYTES <= MAX_PAYLOAD_BYTES <==> |payload| <= 4088;
  }

  /** The chunks in order are the payload. */
  lemma {:induction false} ChunksJoin(payload: seq<Byte>, chunks: seq<seq<Byte>>)
    requires |chunks| <= FrameCount(payload)
    requires forall i :: 0 <= i < |chunks| ==> chunks[i] == Chunk(payload, i)
    ensures Join(chunks) ==
            if DATA_MAX_BYTES * |chunks| <= |payload| then payload[..DATA_MAX_BYTES * |chunks|] else payload
  {
    if chunks != [] {
      var n := |chunks| - 1;
      ChunksJoin(payload, chunks[..n]);
      var from := 14 * n;
      assert Join(chunks[..n]) == payload[..from];
      assert chunks[n] == Chunk(payload, n);
      if from + 14 <= |payload| {
        assert payload[..from] + payload[from..from + 14] == payload[..from + 14];
      } else {
        assert payload[..from] + payload[from..] == payload;
      }
    }
  }

  lemma {:induction false} FullSet(got: set<nat>, n: nat)
    requires forall i :: i in got ==> i < n
    ensures |got| <= n
    ensures |got| == n <==> forall i: nat :: i < n ==> i in got
    decreases n
  {
    if n > 0 {
      FullSet(got - {n - 1}, n - 1);
      if n - 1 in got {
        assert got == (got - {n - 1}) + {n - 1};
      } else {
        assert got - {n - 1} == got;
      }
    }
  }

  /** The receiver's slots after the frames `got` of one payload, whatever their order. */
  ghost predicate Slots(r: Receiver, payload: seq<Byte>, got: set<nat>) {
    && r.total == FrameCount(payload)
    && |r.chunks| == |r.seen| == r.total
    && (forall i :: 0 <= i < r.total ==> (r.seen[i] <==> i in got))
    && (forall i :: 0 <= i < r.total && i in got ==> r.chunks[i] == Chunk(payload, i))
  }

  ghost predicate Holds(r: Receiver, payload: seq<Byte>, got: set<nat>) {
    && Sized(r) && r.error == None && r.received == |got|
    && (forall i :: i in got ==> i < FrameCount(payload))
    && (if got == {} then r == FRESH else Slots(r, payload, got))
    && (IsComplete(r) ==> r.payload == payload)
  }

  lemma StoreFillsSlot(a: Receiver, payload: seq<Byte>, got: set<nat>, i: nat)
    requires Slots(a, payload, got) && i < FrameCount(payload) && i !in got
    requires a.received == |got| && a.error == None && FrameCount(payload) > 0
    requires forall j :: j in got ==> j < FrameCount(payload)
    ensures var s := Store(a, i, Chunk(payload, i));
            && Slots(s, payload, got + {i}) && s.received == |got + {i}| && s.error == None
            && (IsComplete(s) <==> |got| + 1 == FrameCount(payload))
            && (IsComplete(s) ==> s.payload == payload)
  {
    var s := Store(a, i, Chunk(payload, i));
    if s.received == s.total {
      FullSet(got + {i}, s.total);
      ChunksJoin(payload, s.chunks);
    }
  }

  /** One more frame of the same payload. */
  lemma AcceptKeepsHolding(r: Receiver, payload: seq<Byte>, got: set<nat>, i: nat)
    requires 0 < |payload| <= 4088 && i < FrameCount(payload) && i !in got
    requires Holds(r, payload, got)
    ensures FrameCount(payload) <= U16_MAX
    ensures Holds(Accepted(r, FrameOf(payload, i)), payload, got + {i})
    ensures IsComplete(Accepted(r, FrameOf(payload, i))) <==> |got| + 1 == FrameCount(payload)
  {
    var n := FrameCount(payload);
    FrameIsWellFormed(payload, i);
    FullSet(got, n);
    var a := Announce(r, n);
    assert Slots(a, payload, got);
    StoreFillsSlot(a, payload, got, i);
    assert Accepted(r, FrameOf(payload, i)) == Store(a, i, Chunk(payload, i));
  }

  function AcceptAll(r: Receiver, frames: seq<Frame>): Receiver
    requires Sized(r)
    ensures Sized(AcceptAll(r, frames))
  {
    if frames == [] then r
    else Accepted(AcceptAll(r, frames[..|frames| - 1]), frames[|frames| - 1])
  }

  /** Frame numbers in some order, none twice. */
  ghost predicate NoRepeats(order: seq<nat>, n: nat) {
    && (forall i :: 0 <= i < |order| ==> order[i] < n)
    && forall i, j :: 0 <= i < j < |order| ==> order[i] != order[j]
  }

  function FramesIn(payload: seq<Byte>, order: seq<nat>): seq<Frame>
    requires FrameCount(payload) <= U16_MAX && forall i :: 0 <= i < |order| ==> order[i] < FrameCount(payload)
  {
    seq(|order|, i requires 0 <= i < |order| => FrameOf(payload, order[i]))
  }

  lemma FramesInStep(payload: seq<Byte>, order: seq<nat>)
    requires order != [] && FrameCount(payload) <= U16_MAX
    requires forall i :: 0 <= i < |order| ==> order[i] < FrameCount(payload)
    ensures AcceptAll(FRESH, FramesIn(payload, order))
         == Accepted(AcceptAll(FRESH, FramesIn(payload, order[..|order| - 1])), FrameOf(payload, order[|order| - 1]))
  {
    assert FramesIn(payload, order)[..|order| - 1] == FramesIn(payload, order[..|order| - 1]);
  }

  function Numbers(order: seq<nat>): set<nat> {
    set x | x in order
  }

  lemma NumbersStep(order: seq<nat>, n: nat)
    requires NoRepeats(order, n) && order != []
    ensures NoRepeats(order[..|order| - 1], n)
    ensures order[|order| - 1] !in Numbers(order[..|order| - 1])
    ensures Numbers(order) == Numbers(order[..|order| - 1]) + {order[|order| - 1]}
  {
    assert order == order[..|order| - 1] + [order[|order| - 1]];
  }

  lemma {:induction false} NumbersCount(order: seq<nat>, n: nat)
    requires NoRepeats(order, n)
    ensures |Numbers(order)| == |order|
  {
    if order != [] {
      var front, last := order[..|order| - 1], order[|order| - 1];
      NumbersCount(front, n);
      NumbersStep(order, n);
    } else {
      assert Numbers(order) == {};
    }
  }

  lemma SmallFrameCount(payload: seq<Byte>)
    requires 0 < |payload| <= 4088
    ensures 0 < FrameCount(payload) <= 292
  {
  }

  lemma {:induction false} PrefixHolds(payload: seq<Byte>, order: seq<nat>)
    requires 0 < |payload| <= 4088 && NoRepeats(order, FrameCount(payload)) && FrameCount(payload) <= U16_MAX
    ensures Holds(AcceptAll(FRESH, FramesIn(payload, order)), payload, Numbers(order))
  {
    if order == [] {
      assert Numbers(order) == {};
    } else {
      var front, last := order[..|order| - 1], order[|order| - 1];
      PrefixHolds(payload, front);
      NumbersStep(order, FrameCount(payload));
      var r := AcceptAll(FRESH, FramesIn(payload, front));
      AcceptKeepsHolding(r, payload, Numbers(front), last);
      FramesInStep(payload, order);
    }
  }

  /** Main result: in any order of its frames a payload of up to 4088 bytes completes exactly with
      its last frame, and what comes out is the payload. */
  lemma AnyOrderReassembles(payload: seq<Byte>, order: seq<nat>, k: nat)
    requires 0 < |payload| <= 4088
    requires NoRepeats(order, FrameCount(payload)) && |order| == FrameCount(payload) && k <= |order|
    ensures FrameCount(payload) <= U16_MAX
    ensures ProvisionFrames(payload).Success?
    ensures var r := AcceptAll(FRESH, FramesIn(payload, order[..k]));
            && r.error == None
            && (IsComplete(r) <==> k == |order|)
            && (k == |order| ==> r.payload == payload)
  {
    SmallFrameCount(payload);
    PrefixHolds(payload, order[..k]);
    NumbersCount(order[..k], FrameCount(payload));
    assert k > 0 ==> order[0] in Numbers(order[..k]);
  }

  /** What the sender accepts: anything that is not empty and fits 65535 frames of 14 bytes. */
  lemma SenderAccepts(payload: seq<Byte>)
    ensures ProvisionFrames(payload).Success? <==> 0 < |payload| <= 14 * 65535
    ensures ProvisionFrames(payload).Failure? ==>
              ProvisionFrames(payload).error == if payload == [] then EmptyPayload else TooManyFrames
    ensures ProvisionFrames(payload).Success? ==>
              && 14 * (|ProvisionFrames(payload).value| - 1) < |payload| <= 14 * |ProvisionFrames(payload).value|
              && forall i :: 0 <= i < |ProvisionFrames(payload).value| ==>
                   i < FrameCount(payload) <= U16_MAX && ProvisionFrames(payload).value[i] == FrameOf(payload, i)
  {
  }

  /** A longer payload that the sender accepts is refused at its first frame, whichever that is,
      and nothing after it is taken. */
  lemma LongPayloadIsRefused(payload: seq<Byte>, first: nat, more: seq<Frame>)
    requires |payload| > 4088 && ProvisionFrames(payload).Success?
    requires first < FrameCount(payload)
    ensures var r := AcceptAll(FRESH, [ProvisionFrames(payload).value[first]] + more);
            r.error == Some(PayloadTooLarge) && !IsComplete(r) && r.payload == []
    decreases |more|
  {
    FrameIsWellFormed(payload, first);
    var frames := [ProvisionFrames(payload).value[first]] + more;
    if more == [] {
      assert frames[..|frames| - 1] == [];
    } else {
      var front := more[..|more| - 1];
      assert frames[..|frames| - 1] == [ProvisionFrames(payload).value[first]] + front;
      LongPayloadIsRefused(payload, first, front);
    }
  }

  ghost predicate CarriesChunk(f: Frame, total: nat, i: nat, data: seq<Byte>) {
    RefuseFrame(f) == None && Total(f) == total && Seq(f) == i && f[HEADER_BYTES..] == data
  }

  function SeenIn(r: Receiver): set<nat> {
    set i: nat | i < |r.seen| && r.seen[i]
  }

  /** Every filled slot came from a frame with that number and the same total. */
  ghost predicate Backed(r: Receiver, frames: seq<Frame>) {
    && Sized(r) && r.received == |SeenIn(r)|
    && (forall i :: i in SeenIn(r) ==> exists f :: f in frames && CarriesChunk(f, r.total, i, r.chunks[i]))
    && (IsComplete(r) ==> r.payload == Join(r.chunks))
  }

  lemma StoreSees(a: Receiver, i: nat, data: seq<Byte>)
    requires Sized(a) && i < |a.seen| && !a.seen[i]
    ensures SeenIn(Store(a, i, data)) == SeenIn(a) + {i}
    ensures |SeenIn(Store(a, i, data))| == |SeenIn(a)| + 1
  {
    assert i !in SeenIn(a);
    assert SeenIn(Store(a, i, data)) == SeenIn(a) + {i};
  }

  lemma StoreIsBacked(a: Receiver, f: Frame, frames: seq<Frame>)
    requires f in frames && Backed(a, frames) && RefuseFrame(f) == None
    requires a.total == Total(f) && !a.seen[Seq(f)]
    ensures Backed(Store(a, Seq(f), f[HEADER_BYTES..]), frames)
  {
    var s := Store(a, Seq(f), f[HEADER_BYTES..]);
    StoreSees(a, Seq(f), f[HEADER_BYTES..]);
    forall i | i in SeenIn(s) ensures exists g :: g in frames && CarriesChunk(g, s.total, i, s.chunks[i]) {
      if i == Seq(f) {
        assert CarriesChunk(f, s.total, i, s.chunks[i]);
      } else {
        assert i in SeenIn(a);
      }
    }
  }

  lemma AnnounceIsBacked(r: Receiver, total: nat, frames: seq<Frame>)
    requires Backed(r, frames) && total > 0
    ensures Backed(Announce(r, total), frames)
  {
    if r.total == 0 {
      assert SeenIn(r) == {} == SeenIn(Announce(r, total));
    }
  }

  lemma {:induction false} ReceiverIsBacked(frames: seq<Frame>)
    ensures Backed(AcceptAll(FRESH, frames), frames)
  {
    if frames == [] {
      assert SeenIn(FRESH) == {};
    } else {
      var n := |frames| - 1;
      ReceiverIsBacked(frames[..n]);
      var r, f := AcceptAll(FRESH, frames[..n]), frames[n];
      assert Backed(r, frames) by {
        forall i | i in SeenIn(r) ensures exists g :: g in frames && CarriesChunk(g, r.total, i, r.chunks[i]) {
          var g :| g in frames[..n] && CarriesChunk(g, r.total, i, r.chunks[i]);
          assert g in frames;
        }
      }
      assert SeenIn(r.(error := Some(Duplicate))) == SeenIn(r);
      var s := Accepted(r, f);
      if r.error.None? && !IsComplete(r) {
        if RefuseFrame(f) == None {
          var a := Announce(r, Total(f));
          AnnounceIsBacked(r, Total(f), frames);
          if a.total == Total(f) && !a.seen[Seq(f)] {
            StoreIsBacked(a, f, frames);
          } else {
            assert SeenIn(s) == SeenIn(a);
          }
        } else {
          assert SeenIn(s) == SeenIn(r);
        }
      }
    }
  }

  /** Safety for arbitrary frames from any sender: a completed payload is the concatenation, by
      number, of one frame each, all of which announced the same total. */
  lemma CompletionIsBacked(frames: seq<Frame>)
    requires IsComplete(AcceptAll(FRESH, frames))
    ensures var r := AcceptAll(FRESH, frames);
            && r.payload == Join(r.chunks) && |r.chunks| == r.total
            && forall i :: 0 <= i < r.total ==>
                 exists f :: f in frames && CarriesChunk(f, r.total, i, r.chunks[i])
  {
    ReceiverIsBacked(frames);
    var r := AcceptAll(FRESH, frames);
    FullSet(SeenIn(r), r.total);
    assert forall i: nat :: i < r.total ==> i in SeenIn(r);
  }
}

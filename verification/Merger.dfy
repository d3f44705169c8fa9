/** Assigning speakers to segments (speechtotext/merger.py). */
module Merger {
  import opened Sorting

  datatype Segment = Segment(start: real, end: real, text: string)

  datatype SpeakerTurn = SpeakerTurn(start: real, end: real, speaker: string)

  datatype LabeledSegment = LabeledSegment(start: real, end: real, text: string, speaker: string)

  const MIN_OVERLAP_SECONDS := 0.050
  const UNKNOWN := "UNKNOWN"

  function MinReal(a: real, b: real): real {
    if a <= b then a else b
  }

  function MaxReal(a: real, b: real): real {
    if a >= b then a else b
  }

  function Overlap(aStart: real, aEnd: real, bStart: real, bEnd: real): real {
    MaxReal(0.0, MinReal(aEnd, bEnd) - MaxReal(aStart, bStart))
  }

  function OverlapOf(seg: Segment, turn: SpeakerTurn): real {
    Overlap(seg.start, seg.end, turn.start, turn.end)
  }

  function Starts(turns: seq<SpeakerTurn>): (keys: seq<real>)
    ensures |keys| == |turns| && forall i :: 0 <= i < |turns| ==> keys[i] == turns[i].start
  {
    seq(|turns|, i requires 0 <= i < |turns| => turns[i].start)
  }

  // ---------------------------------------------------------------- what an overlap is

  predicate During(t: real, start: real, end: real) {
    start <= t <= end
  }

  /** The times in both intervals are those from lo to hi. */
  ghost predicate IsShared(aStart: real, aEnd: real, bStart: real, bEnd: real, lo: real, hi: real) {
    lo <= hi && forall t :: During(t, lo, hi) <==> During(t, aStart, aEnd) && During(t, bStart, bEnd)
  }

  /** How long two intervals last together: not at all if no time is in both. */
  ghost predicate LastsTogether(aStart: real, aEnd: real, bStart: real, bEnd: real, length: real) {
    if exists t :: During(t, aStart, aEnd) && During(t, bStart, bEnd)
    then exists lo, hi :: IsShared(aStart, aEnd, bStart, bEnd, lo, hi) && length == hi - lo
    else length == 0.0
  }

  lemma OneLength(aStart: real, aEnd: real, bStart: real, bEnd: real, x: real, y: real)
    requires LastsTogether(aStart, aEnd, bStart, bEnd, x) && LastsTogether(aStart, aEnd, bStart, bEnd, y)
    ensures x == y
  {
    if exists t :: During(t, aStart, aEnd) && During(t, bStart, bEnd) {
      var lo, hi :| IsShared(aStart, aEnd, bStart, bEnd, lo, hi) && x == hi - lo;
      var from, to :| IsShared(aStart, aEnd, bStart, bEnd, from, to) && y == to - from;
      assert During(lo, lo, hi) && During(hi, lo, hi) && During(from, from, to) && During(to, from, to);
      assert During(lo, from, to) && During(hi, from, to) && During(from, lo, hi) && During(to, lo, hi);
    }
  }

  /** The formula gives that length, for any four times. */
  lemma OverlapLastsTogether(aStart: real, aEnd: real, bStart: real, bEnd: real)
    ensures LastsTogether(aStart, aEnd, bStart, bEnd, Overlap(aStart, aEnd, bStart, bEnd))
  {
    var lo, hi := MaxReal(aStart, bStart), MinReal(aEnd, bEnd);
    if lo <= hi {
      assert During(lo, aStart, aEnd) && During(lo, bStart, bEnd);
      assert IsShared(aStart, aEnd, bStart, bEnd, lo, hi);
    }
  }

  /** How long a segment and a turn last together. */
  ghost function Together(seg: Segment, turn: SpeakerTurn): (length: real)
    ensures LastsTogether(seg.start, seg.end, turn.start, turn.end, length)
  {
    OverlapLastsTogether(seg.start, seg.end, turn.start, turn.end);
    var length :| LastsTogether(seg.start, seg.end, turn.start, turn.end, length);
    length
  }

  lemma OverlapIsTogether(seg: Segment, turn: SpeakerTurn)
    ensures OverlapOf(seg, turn) == Together(seg, turn)
  {
    OverlapLastsTogether(seg.start, seg.end, turn.start, turn.end);
    OneLength(seg.start, seg.end, turn.start, turn.end, OverlapOf(seg, turn), Together(seg, turn));
  }

  // ---------------------------------------------------------------- the quadratic specification

  /** Of all turns, turn t lasts longest together with the segment, and starts first or is listed
      first among equals. */
  ghost predicate IsBest(turns: seq<SpeakerTurn>, seg: Segment, t: nat)
    requires t < |turns|
  {
    forall u: nat :: u < |turns| && u != t ==>
      || Together(seg, turns[u]) < Together(seg, turns[t])
      || (Together(seg, turns[u]) == Together(seg, turns[t])
          && (turns[t].start < turns[u].start || (turns[t].start == turns[u].start && t < u)))
  }

  /** The label the specification demands for one segment. */
  ghost predicate IsLabel(turns: seq<SpeakerTurn>, seg: Segment, out: LabeledSegment) {
    && out.start == seg.start && out.end == seg.end && out.text == seg.text
    && (if forall u :: 0 <= u < |turns| ==> Together(seg, turns[u]) < 0.05
        then out.speaker == "UNKNOWN"
        else exists t: nat :: t < |turns| && IsBest(turns, seg, t) && out.speaker == turns[t].speaker)
  }

  /** The specification determines the label. */
  lemma LabelIsUnique(turns: seq<SpeakerTurn>, seg: Segment, a: LabeledSegment, b: LabeledSegment)
    requires IsLabel(turns, seg, a) && IsLabel(turns, seg, b)
    ensures a == b
  {
    if exists u :: 0 <= u < |turns| && Together(seg, turns[u]) >= 0.05 {
      var t: nat :| t < |turns| && IsBest(turns, seg, t) && a.speaker == turns[t].speaker;
      var v: nat :| v < |turns| && IsBest(turns, seg, v) && b.speaker == turns[v].speaker;
      if t != v {
        assert false;
      }
    }
  }

  // ---------------------------------------------------------------- sorted turns

  /** `sorted` holds the turns in the stable order `order`. */
  ghost predicate SortedAs(sorted: seq<SpeakerTurn>, turns: seq<SpeakerTurn>, order: seq<nat>) {
    && IsOrder(order, Starts(turns))
    && |sorted| == |order|
    && forall i :: 0 <= i < |order| ==> sorted[i] == turns[order[i]]
  }

  /** What the scan over the first k sorted turns has found. */
  ghost predicate BestUpTo(sorted: seq<SpeakerTurn>, seg: Segment, k: nat, overlap: real, id: string)
    requires k <= |sorted|
  {
    && (forall m :: 0 <= m < k ==> OverlapOf(seg, sorted[m]) <= overlap)
    && overlap >= 0.0
    && (overlap > 0.0 ==> exists m: nat :: m < k && FirstWith(sorted, seg, m, overlap) && id == sorted[m].speaker)
  }

  ghost predicate FirstWith(sorted: seq<SpeakerTurn>, seg: Segment, m: nat, overlap: real)
    requires m < |sorted|
  {
    && OverlapOf(seg, sorted[m]) == overlap
    && forall l :: 0 <= l < m ==> OverlapOf(seg, sorted[l]) < overlap
  }

  /** A complete scan in sorted order finds the label. */
  lemma ScanFindsLabel(turns: seq<SpeakerTurn>, sorted: seq<SpeakerTurn>, order: seq<nat>,
                       seg: Segment, overlap: real, id: string)
    requires SortedAs(sorted, turns, order)
    requires BestUpTo(sorted, seg, |sorted|, overlap, id)
    ensures IsLabel(turns, seg, LabeledSegment(seg.start, seg.end, seg.text,
                    if overlap < MIN_OVERLAP_SECONDS then UNKNOWN else id))
  {
    forall u: nat | u < |turns| ensures Together(seg, turns[u]) <= overlap {
      assert u in order;
      var i :| 0 <= i < |order| && order[i] == u;
      assert sorted[i] == turns[u];
      OverlapIsTogether(seg, turns[u]);
    }
    if overlap >= MIN_OVERLAP_SECONDS {
      var m: nat :| m < |sorted| && FirstWith(sorted, seg, m, overlap) && id == sorted[m].speaker;
      var t := order[m];
      OverlapIsTogether(seg, turns[t]);
      forall u: nat | u < |turns| && u != t
        ensures Together(seg, turns[u]) < overlap
                || (Together(seg, turns[u]) == overlap && Precedes(Starts(turns), t, u))
      {
        assert u in order;
        var i :| 0 <= i < |order| && order[i] == u;
        assert sorted[i] == turns[u];
        OverlapIsTogether(seg, turns[u]);
      }
      assert IsBest(turns, seg, t);
      assert Together(seg, turns[t]) >= 0.05;
    }
  }

  // ---------------------------------------------------------------- the two-pointer sweep

  method SortTurns(turns: seq<SpeakerTurn>) returns (sorted: seq<SpeakerTurn>, ghost order: seq<nat>)
    ensures SortedAs(sorted, turns, order)
  {
    var o := Order(Starts(turns));
    OrderIsStable(Starts(turns));
    sorted := seq(|o|, i requires 0 <= i < |o| => turns[o[i]]);
    order := o;
  }

  method Merge(segments: seq<Segment>, turns: seq<SpeakerTurn>) returns (result: array<LabeledSegment>)
    ensures fresh(result) && result.Length == |segments|
    ensures forall i :: 0 <= i < |segments| ==> IsLabel(turns, segments[i], result[i])
  {
    if turns == [] {
      result := MergeWithoutTurns(segments);
      return;
    }
    result := new LabeledSegment[|segments|];
    var sorted, turnOrder := SortTurns(turns);
    var keys := seq(|segments|, i requires 0 <= i < |segments| => segments[i].start);
    var order := Order(keys);
    OrderIsStable(keys);
    var j := 0;
    for p := 0 to |order|
      invariant 0 <= j <= |sorted|
      invariant p < |order| ==> EndBy(sorted, j, keys[order[p]])
      invariant forall q :: 0 <= q < p ==> IsLabel(turns, segments[order[q]], result[order[q]])
    {
      var i := order[p];
      var labelled;
      j, labelled := LabelSegment(segments[i], sorted, turnOrder, turns, j);
      forall q | 0 <= q < p ensures order[q] != i {
        assert Precedes(keys, order[q], order[p]);
      }
      result[i] := labelled;
      assert p + 1 < |order| ==> Precedes(keys, order[p], order[p + 1]);
    }
    forall i | 0 <= i < |segments| ensures IsLabel(turns, segments[i], result[i]) {
      assert i in order;
      var q :| 0 <= q < |order| && order[q] == i;
    }
  }

  method MergeWithoutTurns(segments: seq<Segment>) returns (result: array<LabeledSegment>)
    ensures fresh(result) && result.Length == |segments|
    ensures forall i :: 0 <= i < |segments| ==> IsLabel([], segments[i], result[i])
  {
    result := new LabeledSegment[|segments|];
    for i := 0 to |segments|
      invariant forall q :: 0 <= q < i ==> IsLabel([], segments[q], result[q])
    {
      var s := segments[i];
      result[i] := LabeledSegment(s.start, s.end, s.text, UNKNOWN);
    }
  }

  /** The first j turns are over by `time`. */
  predicate EndBy(sorted: seq<SpeakerTurn>, j: nat, time: real)
    requires j <= |sorted|
  {
    forall t :: 0 <= t < j ==> sorted[t].end <= time
  }

  /** The loop body for one segment: advance the shared pointer, scan, label. */
  method LabelSegment(seg: Segment, sorted: seq<SpeakerTurn>, ghost order: seq<nat>,
                      ghost turns: seq<SpeakerTurn>, from: nat)
    returns (j: nat, labelled: LabeledSegment)
    requires SortedAs(sorted, turns, order) && from <= |sorted| && EndBy(sorted, from, seg.start)
    ensures from <= j <= |sorted| && EndBy(sorted, j, seg.start)
    ensures IsLabel(turns, seg, labelled)
  {
    j := from;
    while j < |sorted| && sorted[j].end <= seg.start
      invariant from <= j <= |sorted|
      invariant EndBy(sorted, j, seg.start)
    {
      j := j + 1;
    }
    var id, overlap := ScanTurns(seg, sorted, order, turns, j);
    if overlap < MIN_OVERLAP_SECONDS {
      id := UNKNOWN;
    }
    labelled := LabeledSegment(seg.start, seg.end, seg.text, id);
  }

  /** The inner loop: from the shared pointer j up to the first turn that starts too late. */
  method ScanTurns(seg: Segment, sorted: seq<SpeakerTurn>, ghost order: seq<nat>,
                   ghost turns: seq<SpeakerTurn>, j: nat)
    returns (bestId: string, bestOverlap: real)
    requires SortedAs(sorted, turns, order) && j <= |sorted|
    requires EndBy(sorted, j, seg.start)
    ensures BestUpTo(sorted, seg, |sorted|, bestOverlap, bestId)
    ensures IsLabel(turns, seg, LabeledSegment(seg.start, seg.end, seg.text,
                    if bestOverlap < MIN_OVERLAP_SECONDS then UNKNOWN else bestId))
  {
    bestId := UNKNOWN;
    bestOverlap := 0.0;
    var k := j;
    while k < |sorted| && sorted[k].start < seg.end
      invariant j <= k <= |sorted|
      invariant BestUpTo(sorted, seg, k, bestOverlap, bestId)
    {
      var ov := Overlap(seg.start, seg.end, sorted[k].start, sorted[k].end);
      if ov > bestOverlap {
        bestOverlap := ov;
        bestId := sorted[k].speaker;
        assert FirstWith(sorted, seg, k, bestOverlap);
      }
      k := k + 1;
    }
    forall m | k <= m < |sorted| ensures OverlapOf(seg, sorted[m]) == 0.0 {
      assert m == k || Precedes(Starts(turns), order[k], order[m]);
    }
    ScanFindsLabel(turns, sorted, order, seg, bestOverlap, bestId);
  }
}

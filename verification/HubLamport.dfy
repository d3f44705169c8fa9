/** The hub's PATCH endpoint and its workspace-wide Lamport counter: many requests in flight, one
    lock per transcript, one counter for all (speechtotext/api/routes_transcripts.py,
    speechtotext/api/workspace.py). */
module HubLamport {
  import opened Wrappers
  import opened Crdt

  type Tid = string

  /** A PATCH between taking its transcript's lock and releasing it. `doc` is what it read. */
  datatype Flight =
    | Loaded(request: Request, doc: State)
    | MergedOp(request: Request, doc: State, merged: Merged)
    | BumpRead(request: Request, doc: State, merged: Merged, current: int)
    | Bumped(request: Request, doc: State, merged: Merged)

  /** `counter` and `files` are on disk. A transcript in `flights` has its lock held. */
  datatype Hub = Hub(counter: int, files: map<Tid, State>, flights: map<Tid, Flight>)

  datatype Event =
    | Create(tid: Tid, doc: State)
    | Delete(tid: Tid)
    | Lock(tid: Tid, request: Request)
    | MergeStep(tid: Tid, ts: string)
    | ReadCounter(tid: Tid)
    | SaveCounter(tid: Tid)
    | Write(tid: Tid)
    | Crash

  /** When the event may happen. A transcript is created without edits, and taken away only
      under its lock. */
  predicate Enabled(h: Hub, e: Event) {
    match e
    case Create(t, doc) => t !in h.files && t !in h.flights && doc.clocks == map[] && doc.history == []
    case Delete(t) => t in h.files && t !in h.flights
    case Lock(t, _) => t in h.files && t !in h.flights
    case MergeStep(t, _) => t in h.flights && h.flights[t].Loaded?
    case ReadCounter(t) => t in h.flights && h.flights[t].MergedOp?
    case SaveCounter(t) => t in h.flights && h.flights[t].BumpRead?
    case Write(t) => t in h.flights && h.flights[t].Bumped?
    case Crash => true
  }

  function Apply(h: Hub, e: Event): Hub
    requires Enabled(h, e)
  {
    match e
    case Create(t, doc) => h.(files := h.files[t := doc])
    case Delete(t) => h.(files := h.files - {t})
    case Lock(t, request) => h.(flights := h.flights[t := Loaded(request, h.files[t])])
    case MergeStep(t, ts) =>
      var f := h.flights[t];
      (match Merge(f.doc, f.request, h.counter, ts)
       case Failure(_) => h.(flights := h.flights - {t})
       case Success(m) => h.(flights := h.flights[t := MergedOp(f.request, f.doc, m)]))
    case ReadCounter(t) =>
      var f := h.flights[t];
      h.(flights := h.flights[t := BumpRead(f.request, f.doc, f.merged, h.counter)])
    case SaveCounter(t) =>
      var f := h.flights[t];
      h.(counter := if f.merged.lamport > f.current then f.merged.lamport else h.counter,
         flights := h.flights[t := Bumped(f.request, f.doc, f.merged)])
    case Write(t) =>
      h.(files := h.files[t := h.flights[t].merged.state], flights := h.flights - {t})
    case Crash => h.(flights := map[])
  }

  /** A save does no harm unless someone saved a higher value after this request had loaded a lower
      one: bump_lamport_to takes no lock of its own. Undisturbed bumps are harmless, and so are
      crossed ones that end with the higher value. */
  predicate HarmlessBump(h: Hub, e: Event) {
    e.SaveCounter? && e.tid in h.flights && h.flights[e.tid].BumpRead? ==>
      !(h.flights[e.tid].current < h.flights[e.tid].merged.lamport < h.counter)
  }

  // ---------------------------------------------------------------- the invariant

  ghost predicate Bounded(doc: State, n: int) {
    && (forall op :: op in doc.history ==> op.lamport <= n)
    && (forall k :: k in doc.clocks ==> doc.clocks[k].lamport <= n)
  }

  ghost predicate Increasing(history: seq<Op>) {
    forall i, j :: 0 <= i < j < |history| ==> history[i].lamport < history[j].lamport
  }

  /** The last op on each key is the one in force. */
  ghost predicate LastOpsRule(doc: State) {
    forall i :: 0 <= i < |doc.history| && IsLast(doc.history, i) ==>
      var op := doc.history[i];
      && !op.key.Other?
      && op.key in doc.clocks && doc.clocks[op.key] == ClockOf(op)
      && ValueAt(doc, op.key) == Stored(op.key, op.value)
  }

  predicate IsLast(history: seq<Op>, i: nat)
    requires i < |history|
  {
    forall j :: i < j < |history| ==> history[j].key != history[i].key
  }

  ghost predicate GoodDoc(doc: State) {
    Increasing(doc.history) && LastOpsRule(doc)
  }

  /** The merged state is the document plus one op that is newer than all of it. */
  ghost predicate Extends(doc: State, m: Merged) {
    && m.op.lamport == m.lamport
    && Bounded(doc, m.lamport - 1)
    && Bounded(m.state, m.lamport)
    && m.state.history == doc.history + [m.op]
    && GoodDoc(m.state)
  }

  ghost predicate GoodFlight(h: Hub, t: Tid)
    requires t in h.flights
  {
    var f := h.flights[t];
    && t in h.files && f.doc == h.files[t]
    && (!f.Loaded? ==> Extends(f.doc, f.merged))
    && (f.BumpRead? ==> f.current <= h.counter)
    && (f.Bumped? ==> f.merged.lamport <= h.counter)
  }

  ghost predicate Inv(h: Hub) {
    && (forall t :: t in h.files ==> Bounded(h.files[t], h.counter) && GoodDoc(h.files[t]))
    && (forall t :: t in h.flights ==> GoodFlight(h, t))
  }

  /** With a counter at or above everything on disk the merged op is newer than all of it and
      takes its key; nothing else moves. */
  lemma MergeTakesKey(doc: State, r: Request, counter: int, ts: string)
    requires Bounded(doc, counter)
    requires Merge(doc, r, counter, ts).Success?
    ensures var m := Merge(doc, r, counter, ts).value;
            && !r.key.Other? && m.op.key == r.key && m.op.value == r.value
            && m.op.lamport == m.lamport > counter
            && m.state.history == doc.history + [m.op]
            && m.state.clocks == doc.clocks[r.key := ClockOf(m.op)]
            && forall k :: ValueAt(m.state, k) == if k == r.key then Stored(k, r.value) else ValueAt(doc, k)
  {
    var m := Merge(doc, r, counter, ts).value;
    assert Beats(ClockOf(m.op), Lookup(doc.clocks, r.key));
    var logged := doc.(history := doc.history + [m.op]);
    PutGet(logged, r.key, r.value);
    var put := Put(logged, r.key, r.value);
    forall k ensures ValueAt(m.state, k) == ValueAt(put, k) {}
    forall k ensures ValueAt(logged, k) == ValueAt(doc, k) {}
  }

  lemma LastOpsRuleExtends(doc: State, next: State, op: Op)
    requires LastOpsRule(doc) && !op.key.Other?
    requires next.history == doc.history + [op]
    requires next.clocks == doc.clocks[op.key := ClockOf(op)]
    requires forall k :: ValueAt(next, k) == if k == op.key then Stored(k, op.value) else ValueAt(doc, k)
    ensures LastOpsRule(next)
  {
    var h := next.history;
    forall i | 0 <= i < |h| && IsLast(h, i)
      ensures !h[i].key.Other? && h[i].key in next.clocks && next.clocks[h[i].key] == ClockOf(h[i])
      ensures ValueAt(next, h[i].key) == Stored(h[i].key, h[i].value)
    {
      if i < |doc.history| {
        assert h[|doc.history|].key != h[i].key;
        forall j | i < j < |doc.history| ensures doc.history[j].key != doc.history[i].key {
          assert h[j] == doc.history[j];
        }
        assert IsLast(doc.history, i) && doc.history[i] == h[i];
      }
    }
  }

  lemma MergeExtends(doc: State, r: Request, counter: int, ts: string)
    requires Bounded(doc, counter) && GoodDoc(doc)
    requires Merge(doc, r, counter, ts).Success?
    ensures Extends(doc, Merge(doc, r, counter, ts).value)
  {
    MergeTakesKey(doc, r, counter, ts);
    var m := Merge(doc, r, counter, ts).value;
    LastOpsRuleExtends(doc, m.state, m.op);
  }

  /** Flights other than the one at `t` are left good by an event at `t`. */
  lemma OthersStayGood(h: Hub, g: Hub, t: Tid)
    requires Inv(h) && g.counter >= h.counter
    requires forall u :: u in g.flights && u != t ==> u in h.flights && g.flights[u] == h.flights[u]
    requires forall u :: u in h.files && u != t ==> u in g.files && g.files[u] == h.files[u]
    requires forall u :: u in g.files ==> Bounded(g.files[u], g.counter) && GoodDoc(g.files[u])
    requires t in g.flights ==> GoodFlight(g, t)
    ensures Inv(g)
  {
    forall u | u in g.flights ensures GoodFlight(g, u) {
      if u != t {
        assert GoodFlight(h, u);
      }
    }
  }

  lemma MergeKeepsInv(h: Hub, t: Tid, ts: string)
    requires Inv(h) && Enabled(h, MergeStep(t, ts))
    ensures Inv(Apply(h, MergeStep(t, ts)))
  {
    var f := h.flights[t];
    assert GoodFlight(h, t);
    if Merge(f.doc, f.request, h.counter, ts).Success? {
      MergeExtends(f.doc, f.request, h.counter, ts);
    }
    OthersStayGood(h, Apply(h, MergeStep(t, ts)), t);
  }

  lemma SaveKeepsInv(h: Hub, t: Tid)
    requires Inv(h) && Enabled(h, SaveCounter(t)) && HarmlessBump(h, SaveCounter(t))
    ensures Inv(Apply(h, SaveCounter(t)))
  {
    assert GoodFlight(h, t);
    OthersStayGood(h, Apply(h, SaveCounter(t)), t);
  }

  lemma WriteKeepsInv(h: Hub, t: Tid)
    requires Inv(h) && Enabled(h, Write(t))
    ensures Inv(Apply(h, Write(t)))
  {
    assert GoodFlight(h, t);
    OthersStayGood(h, Apply(h, Write(t)), t);
  }

  lemma StepKeepsInv(h: Hub, e: Event)
    requires Inv(h) && Enabled(h, e) && HarmlessBump(h, e)
    ensures Inv(Apply(h, e))
    ensures Apply(h, e).counter >= h.counter
  {
    match e
    case MergeStep(t, ts) => MergeKeepsInv(h, t, ts);
    case SaveCounter(t) => SaveKeepsInv(h, t);
    case Write(t) => WriteKeepsInv(h, t);
    case ReadCounter(t) =>
      assert GoodFlight(h, t);
      OthersStayGood(h, Apply(h, e), t);
    case Lock(t, _) => OthersStayGood(h, Apply(h, e), t);
    case Create(t, _) => OthersStayGood(h, Apply(h, e), t);
    case Delete(t) => OthersStayGood(h, Apply(h, e), t);
    case Crash =>
  }

  // ---------------------------------------------------------------- whole runs

  /** The states a sequence of events passes through, with harmless bumps. */
  ghost predicate Run(hs: seq<Hub>, es: seq<Event>) {
    && |hs| == |es| + 1
    && forall i :: 0 <= i < |es| ==>
         Enabled(hs[i], es[i]) && HarmlessBump(hs[i], es[i]) && hs[i + 1] == Apply(hs[i], es[i])
  }

  ghost predicate Start(h: Hub) {
    && h.flights == map[]
    && forall t :: t in h.files ==> h.files[t].clocks == map[] && h.files[t].history == []
  }

  lemma {:induction false} RunKeepsInv(hs: seq<Hub>, es: seq<Event>, i: nat)
    requires Run(hs, es) && Start(hs[0]) && i < |hs|
    ensures Inv(hs[i])
  {
    if i > 0 {
      RunKeepsInv(hs, es, i - 1);
      StepKeepsInv(hs[i - 1], es[i - 1]);
    }
  }

  lemma {:induction false} CounterIsMonotone(hs: seq<Hub>, es: seq<Event>, i: nat, j: nat)
    requires Run(hs, es) && Start(hs[0]) && i <= j < |hs|
    ensures hs[i].counter <= hs[j].counter
  {
    if i < j {
      CounterIsMonotone(hs, es, i, j - 1);
      RunKeepsInv(hs, es, j - 1);
      StepKeepsInv(hs[j - 1], es[j - 1]);
    }
  }

  /** Main result: at every moment of every interleaving, crashes included, the counter is at
      least every Lamport on disk, each history is strictly increasing, and for each key the last
      op logged on it holds the clock and the value, so no accepted op ever loses. */
  lemma EveryAcceptedOpWins(hs: seq<Hub>, es: seq<Event>, i: nat, t: Tid)
    requires Run(hs, es) && Start(hs[0]) && i < |hs| && t in hs[i].files
    ensures Bounded(hs[i].files[t], hs[i].counter)
    ensures Increasing(hs[i].files[t].history)
    ensures LastOpsRule(hs[i].files[t])
  {
    RunKeepsInv(hs, es, i);
  }

  /** The write of an accepted op puts its value in force, unlike all ops before it. */
  lemma WritePutsOpInForce(hs: seq<Hub>, es: seq<Event>, i: nat)
    requires Run(hs, es) && Start(hs[0]) && i < |es| && es[i].Write?
    ensures es[i].tid in hs[i].files && es[i].tid in hs[i + 1].files
    ensures var t, f := es[i].tid, hs[i].flights[es[i].tid];
            var doc := hs[i + 1].files[t];
            && doc.history == hs[i].files[t].history + [f.merged.op]
            && f.merged.op.key in doc.clocks && doc.clocks[f.merged.op.key] == ClockOf(f.merged.op)
            && ValueAt(doc, f.merged.op.key) == Stored(f.merged.op.key, f.merged.op.value)
            && forall op :: op in hs[i].files[t].history ==> op.lamport < f.merged.op.lamport
  {
    var t := es[i].tid;
    RunKeepsInv(hs, es, i);
    assert GoodFlight(hs[i], t);
    var m := hs[i].flights[t].merged;
    assert IsLast(m.state.history, |m.state.history| - 1);
  }

  /** Within one transcript's life its log is only ever appended to. */
  lemma LogOnlyGrows(hs: seq<Hub>, es: seq<Event>, i: nat, t: Tid)
    requires Run(hs, es) && Start(hs[0]) && i < |es|
    requires t in hs[i].files && t in hs[i + 1].files
    ensures hs[i].files[t].history <= hs[i + 1].files[t].history
  {
    RunKeepsInv(hs, es, i);
    if es[i].Write? {
      assert GoodFlight(hs[i], es[i].tid);
    }
  }

  /** The states a sequence of events passes through, whatever the bumps do. */
  ghost predicate RawRun(hs: seq<Hub>, es: seq<Event>) {
    && |hs| == |es| + 1
    && forall i :: 0 <= i < |es| ==> Enabled(hs[i], es[i]) && hs[i + 1] == Apply(hs[i], es[i])
  }

  lemma StepLowersCounterIff(h: Hub, e: Event)
    requires Enabled(h, e)
    ensures Apply(h, e).counter >= h.counter <==> HarmlessBump(h, e)
  {
  }

  /** The condition is exact: over any run the counter never falls if and only if every save was
      harmless. */
  lemma CounterNeverFallsIff(hs: seq<Hub>, es: seq<Event>)
    requires RawRun(hs, es)
    ensures (forall i :: 0 <= i < |es| ==> hs[i].counter <= hs[i + 1].counter) <==> Run(hs, es)
  {
    if forall i :: 0 <= i < |es| ==> hs[i].counter <= hs[i + 1].counter {
      forall i | 0 <= i < |es|
        ensures Enabled(hs[i], es[i]) && HarmlessBump(hs[i], es[i]) && hs[i + 1] == Apply(hs[i], es[i])
      {
        assert hs[i].counter <= hs[i + 1].counter;
        StepLowersCounterIff(hs[i], es[i]);
      }
    }
    if Run(hs, es) {
      forall i | 0 <= i < |es| ensures hs[i].counter <= hs[i + 1].counter {
        StepLowersCounterIff(hs[i], es[i]);
      }
    }
  }

  const LOW := Request(SetTitle, Title, None, "d", 0)
  const HIGH := Request(SetTitle, Title, None, "d", 8)

  /** Two PATCHes on two transcripts have both read the counter, at 0. */
  lemma BothHaveRead() returns (hs: seq<Hub>, es: seq<Event>)
    ensures RawRun(hs, es) && |es| == 6 && Start(hs[0])
    ensures var h := hs[6];
            && h.counter == 0 && h.files == map["a" := EMPTY, "b" := EMPTY] && h.flights.Keys == {"a", "b"}
            && h.flights["a"].BumpRead? && h.flights["a"].current == 0 && h.flights["a"].merged.lamport == 1
            && h.flights["b"].BumpRead? && h.flights["b"].current == 0 && h.flights["b"].merged.lamport == 9
            && exists op :: op in h.flights["b"].merged.state.history && op.lamport == 9
  {
    es := [Lock("a", LOW), Lock("b", HIGH), MergeStep("a", ""), MergeStep("b", ""), ReadCounter("a"), ReadCounter("b")];
    var h0 := Hub(0, map["a" := EMPTY, "b" := EMPTY], map[]);
    var h1 := Apply(h0, es[0]);
    var h2 := Apply(h1, es[1]);
    var h3 := Apply(h2, es[2]);
    var h4 := Apply(h3, es[3]);
    var h5 := Apply(h4, es[4]);
    var h6 := Apply(h5, es[5]);
    hs := [h0, h1, h2, h3, h4, h5, h6];
    var op := h6.flights["b"].merged.op;
    assert op in h6.flights["b"].merged.state.history && op.lamport == 9;
  }

  /** Two PATCHes on two transcripts whose unlocked bumps cross leave a counter below a Lamport
      that is already on disk. */
  lemma CrossedBumpsLoseTheCounter() returns (hs: seq<Hub>, es: seq<Event>)
    ensures RawRun(hs, es) && |es| > 0 && Start(hs[0])
    ensures hs[|es|].counter < hs[|es| - 1].counter
    ensures exists t :: t in hs[|es|].files && !Bounded(hs[|es|].files[t], hs[|es|].counter)
  {
    hs, es := BothHaveRead();
    var h6 := hs[6];
    var h7 := Apply(h6, SaveCounter("b"));
    var h8 := Apply(h7, Write("b"));
    var h9 := Apply(h8, SaveCounter("a"));
    var op :| op in h6.flights["b"].merged.state.history && op.lamport == 9;
    assert op in h9.files["b"].history && h9.counter == 1 && h8.counter == 9;
    hs, es := hs + [h7, h8, h9], es + [SaveCounter("b"), Write("b"), SaveCounter("a")];
  }

  // ---------------------------------------------------------------- the counter file

  /** The persisted counter, and its bump when nobody interferes. */
  class Workspace {
    var lamportCounter: int

    constructor ()
      ensures lamportCounter == 0
    {
      lamportCounter := 0;
    }

    method BumpLamportTo(newValue: int) returns (r: int)
      modifies this
      ensures lamportCounter == if newValue > old(lamportCounter) then newValue else old(lamportCounter)
      ensures r == lamportCounter
    {
      var current := lamportCounter;
      if newValue > current {
        lamportCounter := newValue;
        return newValue;
      }
      return current;
    }
  }

  // ---------------------------------------------------------------- a batch forwarded by a laptop

  /** The highest of a seed and a sequence. */
  function Highest(seed: int, seen: seq<int>): int {
    if seen == [] then seed else Max(Highest(seed, seen[..|seen| - 1]), seen[|seen| - 1])
  }

  lemma {:induction false} HighestIsReached(seed: int, seen: seq<int>)
    ensures Highest(seed, seen) >= seed && forall x :: x in seen ==> Highest(seed, seen) >= x
    ensures Highest(seed, seen) == seed || Highest(seed, seen) in seen
  {
    if seen != [] {
      var n := |seen| - 1;
      HighestIsReached(seed, seen[..n]);
      assert seen == seen[..n] + [seen[n]];
    }
  }

  lemma HighestGrows(seed: int, seen: seq<int>, i: nat, j: nat)
    requires i < j <= |seen|
    ensures Highest(seed, seen[..j]) >= Highest(seed, seen[..i])
    ensures Highest(seed, seen[..j]) >= seen[i]
  {
    HighestIsReached(seed, seen[..i]);
    HighestIsReached(seed, seen[..j]);
    assert forall k :: 0 <= k < j ==> seen[..j][k] in seen[..j];
    if Highest(seed, seen[..i]) != seed {
      var k :| 0 <= k < i && seen[..i][k] == Highest(seed, seen[..i]);
      assert seen[..j][k] == seen[..i][k];
    }
    assert seen[..j][i] == seen[i];
  }

  /** The seed: the highest clock synced, or 0. */
  method HighestClock(clocks: seq<Clock>) returns (observed: int)
    ensures observed >= 0 && (observed == 0 || exists c :: c in clocks && c.lamport == observed)
    ensures forall c :: c in clocks ==> observed >= c.lamport
  {
    observed := 0;
    for i := 0 to |clocks|
      invariant observed >= 0 && (observed == 0 || exists c :: c in clocks && c.lamport == observed)
      invariant forall j :: 0 <= j < i ==> observed >= clocks[j].lamport
    {
      observed := Max(observed, clocks[i].lamport);
    }
  }

  /** The laptop seeds `observed` from the clocks it has synced and raises it to every Lamport the
      hub answers. `answers[i]` is what the hub assigned to op i, at least one above what it was
      sent. Then the hub's answers strictly increase and none ties with a synced clock. */
  method ForwardOps(clocks: seq<Clock>, ops: seq<Op>, answers: seq<int>) returns (sent: seq<int>, ghost seed: int)
    requires |answers| == |ops|
    ensures |sent| == |ops|
    ensures seed >= 0 && (seed == 0 || exists c :: c in clocks && c.lamport == seed)
    ensures forall c :: c in clocks ==> seed >= c.lamport
    ensures forall i :: 0 <= i < |sent| ==> sent[i] == Highest(seed, answers[..i])
    ensures forall i :: 0 <= i < |sent| ==> sent[i] >= seed
    ensures forall i, j :: 0 <= i < j < |sent| ==> sent[j] >= answers[i] && sent[j] >= sent[i]
    ensures (forall i :: 0 <= i < |sent| ==> answers[i] > sent[i]) ==>
            forall i, j :: 0 <= i < j < |sent| ==> answers[i] < answers[j]
  {
    var observed := HighestClock(clocks);
    seed := observed;
    sent := [];
    for i := 0 to |ops|
      invariant |sent| == i && observed == Highest(seed, answers[..i])
      invariant forall j :: 0 <= j < i ==> sent[j] == Highest(seed, answers[..j])
    {
      sent := sent + [observed];
      observed := Max(observed, answers[i]);
      assert answers[..i + 1][..i] == answers[..i];
    }
    forall i | 0 <= i < |sent| ensures sent[i] >= seed {
      HighestIsReached(seed, answers[..i]);
    }
    forall i, j | 0 <= i < j < |sent| ensures sent[j] >= answers[i] && sent[j] >= sent[i] {
      HighestGrows(seed, answers, i, j);
    }
  }
}

/** Last-writer-wins edits of a transcript (speechtotext/api/crdt.py). */
module Crdt {
  import opened Wrappers
  import opened Strings

  datatype OpKind = Relabel | SetTitle | EditSegment | Unsupported(name: string)

  /** The dotted key, parsed: `speakers.<id>`, `title`, `segments.<i>.text`, or any other text. */
  datatype Key = Speaker(id: string) | Title | Segment(index: nat) | Other(raw: string)

  /** A JSON value, as the code uses it: null, or what `str()` makes of it. */
  type Value = Option<string>

  datatype Clock = Clock(device: string, lamport: int, ts: string)

  datatype Op = Op(kind: OpKind, key: Key, value: Value, fromValue: Value,
                   device: string, lamport: int, ts: string)

  datatype Request = Request(kind: OpKind, key: Key, value: Value, device: string, observed: int)

  datatype Error =
    | UnsupportedOp | EmptyKey | EmptyDevice | NegativeLamport | BadKey | IndexOutOfRange | UnsupportedKey

  datatype State = State(speakers: map<string, string>,
                         clocks: map<Key, Clock>,
                         history: seq<Op>,
                         title: Value,
                         segmentTexts: map<nat, string>)

  datatype Merged = Merged(state: State, lamport: int, op: Op)

  const EMPTY := State(map[], map[], [], None, map[])

  // ---------------------------------------------------------------- clocks

  /** The (lamport, device) order; the time stamp takes no part in it. */
  predicate Later(a: Clock, b: Clock) {
    if a.lamport != b.lamport then a.lamport > b.lamport else Less(b.device, a.device)
  }

  predicate Beats(c: Clock, existing: Option<Clock>) {
    match existing
    case None => true
    case Some(other) => Later(c, other)
  }

  predicate SameStamp(a: Op, b: Op) {
    a.lamport == b.lamport && a.device == b.device
  }

  function ClockOf(op: Op): Clock {
    Clock(op.device, op.lamport, op.ts)
  }

  /** `Later` compares stamps: strict, total up to equal stamps, transitive. */
  lemma LaterIsTotal(a: Op, b: Op)
    ensures Later(ClockOf(a), ClockOf(b)) || Later(ClockOf(b), ClockOf(a)) || SameStamp(a, b)
    ensures !(Later(ClockOf(a), ClockOf(b)) && Later(ClockOf(b), ClockOf(a)))
    ensures SameStamp(a, b) ==> !Later(ClockOf(a), ClockOf(b))
  {
    LessIsTotal(a.device, b.device);
  }

  lemma LaterIsTransitive(a: Op, b: Op, c: Op)
    ensures Later(ClockOf(a), ClockOf(b)) && Later(ClockOf(b), ClockOf(c)) ==> Later(ClockOf(a), ClockOf(c))
    ensures Later(ClockOf(a), ClockOf(b)) && !Later(ClockOf(c), ClockOf(b)) ==> Later(ClockOf(a), ClockOf(c))
    ensures !Later(ClockOf(b), ClockOf(a)) && Later(ClockOf(b), ClockOf(c)) ==> Later(ClockOf(a), ClockOf(c))
  {
    LessIsTotal(a.device, b.device);
    LessIsTotal(b.device, c.device);
    LessIsTotal(a.device, c.device);
    if Less(c.device, b.device) && Less(b.device, a.device) {
      LessIsTransitive(c.device, b.device, a.device);
    }
  }

  // ---------------------------------------------------------------- reading and writing one key

  function Lookup<K, V>(m: map<K, V>, k: K): Option<V> {
    if k in m then Some(m[k]) else None
  }

  function ValueAt(s: State, key: Key): Value {
    match key
    case Speaker(id) => Lookup(s.speakers, id)
    case Title => s.title
    case Segment(i) => Lookup(s.segmentTexts, i)
    case Other(_) => None
  }

  /** What a key holds after `value` was written to it: null becomes "" except for the title. */
  function Stored(key: Key, value: Value): Value {
    if value.None? && !key.Title? then Some("") else value
  }

  function Put(s: State, key: Key, value: Value): State
    requires !key.Other?
  {
    match key
    case Speaker(id) => s.(speakers := s.speakers[id := Stored(key, value).value])
    case Title => s.(title := value)
    case Segment(i) => s.(segmentTexts := s.segmentTexts[i := Stored(key, value).value])
  }

  /** A write is read back at its own key and nowhere else. */
  lemma PutGet(s: State, key: Key, value: Value)
    requires !key.Other?
    ensures forall k :: ValueAt(Put(s, key, value), k) == if k == key then Stored(key, value) else ValueAt(s, k)
    ensures Stored(key, value) == if key != Title && value.None? then Some("") else value
    ensures Put(s, key, value).clocks == s.clocks && Put(s, key, value).history == s.history
  {
  }

  // ---------------------------------------------------------------- merging one op

  function Validate(r: Request, s: State): Option<Error> {
    match r.kind
    case Relabel => if r.key.Speaker? && r.key.id != "" then None else Some(BadKey)
    case SetTitle => if r.key.Title? then None else Some(BadKey)
    case EditSegment =>
      if !r.key.Segment? then Some(BadKey)
      else if r.key.index in s.segmentTexts then None
      else Some(IndexOutOfRange)
    case Unsupported(_) => Some(UnsupportedOp)
  }

  function Check(r: Request, s: State): Option<Error> {
    if r.kind.Unsupported? then Some(UnsupportedOp)
    else if r.key == Other("") then Some(EmptyKey)
    else if r.device == "" then Some(EmptyDevice)
    else if r.observed < 0 then Some(NegativeLamport)
    else Validate(r, s)
  }

  function Max(a: int, b: int): int {
    if a >= b then a else b
  }

  function Merge(s: State, r: Request, hub: int, ts: string): Result<Merged, Error> {
    match Check(r, s)
    case Some(e) => Failure(e)
    case None =>
      var lamport := Max(hub, r.observed) + 1;
      var op := Op(r.kind, r.key, r.value, ValueAt(s, r.key), r.device, lamport, ts);
      var logged := s.(history := s.history + [op]);
      var state :=
        if Beats(ClockOf(op), Lookup(s.clocks, r.key))
        then Put(logged, r.key, r.value).(clocks := s.clocks[r.key := ClockOf(op)])
        else logged;
      Success(Merged(state, lamport, op))
  }

  /** Which requests are accepted: from a named device, with no negative Lamport, and a key that fits
      the op, of a segment the document has. */
  lemma MergeAccepts(s: State, r: Request, hub: int, ts: string)
    ensures Merge(s, r, hub, ts).Success? <==>
      && r.device != "" && r.observed >= 0
      && (|| (r.kind == Relabel && r.key.Speaker? && r.key.id != "")
          || (r.kind == SetTitle && r.key == Title)
          || (r.kind == EditSegment && r.key.Segment? && r.key.index in s.segmentTexts))
  {
  }

  // ---------------------------------------------------------------- winners of a history

  function Overwrite(w: map<Key, Op>, op: Op): map<Key, Op> {
    if op.key !in w || Later(ClockOf(op), ClockOf(w[op.key])) then w[op.key := op] else w
  }

  /** Per key, the op that last-writer-wins leaves standing when ops arrive in list order. */
  function Winners(h: seq<Op>): map<Key, Op> {
    if h == [] then map[] else Overwrite(Winners(h[..|h| - 1]), h[|h| - 1])
  }

  /** Position i wins its key: every other op on the key has a smaller Lamport, or the same one and a
      device name that comes before, or the same stamp and a later place in the list. */
  ghost predicate WinsAt(h: seq<Op>, i: nat)
    requires i < |h|
  {
    forall j :: 0 <= j < |h| && j != i && h[j].key == h[i].key ==>
      || h[j].lamport < h[i].lamport
      || (h[j].lamport == h[i].lamport
          && (Less(h[j].device, h[i].device) || (h[j].device == h[i].device && i < j)))
  }

  /** In terms of `Later`: nothing on the key is later, and nothing earlier in the list ties. */
  lemma WinsIfUnbeaten(h: seq<Op>, i: nat)
    requires i < |h|
    requires forall j :: 0 <= j < |h| && h[j].key == h[i].key ==>
      !Later(ClockOf(h[j]), ClockOf(h[i])) && (j < i ==> !SameStamp(h[j], h[i]))
    ensures WinsAt(h, i)
  {
    forall j | 0 <= j < |h| && j != i && h[j].key == h[i].key && h[j].lamport == h[i].lamport
      ensures Less(h[j].device, h[i].device) || (h[j].device == h[i].device && i < j)
    {
      LessIsTotal(h[j].device, h[i].device);
    }
  }

  lemma UnbeatenIfWins(h: seq<Op>, i: nat, j: nat)
    requires i < |h| && j < |h| && WinsAt(h, i) && h[j].key == h[i].key
    ensures !Later(ClockOf(h[j]), ClockOf(h[i])) && (j < i ==> !SameStamp(h[j], h[i]))
  {
    LessIsTotal(h[j].device, h[i].device);
  }

  /** The winner of a key is the first of its ops with the greatest stamp. */
  lemma {:induction false} WinnersMeaning(h: seq<Op>, key: Key)
    ensures key in Winners(h) <==> exists i :: 0 <= i < |h| && h[i].key == key
    ensures key in Winners(h) ==> exists i: nat ::
      i < |h| && h[i].key == key && h[i] == Winners(h)[key] && WinsAt(h, i)
  {
    if h != [] {
      var n := |h| - 1;
      var g, op := h[..n], h[n];
      WinnersMeaning(g, key);
      assert forall j :: 0 <= j < n ==> g[j] == h[j];
      if key in Winners(g) {
        var i: nat :| i < |g| && g[i].key == key && g[i] == Winners(g)[key] && WinsAt(g, i);
        forall j | 0 <= j < n && h[j].key == key
          ensures !Later(ClockOf(h[j]), ClockOf(h[i])) && (j < i ==> !SameStamp(h[j], h[i]))
        {
          UnbeatenIfWins(g, i, j);
        }
        if op.key == key && Later(ClockOf(op), ClockOf(h[i])) {
          forall j | 0 <= j < |h| && h[j].key == key
            ensures !Later(ClockOf(h[j]), ClockOf(op)) && (j < n ==> !SameStamp(h[j], op))
          {
            LaterIsTransitive(op, h[i], h[j]);
            LaterIsTotal(op, h[j]);
          }
          WinsIfUnbeaten(h, n);
        } else {
          WinsIfUnbeaten(h, i);
        }
      } else if op.key == key {
        LaterIsTotal(op, op);
        WinsIfUnbeaten(h, n);
      }
    }
  }

  /** A state shows winners `w` on top of `base`: clocks are the winners' clocks, and a key
      holds its winner's value, or else what it held in `base`. */
  ghost predicate Shows(s: State, w: map<Key, Op>, base: State) {
    && s.clocks == (map k | k in w :: ClockOf(w[k]))
    && forall k :: ValueAt(s, k) == if k in w then Stored(k, w[k].value) else ValueAt(base, k)
  }

  /** One last-writer-wins step on a state is one step on the winners. */
  lemma StepShows(s: State, w: map<Key, Op>, base: State, op: Op)
    requires Shows(s, w, base) && !op.key.Other?
    ensures Beats(ClockOf(op), Lookup(s.clocks, op.key)) <==>
            op.key !in w || Later(ClockOf(op), ClockOf(w[op.key]))
    ensures Shows(if Beats(ClockOf(op), Lookup(s.clocks, op.key))
                  then Put(s, op.key, op.value).(clocks := s.clocks[op.key := ClockOf(op)]) else s,
                  Overwrite(w, op), base)
  {
    PutGet(s, op.key, op.value);
    if Beats(ClockOf(op), Lookup(s.clocks, op.key)) {
      var p := Put(s, op.key, op.value);
      var t := p.(clocks := s.clocks[op.key := ClockOf(op)]);
      forall k ensures ValueAt(t, k) == ValueAt(p, k) {}
    }
  }

  ghost predicate AllSupported(h: seq<Op>) {
    forall op :: op in h ==> !op.key.Other?
  }

  /** Every accepted op keeps the live state equal to the winners of its own log. */
  lemma MergeShows(s: State, base: State, r: Request, hub: int, ts: string)
    requires Shows(s, Winners(s.history), base) && AllSupported(s.history)
    requires Merge(s, r, hub, ts).Success?
    ensures var t := Merge(s, r, hub, ts).value.state;
            Shows(t, Winners(t.history), base) && AllSupported(t.history)
  {
    var m := Merge(s, r, hub, ts).value;
    var logged := s.(history := s.history + [m.op]);
    assert logged.history[..|logged.history| - 1] == s.history;
    forall k ensures ValueAt(logged, k) == ValueAt(s, k) {}
    StepShows(logged, Winners(s.history), base, m.op);
  }

  // ---------------------------------------------------------------- stable sort by stamp

  /** Python's `sorted` by (lamport, device): insert from the right, past strictly later ops only. */
  function Insert(h: seq<Op>, op: Op): seq<Op> {
    if h != [] && Later(ClockOf(h[|h| - 1]), ClockOf(op))
    then Insert(h[..|h| - 1], op) + [h[|h| - 1]]
    else h + [op]
  }

  function Sort(h: seq<Op>): seq<Op> {
    if h == [] then [] else Insert(Sort(h[..|h| - 1]), h[|h| - 1])
  }

  ghost predicate Sorted(h: seq<Op>) {
    forall i, j :: 0 <= i < j < |h| ==> !Later(ClockOf(h[i]), ClockOf(h[j]))
  }

  /** The ops carrying one stamp, in list order. */
  function WithStamp(h: seq<Op>, lamport: int, device: string): seq<Op> {
    if h == [] then []
    else WithStamp(h[..|h| - 1], lamport, device)
         + (if h[|h| - 1].lamport == lamport && h[|h| - 1].device == device then [h[|h| - 1]] else [])
  }

  lemma {:induction false} InsertPermutes(h: seq<Op>, op: Op)
    ensures multiset(Insert(h, op)) == multiset(h) + multiset{op}
  {
    if h != [] && Later(ClockOf(h[|h| - 1]), ClockOf(op)) {
      InsertPermutes(h[..|h| - 1], op);
      assert h == h[..|h| - 1] + [h[|h| - 1]];
    }
  }

  lemma {:induction false} InsertSorts(h: seq<Op>, op: Op)
    requires Sorted(h)
    ensures Sorted(Insert(h, op))
  {
    if h != [] {
      var g, x := h[..|h| - 1], h[|h| - 1];
      if Later(ClockOf(x), ClockOf(op)) {
        InsertSorts(g, op);
        InsertKeepsBelow(g, op, x);
      } else {
        forall i | 0 <= i < |h| ensures !Later(ClockOf(h[i]), ClockOf(op)) {
          LaterIsTransitive(h[i], op, x);
          LaterIsTotal(h[i], x);
        }
      }
    }
  }

  lemma {:induction false} InsertIsStable(h: seq<Op>, op: Op, lamport: int, device: string)
    ensures WithStamp(Insert(h, op), lamport, device) == WithStamp(h + [op], lamport, device)
  {
    if h != [] && Later(ClockOf(h[|h| - 1]), ClockOf(op)) {
      var g, x := h[..|h| - 1], h[|h| - 1];
      InsertIsStable(g, op, lamport, device);
      LaterIsTotal(x, op);
      var r := Insert(g, op);
      assert (r + [x])[..|r|] == r;
      assert (g + [op])[..|g|] == g;
      assert (h + [op])[..|h|] == h;
      assert WithStamp(r + [x], lamport, device) == WithStamp(h + [op], lamport, device);
    }
  }

  lemma {:induction false} InsertKeepsWinners(h: seq<Op>, op: Op)
    ensures Winners(Insert(h, op)) == Overwrite(Winners(h), op)
  {
    assert (h + [op])[..|h|] == h;
    if h != [] && Later(ClockOf(h[|h| - 1]), ClockOf(op)) {
      var g, x := h[..|h| - 1], h[|h| - 1];
      InsertKeepsWinners(g, op);
      var r := Insert(g, op);
      assert (r + [x])[..|r|] == r;
      LaterIsTotal(x, op);
      StepsCommute(Winners(g), op, x);
    }
  }

  lemma {:induction false} InsertKeepsBelow(g: seq<Op>, op: Op, x: Op)
    requires Later(ClockOf(x), ClockOf(op))
    requires forall i :: 0 <= i < |g| ==> !Later(ClockOf(g[i]), ClockOf(x))
    ensures forall i :: 0 <= i < |Insert(g, op)| ==> !Later(ClockOf(Insert(g, op)[i]), ClockOf(x))
  {
    LaterIsTotal(x, op);
    if g != [] && Later(ClockOf(g[|g| - 1]), ClockOf(op)) {
      InsertKeepsBelow(g[..|g| - 1], op, x);
    }
  }

  /** Two ops with different stamps may be applied in either order. */
  lemma StepsCommute(w: map<Key, Op>, a: Op, b: Op)
    requires !SameStamp(a, b)
    ensures Overwrite(Overwrite(w, a), b) == Overwrite(Overwrite(w, b), a)
  {
    LaterIsTotal(a, b);
    if a.key == b.key && a.key in w {
      LaterIsTransitive(a, b, w[a.key]);
      LaterIsTransitive(b, a, w[a.key]);
      LaterIsTotal(a, w[a.key]);
      LaterIsTotal(b, w[a.key]);
      LaterIsTransitive(w[a.key], a, b);
      LaterIsTransitive(w[a.key], b, a);
    }
  }

  lemma {:induction false} SortIsStable(h: seq<Op>, lamport: int, device: string)
    ensures WithStamp(Sort(h), lamport, device) == WithStamp(h, lamport, device)
  {
    if h != [] {
      var g, x := h[..|h| - 1], h[|h| - 1];
      SortIsStable(g, lamport, device);
      InsertIsStable(Sort(g), x, lamport, device);
      assert (Sort(g) + [x])[..|Sort(g)|] == Sort(g);
    }
  }

  lemma InsertIntoPermutation(p: seq<Op>, g: seq<Op>, x: Op)
    requires multiset(p) == multiset(g)
    ensures multiset(Insert(p, x)) == multiset(g + [x])
  {
    InsertPermutes(p, x);
  }

  lemma {:induction false} SortPermutes(h: seq<Op>)
    ensures multiset(Sort(h)) == multiset(h)
    decreases |h|, 1
  {
    if h != [] {
      SortPermutesMore(h[..|h| - 1], h[|h| - 1], h);
    }
  }

  lemma {:induction false} SortPermutesMore(g: seq<Op>, x: Op, h: seq<Op>)
    requires h == g + [x]
    ensures multiset(Sort(h)) == multiset(h)
    decreases |h|, 0
  {
    assert h[..|h| - 1] == g;
    SortPermutes(g);
    InsertIntoPermutation(Sort(g), g, x);
  }

  lemma {:induction false} SortSorts(h: seq<Op>)
    ensures Sorted(Sort(h))
  {
    if h != [] {
      SortSorts(h[..|h| - 1]);
      InsertSorts(Sort(h[..|h| - 1]), h[|h| - 1]);
    }
  }

  /** Last-writer-wins cannot tell that its input was stably sorted. */
  lemma {:induction false} SortKeepsWinners(h: seq<Op>)
    ensures Winners(Sort(h)) == Winners(h)
  {
    if h != [] {
      SortKeepsWinners(h[..|h| - 1]);
      InsertKeepsWinners(Sort(h[..|h| - 1]), h[|h| - 1]);
    }
  }

  lemma PermutationKeepsMembers(p: seq<Op>, h: seq<Op>)
    requires multiset(p) == multiset(h)
    ensures forall x :: x in p <==> x in h
  {
    assert forall x :: x in p <==> x in multiset(p);
    assert forall x :: x in h <==> x in multiset(h);
  }

  // ---------------------------------------------------------------- replay

  function ApplyAll(s: State, ops: seq<Op>): Result<State, Error> {
    if ops == [] then Success(s)
    else
      var r := ApplyAll(s, ops[..|ops| - 1]);
      var op := ops[|ops| - 1];
      if r.Failure? then r
      else if !Beats(ClockOf(op), Lookup(r.value.clocks, op.key)) then r
      else if op.key.Other? then Failure(UnsupportedKey)
      else Success(Put(r.value, op.key, op.value).(clocks := r.value.clocks[op.key := ClockOf(op)]))
  }

  function Replay(h: seq<Op>): Result<State, Error> {
    match ApplyAll(EMPTY, Sort(h))
    case Success(s) => Success(s.(history := Sort(h)))
    case Failure(e) => Failure(e)
  }

  lemma {:induction false} ApplyAllMeaning(ops: seq<Op>)
    ensures AllSupported(ops) <==> ApplyAll(EMPTY, ops).Success?
    ensures AllSupported(ops) ==> Shows(ApplyAll(EMPTY, ops).value, Winners(ops), EMPTY)
    ensures AllSupported(ops) ==> ApplyAll(EMPTY, ops).value.history == []
  {
    if ops != [] {
      var n := |ops| - 1;
      ApplyAllMeaning(ops[..n]);
      assert ops == ops[..n] + [ops[n]];
      if AllSupported(ops[..n]) {
        var s := ApplyAll(EMPTY, ops[..n]).value;
        if ops[n].key.Other? {
          WinnersMeaning(ops[..n], ops[n].key);
        } else {
          StepShows(s, Winners(ops[..n]), EMPTY, ops[n]);
          PutGet(s, ops[n].key, ops[n].value);
        }
      }
    }
  }

  lemma HistoryIsNotShown(s: State, w: map<Key, Op>, base: State, h: seq<Op>)
    requires Shows(s, w, base)
    ensures Shows(s.(history := h), w, base)
  {
    forall k ensures ValueAt(s.(history := h), k) == ValueAt(s, k) {}
  }

  lemma SortedIsSupported(h: seq<Op>)
    ensures AllSupported(Sort(h)) <==> AllSupported(h)
  {
    SortPermutes(h);
    PermutationKeepsMembers(Sort(h), h);
  }

  /** Replaying fails exactly on unsupported keys; otherwise it rebuilds the winners of the log,
      whatever the order of the log. */
  lemma ReplayMeaning(h: seq<Op>)
    ensures Replay(h).Success? <==> AllSupported(h)
    ensures AllSupported(h) ==> Shows(Replay(h).value, Winners(h), EMPTY)
    ensures AllSupported(h) ==> Replay(h).value.history == Sort(h)
  {
    SortKeepsWinners(h);
    SortedIsSupported(h);
    ApplyAllMeaning(Sort(h));
    if AllSupported(h) {
      HistoryIsNotShown(ApplyAll(EMPTY, Sort(h)).value, Winners(h), EMPTY, Sort(h));
    }
  }

  // ---------------------------------------------------------------- whole runs

  datatype Input = Input(request: Request, hub: int, ts: string)

  /** Any sequence of requests with any counter values; a refused request changes nothing. */
  function RunMerges(s: State, inputs: seq<Input>): State {
    if inputs == [] then s
    else
      var t := RunMerges(s, inputs[..|inputs| - 1]);
      var i := inputs[|inputs| - 1];
      match Merge(t, i.request, i.hub, i.ts)
      case Success(m) => m.state
      case Failure(_) => t
  }

  /** No run of edits adds a segment or takes one away, and none takes a speaker away. */
  lemma {:induction false} RunKeepsSegments(base: State, inputs: seq<Input>)
    ensures RunMerges(base, inputs).segmentTexts.Keys == base.segmentTexts.Keys
    ensures base.speakers.Keys <= RunMerges(base, inputs).speakers.Keys
  {
    if inputs != [] {
      var n := |inputs| - 1;
      RunKeepsSegments(base, inputs[..n]);
      MergeAccepts(RunMerges(base, inputs[..n]), inputs[n].request, inputs[n].hub, inputs[n].ts);
    }
  }

  lemma {:induction false} RunShows(base: State, inputs: seq<Input>)
    requires base.clocks == map[] && base.history == []
    ensures var s := RunMerges(base, inputs);
            Shows(s, Winners(s.history), base) && AllSupported(s.history)
  {
    if inputs != [] {
      var i := inputs[|inputs| - 1];
      RunShows(base, inputs[..|inputs| - 1]);
      var t := RunMerges(base, inputs[..|inputs| - 1]);
      if Merge(t, i.request, i.hub, i.ts).Success? {
        MergeShows(t, base, i.request, i.hub, i.ts);
      }
    }
  }

  /** Main result: after any run from an unedited transcript, replaying the log gives the live
      clocks and the live value of every clocked key; every other key is as it was. */
  lemma ReplayRebuildsLiveState(base: State, inputs: seq<Input>)
    requires base.clocks == map[] && base.history == []
    ensures var s := RunMerges(base, inputs);
            && Replay(s.history).Success?
            && Replay(s.history).value.clocks == s.clocks
            && (forall k :: k in s.clocks ==> ValueAt(Replay(s.history).value, k) == ValueAt(s, k))
            && (forall k :: k !in s.clocks ==> ValueAt(s, k) == ValueAt(base, k))
  {
    RunShows(base, inputs);
    ReplayMeaning(RunMerges(base, inputs).history);
  }

  // ---------------------------------------------------------------- order independence

  /** What a winner leaves in the state. */
  function Effect(op: Op): (Clock, Value) {
    (ClockOf(op), Stored(op.key, op.value))
  }

  ghost predicate Top(h: seq<Op>, op: Op) {
    op in h && forall x :: x in h && x.key == op.key ==> !Later(ClockOf(x), ClockOf(op))
  }

  /** Ops that tie for the greatest stamp of a key agree on what they write. */
  ghost predicate TopsAgree(h: seq<Op>) {
    forall a, b :: Top(h, a) && Top(h, b) && a.key == b.key ==> Effect(a) == Effect(b)
  }

  /** Two logs replay alike: the same failure, or the same clocks and values. */
  ghost predicate SameReplay(p: seq<Op>, h: seq<Op>) {
    && Replay(p).Success? == Replay(h).Success?
    && (Replay(h).Success? && Replay(p).Success? ==>
          && Replay(p).value.clocks == Replay(h).value.clocks
          && forall k :: ValueAt(Replay(p).value, k) == ValueAt(Replay(h).value, k))
  }

  lemma WinnerIsTop(h: seq<Op>, key: Key)
    requires key in Winners(h)
    ensures Top(h, Winners(h)[key]) && Winners(h)[key].key == key
  {
    WinnersMeaning(h, key);
    var i: nat :| i < |h| && h[i].key == key && h[i] == Winners(h)[key] && WinsAt(h, i);
    forall x | x in h && x.key == key ensures !Later(ClockOf(x), ClockOf(h[i])) {
      var j: nat :| j < |h| && h[j] == x;
      UnbeatenIfWins(h, i, j);
    }
  }

  lemma SameWinnersIfTopsAgree(p: seq<Op>, h: seq<Op>, k: Key)
    requires multiset(p) == multiset(h) && TopsAgree(h)
    ensures k in Winners(p) <==> k in Winners(h)
    ensures k in Winners(p) && k in Winners(h) ==> Effect(Winners(p)[k]) == Effect(Winners(h)[k])
  {
    PermutationKeepsMembers(p, h);
    WinnersMeaning(p, k);
    WinnersMeaning(h, k);
    if k in Winners(p) {
      WinnerIsTop(p, k);
      var j :| 0 <= j < |h| && h[j] == Winners(p)[k];
      WinnerIsTop(h, k);
      assert Top(h, Winners(p)[k]);
    }
    if k in Winners(h) {
      WinnerIsTop(h, k);
      var j :| 0 <= j < |p| && p[j] == Winners(h)[k];
    }
  }

  lemma SameReplayIfTopsAgree(p: seq<Op>, h: seq<Op>)
    requires multiset(p) == multiset(h) && TopsAgree(h)
    ensures SameReplay(p, h)
  {
    ReplayMeaning(p);
    ReplayMeaning(h);
    PermutationKeepsMembers(p, h);
    forall k
      ensures k in Winners(p) <==> k in Winners(h)
      ensures k in Winners(p) && k in Winners(h) ==> Effect(Winners(p)[k]) == Effect(Winners(h)[k])
      ensures k in Winners(h) ==> Winners(h)[k].key == k
      ensures k in Winners(p) ==> Winners(p)[k].key == k
    {
      SameWinnersIfTopsAgree(p, h, k);
      WinnersMeaning(h, k);
      WinnersMeaning(p, k);
    }
  }

  /** Bringing an op that is on top of its key to the front makes it the winner. */
  lemma FrontWins(h: seq<Op>, i: nat) returns (p: seq<Op>)
    requires i < |h| && Top(h, h[i])
    ensures multiset(p) == multiset(h)
    ensures h[i].key in Winners(p) && Winners(p)[h[i].key] == h[i]
  {
    p := [h[i]] + h[..i] + h[i + 1..];
    assert h == h[..i] + [h[i]] + h[i + 1..];
    PermutationKeepsMembers(p, h);
    assert p[0] == h[i];
    WinnersMeaning(p, h[i].key);
    var j: nat :| j < |p| && p[j].key == h[i].key && p[j] == Winners(p)[h[i].key] && WinsAt(p, j);
    assert p[j] in h;
    UnbeatenIfWins(p, j, 0);
    LaterIsTotal(p[j], p[0]);
  }

  /** Main result: the log may be shuffled without changing what replay rebuilds exactly when
      ops that tie on top of a key agree. In particular it may be when no two ops on one key
      share a stamp. */
  lemma ReplayIgnoresOrderIff(h: seq<Op>)
    requires AllSupported(h)
    ensures (forall p :: multiset(p) == multiset(h) ==> SameReplay(p, h)) <==> TopsAgree(h)
  {
    if TopsAgree(h) {
      forall p | multiset(p) == multiset(h) ensures SameReplay(p, h) {
        SameReplayIfTopsAgree(p, h);
      }
    }
    if forall p :: multiset(p) == multiset(h) ==> SameReplay(p, h) {
      forall a, b | Top(h, a) && Top(h, b) && a.key == b.key
        ensures Effect(a) == Effect(b)
      {
        var i: nat :| i < |h| && h[i] == a;
        var j: nat :| j < |h| && h[j] == b;
        var p := FrontWins(h, i);
        var q := FrontWins(h, j);
        assert SameReplay(p, h) && SameReplay(q, h);
        ReplayMeaning(h);
        ReplayMeaning(p);
        ReplayMeaning(q);
        assert ValueAt(Replay(p).value, a.key) == ValueAt(Replay(q).value, a.key);
        assert Replay(p).value.clocks[a.key] == Replay(q).value.clocks[a.key];
      }
    }
  }

  lemma DistinctStampsAgree(h: seq<Op>)
    requires forall i, j :: 0 <= i < j < |h| && h[i].key == h[j].key ==> !SameStamp(h[i], h[j])
    ensures TopsAgree(h)
  {
    forall a, b | Top(h, a) && Top(h, b) && a.key == b.key
      ensures Effect(a) == Effect(b)
    {
      LaterIsTotal(a, b);
      var i: nat :| i < |h| && h[i] == a;
      var j: nat :| j < |h| && h[j] == b;
    }
  }

  // ---------------------------------------------------------------- the mutable state object

  class TranscriptState {
    var speakers: map<string, string>
    var clocks: map<Key, Clock>
    var history: seq<Op>
    var title: Value
    var segmentTexts: map<nat, string>

    function Contents(): State
      reads this
    {
      State(speakers, clocks, history, title, segmentTexts)
    }

    constructor (s: State)
      ensures Contents() == s
    {
      speakers, clocks, history, title, segmentTexts :=
        s.speakers, s.clocks, s.history, s.title, s.segmentTexts;
    }

    method ApplyValue(key: Key, value: Value) returns (ok: bool)
      modifies this`speakers, this`title, this`segmentTexts
      ensures ok <==> !key.Other?
      ensures Contents() == if ok then Put(old(Contents()), key, value) else old(Contents())
    {
      match key
      case Speaker(id) =>
        speakers := speakers[id := if value.Some? then value.value else ""];
        return true;
      case Title =>
        title := value;
        return true;
      case Segment(i) =>
        segmentTexts := segmentTexts[i := if value.Some? then value.value else ""];
        return true;
      case Other(_) =>
        return false;
    }
  }

  /** What an accepted request does, field by field: the op gets a Lamport one above the hub's counter
      and the one observed, whichever is greater, and is logged with the value it replaces; it takes
      its key unless the key has a later clock, by Lamport and then by device. */
  ghost predicate Applied(state: TranscriptState, request: Request, hub: int, ts: string,
                          after: TranscriptState, lamport: int, op: Op)
    reads state, after
  {
    var key := request.key;
    var text := if request.value.Some? then request.value.value else "";
    var takes := key !in state.clocks || state.clocks[key].lamport < lamport
                 || (state.clocks[key].lamport == lamport && Less(state.clocks[key].device, request.device));
    && lamport > hub && lamport > request.observed && (lamport == hub + 1 || lamport == request.observed + 1)
    && op.kind == request.kind && op.key == key && op.value == request.value
    && op.device == request.device && op.lamport == lamport && op.ts == ts
    && after.history == state.history + [op]
    && after.clocks == (if takes then state.clocks[key := Clock(request.device, lamport, ts)] else state.clocks)
    && (match key
        case Speaker(id) =>
          && op.fromValue == (if id in state.speakers then Some(state.speakers[id]) else None)
          && after.speakers == (if takes then state.speakers[id := text] else state.speakers)
          && after.title == state.title && after.segmentTexts == state.segmentTexts
        case Title =>
          && op.fromValue == state.title && after.title == (if takes then request.value else state.title)
          && after.speakers == state.speakers && after.segmentTexts == state.segmentTexts
        case Segment(i) =>
          && i in state.segmentTexts && op.fromValue == Some(state.segmentTexts[i])
          && after.segmentTexts == (if takes then state.segmentTexts[i := text] else state.segmentTexts)
          && after.speakers == state.speakers && after.title == state.title
        case Other(_) => false)
  }

  method MergeOp(state: TranscriptState, request: Request, hub: int, ts: string)
    returns (r: Result<(TranscriptState, int, Op), Error>)
    ensures match Merge(state.Contents(), request, hub, ts)
            case Failure(e) => r == Failure(e)
            case Success(m) =>
              r.Success? && fresh(r.value.0) && r.value.0.Contents() == m.state
              && r.value.1 == m.lamport && r.value.2 == m.op
    ensures state.Contents() == old(state.Contents())
    ensures r.Success? <==>
      && request.device != "" && request.observed >= 0
      && (|| (request.kind == Relabel && request.key.Speaker? && request.key.id != "")
          || (request.kind == SetTitle && request.key == Title)
          || (request.kind == EditSegment && request.key.Segment? && request.key.index in state.segmentTexts))
    ensures r.Failure? ==>
              r.error == if request.kind.Unsupported? then UnsupportedOp
                         else if request.key == Other("") then EmptyKey
                         else if request.device == "" then EmptyDevice
                         else if request.observed < 0 then NegativeLamport
                         else if request.kind == EditSegment && request.key.Segment? then IndexOutOfRange
                         else BadKey
    ensures r.Success? ==> Applied(state, request, hub, ts, r.value.0, r.value.1, r.value.2)
  {
    var before := state.Contents();
    var invalid := Check(request, before);
    if invalid.Some? {
      return Failure(invalid.value);
    }
    var lamport := Max(hub, request.observed) + 1;
    var op := Op(request.kind, request.key, request.value, ValueAt(before, request.key),
                 request.device, lamport, ts);
    var apply := Beats(ClockOf(op), Lookup(before.clocks, request.key));
    var copy := new TranscriptState(before.(history := before.history + [op]));
    if apply {
      var ok := copy.ApplyValue(request.key, request.value);
      copy.clocks := copy.clocks[request.key := ClockOf(op)];
    }
    r := Success((copy, lamport, op));
  }

  method ReplayHistory(h: seq<Op>) returns (state: TranscriptState, raised: Option<Error>)
    ensures fresh(state)
    ensures raised == match Replay(h) case Success(_) => None case Failure(e) => Some(e)
    ensures Replay(h).Success? ==> state.Contents() == Replay(h).value
  {
    state := new TranscriptState(EMPTY);
    var ops := Sort(h);
    var i := 0;
    while i < |ops|
      invariant 0 <= i <= |ops|
      invariant ApplyAll(EMPTY, ops[..i]) == Success(state.Contents())
    {
      assert ops[..i + 1][..i] == ops[..i];
      var op := ops[i];
      if Beats(ClockOf(op), Lookup(state.clocks, op.key)) {
        var ok := state.ApplyValue(op.key, op.value);
        if !ok {
          ApplyAllFailsOnward(ops, i + 1);
          return state, Some(UnsupportedKey);
        }
        state.clocks := state.clocks[op.key := ClockOf(op)];
      }
      i := i + 1;
    }
    assert ops[..i] == ops;
    state.history := ops;
    raised := None;
  }

  lemma {:induction false} ApplyAllFailsOnward(ops: seq<Op>, i: nat)
    requires i <= |ops| && ApplyAll(EMPTY, ops[..i]).Failure?
    ensures ApplyAll(EMPTY, ops) == ApplyAll(EMPTY, ops[..i])
    decreases |ops| - i
  {
    if i < |ops| {
      assert ops[..i + 1][..i] == ops[..i];
      ApplyAllFailsOnward(ops, i + 1);
    } else {
      assert ops[..i] == ops;
    }
  }
}

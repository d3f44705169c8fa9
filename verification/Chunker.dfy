/** Merging transcript segments into chunks for retrieval (speechtotext/rag/chunker.py). */
module Chunker {
  import opened Wrappers

  const TARGET_WORDS: nat := 150
  const MAX_WORDS: nat := 300

  /** `end` is looked up with `start` as its default, so a missing key differs from a null. */
  datatype Segment = Segment(text: string, start: Option<real>, hasEnd: bool, end: Option<real>)

  datatype Chunk = Chunk(idx: nat, firstSegment: nat, startTime: Option<real>, endTime: Option<real>, text: string,
                         tokenCount: nat)

  predicate IsSpace(c: char) {
    c == ' ' || '\t' <= c <= '\r'
  }

  // ---------------------------------------------------------------- text

  function StripLeft(t: string): string {
    if t == [] || !IsSpace(t[0]) then t else StripLeft(t[1..])
  }

  function StripRight(t: string): string {
    if t == [] || !IsSpace(t[|t| - 1]) then t else StripRight(t[..|t| - 1])
  }

  function Strip(t: string): string {
    StripRight(StripLeft(t))
  }

  /** Space, tab, line feed, vertical tab, form feed, carriage return. */
  ghost predicate Blank(c: char) {
    c as int == 32 || 9 <= c as int <= 13
  }

  ghost predicate AllSpace(t: string) {
    forall i :: 0 <= i < |t| ==> Blank(t[i])
  }

  lemma {:induction false} StripLeftCuts(t: string) returns (left: string)
    ensures t == left + StripLeft(t) && AllSpace(left)
    ensures StripLeft(t) != [] ==> !Blank(StripLeft(t)[0])
  {
    if t == [] || !IsSpace(t[0]) {
      left := [];
    } else {
      left := StripLeftCuts(t[1..]);
      left := [t[0]] + left;
    }
  }

  lemma {:induction false} StripRightCuts(t: string) returns (right: string)
    ensures t == StripRight(t) + right && AllSpace(right)
    ensures StripRight(t) != [] ==> StripRight(t)[0] == t[0] && !Blank(StripRight(t)[|StripRight(t)| - 1])
  {
    if t == [] || !IsSpace(t[|t| - 1]) {
      right := [];
    } else {
      right := StripRightCuts(t[..|t| - 1]);
      right := right + [t[|t| - 1]];
    }
  }

  /** Stripping takes off white space at both ends and all of it. */
  lemma StripCuts(t: string) returns (left: string, right: string)
    ensures t == left + Strip(t) + right && AllSpace(left) && AllSpace(right)
    ensures var r := Strip(t); r != [] ==> !Blank(r[0]) && !Blank(r[|r| - 1])
  {
    left := StripLeftCuts(t);
    right := StripRightCuts(StripLeft(t));
  }

  /** The number of words of `t`, the last character before it being in a word or not. */
  function WordsFrom(t: string, inWord: bool): nat {
    if t == [] then 0
    else if IsSpace(t[0]) then WordsFrom(t[1..], false)
    else (if inWord then 0 else 1) + WordsFrom(t[1..], true)
  }

  function Words(t: string): nat {
    WordsFrom(t, false)
  }

  /** A word begins at a character that is not blank, at the start or behind a blank one. */
  ghost predicate Begins(t: string, i: nat) {
    i < |t| && !Blank(t[i]) && (i == 0 || Blank(t[i - 1]))
  }

  lemma {:induction false} WordsFromCounts(t: string, k: nat)
    requires k <= |t|
    ensures WordsFrom(t[k..], k > 0 && !Blank(t[k - 1])) == |set i: nat | k <= i < |t| && Begins(t, i)|
    decreases |t| - k
  {
    var here := set i: nat | k <= i < |t| && Begins(t, i);
    if k == |t| {
      assert here == {};
    } else {
      WordsFromCounts(t, k + 1);
      var next := set i: nat | k + 1 <= i < |t| && Begins(t, i);
      assert t[k..][1..] == t[k + 1..];
      assert here == next + if Begins(t, k) then {k} else {};
    }
  }

  /** The word count is the number of places where a word begins. */
  lemma WordsMeaning(t: string)
    ensures Words(t) == |set i: nat | i < |t| && Begins(t, i)|
  {
    WordsFromCounts(t, 0);
    assert t[0..] == t;
    assert (set i: nat | 0 <= i < |t| && Begins(t, i)) == set i: nat | i < |t| && Begins(t, i);
  }

  /** The text of a segment and the word count of a text, as the chunking sees them. */
  type Reader = Segment -> string
  type Counter = string -> nat

  function Join(texts: seq<string>): string {
    if texts == [] then ""
    else if |texts| == 1 then texts[0]
    else Join(texts[..|texts| - 1]) + " " + texts[|texts| - 1]
  }

  lemma JoinMore(a: seq<string>, x: string)
    requires a != []
    ensures Join(a + [x]) == Join(a) + " " + x
  {
    assert (a + [x])[..|a|] == a;
  }

  lemma Associate(x: string, y: string, z: string)
    ensures (x + " " + y) + " " + z == x + " " + (y + " " + z)
  {
  }

  /** `" ".join`: what is joined in two parts is joined with one space. */
  lemma {:induction false} JoinInParts(a: seq<string>, b: seq<string>)
    requires a != [] && b != []
    ensures Join(a + b) == Join(a) + " " + Join(b)
    ensures |a| == 1 ==> Join(a) == a[0]
    decreases |b|
  {
    var front, last := b[..|b| - 1], b[|b| - 1];
    assert b == front + [last];
    if front == [] {
      assert a + b == a + [last];
      JoinMore(a, last);
    } else {
      JoinInParts(a, front);
      assert a + b == (a + front) + [last];
      JoinMore(a + front, last);
      JoinMore(front, last);
      Associate(Join(a), Join(front), last);
    }
  }

  function TotalWords(count: Counter, texts: seq<string>): nat {
    if texts == [] then 0 else TotalWords(count, texts[..|texts| - 1]) + count(texts[|texts| - 1])
  }

  lemma {:induction false} SpaceSplitsWords(a: string, b: string, inWord: bool)
    ensures WordsFrom(a + " " + b, inWord) == WordsFrom(a, inWord) + WordsFrom(b, false)
  {
    if a == [] {
      assert (a + " " + b)[1..] == b;
    } else {
      assert (a + " " + b)[1..] == a[1..] + " " + b;
      SpaceSplitsWords(a[1..], b, !IsSpace(a[0]));
    }
  }

  /** A chunk's token count is the number of words of its text. */
  lemma {:induction false} JoinKeepsWords(texts: seq<string>)
    ensures Words(Join(texts)) == TotalWords(Words, texts)
  {
    if |texts| == 1 {
      assert texts[..0] == [];
    } else if texts != [] {
      JoinKeepsWords(texts[..|texts| - 1]);
      SpaceSplitsWords(Join(texts[..|texts| - 1]), texts[|texts| - 1], false);
    }
  }

  // ---------------------------------------------------------------- what a chunking is

  function TextOf(s: Segment): string {
    Strip(s.text)
  }

  function EndOf(s: Segment): Option<real> {
    if s.hasEnd then s.end else s.start
  }

  /** The numbers of the segments before `n` that have text. */
  function NonBlank(read: Reader, segs: seq<Segment>, n: nat): seq<nat>
    requires n <= |segs|
  {
    if n == 0 then []
    else NonBlank(read, segs, n - 1) + (if read(segs[n - 1]) == "" then [] else [n - 1])
  }

  function Texts(read: Reader, segs: seq<Segment>, group: seq<nat>): seq<string> {
    if group == [] then []
    else
      var i := group[|group| - 1];
      Texts(read, segs, group[..|group| - 1]) + [if i < |segs| then read(segs[i]) else ""]
  }

  /** How many words a group of segments has. */
  type Sizer = seq<nat> -> nat

  function SizeIn(read: Reader, count: Counter, segs: seq<Segment>): Sizer {
    (group: seq<nat>) => TotalWords(count, Texts(read, segs, group))
  }

  function Flatten(groups: seq<seq<nat>>): seq<nat> {
    if groups == [] then [] else Flatten(groups[..|groups| - 1]) + groups[|groups| - 1]
  }

  /** A group as it grows: before its last segment came it was below the target, and that segment
      still fitted, unless it stands alone. */
  ghost predicate Grown(size: Sizer, n: nat, group: seq<nat>) {
    && group != [] && (forall i :: 0 <= i < |group| ==> group[i] < n)
    && (|group| > 1 ==> size(group[..|group| - 1]) < 150 && size(group) <= 300)
  }

  /** Why a group ended where it did: it reached the target, or what follows would not have fitted. */
  ghost predicate Full(size: Sizer, group: seq<nat>, next: nat) {
    size(group) >= 150 || size(group + [next]) > 300
  }

  /** `groups` cuts `all`, in order, into groups that are as long as they may be. */
  ghost predicate IsGrouping(size: Sizer, n: nat, all: seq<nat>, groups: seq<seq<nat>>) {
    && Flatten(groups) == all
    && (forall g :: 0 <= g < |groups| ==> Grown(size, n, groups[g]))
    && (forall g :: 0 <= g < |groups| - 1 ==> Full(size, groups[g], groups[g + 1][0]))
  }

  predicate InRange(segs: seq<Segment>, group: seq<nat>) {
    group != [] && group[0] < |segs| && group[|group| - 1] < |segs|
  }

  function ChunkOf(read: Reader, count: Counter, segs: seq<Segment>, group: seq<nat>, idx: nat): Chunk
    requires InRange(segs, group)
  {
    Chunk(idx, group[0], segs[group[0]].start, EndOf(segs[group[|group| - 1]]), Join(Texts(read, segs, group)), SizeIn(read, count, segs)(group))
  }

  ghost predicate Renders(read: Reader, count: Counter, segs: seq<Segment>, groups: seq<seq<nat>>, chunks: seq<Chunk>) {
    && |chunks| == |groups|
    && forall g :: 0 <= g < |groups| ==> InRange(segs, groups[g]) && chunks[g] == ChunkOf(read, count, segs, groups[g], g)
  }

  ghost predicate AreChunks(read: Reader, count: Counter, segs: seq<Segment>, chunks: seq<Chunk>) {
    exists groups ::
      IsGrouping(SizeIn(read, count, segs), |segs|, NonBlank(read, segs, |segs|), groups) && Renders(read, count, segs, groups, chunks)
  }

  // ---------------------------------------------------------------- the loop

  /** The open group: as grown, and not yet at the target. */
  ghost predicate Open(size: Sizer, n: nat, group: seq<nat>) {
    group != [] ==> Grown(size, n, group) && size(group) < TARGET_WORDS
  }

  ghost predicate Sofar(size: Sizer, n: nat, all: seq<nat>, groups: seq<seq<nat>>, group: seq<nat>) {
    && IsGrouping(size, n, Flatten(groups), groups)
    && Flatten(groups) + group == all
    && (group != [] && groups != [] ==> Full(size, groups[|groups| - 1], group[0]))
  }

  /** Every finished group is followed by an open one unless it reached the target. */
  ghost predicate Settled(size: Sizer, groups: seq<seq<nat>>, group: seq<nat>) {
    group == [] && groups != [] ==> size(groups[|groups| - 1]) >= TARGET_WORDS
  }

  lemma TextsMore(read: Reader, count: Counter, segs: seq<Segment>, group: seq<nat>, i: nat)
    requires i < |segs|
    ensures Texts(read, segs, group + [i]) == Texts(read, segs, group) + [read(segs[i])]
    ensures SizeIn(read, count, segs)(group + [i]) == SizeIn(read, count, segs)(group) + count(read(segs[i]))
  {
    assert (group + [i])[..|group|] == group;
    var ts := Texts(read, segs, group);
    assert (ts + [read(segs[i])])[..|ts|] == ts;
  }

  lemma FlattenMore(groups: seq<seq<nat>>, group: seq<nat>)
    ensures Flatten(groups + [group]) == Flatten(groups) + group
  {
    assert (groups + [group])[..|groups|] == groups;
  }

  /** The loop's variables describe the open group. */
  ghost predicate Accumulates(read: Reader, count: Counter, segs: seq<Segment>, group: seq<nat>, texts: seq<string>, words: nat, first: nat,
                              start: Option<real>, end: Option<real>) {
    && texts == Texts(read, segs, group) && words == SizeIn(read, count, segs)(group) && (texts == [] <==> group == [])
    && (group != [] ==>
        group[0] < |segs| && group[|group| - 1] < |segs|
        && first == group[0] && start == segs[first].start && end == EndOf(segs[group[|group| - 1]]))
  }

  lemma FlushStep(size: Sizer, n: nat, all: seq<nat>, groups: seq<seq<nat>>, group: seq<nat>)
    requires Sofar(size, n, all, groups, group) && Grown(size, n, group)
    ensures Sofar(size, n, all, groups + [group], [])
  {
    FlattenMore(groups, group);
  }

  lemma RenderStep(read: Reader, count: Counter, segs: seq<Segment>, groups: seq<seq<nat>>, chunks: seq<Chunk>, group: seq<nat>)
    requires Renders(read, count, segs, groups, chunks) && InRange(segs, group)
    ensures Renders(read, count, segs, groups + [group], chunks + [ChunkOf(read, count, segs, group, |chunks|)])
  {
  }

  lemma GrowStep(size: Sizer, n: nat, all: seq<nat>, groups: seq<seq<nat>>, group: seq<nat>, i: nat)
    requires i < n && Sofar(size, n, all, groups, group) && Open(size, n, group)
    requires if group == [] then groups != [] ==> Full(size, groups[|groups| - 1], i)
             else size(group + [i]) <= MAX_WORDS
    ensures Sofar(size, n, all + [i], groups, group + [i]) && Grown(size, n, group + [i])
  {
    assert (group + [i])[..|group|] == group;
    assert Flatten(groups) + (group + [i]) == (Flatten(groups) + group) + [i];
  }

  /** The loop's state: the finished chunks and, for the open one, its texts, word count, first
      segment, start and end. */
  datatype State = State(chunks: seq<Chunk>, texts: seq<string>, words: nat, first: nat, start: Option<real>,
                         end: Option<real>)

  /** The nested function of that name. */
  function Flush(s: State): State {
    State(if s.texts == [] then s.chunks
          else s.chunks + [Chunk(|s.chunks|, s.first, s.start, s.end, Join(s.texts), s.words)],
          [], 0, s.first, None, None)
  }

  function Append(s: State, segs: seq<Segment>, i: nat, text: string, n: nat): State
    requires i < |segs|
  {
    State(s.chunks, s.texts + [text], s.words + n, if s.texts == [] then i else s.first,
          if s.texts == [] then segs[i].start else s.start, EndOf(segs[i]))
  }

  ghost predicate Describes(read: Reader, count: Counter, segs: seq<Segment>, groups: seq<seq<nat>>, group: seq<nat>,
                            s: State) {
    Renders(read, count, segs, groups, s.chunks)
    && Accumulates(read, count, segs, group, s.texts, s.words, s.first, s.start, s.end)
  }

  lemma FlushDescribes(read: Reader, count: Counter, segs: seq<Segment>, groups: seq<seq<nat>>, group: seq<nat>, s: State)
    requires Describes(read, count, segs, groups, group, s)
    ensures Describes(read, count, segs, if group == [] then groups else groups + [group], [], Flush(s))
  {
    if group != [] {
      RenderStep(read, count, segs, groups, s.chunks, group);
    }
  }

  lemma AppendDescribes(read: Reader, count: Counter, segs: seq<Segment>, groups: seq<seq<nat>>, group: seq<nat>, s: State, i: nat)
    requires Describes(read, count, segs, groups, group, s) && i < |segs|
    ensures Describes(read, count, segs, groups, group + [i], Append(s, segs, i, read(segs[i]), count(read(segs[i]))))
  {
    TextsMore(read, count, segs, group, i);
  }

  /** The loop's invariant, but for the size of the open group. */
  ghost predicate Kept(read: Reader, count: Counter, segs: seq<Segment>, all: seq<nat>, groups: seq<seq<nat>>,
                       group: seq<nat>, s: State) {
    var size := SizeIn(read, count, segs);
    && Sofar(size, |segs|, all, groups, group) && (group != [] ==> Grown(size, |segs|, group))
    && Describes(read, count, segs, groups, group, s)
  }

  lemma FlushKeeps(read: Reader, count: Counter, segs: seq<Segment>, all: seq<nat>, groups: seq<seq<nat>>,
                   group: seq<nat>, s: State)
    requires Kept(read, count, segs, all, groups, group, s)
    ensures Kept(read, count, segs, all, if group == [] then groups else groups + [group], [], Flush(s))
  {
    FlushDescribes(read, count, segs, groups, group, s);
    if group != [] {
      FlushStep(SizeIn(read, count, segs), |segs|, all, groups, group);
    }
  }

  /** What the open group must be for segment `i` to join it. */
  ghost predicate Fits(size: Sizer, n: nat, groups: seq<seq<nat>>, group: seq<nat>, i: nat) {
    if group == [] then groups != [] ==> Full(size, groups[|groups| - 1], i)
    else size(group) < TARGET_WORDS && size(group + [i]) <= MAX_WORDS
  }

  lemma AppendKeeps(read: Reader, count: Counter, segs: seq<Segment>, all: seq<nat>, groups: seq<seq<nat>>,
                    group: seq<nat>, s: State, i: nat)
    requires Kept(read, count, segs, all, groups, group, s) && i < |segs|
    requires Fits(SizeIn(read, count, segs), |segs|, groups, group, i)
    ensures Kept(read, count, segs, all + [i], groups, group + [i], Append(s, segs, i, read(segs[i]), count(read(segs[i]))))
  {
    AppendDescribes(read, count, segs, groups, group, s, i);
    GrowStep(SizeIn(read, count, segs), |segs|, all, groups, group, i);
  }

  /** Between segments, the open group is below the target. */
  ghost predicate Ready(read: Reader, count: Counter, segs: seq<Segment>, all: seq<nat>, groups: seq<seq<nat>>,
                        group: seq<nat>, s: State) {
    && Kept(read, count, segs, all, groups, group, s)
    && Settled(SizeIn(read, count, segs), groups, group)
    && s.words < TARGET_WORDS
  }

  /** A segment that does not fit closes the open group, and starts the next. */
  lemma OverflowFlush(read: Reader, count: Counter, segs: seq<Segment>, all: seq<nat>, groups: seq<seq<nat>>,
                      group: seq<nat>, s: State, i: nat)
    requires Ready(read, count, segs, all, groups, group, s) && i < |segs| && s.texts != []
    requires s.words + count(read(segs[i])) > MAX_WORDS
    ensures Kept(read, count, segs, all, groups + [group], [], Flush(s))
    ensures Fits(SizeIn(read, count, segs), |segs|, groups + [group], [], i)
  {
    FlushKeeps(read, count, segs, all, groups, group, s);
    TextsMore(read, count, segs, group, i);
  }

  lemma JoinsOpen(read: Reader, count: Counter, segs: seq<Segment>, all: seq<nat>, groups: seq<seq<nat>>,
                  group: seq<nat>, s: State, i: nat)
    requires Ready(read, count, segs, all, groups, group, s) && i < |segs|
    requires s.texts != [] ==> s.words + count(read(segs[i])) <= MAX_WORDS
    ensures Fits(SizeIn(read, count, segs), |segs|, groups, group, i)
  {
    TextsMore(read, count, segs, group, i);
  }

  /** A group at the target is closed at once. */
  lemma TargetFlush(read: Reader, count: Counter, segs: seq<Segment>, all: seq<nat>, groups: seq<seq<nat>>,
                    group: seq<nat>, s: State)
    requires Kept(read, count, segs, all, groups, group, s) && group != []
    ensures if s.words < TARGET_WORDS then Ready(read, count, segs, all, groups, group, s)
            else Ready(read, count, segs, all, groups + [group], [], Flush(s))
  {
    if s.words >= TARGET_WORDS {
      FlushKeeps(read, count, segs, all, groups, group, s);
    }
  }

  method AddSegment(read: Reader, count: Counter, segs: seq<Segment>, s0: State, i: nat,
                    ghost all: seq<nat>, ghost groups0: seq<seq<nat>>, ghost group0: seq<nat>)
    returns (s: State, ghost groups: seq<seq<nat>>, ghost group: seq<nat>)
    requires i < |segs| && read(segs[i]) != "" && Ready(read, count, segs, all, groups0, group0, s0)
    ensures Ready(read, count, segs, all + [i], groups, group, s)
  {
    s, groups, group := s0, groups0, group0;
    var text := read(segs[i]);
    var n := count(text);
    if s.texts != [] && s.words + n > MAX_WORDS {
      OverflowFlush(read, count, segs, all, groups, group, s, i);
      s, groups, group := Flush(s), groups + [group], [];
    } else {
      JoinsOpen(read, count, segs, all, groups, group, s, i);
    }
    AppendKeeps(read, count, segs, all, groups, group, s, i);
    s, group := Append(s, segs, i, text, n), group + [i];
    TargetFlush(read, count, segs, all + [i], groups, group, s);
    if s.words >= TARGET_WORDS {
      s, groups, group := Flush(s), groups + [group], [];
    }
  }

  lemma SofarEnds(size: Sizer, n: nat, all: seq<nat>, groups: seq<seq<nat>>)
    requires Sofar(size, n, all, groups, [])
    ensures IsGrouping(size, n, all, groups)
  {
    assert Flatten(groups) + [] == Flatten(groups);
  }

  lemma LastFlush(read: Reader, count: Counter, segs: seq<Segment>, all: seq<nat>, groups: seq<seq<nat>>,
                  group: seq<nat>, s: State) returns (last: seq<seq<nat>>)
    requires Kept(read, count, segs, all, groups, group, s)
    ensures IsGrouping(SizeIn(read, count, segs), |segs|, all, last) && Renders(read, count, segs, last, Flush(s).chunks)
  {
    FlushKeeps(read, count, segs, all, groups, group, s);
    last := if group == [] then groups else groups + [group];
    SofarEnds(SizeIn(read, count, segs), |segs|, all, last);
  }

  method ChunksOf(read: Reader, count: Counter, segs: seq<Segment>) returns (chunks: seq<Chunk>)
    ensures AreChunks(read, count, segs, chunks)
  {
    var s := State([], [], 0, 0, None, None);
    ghost var groups, group := [], [];
    for i := 0 to |segs|
      invariant Ready(read, count, segs, NonBlank(read, segs, i), groups, group, s)
    {
      assert NonBlank(read, segs, i) + [] == NonBlank(read, segs, i);
      if read(segs[i]) != "" {
        s, groups, group := AddSegment(read, count, segs, s, i, NonBlank(read, segs, i), groups, group);
      }
    }
    ghost var last := LastFlush(read, count, segs, NonBlank(read, segs, |segs|), groups, group, s);
    chunks := Flush(s).chunks;
  }

  /** The chunks of a transcript: its segments with text, in order, in groups as long as they may be. */
  method BuildChunks(segs: seq<Segment>) returns (chunks: seq<Chunk>)
    ensures AreChunks(TextOf, Words, segs, chunks)
    ensures forall s: Segment :: TextOf(s) == Strip(s.text)
  {
    chunks := ChunksOf(TextOf, Words, segs);
  }

  // ---------------------------------------------------------------- what that means

  /** Each chunk keeps to the maximum unless it is a single segment, starts where its first segment
      does, and counts the words of its own text. */
  lemma ChunksAreBounded(read: Reader, count: Counter, segs: seq<Segment>, chunks: seq<Chunk>, c: nat)
    requires AreChunks(read, count, segs, chunks) && c < |chunks|
    ensures chunks[c].idx == c && (count == Words ==> chunks[c].tokenCount == Words(chunks[c].text))
    ensures chunks[c].firstSegment < |segs| && chunks[c].startTime == segs[chunks[c].firstSegment].start
    ensures exists l: nat :: l < |segs| && chunks[c].endTime == if segs[l].hasEnd then segs[l].end else segs[l].start
    ensures chunks[c].tokenCount <= 300 || chunks[c].text == read(segs[chunks[c].firstSegment])
  {
    var size := SizeIn(read, count, segs);
    var groups :| IsGrouping(size, |segs|, NonBlank(read, segs, |segs|), groups)
                  && Renders(read, count, segs, groups, chunks);
    var group := groups[c];
    assert Grown(size, |segs|, group) && chunks[c] == ChunkOf(read, count, segs, group, c);
    if |group| == 1 {
      OneText(read, count, segs, group);
    }
    if count == Words {
      JoinKeepsWords(Texts(read, segs, group));
    }
  }

  lemma OneText(read: Reader, count: Counter, segs: seq<Segment>, group: seq<nat>)
    requires |group| == 1 && group[0] < |segs|
    ensures Join(Texts(read, segs, group)) == read(segs[group[0]])
  {
    TextsMore(read, count, segs, [], group[0]);
    assert group == [] + [group[0]];
  }

  // ---------------------------------------------------------------- the chunking is unique

  ghost predicate Monotone(size: Sizer) {
    forall group: seq<nat>, k: nat :: k <= |group| ==> size(group[..k]) <= size(group)
  }

  lemma {:induction false} FlattenFront(groups: seq<seq<nat>>)
    requires groups != []
    ensures Flatten(groups) == groups[0] + Flatten(groups[1..])
  {
    var n := |groups| - 1;
    if n > 0 {
      FlattenFront(groups[..n]);
      assert groups[1..][..n - 1] == groups[..n][1..] && groups[1..][n - 1] == groups[n];
    }
  }

  /** A group that grew past `stop` was not full there. */
  lemma GrownPastIsNotFull(size: Sizer, n: nat, stop: seq<nat>, group: seq<nat>)
    requires Monotone(size) && Grown(size, n, group)
    ensures |stop| < |group| && stop == group[..|stop|] && stop != [] ==> !Full(size, stop, group[|stop|])
  {
    var k := |stop|;
    if 0 < k < |group| && stop == group[..k] {
      assert group[..|group| - 1][..k] == stop && group[..k + 1] == stop + [group[k]];
      assert size(group[..|group| - 1][..k]) <= size(group[..|group| - 1]);
      assert size(group[..k + 1]) <= size(group);
    }
  }

  lemma FirstGroup(size: Sizer, n: nat, all: seq<nat>, a: seq<seq<nat>>)
    requires IsGrouping(size, n, all, a)
    ensures a == [] <==> all == []
    ensures a != [] ==> a[0] != [] && |a[0]| <= |all| && a[0] == all[..|a[0]|] && Grown(size, n, a[0])
    ensures a != [] && |a[0]| < |all| ==> Full(size, a[0], all[|a[0]|])
  {
    if a != [] {
      assert Grown(size, n, a[0]);
      FlattenFront(a);
      if |a| > 1 {
        assert Grown(size, n, a[1]) && Full(size, a[0], a[1][0]);
        FlattenFront(a[1..]);
        assert all[|a[0]|] == a[1][0];
      } else {
        assert Flatten(a[1..]) == [];
      }
    }
  }

  /** Of two groupings of the same segments, neither's first group is shorter: the other's would have
      grown past a full group. */
  lemma FirstIsNoShorter(size: Sizer, n: nat, all: seq<nat>, a: seq<seq<nat>>, b: seq<seq<nat>>)
    requires Monotone(size) && IsGrouping(size, n, all, a) && IsGrouping(size, n, all, b) && a != [] && b != []
    ensures |a[0]| >= |b[0]|
  {
    FirstGroup(size, n, all, a);
    FirstGroup(size, n, all, b);
    GrownPastIsNotFull(size, n, a[0], b[0]);
  }

  lemma TailGrouping(size: Sizer, n: nat, all: seq<nat>, a: seq<seq<nat>>)
    requires IsGrouping(size, n, all, a) && a != []
    ensures |a[0]| <= |all| && a[0] == all[..|a[0]|] && IsGrouping(size, n, all[|a[0]|..], a[1..])
  {
    FlattenFront(a);
    assert forall g :: 0 <= g < |a| - 1 ==> a[1..][g] == a[g + 1];
    forall g | 0 <= g < |a[1..]| - 1 ensures Full(size, a[1..][g], a[1..][g + 1][0]) {
      assert Full(size, a[g + 1], a[g + 2][0]);
    }
  }

  lemma {:induction false} GroupingIsUnique(size: Sizer, n: nat, all: seq<nat>, a: seq<seq<nat>>, b: seq<seq<nat>>)
    requires Monotone(size) && IsGrouping(size, n, all, a) && IsGrouping(size, n, all, b)
    ensures a == b
    decreases |a|
  {
    FirstGroup(size, n, all, a);
    FirstGroup(size, n, all, b);
    if a != [] {
      FirstIsNoShorter(size, n, all, a, b);
      FirstIsNoShorter(size, n, all, b, a);
      TailGrouping(size, n, all, a);
      TailGrouping(size, n, all, b);
      GroupingIsUnique(size, n, all[|a[0]|..], a[1..], b[1..]);
      assert a == [a[0]] + a[1..] && b == [b[0]] + b[1..];
    }
  }

  lemma {:induction false} SizeIsMonotone(read: Reader, count: Counter, segs: seq<Segment>, group: seq<nat>, k: nat)
    requires k <= |group|
    ensures SizeIn(read, count, segs)(group[..k]) <= SizeIn(read, count, segs)(group)
    decreases |group|
  {
    var n := |group| - 1;
    if k == |group| {
      assert group[..k] == group;
    } else {
      assert group[..n][..k] == group[..k];
      SizeIsMonotone(read, count, segs, group[..n], k);
      var ts := Texts(read, segs, group);
      assert ts[..|ts| - 1] == Texts(read, segs, group[..n]);
    }
  }

  /** The specification fixes the result: there is one way to chunk a transcript. */
  lemma ChunksAreUnique(read: Reader, count: Counter, segs: seq<Segment>, a: seq<Chunk>, b: seq<Chunk>)
    requires AreChunks(read, count, segs, a) && AreChunks(read, count, segs, b)
    ensures a == b
  {
    var size, all := SizeIn(read, count, segs), NonBlank(read, segs, |segs|);
    var ga :| IsGrouping(size, |segs|, all, ga) && Renders(read, count, segs, ga, a);
    var gb :| IsGrouping(size, |segs|, all, gb) && Renders(read, count, segs, gb, b);
    forall group: seq<nat>, k: nat | k <= |group| ensures size(group[..k]) <= size(group) {
      SizeIsMonotone(read, count, segs, group, k);
    }
    GroupingIsUnique(size, |segs|, all, ga, gb);
  }
}

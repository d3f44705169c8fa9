/** Find-in-transcript with typo tolerance (ui/src/lib/fuzzyMatch.ts). */
module FuzzyMatch {

  // ---------------------------------------------------------------- edit distance

  function Min(a: nat, b: nat): nat {
    if a <= b then a else b
  }

  /** The Levenshtein distance, by the textbook recursion. */
  function Lev(a: string, b: string): nat {
    if a == [] then |b|
    else if b == [] then |a|
    else Min(Min(Lev(a[1..], b) + 1, Lev(a, b[1..]) + 1),
             Lev(a[1..], b[1..]) + if a[0] == b[0] then 0 else 1)
  }

  lemma {:induction false} LevIsSymmetric(a: string, b: string)
    ensures Lev(a, b) == Lev(b, a)
    decreases |a| + |b|
  {
    if a != [] && b != [] {
      LevIsSymmetric(a[1..], b);
      LevIsSymmetric(a, b[1..]);
      LevIsSymmetric(a[1..], b[1..]);
    }
  }

  lemma {:induction false} LevIsZero(a: string, b: string)
    ensures Lev(a, b) == 0 <==> a == b
  {
    if a != [] && b != [] {
      LevIsZero(a[1..], b[1..]);
      assert a == [a[0]] + a[1..] && b == [b[0]] + b[1..];
    }
  }

  lemma {:induction false} LevAtLeastLengths(a: string, b: string)
    ensures Lev(a, b) + |a| >= |b| && Lev(a, b) + |b| >= |a|
  {
    if a != [] && b != [] {
      LevAtLeastLengths(a[1..], b);
      LevAtLeastLengths(a, b[1..]);
      LevAtLeastLengths(a[1..], b[1..]);
    }
  }

  predicate Near(a: string, b: string) {
    Lev(a, b) <= 1
  }

  /** An equal first letter can be dropped from both sides. */
  lemma NearOnEqualHeads(a: string, b: string)
    requires a != [] && b != [] && a[0] == b[0]
    ensures Near(a, b) <==> Near(a[1..], b[1..])
  {
    LevIsZero(a[1..], b);
    LevIsZero(a, b[1..]);
    if a[1..] == b {
      LevIsZero(b[1..], b[1..]);
      assert Lev(b, b[1..]) <= Lev(b[1..], b[1..]) + 1 by {
        if b[1..] == [] {} else {}
      }
    }
    if a == b[1..] {
      LevIsZero(a[1..], a[1..]);
      assert Lev(a[1..], a) <= Lev(a[1..], a[1..]) + 1 by {
        if a[1..] == [] {} else {}
      }
    }
  }

  /** At unequal first letters the one edit is used up. */
  lemma NearOnUnequalHeads(a: string, b: string)
    requires a != [] && b != [] && a[0] != b[0]
    ensures Near(a, b) <==> a[1..] == b[1..] || a[1..] == b || a == b[1..]
  {
    LevIsZero(a[1..], b);
    LevIsZero(a, b[1..]);
    LevIsZero(a[1..], b[1..]);
  }

  function Mismatches(a: string, b: string): nat
    requires |a| == |b|
  {
    if a == [] then 0 else (if a[0] == b[0] then 0 else 1) + Mismatches(a[1..], b[1..])
  }

  lemma {:induction false} NoMismatches(a: string, b: string)
    requires |a| == |b|
    ensures Mismatches(a, b) == 0 <==> a == b
  {
    if a != [] {
      NoMismatches(a[1..], b[1..]);
      assert a == [a[0]] + a[1..] && b == [b[0]] + b[1..];
    }
  }

  lemma {:induction false} NearAtEqualLength(a: string, b: string)
    requires |a| == |b|
    ensures Near(a, b) <==> Mismatches(a, b) <= 1
  {
    if a != [] {
      if a[0] == b[0] {
        NearOnEqualHeads(a, b);
        NearAtEqualLength(a[1..], b[1..]);
      } else {
        NearOnUnequalHeads(a, b);
        NoMismatches(a[1..], b[1..]);
      }
    }
  }

  /** The linear test decides whether the distance is at most one. */
  method WithinOneEdit(a: string, b: string) returns (near: bool)
    ensures near <==> Lev(a, b) <= 1
  {
    if a == b {
      LevIsZero(a, b);
      return true;
    }
    var la, lb := |a|, |b|;
    LevAtLeastLengths(a, b);
    if la > lb + 1 || lb > la + 1 {
      return false;
    }
    if la == lb {
      var diff := 0;
      NearAtEqualLength(a, b);
      for i := 0 to la
        invariant diff <= 1
        invariant diff + Mismatches(a[i..], b[i..]) == Mismatches(a, b)
      {
        if a[i] != b[i] {
          diff := diff + 1;
          if diff > 1 {
            return false;
          }
        }
      }
      return true;
    }
    var s, l := if la < lb then a else b, if la < lb then b else a;
    LevIsSymmetric(a, b);
    near := WithinOneInsertion(s, l);
  }

  /** The two-pointer loop for lengths that differ by one: l may hold one letter more than s. */
  method WithinOneInsertion(s: string, l: string) returns (near: bool)
    requires |l| == |s| + 1
    ensures near <==> Near(s, l)
  {
    var i, j, skipped := 0, 0, false;
    assert s[i..] == s && l[j..] == l;
    while i < |s| && j < |l|
      invariant 0 <= i <= |s| && j == i + if skipped then 1 else 0
      invariant if skipped then Near(s, l) <==> s[i..] == l[j..] else Near(s, l) <==> Near(s[i..], l[j..])
    {
      ghost var u, v := s[i..], l[j..];
      assert u == [s[i]] + s[i + 1..] && v == [l[j]] + l[j + 1..];
      assert u[1..] == s[i + 1..] && v[1..] == l[j + 1..];
      if s[i] == l[j] {
        if !skipped {
          NearOnEqualHeads(u, v);
        }
        i, j := i + 1, j + 1;
      } else if skipped {
        return false;
      } else {
        NearOnUnequalHeads(u, v);
        skipped, j := true, j + 1;
      }
    }
    return true;
  }

  // ---------------------------------------------------------------- greedy windows

  /** Left to right, take each hit whose window of width w fits below n, and jump past it. */
  function Greedy(hit: nat -> bool, w: nat, p: nat, n: nat): seq<nat>
    requires w > 0
    decreases n - p
  {
    if p + w > n then []
    else if hit(p) then [p] + Greedy(hit, w, p + w, n)
    else Greedy(hit, w, p + 1, n)
  }

  ghost predicate DisjointHits(ws: seq<nat>, hit: nat -> bool, w: nat, p: nat, n: nat) {
    && (forall i :: 0 <= i < |ws| ==> p <= ws[i] && ws[i] + w <= n && hit(ws[i]))
    && forall i, j :: 0 <= i < j < |ws| ==> ws[i] + w <= ws[j]
  }

  ghost predicate StartsInside(x: nat, ws: seq<nat>, w: nat) {
    exists i :: 0 <= i < |ws| && ws[i] <= x < ws[i] + w
  }

  lemma ConsDisjoint(rest: seq<nat>, hit: nat -> bool, w: nat, p: nat, n: nat)
    requires DisjointHits(rest, hit, w, p + w, n) && hit(p) && p + w <= n
    ensures DisjointHits([p] + rest, hit, w, p, n)
  {
    var ws := [p] + rest;
    forall i, j | 0 <= i < j < |ws| ensures ws[i] + w <= ws[j] {
      assert ws[j] == rest[j - 1];
      assert i > 0 ==> ws[i] == rest[i - 1];
    }
  }

  /** The windows are hits, ordered and disjoint. */
  lemma {:induction false} GreedyIsDisjoint(hit: nat -> bool, w: nat, p: nat, n: nat)
    requires w > 0
    ensures DisjointHits(Greedy(hit, w, p, n), hit, w, p, n)
    decreases n - p
  {
    if p + w <= n {
      if hit(p) {
        GreedyIsDisjoint(hit, w, p + w, n);
        ConsDisjoint(Greedy(hit, w, p + w, n), hit, w, p, n);
      } else {
        GreedyIsDisjoint(hit, w, p + 1, n);
      }
    }
  }

  /** Every hit starts inside one of the windows. */
  lemma {:induction false} GreedyCovers(hit: nat -> bool, w: nat, p: nat, n: nat, x: nat)
    requires w > 0 && p <= x && x + w <= n && hit(x)
    ensures StartsInside(x, Greedy(hit, w, p, n), w)
    decreases n - p
  {
    var ws := Greedy(hit, w, p, n);
    if hit(p) {
      if x < p + w {
        assert ws[0] <= x < ws[0] + w;
      } else {
        GreedyCovers(hit, w, p + w, n, x);
        var rest := Greedy(hit, w, p + w, n);
        var i :| 0 <= i < |rest| && rest[i] <= x < rest[i] + w;
        assert ws[i + 1] == rest[i];
      }
    } else {
      GreedyCovers(hit, w, p + 1, n, x);
    }
  }

  /** No other choice of disjoint hits is longer. */
  lemma {:induction false} GreedyIsMaximal(hit: nat -> bool, w: nat, p: nat, n: nat, ws: seq<nat>)
    requires w > 0 && DisjointHits(ws, hit, w, p, n)
    ensures |ws| <= |Greedy(hit, w, p, n)|
    decreases if n >= p then n - p else 0
  {
    if ws != [] {
      assert p <= ws[0] && ws[0] + w <= n && hit(ws[0]);
      if hit(p) {
        forall i | 0 <= i < |ws[1..]| ensures p + w <= ws[1..][i] {
          assert ws[0] + w <= ws[i + 1];
        }
        GreedyIsMaximal(hit, w, p + w, n, ws[1..]);
      } else {
        assert ws[0] != p;
        forall i | 0 <= i < |ws| ensures p + 1 <= ws[i] {
          assert i == 0 || ws[0] + w <= ws[i];
        }
        GreedyIsMaximal(hit, w, p + 1, n, ws);
      }
    }
  }

  // ---------------------------------------------------------------- tokens and matches

  datatype Token = Token(text: string, start: nat, end: nat, code: string)

  /** A segment as the search sees it: its lower-cased text, and its word tokens. */
  datatype SearchText = SearchText(lower: string, tokens: seq<Token>)

  datatype FindMatch = FindMatch(segmentIndex: nat, start: nat, end: nat)

  const MIN_TYPO_LENGTH := 5

  predicate TokensAgree(q: Token, t: Token) {
    q.text == t.text || q.code == t.code
    || (|q.text| >= MIN_TYPO_LENGTH && |t.text| >= MIN_TYPO_LENGTH && Lev(q.text, t.text) <= 1)
  }

  predicate WindowAgrees(query: seq<Token>, tokens: seq<Token>, p: nat) {
    p + |query| <= |tokens| && forall j :: 0 <= j < |query| ==> TokensAgree(query[j], tokens[p + j])
  }

  predicate Occurs(query: string, lower: string, p: nat) {
    p + |query| <= |lower| && lower[p..p + |query|] == query
  }

  function FuzzyHit(query: seq<Token>, tokens: seq<Token>): nat -> bool {
    (p: nat) => WindowAgrees(query, tokens, p)
  }

  function ExactHit(query: string, lower: string): nat -> bool {
    (p: nat) => Occurs(query, lower, p)
  }

  method TokensMatch(q: Token, t: Token) returns (ok: bool)
    ensures ok <==> TokensAgree(q, t)
    ensures ok <==> q.text == t.text || q.code == t.code || (|q.text| >= 5 && |t.text| >= 5 && Lev(q.text, t.text) <= 1)
  {
    if q.text == t.text {
      return true;
    }
    if q.code == t.code {
      return true;
    }
    if |q.text| >= MIN_TYPO_LENGTH && |t.text| >= MIN_TYPO_LENGTH {
      ok := WithinOneEdit(q.text, t.text);
    } else {
      ok := false;
    }
  }

  function FuzzyWindows(query: seq<Token>, tokens: seq<Token>): seq<nat>
    requires query != []
  {
    Greedy(FuzzyHit(query, tokens), |query|, 0, |tokens|)
  }

  function ExactWindows(query: string, lower: string): seq<nat>
    requires query != []
  {
    Greedy(ExactHit(query, lower), |query|, 0, |lower|)
  }

  predicate Fit(ws: seq<nat>, width: nat, n: nat) {
    forall i :: 0 <= i < |ws| ==> ws[i] + width <= n
  }

  /** Windows of tokens, as character ranges. */
  function TokenMatches(si: nat, width: nat, tokens: seq<Token>, ws: seq<nat>): seq<FindMatch>
    requires width > 0 && Fit(ws, width, |tokens|)
  {
    if ws == [] then []
    else [FindMatch(si, tokens[ws[0]].start, tokens[ws[0] + width - 1].end)]
         + TokenMatches(si, width, tokens, ws[1..])
  }

  function TextMatches(si: nat, width: nat, ws: seq<nat>): seq<FindMatch> {
    if ws == [] then []
    else [FindMatch(si, ws[0], ws[0] + width)] + TextMatches(si, width, ws[1..])
  }

  function SegmentMatches(si: nat, segment: SearchText, lower: string, query: seq<Token>, fuzzy: bool): seq<FindMatch> {
    if fuzzy then
      if query == [] then []
      else
        FuzzyFrom(si, query, segment.tokens, 0)
    else
      if lower == "" then [] else TextMatches(si, |lower|, ExactWindows(lower, segment.lower))
  }

  function AllMatches(segments: seq<SearchText>, lower: string, query: seq<Token>, fuzzy: bool): seq<FindMatch> {
    if segments == [] then []
    else
      var n := |segments| - 1;
      AllMatches(segments[..n], lower, query, fuzzy) + SegmentMatches(n, segments[n], lower, query, fuzzy)
  }

  /** `lower` is the trimmed, lower-cased query, `query` its tokens. */
  method FindMatches(segments: seq<SearchText>, lower: string, query: seq<Token>, fuzzy: bool)
    returns (out: seq<FindMatch>)
    ensures out == AllMatches(segments, lower, query, fuzzy)
  {
    out := [];
    for si := 0 to |segments|
      invariant out == AllMatches(segments[..si], lower, query, fuzzy)
    {
      assert segments[..si + 1][..si] == segments[..si];
      var found := [];
      if (!fuzzy && lower == "") || (fuzzy && query == []) {
      } else if fuzzy {
        found := FindFuzzy(si, segments[si].tokens, query);
      } else {
        found := FindExact(si, segments[si].lower, lower);
      }
      out := out + found;
    }
    assert segments[..|segments|] == segments;
  }

  lemma TextStep(si: nat, width: nat, at: nat, rest: seq<nat>)
    ensures TextMatches(si, width, [at] + rest) == [FindMatch(si, at, at + width)] + TextMatches(si, width, rest)
  {
    assert ([at] + rest)[1..] == rest;
  }

  lemma TokenStep(si: nat, width: nat, tokens: seq<Token>, p: nat, rest: seq<nat>)
    requires width > 0 && p + width <= |tokens|
    requires Fit(rest, width, |tokens|)
    ensures TokenMatches(si, width, tokens, [p] + rest)
         == [FindMatch(si, tokens[p].start, tokens[p + width - 1].end)] + TokenMatches(si, width, tokens, rest)
  {
    assert ([p] + rest)[1..] == rest;
  }

  /** Everything from `from` on, split at its first occurrence. */
  method NextExact(si: nat, lower: string, query: string, from: nat, ghost todo: seq<FindMatch>)
    returns (at: int, ghost rest: seq<FindMatch>)
    requires query != "" && from <= |lower|
    requires todo == TextMatches(si, |query|, Greedy(ExactHit(query, lower), |query|, from, |lower|))
    ensures at == -1 ==> todo == []
    ensures at != -1 ==> from <= at && at + |query| <= |lower|
    ensures at != -1 ==> todo == [FindMatch(si, at, at + |query|)] + rest
    ensures at != -1 ==>
      rest == TextMatches(si, |query|, Greedy(ExactHit(query, lower), |query|, at + |query|, |lower|))
  {
    at := IndexOf(lower, query, from);
    rest := [];
    if at != -1 {
      ghost var left := Greedy(ExactHit(query, lower), |query|, at + |query|, |lower|);
      TextStep(si, |query|, at, left);
      rest := TextMatches(si, |query|, left);
    }
  }

  method FindExact(si: nat, lower: string, query: string) returns (out: seq<FindMatch>)
    requires query != ""
    ensures out == TextMatches(si, |query|, ExactWindows(query, lower))
  {
    out := [];
    ghost var all := TextMatches(si, |query|, ExactWindows(query, lower));
    ghost var todo := all;
    var from := 0;
    while true
      invariant from <= |lower| && out + todo == all
      invariant todo == TextMatches(si, |query|, Greedy(ExactHit(query, lower), |query|, from, |lower|))
      decreases |lower| - from
    {
      var at;
      ghost var rest;
      at, rest := NextExact(si, lower, query, from, todo);
      if at == -1 {
        break;
      }
      assert (out + [FindMatch(si, at, at + |query|)]) + rest == out + ([FindMatch(si, at, at + |query|)] + rest);
      out, todo := out + [FindMatch(si, at, at + |query|)], rest;
      from := at + |query|;
    }
  }

  /** JavaScript's `indexOf`: the first occurrence at or after `from`, or -1. */
  method IndexOf(lower: string, query: string, from: nat) returns (at: int)
    requires query != "" && from <= |lower|
    ensures at == -1 ==> Greedy(ExactHit(query, lower), |query|, from, |lower|) == []
    ensures at != -1 ==> from <= at && Occurs(query, lower, at)
    ensures at != -1 ==> Greedy(ExactHit(query, lower), |query|, from, |lower|)
                         == [at] + Greedy(ExactHit(query, lower), |query|, at + |query|, |lower|)
  {
    var p := from;
    while p + |query| <= |lower|
      invariant from <= p <= |lower|
      invariant Greedy(ExactHit(query, lower), |query|, from, |lower|)
             == Greedy(ExactHit(query, lower), |query|, p, |lower|)
    {
      if lower[p..p + |query|] == query {
        return p;
      }
      p := p + 1;
    }
    return -1;
  }

  /** The matches of the windows from p on. */
  function FuzzyFrom(si: nat, query: seq<Token>, tokens: seq<Token>, p: nat): seq<FindMatch>
    requires query != []
  {
    GreedyFits(FuzzyHit(query, tokens), |query|, p, |tokens|);
    TokenMatches(si, |query|, tokens, Greedy(FuzzyHit(query, tokens), |query|, p, |tokens|))
  }

  method FindFuzzy(si: nat, tokens: seq<Token>, query: seq<Token>) returns (out: seq<FindMatch>)
    requires query != []
    ensures out == FuzzyFrom(si, query, tokens, 0)
  {
    out := [];
    var p := 0;
    while p + |query| <= |tokens|
      invariant out + FuzzyFrom(si, query, tokens, p) == FuzzyFrom(si, query, tokens, 0)
    {
      var ok := WindowMatches(query, tokens, p);
      FuzzyStep(si, query, tokens, p);
      if ok {
        out := out + [FindMatch(si, tokens[p].start, tokens[p + |query| - 1].end)];
        p := p + |query| - 1;
      }
      p := p + 1;
    }
    FuzzyEnd(si, query, tokens, p);
  }

  lemma GreedyFits(hit: nat -> bool, w: nat, p: nat, n: nat)
    requires w > 0
    ensures Fit(Greedy(hit, w, p, n), w, n)
  {
    GreedyIsDisjoint(hit, w, p, n);
  }

  lemma FuzzyStep(si: nat, query: seq<Token>, tokens: seq<Token>, p: nat)
    requires query != [] && p + |query| <= |tokens|
    ensures FuzzyFrom(si, query, tokens, p)
         == if WindowAgrees(query, tokens, p)
            then [FindMatch(si, tokens[p].start, tokens[p + |query| - 1].end)]
                 + FuzzyFrom(si, query, tokens, p + |query|)
            else FuzzyFrom(si, query, tokens, p + 1)
  {
    if WindowAgrees(query, tokens, p) {
      GreedyFits(FuzzyHit(query, tokens), |query|, p + |query|, |tokens|);
      TokenStep(si, |query|, tokens, p, Greedy(FuzzyHit(query, tokens), |query|, p + |query|, |tokens|));
    }
  }

  lemma FuzzyEnd(si: nat, query: seq<Token>, tokens: seq<Token>, p: nat)
    requires query != [] && p + |query| > |tokens|
    ensures FuzzyFrom(si, query, tokens, p) == []
  {
  }

  method WindowMatches(query: seq<Token>, tokens: seq<Token>, p: nat) returns (ok: bool)
    requires p + |query| <= |tokens|
    ensures ok <==> WindowAgrees(query, tokens, p)
  {
    for j := 0 to |query|
      invariant forall i :: 0 <= i < j ==> TokensAgree(query[i], tokens[p + i])
    {
      ok := TokensMatch(query[j], tokens[p + j]);
      if !ok {
        return false;
      }
    }
    return true;
  }

  // ---------------------------------------------------------------- the order of the matches

  /** Tokens as a regular expression scan yields them: non-empty and left to right. */
  ghost predicate TokensInOrder(tokens: seq<Token>) {
    && (forall i :: 0 <= i < |tokens| ==> tokens[i].start < tokens[i].end)
    && forall i, j :: 0 <= i < j < |tokens| ==> tokens[i].end <= tokens[j].start
  }

  ghost predicate Ordered(ms: seq<FindMatch>) {
    forall i, j :: 0 <= i < j < |ms| ==>
      ms[i].segmentIndex < ms[j].segmentIndex
      || (ms[i].segmentIndex == ms[j].segmentIndex && ms[i].end <= ms[j].start)
  }

  lemma {:induction false} TokenMatchesAre(si: nat, width: nat, tokens: seq<Token>, ws: seq<nat>)
    requires width > 0 && Fit(ws, width, |tokens|)
    ensures |TokenMatches(si, width, tokens, ws)| == |ws|
    ensures forall i :: 0 <= i < |ws| ==>
      TokenMatches(si, width, tokens, ws)[i] == FindMatch(si, tokens[ws[i]].start, tokens[ws[i] + width - 1].end)
  {
    if ws != [] {
      TokenMatchesAre(si, width, tokens, ws[1..]);
    }
  }

  lemma TokenMatchesOrdered(si: nat, width: nat, tokens: seq<Token>, ws: seq<nat>)
    requires width > 0 && TokensInOrder(tokens)
    requires Fit(ws, width, |tokens|)
    requires forall i, j :: 0 <= i < j < |ws| ==> ws[i] + width <= ws[j]
    ensures Ordered(TokenMatches(si, width, tokens, ws))
  {
    TokenMatchesAre(si, width, tokens, ws);
    var ms := TokenMatches(si, width, tokens, ws);
    forall i, j | 0 <= i < j < |ms| ensures ms[i].segmentIndex == ms[j].segmentIndex && ms[i].end <= ms[j].start {
      assert ws[i] + width - 1 < ws[j];
    }
  }

  lemma {:induction false} TextMatchesAre(si: nat, width: nat, ws: seq<nat>)
    ensures |TextMatches(si, width, ws)| == |ws|
    ensures forall i :: 0 <= i < |ws| ==> TextMatches(si, width, ws)[i] == FindMatch(si, ws[i], ws[i] + width)
  {
    if ws != [] {
      TextMatchesAre(si, width, ws[1..]);
    }
  }

  lemma SegmentMatchesOrdered(si: nat, segment: SearchText, lower: string, query: seq<Token>, fuzzy: bool)
    requires TokensInOrder(segment.tokens)
    ensures var ms := SegmentMatches(si, segment, lower, query, fuzzy);
            Ordered(ms) && forall m :: m in ms ==> m.segmentIndex == si
  {
    if fuzzy && query != [] {
      var hit := FuzzyHit(query, segment.tokens);
      GreedyIsDisjoint(hit, |query|, 0, |segment.tokens|);
      TokenMatchesAre(si, |query|, segment.tokens, FuzzyWindows(query, segment.tokens));
      TokenMatchesOrdered(si, |query|, segment.tokens, FuzzyWindows(query, segment.tokens));
    } else if !fuzzy && lower != "" {
      var hit := ExactHit(lower, segment.lower);
      GreedyIsDisjoint(hit, |lower|, 0, |segment.lower|);
      TextMatchesAre(si, |lower|, ExactWindows(lower, segment.lower));
    }
  }

  /** Main result: matches come segment by segment, left to right, and never overlap. */
  lemma {:induction false} MatchesAreOrdered(segments: seq<SearchText>, lower: string, query: seq<Token>, fuzzy: bool)
    requires forall i :: 0 <= i < |segments| ==> TokensInOrder(segments[i].tokens)
    ensures var ms := AllMatches(segments, lower, query, fuzzy);
            Ordered(ms) && forall m :: m in ms ==> m.segmentIndex < |segments|
  {
    if segments != [] {
      var n := |segments| - 1;
      MatchesAreOrdered(segments[..n], lower, query, fuzzy);
      SegmentMatchesOrdered(n, segments[n], lower, query, fuzzy);
      var front := AllMatches(segments[..n], lower, query, fuzzy);
      var back := SegmentMatches(n, segments[n], lower, query, fuzzy);
      var ms: seq<FindMatch> := front + back;
      forall i, j | 0 <= i < j < |ms|
        ensures ms[i].segmentIndex < ms[j].segmentIndex
                || (ms[i].segmentIndex == ms[j].segmentIndex && ms[i].end <= ms[j].start)
      {
        if i < |front| <= j {
          assert front[i] in front && back[j - |front|] in back;
        }
      }
    }
  }

  /** Main result: a window of tokens that agrees with the query starts inside a reported window,
      and no choice of disjoint agreeing windows is longer than the reported one. */
  lemma FuzzyMissesNothing(query: seq<Token>, tokens: seq<Token>, p: nat, others: seq<nat>)
    requires query != [] && WindowAgrees(query, tokens, p)
    requires DisjointHits(others, FuzzyHit(query, tokens), |query|, 0, |tokens|)
    ensures StartsInside(p, FuzzyWindows(query, tokens), |query|)
    ensures |others| <= |FuzzyWindows(query, tokens)|
  {
    var hit := FuzzyHit(query, tokens);
    GreedyCovers(hit, |query|, 0, |tokens|, p);
    GreedyIsMaximal(hit, |query|, 0, |tokens|, others);
  }

  lemma ExactMissesNothing(query: string, lower: string, p: nat, others: seq<nat>)
    requires query != "" && Occurs(query, lower, p)
    requires DisjointHits(others, ExactHit(query, lower), |query|, 0, |lower|)
    ensures StartsInside(p, ExactWindows(query, lower), |query|)
    ensures |others| <= |ExactWindows(query, lower)|
  {
    var hit := ExactHit(query, lower);
    GreedyCovers(hit, |query|, 0, |lower|, p);
    GreedyIsMaximal(hit, |query|, 0, |lower|, others);
  }

  // ---------------------------------------------------------------- what the returned matches cover

  lemma {:induction false} SegmentIsReported(segments: seq<SearchText>, lower: string, query: seq<Token>, fuzzy: bool, si: nat)
    requires si < |segments|
    ensures forall m :: m in SegmentMatches(si, segments[si], lower, query, fuzzy) ==>
      m in AllMatches(segments, lower, query, fuzzy)
  {
    var n := |segments| - 1;
    if si < n {
      SegmentIsReported(segments[..n], lower, query, fuzzy, si);
      assert segments[..n][si] == segments[si];
    }
  }

  /** A reported match of segment si has this position inside. */
  ghost predicate Reported(ms: seq<FindMatch>, si: nat, at: nat) {
    exists m :: m in ms && m.segmentIndex == si && m.start <= at < m.end
  }

  lemma TokensAscend(tokens: seq<Token>, i: nat, j: nat)
    requires TokensInOrder(tokens) && i <= j < |tokens|
    ensures tokens[i].start <= tokens[j].start && tokens[i].end <= tokens[j].end
  {
  }

  lemma TokenMatchAt(si: nat, width: nat, tokens: seq<Token>, ws: seq<nat>, i: nat)
    requires width > 0 && Fit(ws, width, |tokens|) && i < |ws|
    ensures FindMatch(si, tokens[ws[i]].start, tokens[ws[i] + width - 1].end) in TokenMatches(si, width, tokens, ws)
  {
    TokenMatchesAre(si, width, tokens, ws);
    assert TokenMatches(si, width, tokens, ws)[i] in TokenMatches(si, width, tokens, ws);
  }

  lemma CharInWindow(tokens: seq<Token>, first: nat, p: nat, last: nat)
    requires TokensInOrder(tokens) && first <= p <= last < |tokens|
    ensures tokens[first].start <= tokens[p].start < tokens[last].end
  {
    TokensAscend(tokens, first, p);
    TokensAscend(tokens, p, last);
  }

  lemma CoveringMatch(si: nat, width: nat, tokens: seq<Token>, ws: seq<nat>, p: nat) returns (m: FindMatch)
    requires width > 0 && Fit(ws, width, |tokens|) && TokensInOrder(tokens)
    requires StartsInside(p, ws, width) && p < |tokens|
    ensures m in TokenMatches(si, width, tokens, ws) && m.segmentIndex == si && m.start <= tokens[p].start < m.end
  {
    var i :| 0 <= i < |ws| && ws[i] <= p < ws[i] + width;
    TokenMatchAt(si, width, tokens, ws, i);
    CharInWindow(tokens, ws[i], p, ws[i] + width - 1);
    m := FindMatch(si, tokens[ws[i]].start, tokens[ws[i] + width - 1].end);
  }

  /** Main result: whatever segment it is in, a window of tokens that agrees with the query starts
      inside a match that `FindMatches` returns for that segment. */
  lemma FuzzySearchMissesNothing(segments: seq<SearchText>, lower: string, query: seq<Token>, si: nat, p: nat)
    requires si < |segments| && TokensInOrder(segments[si].tokens)
    requires query != [] && WindowAgrees(query, segments[si].tokens, p)
    ensures Reported(AllMatches(segments, lower, query, true), si, segments[si].tokens[p].start)
  {
    var tokens := segments[si].tokens;
    GreedyCovers(FuzzyHit(query, tokens), |query|, 0, |tokens|, p);
    GreedyFits(FuzzyHit(query, tokens), |query|, 0, |tokens|);
    var m := CoveringMatch(si, |query|, tokens, FuzzyWindows(query, tokens), p);
    assert m in SegmentMatches(si, segments[si], lower, query, true);
    SegmentIsReported(segments, lower, query, true, si);
  }

  /** Main result: the same for an occurrence of the query's text. */
  lemma ExactSearchMissesNothing(segments: seq<SearchText>, lower: string, query: seq<Token>, si: nat, p: nat)
    requires si < |segments| && lower != "" && Occurs(lower, segments[si].lower, p)
    ensures Reported(AllMatches(segments, lower, query, false), si, p)
  {
    var text := segments[si].lower;
    var ws := ExactWindows(lower, text);
    GreedyCovers(ExactHit(lower, text), |lower|, 0, |text|, p);
    TextMatchesAre(si, |lower|, ws);
    var i :| 0 <= i < |ws| && ws[i] <= p < ws[i] + |lower|;
    var m := TextMatches(si, |lower|, ws)[i];
    assert m in SegmentMatches(si, segments[si], lower, query, false);
    SegmentIsReported(segments, lower, query, false, si);
  }
}

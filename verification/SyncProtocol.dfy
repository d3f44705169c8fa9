/** Pulls of one laptop interleaved with a hub that keeps changing: what has synced is never
    missed (speechtotext/api/routes_sync.py, speechtotext/client/sync_puller.py). */
module SyncProtocol {
  import opened Wrappers
  import opened SyncDelta

  /** The request in flight. `asked` is the newest mtime ever used on the hub when the page was
      listed; the protocol does not see it, the proof does. */
  datatype Pull =
    | Idle
    | Reading(asked: real, limit: nat, rows: seq<Row>, next: nat, answer: Answer, maxMtime: real)
    | Writing(asked: real, docs: seq<Wire>, cursor: real)

  /** `files`: the hub's directory. `high`: the newest mtime it ever used. `synced`, `cursor`: on
      the laptop's disk. */
  datatype Sys = Sys(files: map<Id, File>, high: real, synced: map<Id, Doc>, cursor: real, pull: Pull)

  datatype Event =
    | HubWrite(id: Id, content: Option<Doc>, mtime: real)
    | HubDelete(id: Id)
    | Ask(limit: nat, rows: seq<Row>, maxMtime: real)
    | ReadDoc
    | Reply
    | WriteDoc
    | SaveCursor
    | Interrupt

  /** A file at its old mtime, or nothing. */
  function ContentOf(files: map<Id, File>, id: Id): Option<Doc> {
    if id in files then files[id].content else None
  }

  ghost predicate Enabled(s: Sys, e: Event) {
    match e
    case HubWrite(id, _, mtime) => id != "" && mtime > s.high
    case HubDelete(id) => id in s.files
    case Ask(limit, rows, maxMtime) =>
      s.pull.Idle? && limit > 0 && IsPage(rows, s.files, s.cursor, limit) && IsMaxMtime(maxMtime, s.files)
    case ReadDoc => s.pull.Reading? && s.pull.next < |s.pull.rows|
    case Reply => s.pull.Reading? && s.pull.next == |s.pull.rows|
    case WriteDoc => s.pull.Writing? && s.pull.docs != []
    case SaveCursor => s.pull.Writing? && s.pull.docs == []
    case Interrupt => true
  }

  /** The state after an event. `Interrupt` is a lost connection or a dead process at any point. */
  function Apply(s: Sys, e: Event): Sys {
    match e
    case HubWrite(id, content, mtime) => s.(files := s.files[id := File(mtime, content)], high := mtime)
    case HubDelete(id) => s.(files := s.files - {id})
    case Ask(limit, rows, maxMtime) =>
      s.(pull := Reading(s.high, limit, rows, 0, Answer([], s.cursor), maxMtime))
    case ReadDoc =>
      if s.pull.Reading? && s.pull.next < |s.pull.rows| then
        var row := s.pull.rows[s.pull.next];
        s.(pull := s.pull.(next := s.pull.next + 1,
                           answer := Accept(s.pull.answer, row, ContentOf(s.files, row.id))))
      else s
    case Reply =>
      if s.pull.Reading? then
        var a := Finish(s.pull.answer, s.pull.maxMtime);
        s.(pull := Writing(s.pull.asked, a.docs, a.cursor))
      else s
    case WriteDoc =>
      if s.pull.Writing? && s.pull.docs != [] then
        s.(synced := WriteOne(s.synced, s.pull.docs[0]), pull := s.pull.(docs := s.pull.docs[1..]))
      else s
    case SaveCursor =>
      if s.pull.Writing? then s.(cursor := MaxReal(s.cursor, s.pull.cursor), pull := Idle) else s
    case Interrupt => s.(pull := Idle)
  }

  // ---------------------------------------------------------------- the invariant

  /** Every sendable hub file up to mtime `c` is on the laptop in its current version. */
  ghost predicate Covered(s: Sys, c: real) {
    forall id :: id in s.files && s.files[id].mtime <= c && Sendable(s.files[id].content) ==>
      Lookup(s.synced, id) == s.files[id].content
  }

  /** A document on its way belongs to a file that has become newer than the cursor, and is that
      file's version unless the hub replaced it after the page was listed. */
  ghost predicate Fresh(s: Sys, w: Wire, asked: real) {
    w.id in s.files ==>
      s.files[w.id].mtime > s.cursor
      && (s.files[w.id].mtime <= asked ==> s.files[w.id].content == Some(w.doc))
  }

  /** No two documents of one answer have the same id. */
  ghost predicate Distinct(docs: seq<Wire>) {
    forall i, j :: 0 <= i < j < |docs| ==> docs[i].id != docs[j].id
  }

  ghost predicate InDocs(docs: seq<Wire>, id: Id, content: Option<Doc>) {
    exists i :: 0 <= i < |docs| && docs[i].id == id && content == Some(docs[i].doc)
  }

  /** The page: newer than the cursor, oldest first, one row per id. */
  ghost predicate GoodPage(s: Sys, p: Pull)
    requires p.Reading?
  {
    && p.next <= |p.rows| <= p.limit && s.cursor <= p.asked <= s.high && p.maxMtime <= p.asked
    && (forall i :: 0 <= i < |p.rows| ==> s.cursor < p.rows[i].mtime <= p.asked && p.rows[i].id != "")
    && (forall i, j :: 0 <= i < j < |p.rows| ==> p.rows[i].mtime <= p.rows[j].mtime)
    && (forall i, j :: 0 <= i < j < |p.rows| ==> p.rows[i].id != p.rows[j].id)
  }

  ghost predicate ReadBefore(p: Pull, id: Id)
    requires p.Reading? && p.next <= |p.rows|
  {
    exists i :: 0 <= i < p.next && p.rows[i].id == id
  }

  /** The answer so far: documents of rows already read, cursor at the newest of them. */
  ghost predicate GoodAnswer(s: Sys, p: Pull)
    requires p.Reading? && p.next <= |p.rows|
  {
    && (p.answer.docs == [] ==> p.answer.cursor == s.cursor)
    && (p.answer.docs != [] ==> exists i :: 0 <= i < p.next && p.rows[i].mtime == p.answer.cursor)
    && Distinct(p.answer.docs)
    && (forall k :: 0 <= k < |p.answer.docs| ==> ReadBefore(p, p.answer.docs[k].id))
  }

  ghost predicate AllFresh(s: Sys, docs: seq<Wire>, asked: real) {
    forall k :: 0 <= k < |docs| ==> Fresh(s, docs[k], asked)
  }

  /** Files not replaced since the page was listed are in the page, or beyond its end. */
  ghost predicate PageIsCurrent(s: Sys, p: Pull)
    requires p.Reading?
  {
    && (forall i :: 0 <= i < |p.rows| && p.rows[i].id in s.files ==>
          s.files[p.rows[i].id].mtime == p.rows[i].mtime || s.files[p.rows[i].id].mtime > p.asked)
    && (forall id :: id in s.files && s.cursor < s.files[id].mtime <= p.asked ==>
          Listed(p, id) || Beyond(p, s.files[id].mtime))
  }

  ghost predicate Beyond(p: Pull, mtime: real)
    requires p.Reading?
  {
    |p.rows| == p.limit && forall i :: 0 <= i < |p.rows| ==> p.rows[i].mtime < mtime
  }

  /** A row that was read left its document in the answer, unless the hub replaced it since. */
  ghost predicate ReadsAreKept(s: Sys, p: Pull)
    requires p.Reading? && p.next <= |p.rows|
  {
    forall i | 0 <= i < p.next && p.rows[i].id in s.files
      && s.files[p.rows[i].id].mtime <= p.asked && Sendable(s.files[p.rows[i].id].content) ::
      && InDocs(p.answer.docs, p.rows[i].id, s.files[p.rows[i].id].content)
      && p.rows[i].mtime <= p.answer.cursor
  }

  ghost predicate GoodReading(s: Sys) {
    s.pull.Reading? ==>
      && GoodPage(s, s.pull)
      && GoodAnswer(s, s.pull)
      && AllFresh(s, s.pull.answer.docs, s.pull.asked)
      && PageIsCurrent(s, s.pull)
      && ReadsAreKept(s, s.pull)
  }

  ghost predicate Listed(p: Pull, id: Id)
    requires p.Reading?
  {
    exists i :: 0 <= i < |p.rows| && p.rows[i].id == id
  }

  /** A sendable file the page does not list, between the cursor and the library's newest mtime: the
      hub sees all of it when it answers. */
  ghost predicate JumpedOver(s: Sys, id: Id)
    requires s.pull.Reading?
  {
    && id in s.files && Sendable(s.files[id].content)
    && s.cursor < s.files[id].mtime <= s.pull.maxMtime && !Listed(s.pull, id)
  }

  /** A reply carries a document or jumps over no sendable file. */
  ghost predicate SafeReply(s: Sys, e: Event) {
    e.Reply? && s.pull.Reading? ==> s.pull.answer.docs != [] || forall id :: !JumpedOver(s, id)
  }

  /** While documents are written: whatever the new cursor covers is on disk or still to come. */
  ghost predicate GoodWriting(s: Sys) {
    s.pull.Writing? ==>
      var p := s.pull;
      && p.cursor <= p.asked <= s.high && s.cursor <= p.cursor
      && Distinct(p.docs)
      && (forall k :: 0 <= k < |p.docs| ==> p.docs[k].id != "")
      && AllFresh(s, p.docs, p.asked)
      && (forall id :: id in s.files && s.files[id].mtime <= p.cursor && Sendable(s.files[id].content) ==>
            Lookup(s.synced, id) == s.files[id].content || InDocs(p.docs, id, s.files[id].content))
  }

  /** mtimes on the hub are distinct and no newer than `high`. */
  ghost predicate GoodFiles(s: Sys) {
    && (forall id :: id in s.files ==> 0.0 < s.files[id].mtime <= s.high && id != "")
    && (forall a, b :: a in s.files && b in s.files && a != b ==> s.files[a].mtime != s.files[b].mtime)
    && 0.0 <= s.cursor <= s.high
  }

  ghost predicate Inv(s: Sys) {
    GoodFiles(s) && Covered(s, s.cursor) && GoodReading(s) && GoodWriting(s)
  }

  /** The hub's own changes leave everything at or below `asked` alone. */
  lemma HubChangeKeepsInv(s: Sys, e: Event)
    requires Inv(s) && Enabled(s, e) && (e.HubWrite? || e.HubDelete?)
    ensures Inv(Apply(s, e))
  {
    var t := Apply(s, e);
    if s.pull.Reading? {
      HubChangeKeepsFresh(s, e, s.pull.answer.docs, s.pull.asked);
      HubChangeKeepsPage(s, e);
      HubChangeKeepsReads(s, e);
    }
    if s.pull.Writing? {
      HubChangeKeepsFresh(s, e, s.pull.docs, s.pull.asked);
    }
  }

  lemma HubChangeKeepsFresh(s: Sys, e: Event, docs: seq<Wire>, asked: real)
    requires GoodFiles(s) && Enabled(s, e) && (e.HubWrite? || e.HubDelete?)
    requires AllFresh(s, docs, asked) && asked <= s.high
    ensures AllFresh(Apply(s, e), docs, asked)
  {
    forall k | 0 <= k < |docs| ensures Fresh(Apply(s, e), docs[k], asked) {
      assert Fresh(s, docs[k], asked);
    }
  }

  lemma HubChangeKeepsPage(s: Sys, e: Event)
    requires GoodFiles(s) && Enabled(s, e) && (e.HubWrite? || e.HubDelete?)
    requires s.pull.Reading? && PageIsCurrent(s, s.pull) && s.pull.asked <= s.high
    ensures PageIsCurrent(Apply(s, e), s.pull)
  {
  }

  lemma HubChangeKeepsReads(s: Sys, e: Event)
    requires GoodFiles(s) && Enabled(s, e) && (e.HubWrite? || e.HubDelete?)
    requires s.pull.Reading? && s.pull.next <= |s.pull.rows| && s.pull.asked <= s.high
    requires ReadsAreKept(s, s.pull)
    ensures ReadsAreKept(Apply(s, e), s.pull)
  {
  }

  lemma AskKeepsInv(s: Sys, e: Event)
    requires Inv(s) && Enabled(s, e) && e.Ask?
    ensures Inv(Apply(s, e))
  {
    var t := Apply(s, e);
    forall id | id in t.files && t.cursor < t.files[id].mtime <= t.pull.asked
      ensures Listed(t.pull, id) || Beyond(t.pull, t.files[id].mtime)
    {
      var row := Row(id, s.files[id].mtime);
      if row in e.rows {
        var i :| 0 <= i < |e.rows| && e.rows[i] == row;
        assert t.pull.rows[i].id == id;
      } else if exists i :: 0 <= i < |e.rows| && e.rows[i].id == id {
        var i :| 0 <= i < |e.rows| && e.rows[i].id == id;
        assert e.rows[i] == row;
      }
    }
  }

  lemma ReadDocKeepsAnswer(s: Sys)
    requires Inv(s) && Enabled(s, ReadDoc)
    ensures GoodAnswer(Apply(s, ReadDoc), Apply(s, ReadDoc).pull)
  {
    var p, q := s.pull, Apply(s, ReadDoc).pull;
    var row, n := p.rows[p.next], |p.answer.docs|;
    forall k | 0 <= k < |q.answer.docs| ensures ReadBefore(q, q.answer.docs[k].id) {
      if k < n {
        assert ReadBefore(p, p.answer.docs[k].id);
        var i :| 0 <= i < p.next && p.rows[i].id == p.answer.docs[k].id;
        assert q.rows[i].id == q.answer.docs[k].id;
      } else {
        assert q.rows[p.next].id == q.answer.docs[k].id;
      }
    }
    forall i, j | 0 <= i < j < |q.answer.docs| ensures q.answer.docs[i].id != q.answer.docs[j].id {
      if j == n {
        assert ReadBefore(p, p.answer.docs[i].id);
      }
    }
    if |q.answer.docs| > n {
      if p.answer.docs != [] {
        var i :| 0 <= i < p.next && p.rows[i].mtime == p.answer.cursor;
        assert p.rows[i].mtime <= row.mtime;
      }
      assert q.rows[p.next].mtime == q.answer.cursor;
    } else if n > 0 {
      var i :| 0 <= i < p.next && p.rows[i].mtime == p.answer.cursor;
      assert q.rows[i].mtime == q.answer.cursor;
    }
  }

  lemma ReadDocKeepsReads(s: Sys)
    requires Inv(s) && Enabled(s, ReadDoc)
    ensures ReadsAreKept(Apply(s, ReadDoc), Apply(s, ReadDoc).pull)
  {
    var p, q := s.pull, Apply(s, ReadDoc).pull;
    var n := |p.answer.docs|;
    forall i | 0 <= i < q.next && q.rows[i].id in s.files
      && s.files[q.rows[i].id].mtime <= q.asked && Sendable(s.files[q.rows[i].id].content)
      ensures InDocs(q.answer.docs, q.rows[i].id, s.files[q.rows[i].id].content)
      ensures q.rows[i].mtime <= q.answer.cursor
    {
      if i < p.next {
        assert InDocs(p.answer.docs, p.rows[i].id, s.files[p.rows[i].id].content);
        var k :| 0 <= k < n && p.answer.docs[k].id == p.rows[i].id
                 && s.files[p.rows[i].id].content == Some(p.answer.docs[k].doc);
        assert q.answer.docs[k] == p.answer.docs[k];
      } else {
        assert q.answer.docs[n].id == q.rows[i].id;
      }
    }
  }

  lemma ReadDocKeepsFresh(s: Sys)
    requires Inv(s) && Enabled(s, ReadDoc)
    ensures AllFresh(Apply(s, ReadDoc), Apply(s, ReadDoc).pull.answer.docs, s.pull.asked)
  {
    var p, q := s.pull, Apply(s, ReadDoc).pull;
    forall k | 0 <= k < |q.answer.docs| ensures Fresh(Apply(s, ReadDoc), q.answer.docs[k], p.asked) {
      if k < |p.answer.docs| {
        assert Fresh(s, p.answer.docs[k], p.asked);
      }
    }
  }

  lemma ReadDocKeepsPage(s: Sys)
    requires Inv(s) && Enabled(s, ReadDoc)
    ensures PageIsCurrent(Apply(s, ReadDoc), Apply(s, ReadDoc).pull)
  {
    var p, q := s.pull, Apply(s, ReadDoc).pull;
    forall id | id in s.files && s.cursor < s.files[id].mtime <= p.asked
      ensures Listed(q, id) || Beyond(q, s.files[id].mtime)
    {
      if Listed(p, id) {
        var i :| 0 <= i < |p.rows| && p.rows[i].id == id;
        assert q.rows[i].id == id;
      }
    }
  }

  lemma ReadDocKeepsInv(s: Sys, e: Event)
    requires Inv(s) && Enabled(s, e) && e.ReadDoc?
    ensures Inv(Apply(s, e))
  {
    ReadDocKeepsAnswer(s);
    ReadDocKeepsReads(s);
    ReadDocKeepsFresh(s);
    ReadDocKeepsPage(s);
  }

  lemma ListedOrBeyond(s: Sys, id: Id)
    requires Inv(s) && s.pull.Reading? && id in s.files && Sendable(s.files[id].content)
    requires s.cursor < s.files[id].mtime <= s.pull.asked
    ensures Listed(s.pull, id) || Beyond(s.pull, s.files[id].mtime)
    ensures s.files[id].mtime <= s.pull.maxMtime ==> Listed(s.pull, id) || JumpedOver(s, id)
  {
  }

  /** Whatever the reply's cursor covers is in the reply or already on the laptop. */
  lemma ReplyCovers(s: Sys, id: Id)
    requires Inv(s) && Enabled(s, Reply) && SafeReply(s, Reply)
    requires var a := Finish(s.pull.answer, s.pull.maxMtime);
             id in s.files && s.cursor < s.files[id].mtime <= a.cursor && Sendable(s.files[id].content)
    ensures InDocs(s.pull.answer.docs, id, s.files[id].content)
  {
    var p := s.pull;
    ListedOrBeyond(s, id);
    assert Listed(p, id);
    var i :| 0 <= i < |p.rows| && p.rows[i].id == id;
    assert s.files[p.rows[i].id].mtime == p.rows[i].mtime;
  }

  lemma ReplyKeepsInv(s: Sys, e: Event)
    requires Inv(s) && Enabled(s, e) && e.Reply? && SafeReply(s, e)
    ensures Inv(Apply(s, e))
  {
    var t := Apply(s, e);
    var p, q := s.pull, t.pull;
    forall k | 0 <= k < |q.docs| ensures q.docs[k].id != "" && Fresh(t, q.docs[k], q.asked) {
      assert Fresh(s, p.answer.docs[k], p.asked);
      assert ReadBefore(p, p.answer.docs[k].id);
    }
    if p.answer.docs != [] {
      var i :| 0 <= i < p.next && p.rows[i].mtime == p.answer.cursor;
    }
    forall id | id in t.files && t.files[id].mtime <= q.cursor && Sendable(t.files[id].content)
      ensures Lookup(t.synced, id) == t.files[id].content || InDocs(q.docs, id, t.files[id].content)
    {
      if t.files[id].mtime > s.cursor {
        ReplyCovers(s, id);
      }
    }
  }

  lemma WriteDocKeepsInv(s: Sys, e: Event)
    requires Inv(s) && Enabled(s, e) && e.WriteDoc?
    ensures Inv(Apply(s, e))
  {
    var t := Apply(s, e);
    var p, q := s.pull, t.pull;
    var w := p.docs[0];
    assert Fresh(s, w, p.asked);
    forall k | 0 <= k < |q.docs| ensures q.docs[k].id != "" && Fresh(t, q.docs[k], q.asked) {
      assert q.docs[k] == p.docs[k + 1];
      assert Fresh(s, p.docs[k + 1], p.asked);
    }
    forall id | id in t.files && t.files[id].mtime <= q.cursor && Sendable(t.files[id].content)
      ensures Lookup(t.synced, id) == t.files[id].content || InDocs(q.docs, id, t.files[id].content)
    {
      if id != w.id && InDocs(p.docs, id, s.files[id].content) {
        var i :| 0 <= i < |p.docs| && p.docs[i].id == id && s.files[id].content == Some(p.docs[i].doc);
        assert q.docs[i - 1] == p.docs[i];
      }
    }
  }

  lemma StepKeepsInv(s: Sys, e: Event)
    requires Inv(s) && Enabled(s, e) && SafeReply(s, e)
    ensures Inv(Apply(s, e))
    ensures Apply(s, e).cursor >= s.cursor
  {
    match e
    case HubWrite(_, _, _) => HubChangeKeepsInv(s, e);
    case HubDelete(_) => HubChangeKeepsInv(s, e);
    case Ask(_, _, _) => AskKeepsInv(s, e);
    case ReadDoc => ReadDocKeepsInv(s, e);
    case Reply => ReplyKeepsInv(s, e);
    case WriteDoc => WriteDocKeepsInv(s, e);
    case SaveCursor =>
    case Interrupt =>
  }

  // ---------------------------------------------------------------- whole runs

  ghost predicate Run(ss: seq<Sys>, es: seq<Event>) {
    && |ss| == |es| + 1
    && forall i :: 0 <= i < |es| ==>
         Enabled(ss[i], es[i]) && SafeReply(ss[i], es[i]) && ss[i + 1] == Apply(ss[i], es[i])
  }

  /** A laptop that has just joined. */
  ghost predicate Start(s: Sys) {
    GoodFiles(s) && s.cursor == 0.0 && s.pull.Idle?
  }

  lemma {:induction false} RunKeepsInv(ss: seq<Sys>, es: seq<Event>, i: nat)
    requires Run(ss, es) && Start(ss[0]) && i < |ss|
    ensures Inv(ss[i])
  {
    if i > 0 {
      RunKeepsInv(ss, es, i - 1);
      StepKeepsInv(ss[i - 1], es[i - 1]);
    }
  }

  /** Main result: in every interleaving of hub writes, deletions, pulls and interruptions, each
      sendable file whose mtime the cursor has reached is on the laptop in its current version. */
  lemma NothingBehindTheCursorIsMissing(ss: seq<Sys>, es: seq<Event>, i: nat, id: Id)
    requires Run(ss, es) && Start(ss[0]) && i < |ss|
    requires id in ss[i].files && ss[i].files[id].mtime <= ss[i].cursor && Sendable(ss[i].files[id].content)
    ensures id in ss[i].synced && ss[i].files[id].content == Some(ss[i].synced[id])
  {
    RunKeepsInv(ss, es, i);
  }

  lemma {:induction false} CursorNeverDecreases(ss: seq<Sys>, es: seq<Event>, i: nat, j: nat)
    requires Run(ss, es) && Start(ss[0]) && i <= j < |ss|
    ensures ss[i].cursor <= ss[j].cursor
  {
    if i < j {
      CursorNeverDecreases(ss, es, i, j - 1);
      RunKeepsInv(ss, es, j - 1);
      CursorStep(ss[j - 1], es[j - 1]);
    }
  }

  lemma CursorStep(s: Sys, e: Event)
    requires Inv(s) && Enabled(s, e)
    ensures s.cursor <= Apply(s, e).cursor
  {
  }

  // ---------------------------------------------------------------- progress on a quiet hub

  predicate OwnStep(e: Event) {
    !e.HubWrite? && !e.HubDelete? && !e.Interrupt?
  }

  /** The hub files the cursor has not reached. */
  function Behind(s: Sys): set<Id> {
    set id | id in s.files && s.files[id].mtime > s.cursor
  }

  ghost predicate Ahead(s: Sys, c: real) {
    Behind(s) != {} ==> exists id :: id in Behind(s) && s.files[id].mtime <= c
  }

  /** With a quiet hub the answer in flight will carry the cursor past some file. */
  ghost predicate Progressing(s: Sys) {
    match s.pull
    case Idle => true
    case Reading(_, _, rows, next, answer, maxMtime) =>
      && next <= |rows|
      && Ahead(s, maxMtime)
      && (forall i :: 0 <= i < |rows| ==> rows[i].id in Behind(s) && s.files[rows[i].id].mtime == rows[i].mtime)
      && (answer.docs != [] ==> Ahead(s, answer.cursor))
    case Writing(_, _, cursor) => Ahead(s, cursor)
  }

  lemma OwnStepProgresses(s: Sys, e: Event)
    requires Enabled(s, e) && OwnStep(e) && Progressing(s)
    ensures Progressing(Apply(s, e))
    ensures e.SaveCursor? && Behind(s) != {} ==> Behind(Apply(s, e)) < Behind(s)
    ensures Behind(Apply(s, e)) <= Behind(s)
  {
    var t := Apply(s, e);
    match e
    case Ask(_, rows, maxMtime) =>
      if Behind(s) != {} {
        var id :| id in Behind(s);
        var top :| top in s.files && s.files[top].mtime == maxMtime;
        assert top in Behind(t);
      }
    case ReadDoc =>
      var row := s.pull.rows[s.pull.next];
      if t.pull.answer.docs != s.pull.answer.docs {
        assert row.id in Behind(t) && t.files[row.id].mtime <= t.pull.answer.cursor;
      }
    case Reply =>
    case WriteDoc =>
    case SaveCursor =>
      if Behind(s) != {} {
        var id :| id in Behind(s) && s.files[id].mtime <= s.pull.cursor;
        assert id !in Behind(t);
      }
  }

  lemma {:induction false} SmallerSet<T>(a: set<T>, b: set<T>)
    requires a <= b
    ensures |a| <= |b|
    ensures a < b ==> |a| < |b|
  {
    if a != {} {
      var x :| x in a;
      SmallerSet(a - {x}, b - {x});
    }
  }

  function Saves(es: seq<Event>): nat {
    if es == [] then 0
    else Saves(es[..|es| - 1]) + if es[|es| - 1].SaveCursor? then 1 else 0
  }

  lemma {:induction false} QuietRunShrinks(ss: seq<Sys>, es: seq<Event>, i: nat)
    requires Run(ss, es) && i < |ss| && ss[0].pull.Idle?
    requires forall j :: 0 <= j < |es| ==> OwnStep(es[j])
    ensures Progressing(ss[i]) && ss[i].files == ss[0].files
    ensures |Behind(ss[i])| <= if |Behind(ss[0])| >= Saves(es[..i]) then |Behind(ss[0])| - Saves(es[..i]) else 0
  {
    if i > 0 {
      QuietRunShrinks(ss, es, i - 1);
      OwnStepProgresses(ss[i - 1], es[i - 1]);
      SmallerSet(Behind(ss[i]), Behind(ss[i - 1]));
      assert es[..i][..i - 1] == es[..i - 1];
    }
  }

  /** Main result: from any reachable state with no pull in flight, if the hub is quiet then as
      many completed pulls as there are files behind the cursor bring every sendable file to the laptop. */
  lemma QuietHubSyncsCompletely(ss: seq<Sys>, es: seq<Event>, id: Id)
    requires Run(ss, es) && Inv(ss[0]) && ss[0].pull.Idle?
    requires forall j :: 0 <= j < |es| ==> OwnStep(es[j])
    requires Saves(es) >= |Behind(ss[0])|
    requires id in ss[0].files && Sendable(ss[0].files[id].content)
    ensures id in ss[|es|].synced && ss[0].files[id].content == Some(ss[|es|].synced[id])
  {
    var n := |es|;
    QuietRunShrinks(ss, es, n);
    assert es[..n] == es;
    assert id !in Behind(ss[n]);
    InvOnwards(ss, es, n);
  }

  lemma {:induction false} InvOnwards(ss: seq<Sys>, es: seq<Event>, i: nat)
    requires Run(ss, es) && Inv(ss[0]) && i < |ss|
    ensures Inv(ss[i])
  {
    if i > 0 {
      InvOnwards(ss, es, i - 1);
      StepKeepsInv(ss[i - 1], es[i - 1]);
    }
  }

  // ---------------------------------------------------------------- why the assumptions are there

  ghost predicate Skipped(s: Sys, id: Id)
    requires s.pull.Reading?
  {
    && id in s.files && Sendable(s.files[id].content)
    && s.cursor < s.files[id].mtime <= s.pull.maxMtime
    && !Listed(s.pull, id) && Lookup(s.synced, id) != s.files[id].content
  }

  /** For the laptop as it stands, the reply breaks coverage exactly if it carries no document and
      jumps over a file the laptop lacks. */
  lemma ReplySkipsIff(s: Sys)
    requires Inv(s) && Enabled(s, Reply)
    ensures GoodWriting(Apply(s, Reply)) <==>
            !(s.pull.answer.docs == [] && exists id :: Skipped(s, id))
  {
    var t := Apply(s, Reply);
    if SafeReply(s, Reply) {
      ReplyKeepsInv(s, Reply);
      assert forall id :: Skipped(s, id) ==> JumpedOver(s, id);
    } else {
      var p := s.pull;
      if GoodWriting(t) {
        assert forall id :: !Skipped(s, id);
      } else {
        assert Distinct(t.pull.docs) && AllFresh(t, t.pull.docs, t.pull.asked);
        var id :| id in t.files && t.files[id].mtime <= t.pull.cursor && Sendable(t.files[id].content)
                  && Lookup(t.synced, id) != t.files[id].content;
        assert Skipped(s, id);
      }
    }
  }

  /** The reply keeps what is behind its cursor covered, for whatever the laptop may hold. */
  ghost predicate ReplyIsSafe(s: Sys) {
    forall m :: Inv(s.(synced := m)) ==> GoodWriting(Apply(s.(synced := m), Reply))
  }

  lemma JumpIsUnsafe(s: Sys, id: Id)
    requires Inv(s) && Enabled(s, Reply) && s.pull.answer.docs == [] && JumpedOver(s, id)
    ensures !ReplyIsSafe(s)
  {
    var u := s.(synced := s.synced - {id});
    assert Inv(u) && Skipped(u, id);
    ReplySkipsIff(u);
  }

  lemma NoJumpIsSafe(s: Sys, m: map<Id, Doc>)
    requires Enabled(s, Reply) && (s.pull.answer.docs != [] || forall id :: !JumpedOver(s, id))
    requires Inv(s.(synced := m))
    ensures GoodWriting(Apply(s.(synced := m), Reply))
  {
    var u := s.(synced := m);
    assert forall id :: Skipped(u, id) ==> JumpedOver(s, id);
    ReplySkipsIff(u);
  }

  /** The exact condition, which the hub can check: a reply is safe for every laptop if and only if it
      carries a document or jumps over no sendable file. Only a full page can do so. */
  lemma EmptyFullPageSkipsIff(s: Sys)
    requires Inv(s) && Enabled(s, Reply)
    ensures ReplyIsSafe(s) <==> !(s.pull.answer.docs == [] && exists id :: JumpedOver(s, id))
    ensures !ReplyIsSafe(s) ==> |s.pull.rows| == s.pull.limit
  {
    if s.pull.answer.docs == [] && exists id :: JumpedOver(s, id) {
      var id :| JumpedOver(s, id);
      JumpIsUnsafe(s, id);
      JumpNeedsFullPage(s, id);
    } else {
      forall m | Inv(s.(synced := m)) ensures GoodWriting(Apply(s.(synced := m), Reply)) {
        NoJumpIsSafe(s, m);
      }
    }
  }

  lemma JumpNeedsFullPage(s: Sys, id: Id)
    requires Inv(s) && Enabled(s, Reply) && JumpedOver(s, id)
    ensures |s.pull.rows| == s.pull.limit
  {
    assert Beyond(s.pull, s.files[id].mtime);
  }

  /** A file that comes back with its old mtime, as a restore from the trash does, is behind the
      cursor: no page will list it. */
  lemma OldMtimeIsNeverListed(s: Sys, id: Id, limit: nat, rows: seq<Row>)
    requires id in s.files && s.files[id].mtime <= s.cursor
    requires IsPage(rows, s.files, s.cursor, limit)
    ensures forall i :: 0 <= i < |rows| ==> rows[i].id != id
  {
  }
}

/** One sync answer of the hub and one pull of a laptop (speechtotext/api/routes_sync.py,
    speechtotext/client/sync_puller.py, speechtotext/client/state.py). */
module SyncDelta {
  import opened Wrappers

  type Id = string

  datatype SegmentJson = NotAnObject | Object(hasStart: bool, hasEnd: bool, hasText: bool)

  datatype Segments = Absent | NotAList | Listed(items: seq<SegmentJson>)

  /** A transcript document: the part the wire check looks at, and everything else. */
  datatype Doc = Doc(segments: Segments, body: string)

  /** A transcript file on the hub; `content` is None when it does not parse. */
  datatype File = File(mtime: real, content: Option<Doc>)

  /** An index row, as far as the delta uses it. */
  datatype Row = Row(id: Id, mtime: real)

  datatype Wire = Wire(id: Id, doc: Doc)

  datatype Answer = Answer(docs: seq<Wire>, cursor: real)

  function MaxReal(a: real, b: real): real {
    if a >= b then a else b
  }

  // ---------------------------------------------------------------- hub side

  predicate WireSegment(s: SegmentJson) {
    s.Object? && s.hasStart && s.hasEnd && s.hasText
  }

  predicate WireValid(doc: Doc) {
    match doc.segments
    case Absent => true
    case NotAList => false
    case Listed(items) => forall s :: s in items ==> WireSegment(s)
  }

  method WireValidSegments(doc: Doc) returns (ok: bool)
    ensures ok <==> WireValid(doc)
    ensures ok <==>
      || doc.segments.Absent?
      || (doc.segments.Listed?
          && forall s :: s in doc.segments.items ==> s.Object? && s.hasStart && s.hasEnd && s.hasText)
  {
    if doc.segments.Absent? {
      return true;
    }
    if doc.segments.NotAList? {
      return false;
    }
    var items := doc.segments.items;
    for i := 0 to |items|
      invariant forall j :: 0 <= j < i ==> WireSegment(items[j])
    {
      assert items[i] in items;
      if items[i].NotAnObject? {
        return false;
      }
      if !items[i].hasStart || !items[i].hasEnd || !items[i].hasText {
        return false;
      }
    }
    return true;
  }

  predicate Sendable(content: Option<Doc>) {
    content.Some? && WireValid(content.value)
  }

  /** The page that `list_since` returns: rows newer than `since`, oldest first, cut at `limit`. */
  ghost predicate IsPage(rows: seq<Row>, files: map<Id, File>, since: real, limit: nat) {
    && |rows| <= limit
    && (forall i :: 0 <= i < |rows| ==>
          rows[i].id in files && files[rows[i].id].mtime == rows[i].mtime > since)
    && (forall i, j :: 0 <= i < j < |rows| ==> rows[i].mtime <= rows[j].mtime && rows[i].id != rows[j].id)
    && (forall id :: id in files && files[id].mtime > since && Row(id, files[id].mtime) !in rows ==>
          |rows| == limit && forall i :: 0 <= i < |rows| ==> rows[i].mtime <= files[id].mtime)
  }

  ghost predicate IsMaxMtime(m: real, files: map<Id, File>) {
    && (forall id :: id in files ==> files[id].mtime <= m)
    && ((files == map[] && m == 0.0) || exists id :: id in files && files[id].mtime == m)
  }

  /** One row of the answer loop: what was read at that row's path. */
  function Accept(a: Answer, row: Row, content: Option<Doc>): Answer {
    if Sendable(content)
    then Answer(a.docs + [Wire(row.id, content.value)], MaxReal(a.cursor, row.mtime))
    else a
  }

  function AcceptAll(since: real, rows: seq<Row>, contents: seq<Option<Doc>>): Answer
    requires |rows| == |contents|
  {
    if rows == [] then Answer([], since)
    else
      var n := |rows| - 1;
      Accept(AcceptAll(since, rows[..n], contents[..n]), rows[n], contents[n])
  }

  /** An answer without documents carries the library's newest mtime instead. */
  function Finish(a: Answer, maxMtime: real): Answer {
    if a.docs == [] then a.(cursor := MaxReal(a.cursor, maxMtime)) else a
  }

  /** `contents[i]` is what the file of row i holds when the loop reaches it. */
  method BuildDelta(since: real, rows: seq<Row>, contents: seq<Option<Doc>>, maxMtime: real)
    returns (docs: seq<Wire>, cursor: real)
    requires |contents| == |rows|
    ensures Answer(docs, cursor) == Finish(AcceptAll(since, rows, contents), maxMtime)
    ensures docs == [] ==> cursor == if maxMtime > since then maxMtime else since
    ensures docs != [] ==> cursor == AcceptAll(since, rows, contents).cursor
  {
    cursor := since;
    docs := [];
    for i := 0 to |rows|
      invariant Answer(docs, cursor) == AcceptAll(since, rows[..i], contents[..i])
      invariant docs == [] ==> cursor == since
    {
      assert rows[..i + 1][..i] == rows[..i] && contents[..i + 1][..i] == contents[..i];
      if contents[i].None? {
        continue;
      }
      var ok := WireValidSegments(contents[i].value);
      if !ok {
        continue;
      }
      docs := docs + [Wire(rows[i].id, contents[i].value)];
      cursor := MaxReal(cursor, rows[i].mtime);
    }
    assert rows[..|rows|] == rows && contents[..|rows|] == contents;
    if docs == [] {
      cursor := MaxReal(cursor, maxMtime);
    }
  }

  /** What an answer contains: exactly the rows whose file was sendable when read, and a cursor
      that is the newest mtime among them. */
  lemma {:induction false} AcceptAllMeaning(since: real, rows: seq<Row>, contents: seq<Option<Doc>>)
    requires |rows| == |contents|
    requires forall i :: 0 <= i < |rows| ==> rows[i].mtime > since
    ensures var a := AcceptAll(since, rows, contents);
            && (forall i :: 0 <= i < |rows| && Sendable(contents[i]) ==>
                  Wire(rows[i].id, contents[i].value) in a.docs && rows[i].mtime <= a.cursor)
            && (forall w :: w in a.docs ==> exists i ::
                  0 <= i < |rows| && contents[i] == Some(w.doc) && WireValid(w.doc) && rows[i].id == w.id)
            && (a.docs == [] ==> a.cursor == since)
            && (a.docs != [] ==> exists i :: 0 <= i < |rows| && Sendable(contents[i]) && rows[i].mtime == a.cursor)
  {
    if rows != [] {
      var n := |rows| - 1;
      AcceptAllMeaning(since, rows[..n], contents[..n]);
      var b := AcceptAll(since, rows[..n], contents[..n]);
      var a := AcceptAll(since, rows, contents);
      forall w | w in a.docs
        ensures exists i ::
          0 <= i < |rows| && contents[i] == Some(w.doc) && WireValid(w.doc) && rows[i].id == w.id
      {
        if w in b.docs {
          var i :| 0 <= i < n && contents[..n][i] == Some(w.doc) && WireValid(w.doc) && rows[..n][i].id == w.id;
          assert contents[i] == Some(w.doc) && rows[i].id == w.id;
        } else {
          assert contents[n] == Some(w.doc) && rows[n].id == w.id;
        }
      }
      forall i | 0 <= i < |rows| && Sendable(contents[i])
        ensures Wire(rows[i].id, contents[i].value) in a.docs && rows[i].mtime <= a.cursor
      {
        if i < n {
          assert rows[..n][i] == rows[i] && contents[..n][i] == contents[i];
        }
      }
      if a.docs != [] {
        if Sendable(contents[n]) && b.cursor <= rows[n].mtime {
          assert a.cursor == rows[n].mtime;
        } else {
          var i :| 0 <= i < n && Sendable(contents[..n][i]) && rows[..n][i].mtime == b.cursor;
          assert Sendable(contents[i]) && rows[i].mtime == a.cursor;
        }
      }
    }
  }

  // ---------------------------------------------------------------- laptop side

  function WriteAll(synced: map<Id, Doc>, docs: seq<Wire>): map<Id, Doc> {
    if docs == [] then synced
    else WriteOne(WriteAll(synced, docs[..|docs| - 1]), docs[|docs| - 1])
  }

  /** A document without an id is skipped; any other replaces the file of its id. */
  function WriteOne(synced: map<Id, Doc>, w: Wire): map<Id, Doc> {
    if w.id == "" then synced else synced[w.id := w.doc]
  }

  /** The persisted relationship with a hub, and the directory of synced transcripts. */
  class Laptop {
    var cursor: real
    var migratedAt: Option<real>
    /** The other stored fields, by name. */
    var settings: map<string, string>
    var synced: map<Id, Doc>

    constructor (settings: map<string, string>)
      ensures cursor == 0.0 && migratedAt == None && this.settings == settings && synced == map[]
    {
      cursor, migratedAt, this.settings, synced := 0.0, None, settings, map[];
    }

    /** Under the state lock: load, set the named fields, save. Other fields are kept, and a name that
        is no field is not stored. */
    method UpdateFields(newCursor: Option<real>, newMigratedAt: Option<real>, named: map<string, string>)
      modifies this`cursor, this`migratedAt, this`settings
      ensures settings.Keys == old(settings).Keys
      ensures forall k :: k in settings ==> settings[k] == if k in named then named[k] else old(settings)[k]
      ensures cursor == if newCursor.Some? then newCursor.value else old(cursor)
      ensures migratedAt == if newMigratedAt.Some? then newMigratedAt else old(migratedAt)
    {
      if newCursor.Some? {
        cursor := newCursor.value;
      }
      if newMigratedAt.Some? {
        migratedAt := newMigratedAt;
      }
      settings := map k | k in settings :: if k in named then named[k] else settings[k];
    }

    /** Write the documents, then move the cursor. `crashAt` is the number of documents after
        which the process dies; the cursor moves only when all of them were written. */
    method PullOnce(answer: Answer, crashAt: nat) returns (done: bool)
      modifies this
      ensures migratedAt == old(migratedAt) && settings == old(settings)
      ensures done <==> crashAt > |answer.docs|
      ensures synced == WriteAll(old(synced), if done then answer.docs else answer.docs[..crashAt])
      ensures cursor == if done && answer.cursor > old(cursor) then answer.cursor else old(cursor)
    {
      var start := cursor;
      for i := 0 to |answer.docs|
        invariant i <= crashAt
        invariant synced == WriteAll(old(synced), answer.docs[..i])
        invariant cursor == old(cursor) && migratedAt == old(migratedAt) && settings == old(settings)
      {
        if i == crashAt {
          return false;
        }
        assert answer.docs[..i + 1][..i] == answer.docs[..i];
        if answer.docs[i].id != "" {
          synced := synced[answer.docs[i].id := answer.docs[i].doc];
        }
      }
      assert answer.docs[..|answer.docs|] == answer.docs;
      if crashAt == |answer.docs| {
        return false;
      }
      if answer.cursor > start {
        UpdateFields(Some(answer.cursor), None, map[]);
      }
      return true;
    }
  }

  /** Documents with distinct ids all arrive, and no other file is touched. */
  lemma {:induction false} WriteAllMeaning(synced: map<Id, Doc>, docs: seq<Wire>)
    requires forall i, j :: 0 <= i < j < |docs| ==> docs[i].id != docs[j].id
    ensures forall w :: w in docs && w.id != "" ==>
      w.id in WriteAll(synced, docs) && WriteAll(synced, docs)[w.id] == w.doc
    ensures forall id :: (forall w :: w in docs ==> w.id != id) ==>
      Lookup(WriteAll(synced, docs), id) == Lookup(synced, id)
  {
    if docs != [] {
      var n := |docs| - 1;
      WriteAllMeaning(synced, docs[..n]);
      assert docs == docs[..n] + [docs[n]];
      forall w | w in docs && w.id != ""
        ensures w.id in WriteAll(synced, docs) && WriteAll(synced, docs)[w.id] == w.doc
      {
        if w != docs[n] {
          assert w in docs[..n];
        }
      }
      forall id | forall w :: w in docs ==> w.id != id
        ensures Lookup(WriteAll(synced, docs), id) == Lookup(synced, id)
      {
        assert docs[n] in docs;
        forall w | w in docs[..n] ensures w.id != id { assert w in docs; }
      }
    }
  }

  function Lookup(m: map<Id, Doc>, id: Id): Option<Doc> {
    if id in m then Some(m[id]) else None
  }
}

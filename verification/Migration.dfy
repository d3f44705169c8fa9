/** Migrating a transcript to the hub (speechtotext/client/migrate.py): push it, pull it back,
    verify the synced copy, re-point the index to it, and only then trash the original. The hub is
    arbitrary: it may answer, and send down, anything. */
module Migration {
  import opened Trash
  import opened Wrappers

  /** An index row, by the stem of its path. */
  datatype Row = Row(path: Path, local: bool, error: bool)

  type Rows = map<string, Row>

  predicate Under(root: Dir, p: Path) {
    root <= p.dir
  }

  function SyncedPath(synced: Dir, tid: string): Path {
    Path(synced, tid, ".json")
  }

  /** The verification: equal segments, speakers and title. */
  predicate SameFields(a: Body, b: Body) {
    a.segments == b.segments && a.speakers == b.speakers && a.title == b.title
  }

  // ---------------------------------------------------------------- steps of one migration

  /** Past `Pulled`, `copy` is the synced copy as it was verified. In `Moving`, the first `k` of
      `moves` are done; in `Undoing`, the first `k` are still to be undone. */
  datatype Pc =
    | Idle
    | Sent(json: Path, doc: Body)
    | Pulled(json: Path, doc: Body)
    | Verified(json: Path, doc: Body, copy: Body)
    | Indexed(json: Path, doc: Body, copy: Body)
    | Moving(json: Path, doc: Body, copy: Body, moves: seq<Move>, k: nat)
    | Undoing(json: Path, doc: Body, copy: Body, moves: seq<Move>, k: nat)
    | Closing(json: Path, doc: Body, copy: Body)

  /** Only for the proof: whether the original was edited since it was read, and whether a pull wrote
      the synced copy again since it was verified. */
  datatype Sys = Sys(files: Files, rows: Rows, pc: Pc, edited: bool, rewritten: bool)

  /** `Crash` stands for a failure or the end of the process after any step. `HubWrite` is a pull
      writing one document, by this thread or another; `LocalEdit` a user's edit of a file. */
  datatype Event =
    | Begin(tid: string)
    | PullDone
    | Verify
    | IndexCopy
    | WriteManifest
    | MoveNext
    | MoveFails
    | UndoNext
    | UndoFails
    | DropRow
    | Crash
    | HubWrite(tid: string, content: Content)
    | LocalEdit(p: Path, content: Content)

  function AudioIsNoJson(c: Content): bool {
    c.Doc? && c.audio.Some? ==> c.audio.value.suffix != ".json"
  }

  ghost predicate Enabled(synced: Dir, s: Sys, ev: Event) {
    match ev
    case Begin(tid) =>
      s.pc == Idle && tid in s.rows && !Under(synced, s.rows[tid].path)
      && s.rows[tid].path in s.files && s.files[s.rows[tid].path].Doc?
    case PullDone => s.pc.Sent?
    case Verify => s.pc.Pulled?
    case IndexCopy => s.pc.Verified?
    case WriteManifest => s.pc.Indexed?
    case MoveNext => s.pc.Moving? && s.pc.k < |s.pc.moves| && s.pc.moves[s.pc.k].src in s.files
    case MoveFails => s.pc.Moving? && s.pc.k < |s.pc.moves|
    case UndoNext => s.pc.Undoing? && 0 < s.pc.k <= |s.pc.moves|
    case UndoFails => s.pc.Undoing? && 0 < s.pc.k <= |s.pc.moves|
    case DropRow => s.pc.Closing? || (s.pc.Moving? && s.pc.k == |s.pc.moves|) || (s.pc.Undoing? && s.pc.k == 0)
    case Crash => true
    case HubWrite(_, content) => AudioIsNoJson(content)
    case LocalEdit(p, content) => p in s.files && !Under(synced, p) && TRASH_DIRNAME !in p.dir && AudioIsNoJson(content)
  }

  ghost predicate CopyMatches(synced: Dir, s: Sys) {
    s.pc.Pulled? && var c := SyncedPath(synced, s.pc.json.stem);
    c in s.files && s.files[c].Doc? && SameFields(s.files[c].body, s.pc.doc)
  }

  /** `delete_by_path`. */
  function Dropped(rows: Rows, json: Path): Rows {
    if json.stem in rows && rows[json.stem].path == json then rows - {json.stem} else rows
  }

  ghost function Apply(synced: Dir, s: Sys, ev: Event): Sys
    requires Enabled(synced, s, ev)
  {
    match ev
    case Begin(tid) => s.(pc := Sent(s.rows[tid].path, s.files[s.rows[tid].path].body), edited := false)
    case PullDone => s.(pc := Pulled(s.pc.json, s.pc.doc))
    case Verify =>
      if CopyMatches(synced, s)
      then s.(pc := Verified(s.pc.json, s.pc.doc, s.files[SyncedPath(synced, s.pc.json.stem)].body), rewritten := false)
      else s.(pc := Idle)
    case IndexCopy =>
      s.(rows := s.rows[s.pc.json.stem := Row(SyncedPath(synced, s.pc.json.stem), false, false)],
         pc := Indexed(s.pc.json, s.pc.doc, s.pc.copy))
    case WriteManifest =>
      s.(files := WithManifest(s.files, s.pc.json),
         pc := Moving(s.pc.json, s.pc.doc, s.pc.copy, MovesInto(TrashedPaths(s.files, s.pc.json), TrashDir(s.pc.json)), 0))
    case MoveNext => s.(files := Renamed(s.files, s.pc.moves[s.pc.k]), pc := Moving(s.pc.json, s.pc.doc, s.pc.copy, s.pc.moves, s.pc.k + 1))
    case MoveFails => s.(pc := Undoing(s.pc.json, s.pc.doc, s.pc.copy, s.pc.moves, s.pc.k))
    case UndoNext => s.(files := Renamed(s.files, Back(s.pc.moves[s.pc.k - 1])), pc := Undoing(s.pc.json, s.pc.doc, s.pc.copy, s.pc.moves, s.pc.k - 1))
    case UndoFails => s.(pc := Undoing(s.pc.json, s.pc.doc, s.pc.copy, s.pc.moves, s.pc.k - 1))
    case DropRow => s.(rows := Dropped(s.rows, s.pc.json), pc := Idle)
    case Crash => s.(pc := Idle)
    case HubWrite(tid, content) =>
      s.(files := s.files[SyncedPath(synced, tid) := content],
         rewritten := s.rewritten || (s.pc != Idle && s.pc.json.stem == tid))
    case LocalEdit(p, content) =>
      s.(files := s.files[p := content], edited := s.edited || (s.pc != Idle && s.pc.json == p))
  }

  // ---------------------------------------------------------------- what every step keeps

  ghost predicate RowsPoint(s: Sys) {
    forall k :: k in s.rows ==> RowPoints(s, k)
  }

  /** Row `k` points to an existing transcript file with its stem, outside any trash. */
  ghost predicate RowPoints(s: Sys, k: string)
    requires k in s.rows
  {
    var p := s.rows[k].path;
    p in s.files && p.stem == k && p.suffix == ".json" && TRASH_DIRNAME !in p.dir
  }

  predicate IsOriginal(synced: Dir, json: Path) {
    json.suffix == ".json" && ".trash" !in json.dir && !(synced <= json.dir)
  }

  ghost predicate PastVerify(pc: Pc) {
    pc.Verified? || pc.Indexed? || pc.Moving? || pc.Undoing? || pc.Closing?
  }

  ghost predicate PastIndex(pc: Pc) {
    PastVerify(pc) && !pc.Verified?
  }

  /** A planned move takes the original, its text or its audio to the bin under the same name. */
  ghost predicate PlannedMove(json: Path, i: nat, m: Move) {
    m.dst == m.src.In(TrashDir(json)) && if i == 0 then m.src == json else m.src.suffix != ".json"
  }

  ghost predicate PcInv(synced: Dir, s: Sys) {
    && (s.pc != Idle ==> IsOriginal(synced, s.pc.json))
    && (PastVerify(s.pc) ==> SyncedPath(synced, s.pc.json.stem) in s.files && SameFields(s.pc.copy, s.pc.doc))
    && (PastIndex(s.pc) ==> s.pc.json.stem in s.rows && s.rows[s.pc.json.stem].path == SyncedPath(synced, s.pc.json.stem))
    && (s.pc.Moving? || s.pc.Undoing? ==>
        s.pc.k <= |s.pc.moves| && s.pc.moves != [] && forall i :: 0 <= i < |s.pc.moves| ==> PlannedMove(s.pc.json, i, s.pc.moves[i]))
  }

  ghost predicate BeforeMoves(pc: Pc) {
    pc.Sent? || pc.Pulled? || pc.Verified? || pc.Indexed? || (pc.Moving? && pc.k == 0)
  }

  /** What was read still stands, unless someone changed it. */
  ghost predicate StillStands(synced: Dir, s: Sys) {
    && (BeforeMoves(s.pc) ==> s.pc.json in s.files)
    && (BeforeMoves(s.pc) && !s.edited ==> s.files[s.pc.json].Doc? && s.files[s.pc.json].body == s.pc.doc)
    && (PastVerify(s.pc) && !s.rewritten && SyncedPath(synced, s.pc.json.stem) in s.files ==>
        var c := s.files[SyncedPath(synced, s.pc.json.stem)]; c.Doc? && c.body == s.pc.copy)
  }

  ghost predicate Inv(synced: Dir, s: Sys) {
    && TRASH_DIRNAME !in synced
    && RowsPoint(s) && PcInv(synced, s) && StillStands(synced, s)
    && (forall p :: p in s.files ==> AudioIsNoJson(s.files[p]))
  }

  /** The file stands in its trash bin with this content. */
  ghost predicate InBin(json: Path, content: Content, files: Files) {
    var place := Path(json.dir + [".trash", json.stem], json.stem, json.suffix);
    place in files && files[place] == content
  }

  lemma BinIsTrash(json: Path, p: Path)
    requires p.dir == TrashDir(json)
    ensures TRASH_DIRNAME in p.dir
  {
    assert p.dir[|json.dir|] == TRASH_DIRNAME;
  }

  lemma PlanIsPlanned(files: Files, json: Path)
    requires json.suffix == ".json" && forall p :: p in files ==> AudioIsNoJson(files[p])
    ensures var ms := MovesInto(TrashedPaths(files, json), TrashDir(json));
            ms != [] && forall i :: 0 <= i < |ms| ==> PlannedMove(json, i, ms[i])
  {
  }

  /** A move or its undo leaves every row pointing to a file: no row points to what it takes. */
  lemma RenameKeepsRows(synced: Dir, s: Sys, m: Move)
    requires Inv(synced, s) && m.src in s.files
    requires forall k :: k in s.rows ==> s.rows[k].path != m.src
    ensures RowsPoint(s.(files := Renamed(s.files, m)))
  {
    forall k | k in s.rows ensures RowPoints(s.(files := Renamed(s.files, m)), k) {
      assert RowPoints(s, k);
    }
  }

  lemma MoveKeepsInv(synced: Dir, s: Sys)
    requires Inv(synced, s) && Enabled(synced, s, MoveNext)
    ensures Inv(synced, Apply(synced, s, MoveNext))
  {
    var m := s.pc.moves[s.pc.k];
    assert PlannedMove(s.pc.json, s.pc.k, m);
    forall k | k in s.rows ensures s.rows[k].path != m.src {
      assert RowPoints(s, k);
    }
    RenameKeepsRows(synced, s, m);
    assert AudioIsNoJson(s.files[m.src]);
  }

  lemma UndoKeepsInv(synced: Dir, s: Sys)
    requires Inv(synced, s) && Enabled(synced, s, UndoNext)
    ensures Inv(synced, Apply(synced, s, UndoNext))
  {
    var m := s.pc.moves[s.pc.k - 1];
    assert PlannedMove(s.pc.json, s.pc.k - 1, m);
    BinIsTrash(s.pc.json, m.dst);
    if m.dst in s.files {
      forall k | k in s.rows ensures s.rows[k].path != m.dst {
        assert RowPoints(s, k);
      }
      RenameKeepsRows(synced, s, Back(m));
      assert AudioIsNoJson(s.files[m.dst]);
    }
  }

  lemma WriteKeepsInv(synced: Dir, s: Sys, ev: Event)
    requires Inv(synced, s) && Enabled(synced, s, ev) && (ev.HubWrite? || ev.LocalEdit?)
    ensures Inv(synced, Apply(synced, s, ev))
  {
    forall k | k in s.rows ensures RowPoints(Apply(synced, s, ev), k) {
      assert RowPoints(s, k);
    }
  }

  lemma ManifestKeepsInv(synced: Dir, s: Sys)
    requires Inv(synced, s) && Enabled(synced, s, WriteManifest)
    ensures Inv(synced, Apply(synced, s, WriteManifest))
  {
    PlanIsPlanned(s.files, s.pc.json);
    BinIsTrash(s.pc.json, ManifestIn(TrashDir(s.pc.json)));
    forall k | k in s.rows ensures RowPoints(Apply(synced, s, WriteManifest), k) {
      assert RowPoints(s, k);
    }
  }

  lemma IndexKeepsInv(synced: Dir, s: Sys)
    requires Inv(synced, s) && Enabled(synced, s, IndexCopy)
    ensures Inv(synced, Apply(synced, s, IndexCopy))
  {
    var t := Apply(synced, s, IndexCopy);
    forall k | k in t.rows ensures RowPoints(t, k) {
      assert k in s.rows ==> RowPoints(s, k);
    }
  }

  /** Steps that leave files and table alone. */
  lemma QuietKeepsInv(synced: Dir, s: Sys, ev: Event)
    requires Inv(synced, s) && Enabled(synced, s, ev)
    requires ev == PullDone || ev == Verify || ev == MoveFails || ev == UndoFails || ev == Crash
    ensures Inv(synced, Apply(synced, s, ev))
  {
    var t := Apply(synced, s, ev);
    assert t.files == s.files && t.rows == s.rows;
    forall k | k in t.rows ensures RowPoints(t, k) {
      assert RowPoints(s, k);
    }
  }

  lemma BeginKeepsInv(synced: Dir, s: Sys, tid: string)
    requires Inv(synced, s) && Enabled(synced, s, Begin(tid))
    ensures Inv(synced, Apply(synced, s, Begin(tid)))
  {
    assert RowPoints(s, tid);
    forall k | k in s.rows ensures RowPoints(Apply(synced, s, Begin(tid)), k) {
      assert RowPoints(s, k);
    }
  }

  lemma DropKeepsInv(synced: Dir, s: Sys)
    requires Inv(synced, s) && Enabled(synced, s, DropRow)
    ensures Inv(synced, Apply(synced, s, DropRow))
  {
    var t := Apply(synced, s, DropRow);
    forall k | k in t.rows ensures RowPoints(t, k) {
      assert RowPoints(s, k);
    }
  }

  lemma StepKeepsInv(synced: Dir, s: Sys, ev: Event)
    requires Inv(synced, s) && Enabled(synced, s, ev)
    ensures Inv(synced, Apply(synced, s, ev))
  {
    match ev
    case MoveNext => MoveKeepsInv(synced, s);
    case UndoNext => UndoKeepsInv(synced, s);
    case WriteManifest => ManifestKeepsInv(synced, s);
    case IndexCopy => IndexKeepsInv(synced, s);
    case HubWrite(_, _) => WriteKeepsInv(synced, s, ev);
    case LocalEdit(_, _) => WriteKeepsInv(synced, s, ev);
    case DropRow => DropKeepsInv(synced, s);
    case Begin(tid) => BeginKeepsInv(synced, s, tid);
    case _ => QuietKeepsInv(synced, s, ev);
  }

  // ---------------------------------------------------------------- runs

  ghost predicate Start(synced: Dir, s: Sys) {
    && s.pc == Idle && TRASH_DIRNAME !in synced && RowsPoint(s)
    && forall p :: p in s.files ==> AudioIsNoJson(s.files[p])
  }

  ghost predicate Run(synced: Dir, ss: seq<Sys>, es: seq<Event>) {
    && |ss| == |es| + 1 && Start(synced, ss[0])
    && forall i :: 0 <= i < |es| ==> Enabled(synced, ss[i], es[i]) && ss[i + 1] == Apply(synced, ss[i], es[i])
  }

  lemma {:induction false} RunKeepsInv(synced: Dir, ss: seq<Sys>, es: seq<Event>, i: nat)
    requires Run(synced, ss, es) && i < |ss|
    ensures Inv(synced, ss[i])
  {
    if i > 0 {
      RunKeepsInv(synced, ss, es, i - 1);
      StepKeepsInv(synced, ss[i - 1], es[i - 1]);
    }
  }

  /** At every moment each index row points to an existing file. */
  lemma RowsAlwaysPoint(synced: Dir, ss: seq<Sys>, es: seq<Event>, i: nat, k: string)
    requires Run(synced, ss, es) && i < |ss| && k in ss[i].rows
    ensures ss[i].rows[k].path in ss[i].files && ss[i].rows[k].path.stem == k
  {
    RunKeepsInv(synced, ss, es, i);
    assert RowPoints(ss[i], k);
  }

  /** A file outside the trash leaves its place only as part of archiving a transcript whose synced
      copy exists and was verified against it; its bytes are then in that transcript's bin. */
  ghost predicate Archives(synced: Dir, s: Sys, t: Sys, p: Path) {
    && s.pc.Moving? && p in s.files
    && (p == s.pc.json || p.suffix != ".json")
    && (var place := Path(s.pc.json.dir + [".trash", s.pc.json.stem], p.stem, p.suffix);
        place in t.files && t.files[place] == s.files[p])
    && Path(synced, s.pc.json.stem, ".json") in t.files
    && s.pc.copy.segments == s.pc.doc.segments && s.pc.copy.speakers == s.pc.doc.speakers
    && s.pc.copy.title == s.pc.doc.title
  }

  lemma FilesLeaveOnlyArchived(synced: Dir, ss: seq<Sys>, es: seq<Event>, i: nat, p: Path)
    requires Run(synced, ss, es) && i < |es| && TRASH_DIRNAME !in p.dir
    requires p in ss[i].files && p !in ss[i + 1].files
    ensures es[i] == MoveNext && Archives(synced, ss[i], ss[i + 1], p)
  {
    RunKeepsInv(synced, ss, es, i);
    RunKeepsInv(synced, ss, es, i + 1);
    var s := ss[i];
    match es[i]
    case MoveNext => assert PlannedMove(s.pc.json, s.pc.k, s.pc.moves[s.pc.k]);
    case UndoNext =>
      var m := s.pc.moves[s.pc.k - 1];
      assert PlannedMove(s.pc.json, s.pc.k - 1, m);
      BinIsTrash(s.pc.json, m.dst);
    case _ =>
  }

  lemma CopyStaysOneStep(synced: Dir, ss: seq<Sys>, es: seq<Event>, i: nat, p: Path)
    requires Run(synced, ss, es) && i < |es|
    requires Under(synced, p) && p.suffix == ".json" && TRASH_DIRNAME !in p.dir && p in ss[i].files
    ensures p in ss[i + 1].files
  {
    if p !in ss[i + 1].files {
      FilesLeaveOnlyArchived(synced, ss, es, i, p);
      RunKeepsInv(synced, ss, es, i);
    }
  }

  /** No transcript under the synced directory is ever moved. */
  lemma {:induction false} SyncedCopiesStay(synced: Dir, ss: seq<Sys>, es: seq<Event>, i: nat, j: nat, p: Path)
    requires Run(synced, ss, es) && i <= j < |ss|
    requires synced <= p.dir && p.suffix == ".json" && TRASH_DIRNAME !in p.dir && p in ss[i].files
    ensures p in ss[j].files
    decreases j
  {
    if i < j {
      SyncedCopiesStay(synced, ss, es, i, j - 1, p);
      CopyStaysOneStep(synced, ss, es, j - 1, p);
    }
  }

  /** What the archived original is worth on the hub: with no edit since it was read and no later
      pull over the copy, the synced copy equals it in segments, speakers and title. */
  lemma ArchivedOriginalIsOnTheHub(synced: Dir, ss: seq<Sys>, es: seq<Event>, i: nat)
    requires Run(synced, ss, es) && i < |es| && es[i] == MoveNext && ss[i].pc.k == 0
    requires !ss[i].edited && !ss[i].rewritten
    ensures var json, c := ss[i].pc.json, Path(synced, ss[i].pc.json.stem, ".json");
            && json in ss[i].files && ss[i].files[json].Doc? && json !in ss[i + 1].files
            && c in ss[i + 1].files && ss[i + 1].files[c].Doc?
            && var original, copy := ss[i].files[json].body, ss[i + 1].files[c].body;
            && copy.segments == original.segments && copy.speakers == original.speakers
            && copy.title == original.title
  {
    RunKeepsInv(synced, ss, es, i);
    RunKeepsInv(synced, ss, es, i + 1);
    var s := ss[i];
    assert PlannedMove(s.pc.json, 0, s.pc.moves[0]);
    BinIsTrash(s.pc.json, s.pc.moves[0].dst);
  }

  /** With an edit in between, the bytes that go to the trash match the verified copy exactly if the
      edit left the three fields as they were read. */
  lemma LateEditIsArchivedUnsyncedIff(synced: Dir, ss: seq<Sys>, es: seq<Event>, i: nat)
    requires Run(synced, ss, es) && i < |es| && es[i] == MoveNext && ss[i].pc.k == 0
    ensures ss[i].pc.json in ss[i].files
    ensures ss[i].files[ss[i].pc.json].Doc? ==>
              var bytes, copy, doc := ss[i].files[ss[i].pc.json].body, ss[i].pc.copy, ss[i].pc.doc;
              bytes.segments == copy.segments && bytes.speakers == copy.speakers && bytes.title == copy.title
              <==> bytes.segments == doc.segments && bytes.speakers == doc.speakers && bytes.title == doc.title
  {
    RunKeepsInv(synced, ss, es, i);
  }

  /** It can happen after every verification: any edit of the original made then goes to the trash,
      and the synced copy stays as it was. */
  lemma LateEditGoesToTrash(synced: Dir, s: Sys, content: Content)
    requires Inv(synced, s) && s.pc.Verified? && AudioIsNoJson(content)
    ensures var edit := LocalEdit(s.pc.json, content);
            && Enabled(synced, s, edit)
            && var s1 := Apply(synced, s, edit);
            && Enabled(synced, s1, IndexCopy)
            && var s2 := Apply(synced, s1, IndexCopy);
            && Enabled(synced, s2, WriteManifest)
            && var s3 := Apply(synced, s2, WriteManifest);
            && Enabled(synced, s3, MoveNext)
            && var s4 := Apply(synced, s3, MoveNext);
            && InBin(s.pc.json, content, s4.files) && s.pc.json !in s4.files
            && var copy := Path(synced, s.pc.json.stem, ".json");
               copy in s4.files && s4.files[copy] == s.files[copy]
  {
    var json := s.pc.json;
    var s1 := Apply(synced, s, LocalEdit(json, content));
    StepKeepsInv(synced, s, LocalEdit(json, content));
    BinIsTrash(json, json.In(TrashDir(json)));
    BinIsTrash(json, ManifestIn(TrashDir(json)));
    assert MovesInto(TrashedPaths(s1.files, json), TrashDir(json))[0] == Move(json, json.In(TrashDir(json)));
  }

  /** Step `j` archived original `p`, and at step `i` its bin holds the bytes it had then. */
  ghost predicate ArchivedAt(synced: Dir, ss: seq<Sys>, es: seq<Event>, j: nat, i: nat, p: Path)
    requires j < |es| && |ss| == |es| + 1 && i < |ss|
  {
    && es[j] == MoveNext && Archives(synced, ss[j], ss[j + 1], p) && ss[j].pc.json == p
    && InBin(p, ss[j].files[p], ss[i].files)
  }

  /** Main result: an original that was in the library is in its place, or it was archived at some
      step after a verification; then its bin holds the bytes it had when it left, and the synced
      copy is there. */
  lemma {:induction false} InPlaceOrArchived(synced: Dir, ss: seq<Sys>, es: seq<Event>, i: nat, p: Path)
    requires Run(synced, ss, es) && i < |ss| && IsOriginal(synced, p) && p in ss[0].files
    ensures p !in ss[i].files ==> exists j :: 0 <= j < i && ArchivedAt(synced, ss, es, j, i, p)
    ensures p !in ss[i].files ==> Path(synced, p.stem, ".json") in ss[i].files
  {
    if i > 0 {
      InPlaceOrArchived(synced, ss, es, i - 1, p);
      if p !in ss[i].files {
        if p in ss[i - 1].files {
          JustArchived(synced, ss, es, i - 1, p);
        } else {
          var j :| 0 <= j < i - 1 && ArchivedAt(synced, ss, es, j, i - 1, p);
          StillArchived(synced, ss, es, j, i - 1, p);
        }
      }
    }
  }

  lemma JustArchived(synced: Dir, ss: seq<Sys>, es: seq<Event>, i: nat, p: Path)
    requires Run(synced, ss, es) && i < |es| && IsOriginal(synced, p)
    requires p in ss[i].files && p !in ss[i + 1].files
    ensures ArchivedAt(synced, ss, es, i, i + 1, p) && SyncedPath(synced, p.stem) in ss[i + 1].files
  {
    FilesLeaveOnlyArchived(synced, ss, es, i, p);
  }

  lemma StillArchived(synced: Dir, ss: seq<Sys>, es: seq<Event>, j: nat, i: nat, p: Path)
    requires Run(synced, ss, es) && j < i < |es| && IsOriginal(synced, p)
    requires p !in ss[i].files && p !in ss[i + 1].files && SyncedPath(synced, p.stem) in ss[i].files
    requires ArchivedAt(synced, ss, es, j, i, p)
    ensures ArchivedAt(synced, ss, es, j, i + 1, p) && SyncedPath(synced, p.stem) in ss[i + 1].files
  {
    RunKeepsInv(synced, ss, es, i);
    CopyStaysOneStep(synced, ss, es, i, SyncedPath(synced, p.stem));
    BinKeeps(synced, ss[i], es[i], p);
  }

  /** While an original is away, its bin entry is left alone. */
  lemma BinKeeps(synced: Dir, s: Sys, ev: Event, p: Path)
    requires Inv(synced, s) && Enabled(synced, s, ev) && IsOriginal(synced, p)
    requires p !in s.files && p.In(TrashDir(p)) in s.files && p !in Apply(synced, s, ev).files
    ensures InBin(p, s.files[p.In(TrashDir(p))], Apply(synced, s, ev).files)
  {
    BinIsTrash(p, p.In(TrashDir(p)));
    match ev
    case MoveNext =>
      var m := s.pc.moves[s.pc.k];
      assert PlannedMove(s.pc.json, s.pc.k, m);
      if m.dst == p.In(TrashDir(p)) {
        SameBin(p, s.pc.json);
      }
    case UndoNext =>
      var m := s.pc.moves[s.pc.k - 1];
      assert PlannedMove(s.pc.json, s.pc.k - 1, m);
      if m.dst == p.In(TrashDir(p)) {
        SameBin(p, s.pc.json);
      }
    case WriteManifest =>
      if ManifestIn(TrashDir(s.pc.json)) == p.In(TrashDir(p)) {
        SameBin(p, s.pc.json);
      }
    case _ =>
  }

  lemma SameBin(p: Path, q: Path)
    requires TrashDir(p) == TrashDir(q)
    ensures p.dir == q.dir && p.stem == q.stem
  {
    var b, c := TrashDir(p), TrashDir(q);
    assert p.dir == b[..|b| - 2] && q.dir == c[..|c| - 2] && p.stem == b[|b| - 1] && q.stem == c[|c| - 1];
  }
}

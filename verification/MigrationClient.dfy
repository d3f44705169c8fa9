/** The calls of a migration as the laptop makes them (speechtotext/client/migrate.py): one
    transcript, and the sweep over all of them. */
module MigrationClient {
  import opened Migration
  import opened Trash
  import opened Wrappers

  /** How a call to the hub ends: answered, refused with a status, or not reached. */
  datatype Reply = Answered | Refused | Unreachable

  /** What the world does during one migration: the hub's answers, the documents its pull writes
      (also when it then fails), and which of the local calls succeed. */
  datatype Luck = Luck(push: Reply, docs: seq<(string, Content)>, pull: Reply, indexes: bool, wrote: bool,
                       works: nat -> bool, undoes: nat -> bool)

  datatype Outcome = Migrated | NotVerified | HubDown | Broken

  const LIST_LIMIT: nat := 10000

  function Received(files: Files, synced: Dir, docs: seq<(string, Content)>): Files {
    if docs == [] then files
    else
      var last := docs[|docs| - 1];
      Received(files, synced, docs[..|docs| - 1])[SyncedPath(synced, last.0) := last.1]
  }

  /** The pull wrote a copy that verifies against the original. */
  ghost predicate Verifies(files: Files, synced: Dir, json: Path, doc: Body) {
    var c := Path(synced, json.stem, ".json");
    && c in files && files[c].Doc?
    && files[c].body.segments == doc.segments && files[c].body.speakers == doc.speakers && files[c].body.title == doc.title
  }

  ghost predicate Succeeds(files: Files, synced: Dir, json: Path, luck: Luck) {
    && !(synced <= json.dir) && json in files && files[json].Doc?
    && luck.push == Answered && luck.pull == Answered
    && Verifies(Received(files, synced, luck.docs), synced, json, files[json].body)
    && luck.indexes
  }

  ghost predicate IsTranscript(p: Path) {
    p.suffix == ".json" && TRASH_DIRNAME !in p.dir
  }

  /** Outside the synced directory and the trash, no transcript appears or changes, and none leaves
      but for those in `gone`; under the synced directory none leaves. */
  ghost predicate TranscriptsStay(synced: Dir, before: Files, after: Files, gone: set<Path>) {
    forall p :: IsTranscript(p) ==> TranscriptStays(synced, before, after, gone, p)
  }

  ghost predicate TranscriptStays(synced: Dir, before: Files, after: Files, gone: set<Path>, p: Path) {
    && (p in before && p !in gone ==> p in after)
    && (!Under(synced, p) && p in after ==> p in before && after[p] == before[p])
  }

  lemma {:induction false} ReceivedKeeps(files: Files, synced: Dir, docs: seq<(string, Content)>, p: Path)
    ensures p in files ==> p in Received(files, synced, docs)
    ensures !Under(synced, p) ==> SameAt(files, Received(files, synced, docs), p)
  {
    if docs != [] {
      ReceivedKeeps(files, synced, docs[..|docs| - 1], p);
    }
  }

  lemma {:induction false} MovedKeeps(files: Files, moves: seq<Move>, p: Path)
    requires !Touched(moves, p)
    ensures SameAt(files, Moved(files, moves), p)
  {
    if moves != [] {
      TouchedByLast(moves, p);
      MovedKeeps(files, moves[..|moves| - 1], p);
    }
  }

  lemma {:induction false} UndoneKeeps(files: Files, done: seq<Move>, works: nat -> bool, p: Path)
    requires !Touched(done, p)
    ensures SameAt(files, Undone(files, done, works), p)
    decreases |done|
  {
    if done != [] {
      var n := |done| - 1;
      TouchedByLast(done, p);
      UndoneKeeps(if works(n) then Renamed(files, Back(done[n])) else files, done[..n], works, p);
    }
  }

  /** The original stands in its place, or its bytes stand in its bin. */
  ghost predicate Held(json: Path, content: Content, files: Files) {
    if json in files then files[json] == content else InBin(json, content, files)
  }

  ghost predicate AllPlanned(json: Path, moves: seq<Move>) {
    forall i :: 0 <= i < |moves| ==> PlannedMove(json, i, moves[i])
  }

  lemma {:induction false} MovedHolds(files: Files, json: Path, moves: seq<Move>)
    requires IsTranscript(json) && json in files && AllPlanned(json, moves)
    ensures var after := Moved(files, moves);
            if moves == [] then after == files else json !in after && InBin(json, files[json], after)
  {
    if moves != [] {
      var n := |moves| - 1;
      assert PlannedMove(json, n, moves[n]);
      assert forall i :: 0 <= i < n ==> PlannedMove(json, i, moves[..n][i]);
      MovedHolds(files, json, moves[..n]);
      BinIsTrash(json, json.In(TrashDir(json)));
      BinIsTrash(json, moves[n].dst);
    }
  }

  lemma {:induction false} UndoneHolds(files: Files, json: Path, content: Content, done: seq<Move>, works: nat -> bool)
    requires IsTranscript(json) && AllPlanned(json, done)
    requires Held(json, content, files) && (done != [] ==> json !in files)
    ensures Held(json, content, Undone(files, done, works))
    decreases |done|
  {
    if done != [] {
      var n := |done| - 1;
      assert PlannedMove(json, n, done[n]);
      assert forall i :: 0 <= i < n ==> PlannedMove(json, i, done[..n][i]);
      BinIsTrash(json, done[n].dst);
      UndoneHolds(if works(n) then Renamed(files, Back(done[n])) else files, json, content, done[..n], works);
    }
  }

  lemma PlanTouchesNoOther(json: Path, moves: seq<Move>, p: Path)
    requires IsTranscript(json) && AllPlanned(json, moves) && IsTranscript(p) && p != json
    ensures !Touched(moves, p)
  {
    forall i | 0 <= i < |moves| ensures moves[i].src != p && moves[i].dst != p {
      assert PlannedMove(json, i, moves[i]);
      BinIsTrash(json, moves[i].dst);
    }
  }

  /** Whichever way trashing ends, the original is held. */
  lemma HeldAfter(files: Files, json: Path, moves: seq<Move>, k: nat, works: nat -> bool)
    requires IsTranscript(json) && json in files && AllPlanned(json, moves) && k <= |moves|
    ensures Held(json, files[json], Moved(files, moves))
    ensures Held(json, files[json], Undone(Moved(files, moves[..k]), moves[..k], works))
  {
    MovedHolds(files, json, moves);
    assert forall i :: 0 <= i < k ==> PlannedMove(json, i, moves[..k][i]);
    MovedHolds(files, json, moves[..k]);
    UndoneHolds(Moved(files, moves[..k]), json, files[json], moves[..k], works);
  }

  /** And every other transcript is as it was. */
  lemma OthersAfter(files: Files, json: Path, moves: seq<Move>, k: nat, works: nat -> bool, p: Path)
    requires IsTranscript(json) && AllPlanned(json, moves) && k <= |moves| && IsTranscript(p) && p != json
    ensures SameAt(files, Moved(files, moves), p)
    ensures SameAt(files, Undone(Moved(files, moves[..k]), moves[..k], works), p)
  {
    assert forall i :: 0 <= i < k ==> PlannedMove(json, i, moves[..k][i]);
    PlanTouchesNoOther(json, moves, p);
    PlanTouchesNoOther(json, moves[..k], p);
    MovedKeeps(files, moves, p);
    MovedKeeps(files, moves[..k], p);
    UndoneKeeps(Moved(files, moves[..k]), moves[..k], works, p);
  }

  class Laptop {
    const disk: Disk
    const synced: Dir
    var rows: Rows

    constructor (disk: Disk, synced: Dir)
      ensures this.disk == disk && this.synced == synced && rows == map[]
    {
      this.disk, this.synced, rows := disk, synced, map[];
    }

    /** Write the documents of one pull. */
    method Receive(docs: seq<(string, Content)>)
      modifies disk
      ensures disk.files == Received(old(disk.files), synced, docs)
    {
      for i := 0 to |docs|
        invariant disk.files == Received(old(disk.files), synced, docs[..i])
      {
        assert docs[..i + 1][..i] == docs[..i];
        disk.files := disk.files[SyncedPath(synced, docs[i].0) := docs[i].1];
      }
      assert docs[..|docs|] == docs;
    }

    /** Trash the original; an error is logged and swallowed. */
    method Archive(json: Path, luck: Luck)
      requires IsTranscript(json) && json in disk.files && AudioIsNoJson(disk.files[json])
      modifies disk
      ensures Held(json, old(disk.files)[json], disk.files)
      ensures forall p :: IsTranscript(p) && p != json ==> SameAt(old(disk.files), disk.files, p)
    {
      ghost var was := disk.files;
      ghost var with := WithManifest(was, json);
      ghost var ms := MovesInto(TrashedPaths(was, json), TrashDir(json));
      BinIsTrash(json, ManifestIn(TrashDir(json)));
      var bin := disk.TrashTranscript(json, luck.wrote, luck.works, luck.undoes);
      if luck.wrote {
        assert AllPlanned(json, ms);
        ghost var k: nat := 0;
        if bin.None? {
          k :| FirstFailure(with, ms, luck.works, k)
               && disk.files == Undone(Moved(with, ms[..k]), ms[..k], luck.undoes);
        }
        HeldAfter(with, json, ms, k, luck.undoes);
        forall p | IsTranscript(p) && p != json ensures SameAt(was, disk.files, p) {
          assert p.dir == TrashDir(json) ==> false by {
            if p.dir == TrashDir(json) {
              BinIsTrash(json, p);
            }
          }
          assert SameAt(was, with, p);
          OthersAfter(with, json, ms, k, luck.undoes, p);
        }
      }
    }

    /** Migrate one transcript. An original leaves its place only after its synced copy verified;
        no other transcript leaves at all. */
    method MigrateOne(json: Path, luck: Luck) returns (r: Outcome)
      requires IsTranscript(json) && (json in disk.files ==> AudioIsNoJson(disk.files[json]))
      requires TRASH_DIRNAME !in synced
      modifies this, disk
      ensures r == Migrated <==> Succeeds(old(disk.files), synced, json, luck)
      ensures r == Migrated ==> rows == old(rows)[json.stem := Row(Path(synced, json.stem, ".json"), false, false)]
      ensures r != Migrated ==>
          rows == old(rows) && (disk.files == old(disk.files) || disk.files == Received(old(disk.files), synced, luck.docs))
      ensures TranscriptsStay(synced, old(disk.files), disk.files, if r == Migrated then {json} else {})
      ensures r == Migrated ==> Held(json, old(disk.files)[json], disk.files)
      ensures r == Migrated ==>
                var c := Path(synced, json.stem, ".json");
                && c in disk.files && disk.files[c].Doc? && json in old(disk.files) && old(disk.files)[json].Doc?
                && var original, copy := old(disk.files)[json].body, disk.files[c].body;
                && copy.segments == original.segments && copy.speakers == original.speakers
                && copy.title == original.title
      ensures r == HubDown ==> luck.push == Unreachable || luck.pull == Unreachable
    {
      if Under(synced, json) {
        return NotVerified;
      }
      if json !in disk.files || !disk.files[json].Doc? {
        return Broken;
      }
      var doc := disk.files[json].body;
      if luck.push != Answered {
        return if luck.push == Refused then Broken else HubDown;
      }
      ghost var was := disk.files;
      Receive(luck.docs);
      forall p ensures p in was ==> p in disk.files
               ensures !Under(synced, p) ==> SameAt(was, disk.files, p)
      {
        ReceivedKeeps(was, synced, luck.docs, p);
      }
      if luck.pull != Answered {
        return if luck.pull == Refused then Broken else HubDown;
      }
      var copy := SyncedPath(synced, json.stem);
      if copy !in disk.files {
        return NotVerified;
      }
      if !disk.files[copy].Doc? {
        return Broken;
      }
      if !SameFields(disk.files[copy].body, doc) {
        return NotVerified;
      }
      if !luck.indexes {
        return Broken;
      }
      rows := rows[json.stem := Row(copy, false, false)];
      assert IsTranscript(copy) && copy != json;
      Archive(json, luck);
      rows := Dropped(rows, json);
      r := Migrated;
    }
  
    /** Rows `sweep_local` tries: local, readable, and not in the synced directory whatever they say. */
    predicate Candidate(row: Row) {
      row.local && !row.error && !Under(synced, row.path)
    }

    /** The rows' paths, and the documents at them, are as an index and a library hold them. */
    ghost predicate Sane()
      reads this, disk
    {
      && TRASH_DIRNAME !in synced
      && (forall k :: k in rows ==> IsTranscript(rows[k].path) && rows[k].path.stem == k)
      && (forall p :: p in disk.files && IsTranscript(p) && !Under(synced, p) ==> AudioIsNoJson(disk.files[p]))
    }

    method TryRow(k: string, luck: Luck) returns (r: Outcome)
      requires Sane() && k in rows && Candidate(rows[k])
      modifies this, disk
      ensures Sane()
      ensures rows == if r == Migrated then old(rows)[k := Row(SyncedPath(synced, k), false, false)] else old(rows)
      ensures r == Migrated ==> SyncedPath(synced, k) in disk.files
      ensures forall p :: p in old(disk.files) && IsTranscript(p) && p !in disk.files ==> r == Migrated && p == old(rows)[k].path
      ensures r == HubDown ==> luck.push == Unreachable || luck.pull == Unreachable
    {
      ghost var was := disk.files;
      var json := rows[k].path;
      r := MigrateOne(json, luck);
      assert forall p :: IsTranscript(p) ==> TranscriptStays(synced, was, disk.files, if r == Migrated then {json} else {}, p);
    }

    /** Try every candidate row of `listing` once, in order, until the hub cannot be reached.
        `world(i)` is what happens during the i-th. */
    method SweepLocal(listing: seq<string>, world: nat -> Luck) returns (migrated: seq<string>, failed: seq<string>, ghost stopped: bool)
      requires Sane() && forall k :: k in listing ==> k in rows
      requires forall i, j :: 0 <= i < j < |listing| ==> listing[i] != listing[j]
      modifies this, disk
      ensures forall k :: k in migrated ==>
          k in rows && rows[k] == Row(Path(synced, k, ".json"), false, false) && Path(synced, k, ".json") in disk.files
      ensures forall k :: k in migrated || k in failed ==>
          && k in old(rows) && old(rows)[k].local && !old(rows)[k].error && !(synced <= old(rows)[k].path.dir)
      ensures forall k :: k in failed ==> k !in migrated
      ensures forall k :: k in old(rows) && k !in migrated ==> k in rows && rows[k] == old(rows)[k]
      ensures !stopped ==> forall k ::
          k in listing && old(rows)[k].local && !old(rows)[k].error && !(synced <= old(rows)[k].path.dir) ==> k in migrated || k in failed
      ensures stopped ==> exists i: nat :: world(i).push == Unreachable || world(i).pull == Unreachable
      ensures forall p :: p in old(disk.files) && IsTranscript(p) && p !in disk.files ==>
          p.stem in migrated && p == old(rows)[p.stem].path
    {
      migrated, failed, stopped := [], [], false;
      var list := rows;
      for i := 0 to |listing|
        invariant Sane()
        invariant forall k :: k in migrated ==> Done(list, k)
        invariant forall k :: k in migrated || k in failed ==> k in list && Candidate(list[k]) && k in listing[..i]
        invariant forall k :: k in failed ==> k !in migrated
        invariant forall k :: k in list && k !in migrated ==> k in rows && rows[k] == list[k]
        invariant forall k :: k in listing[..i] && Candidate(list[k]) ==> k in migrated || k in failed
        invariant forall p :: p in old(disk.files) && IsTranscript(p) && p !in disk.files ==> Left(list, migrated, p)
      {
        var k := listing[i];
        var row := list[k];
        assert listing[..i + 1] == listing[..i] + [k] && k !in listing[..i];
        if Candidate(row) {
          var r := TryRow(k, world(i));
          if r == Migrated {
            migrated := migrated + [k];
          } else {
            failed := failed + [k];
          }
          if r == HubDown {
            stopped := true;
            break;
          }
        }
      }
    }

    ghost predicate Done(list: Rows, k: string)
      reads this, disk
    {
      && k in list && k in rows && rows[k] == Row(SyncedPath(synced, k), false, false)
      && SyncedPath(synced, k) in disk.files
    }
  }

  ghost predicate Left(list: Rows, migrated: seq<string>, p: Path) {
    p.stem in migrated && p.stem in list && p == list[p.stem].path
  }
}

/** The transcript table of the library index (speechtotext/api/library_db.py): one row per file
    stem, brought up to date with the files in the library directories by `sync_dirs`. */
module LibraryIndex {

  /** A directory as its path components. */
  type Dir = seq<string>

  /** A transcript file `<stem>.json` in `dir`. */
  datatype Path = Path(dir: Dir, stem: string)

  datatype File = File(mtime: real, size: nat)

  /** Of a table row, only what `sync_dirs` looks at. */
  datatype Row = Row(path: Path, mtime: real, size: nat)

  type Disk = map<Path, File>
  type Rows = map<string, Row>

  /** The delete clause's test: the path starts with the directory's path and a separator. */
  predicate Under(d: Dir, p: Path) {
    d <= p.dir
  }

  predicate UnderAny(dirs: seq<Dir>, p: Path) {
    exists i :: 0 <= i < |dirs| && Under(dirs[i], p)
  }

  function RowOf(disk: Disk, p: Path): Row
    requires p in disk
  {
    Row(p, disk[p].mtime, disk[p].size)
  }

  /** A row's id is the stem of its path. */
  ghost predicate Keyed(rows: Rows) {
    forall k :: k in rows ==> rows[k].path.stem == k
  }

  /** The files a walk of `dirs` visits: those directly in one of them. */
  ghost function Scanned(disk: Disk, dirs: seq<Dir>): set<Path> {
    set p | p in disk && p.dir in dirs
  }

  ghost predicate HasStem(paths: set<Path>, k: string) {
    exists p :: p in paths && p.stem == k
  }

  predicate Matches(rows: Rows, disk: Disk, p: Path)
    requires p in disk
  {
    p.stem in rows && rows[p.stem] == RowOf(disk, p)
  }

  ghost predicate SameAt(a: Rows, b: Rows, k: string) {
    (k in a <==> k in b) && (k in a ==> a[k] == b[k])
  }

  /** Row `k` describes one of `paths`. */
  ghost predicate Describes(rows: Rows, disk: Disk, paths: set<Path>, k: string) {
    k in rows && rows[k].path in paths && rows[k].path in disk && rows[k].path.stem == k
    && rows[k] == RowOf(disk, rows[k].path)
  }

  /** `rows` is `before` brought up to date with the files in `seen`. */
  ghost predicate Indexed(disk: Disk, seen: set<Path>, before: Rows, rows: Rows) {
    forall k :: if HasStem(seen, k) then Describes(rows, disk, seen, k) else SameAt(before, rows, k)
  }

  ghost predicate RowAfter(disk: Disk, dirs: seq<Dir>, before: Rows, after: Rows, k: string) {
    if HasStem(Scanned(disk, dirs), k) then Describes(after, disk, Scanned(disk, dirs), k)
    else if k in before && UnderAny(dirs, before[k].path) then k !in after
    else SameAt(before, after, k)
  }

  /** What `sync_dirs` promises of every row: a stem that is in a scanned directory has a row with
      the path, mtime and size of such a file; a row with no such file goes if its path is under a
      scanned directory and stays as it is if not. */
  ghost predicate Synced(disk: Disk, dirs: seq<Dir>, before: Rows, after: Rows) {
    forall k :: RowAfter(disk, dirs, before, after, k)
  }

  ghost function Victims(disk: Disk, dirs: seq<Dir>, rows: Rows): set<string> {
    set k | k in rows && UnderAny(dirs, rows[k].path) && !HasStem(Scanned(disk, dirs), k)
  }

  ghost predicate UpToDate(rows: Rows, disk: Disk, paths: set<Path>) {
    forall p :: p in paths ==> p in disk && Matches(rows, disk, p)
  }

  ghost predicate DistinctStems(paths: set<Path>) {
    forall p, q :: p in paths && q in paths && p.stem == q.stem ==> p == q
  }

  // ---------------------------------------------------------------- consequences

  /** After a sync, every row under a scanned directory names a file on disk. */
  lemma NoRowIsStale(disk: Disk, dirs: seq<Dir>, before: Rows, after: Rows, k: string)
    requires Synced(disk, dirs, before, after) && k in after
    requires exists i :: 0 <= i < |dirs| && dirs[i] <= after[k].path.dir
    ensures after[k].path in disk
    ensures after[k].mtime == disk[after[k].path].mtime && after[k].size == disk[after[k].path].size
  {
    assert UnderAny(dirs, after[k].path) by {
      var i :| 0 <= i < |dirs| && dirs[i] <= after[k].path.dir;
      assert Under(dirs[i], after[k].path);
    }
    assert RowAfter(disk, dirs, before, after, k);
    assert SameAt(before, after, k) || HasStem(Scanned(disk, dirs), k);
  }

  /** Every stem in the scanned directories has a row describing one of its files. */
  lemma NoFileIsMissed(disk: Disk, dirs: seq<Dir>, before: Rows, after: Rows, p: Path)
    requires Synced(disk, dirs, before, after) && p in disk && p.dir in dirs
    ensures p.stem in after
    ensures var q := after[p.stem].path;
            && q in disk && q.dir in dirs && q.stem == p.stem
            && after[p.stem].mtime == disk[q].mtime && after[p.stem].size == disk[q].size
  {
    assert p in Scanned(disk, dirs);
    assert RowAfter(disk, dirs, before, after, p.stem);
  }

  ghost predicate Nested(d: Dir, e: Dir) {
    d <= e || e <= d
  }

  /** A row of a directory that is not scanned, with a stem no scanned file has, stays exactly if
      its path is under no scanned directory. */
  lemma RowElsewhereStaysIff(disk: Disk, dirs: seq<Dir>, before: Rows, after: Rows, k: string)
    requires Synced(disk, dirs, before, after) && k in before && !HasStem(Scanned(disk, dirs), k)
    ensures k in after <==> forall i :: 0 <= i < |dirs| ==> !(dirs[i] <= before[k].path.dir)
    ensures k in after ==> after[k] == before[k]
  {
    assert RowAfter(disk, dirs, before, after, k);
    assert forall i :: 0 <= i < |dirs| ==> (Under(dirs[i], before[k].path) <==> dirs[i] <= before[k].path.dir);
  }

  /** So it is safe where library directories are not nested. */
  lemma RowElsewhereStays(disk: Disk, dirs: seq<Dir>, before: Rows, after: Rows, k: string)
    requires Synced(disk, dirs, before, after) && k in before && !HasStem(Scanned(disk, dirs), k)
    requires forall d :: d in dirs ==> !Nested(d, before[k].path.dir)
    ensures SameAt(before, after, k)
  {
    RowElsewhereStaysIff(disk, dirs, before, after, k);
    assert forall i :: 0 <= i < |dirs| ==> dirs[i] in dirs;
  }

  /** Nested directories break it: syncing the output directory alone drops the row of a file that
      is still on disk in `incoming` below it. */
  lemma NestedRowIsDropped(after: Rows)
    requires Synced(map[Path(["out", "incoming"], "a") := File(1.0, 2)], [["out"]],
                    map["a" := Row(Path(["out", "incoming"], "a"), 1.0, 2)], after)
    ensures "a" !in after
  {
    var before := map["a" := Row(Path(["out", "incoming"], "a"), 1.0, 2)];
    var disk := map[Path(["out", "incoming"], "a") := File(1.0, 2)];
    assert !HasStem(Scanned(disk, [["out"]]), "a");
    assert ["out"] <= ["out", "incoming"];
    assert Under([["out"]][0], before["a"].path);
    RowElsewhereStaysIff(disk, [["out"]], before, after, "a");
  }

  /** With distinct stems the result does not depend on the order the files are visited in. */
  lemma OrderDoesNotMatter(disk: Disk, dirs: seq<Dir>, before: Rows, a: Rows, b: Rows)
    requires DistinctStems(Scanned(disk, dirs))
    requires Synced(disk, dirs, before, a) && Synced(disk, dirs, before, b)
    ensures a == b
  {
    forall k ensures SameAt(a, b, k) {
      assert RowAfter(disk, dirs, before, a, k) && RowAfter(disk, dirs, before, b, k);
    }
    SameEverywhere(a, b);
  }

  lemma SameEverywhere(a: Rows, b: Rows)
    requires forall k :: SameAt(a, b, k)
    ensures a == b
  {
    forall k ensures k in a <==> k in b {
      assert SameAt(a, b, k);
    }
    forall k | k in a ensures a[k] == b[k] {
      assert SameAt(a, b, k);
    }
  }

  /** After a sync, a second one finds every file up to date exactly if no two scanned files share
      a stem; two that do take the row from each other on every call. */
  lemma SettledIff(disk: Disk, dirs: seq<Dir>, before: Rows, after: Rows)
    requires Synced(disk, dirs, before, after)
    ensures UpToDate(after, disk, Scanned(disk, dirs)) <==> DistinctStems(Scanned(disk, dirs))
    ensures Victims(disk, dirs, after) == {}
  {
    var paths := Scanned(disk, dirs);
    forall p | p in paths ensures Describes(after, disk, paths, p.stem) {
      assert RowAfter(disk, dirs, before, after, p.stem);
    }
    forall k ensures k !in Victims(disk, dirs, after) {
      assert RowAfter(disk, dirs, before, after, k);
      assert k in after && !HasStem(paths, k) ==> SameAt(before, after, k);
    }
  }

  // ---------------------------------------------------------------- the table

  lemma VisitStep(disk: Disk, seen: set<Path>, before: Rows, rows: Rows, p: Path)
    requires p in disk && Indexed(disk, seen, before, rows)
    ensures Indexed(disk, seen + {p}, before, if Matches(rows, disk, p) then rows else rows[p.stem := RowOf(disk, p)])
  {
    var now := if Matches(rows, disk, p) then rows else rows[p.stem := RowOf(disk, p)];
    forall k ensures if HasStem(seen + {p}, k) then Describes(now, disk, seen + {p}, k) else SameAt(before, now, k) {
      assert p in seen + {p};
      assert if HasStem(seen, k) then Describes(rows, disk, seen, k) else SameAt(before, rows, k);
      if k != p.stem && HasStem(seen + {p}, k) {
        var q :| q in seen + {p} && q.stem == k;
        assert q in seen;
      }
      if HasStem(seen, k) {
        var q :| q in seen && q.stem == k;
        assert q in seen + {p};
      }
    }
  }

  lemma IndexedIsKeyed(disk: Disk, seen: set<Path>, before: Rows, rows: Rows)
    requires Indexed(disk, seen, before, rows) && Keyed(before)
    ensures Keyed(rows)
  {
    forall k | k in rows ensures rows[k].path.stem == k {
      assert if HasStem(seen, k) then Describes(rows, disk, seen, k) else SameAt(before, rows, k);
    }
  }

  /** The count of upserts: zero while every file seen matched its row in the first table. */
  ghost predicate Counts(disk: Disk, seen: set<Path>, before: Rows, rows: Rows, upserted: nat) {
    && (upserted == 0 ==> rows == before)
    && (upserted == 0 <==> UpToDate(before, disk, seen))
  }

  lemma CountStep(disk: Disk, seen: set<Path>, before: Rows, rows: Rows, upserted: nat, p: Path)
    requires p in disk && Counts(disk, seen, before, rows, upserted)
    ensures Counts(disk, seen + {p}, before, if Matches(rows, disk, p) then rows else rows[p.stem := RowOf(disk, p)],
                   if Matches(rows, disk, p) then upserted else upserted + 1)
  {
    assert forall q :: q in seen ==> q in seen + {p};
    assert p in seen + {p};
  }

  ghost predicate NoRepeats(dirs: seq<Dir>) {
    forall i, j :: 0 <= i < j < |dirs| ==> dirs[i] != dirs[j]
  }

  lemma ScannedMore(disk: Disk, dirs: seq<Dir>, i: nat)
    requires i < |dirs|
    ensures Scanned(disk, dirs[..i + 1]) == Scanned(disk, dirs[..i]) + Scanned(disk, [dirs[i]])
    ensures NoRepeats(dirs) ==> Scanned(disk, dirs[..i]) !! Scanned(disk, [dirs[i]])
  {
    assert dirs[..i + 1] == dirs[..i] + [dirs[i]];
  }

  lemma VictimsAre(disk: Disk, dirs: seq<Dir>, onDisk: set<Path>, before: Rows, mid: Rows, all: set<string>)
    requires Keyed(before) && onDisk == Scanned(disk, dirs) && Indexed(disk, onDisk, before, mid)
    requires all == set k | k in mid && UnderAny(dirs, mid[k].path) && mid[k].path !in onDisk
    ensures all == Victims(disk, dirs, before)
  {
    forall k ensures k in all <==> k in Victims(disk, dirs, before) {
      assert if HasStem(onDisk, k) then Describes(mid, disk, onDisk, k) else SameAt(before, mid, k);
      if k in mid && mid[k].path in onDisk {
        IndexedIsKeyed(disk, onDisk, before, mid);
        assert HasStem(onDisk, k);
      }
    }
  }

  lemma PrunedIsSynced(disk: Disk, dirs: seq<Dir>, before: Rows, mid: Rows)
    requires Keyed(before) && Indexed(disk, Scanned(disk, dirs), before, mid)
    ensures Keyed(mid - Victims(disk, dirs, before))
    ensures Synced(disk, dirs, before, mid - Victims(disk, dirs, before))
  {
    var seen, after := Scanned(disk, dirs), mid - Victims(disk, dirs, before);
    IndexedIsKeyed(disk, seen, before, mid);
    forall k ensures RowAfter(disk, dirs, before, after, k) {
      assert if HasStem(seen, k) then Describes(mid, disk, seen, k) else SameAt(before, mid, k);
    }
  }

  class LibraryDB {
    var rows: Rows

    constructor ()
      ensures rows == map[]
    {
      rows := map[];
    }

    /** Index one file; false if it is gone. A file that does not parse gets a row all the same. */
    method UpsertPath(disk: Disk, p: Path) returns (changed: bool)
      modifies this
      ensures changed == (p in disk)
      ensures rows == if p in disk then old(rows)[p.stem := Row(p, disk[p].mtime, disk[p].size)] else old(rows)
    {
      if p !in disk {
        return false;
      }
      rows := rows[p.stem := RowOf(disk, p)];
      changed := true;
    }

    method DeleteByPath(p: Path)
      requires Keyed(rows)
      modifies this
      ensures rows == if p.stem in old(rows) && old(rows)[p.stem].path == p then old(rows) - {p.stem} else old(rows)
    {
      if p.stem in rows && rows[p.stem].path == p {
        rows := rows - {p.stem};
      }
    }

    /** One file of the walk. */
    method Visit(disk: Disk, p: Path) returns (upserted: bool)
      requires p in disk
      modifies this
      ensures upserted == !Matches(old(rows), disk, p)
      ensures rows == if upserted then old(rows)[p.stem := RowOf(disk, p)] else old(rows)
    {
      if Matches(rows, disk, p) {
        return false;
      }
      upserted := UpsertPath(disk, p);
    }
  
    /** The files directly in `d`, in whatever order the directory lists them. */
    method SyncDir(disk: Disk, d: Dir, ghost seen: set<Path>, ghost before: Rows, upserted0: nat)
      returns (scanned: nat, upserted: nat)
      requires Indexed(disk, seen, before, rows) && Counts(disk, seen, before, rows, upserted0)
      modifies this
      ensures Indexed(disk, seen + Scanned(disk, [d]), before, rows)
      ensures Counts(disk, seen + Scanned(disk, [d]), before, rows, upserted)
      ensures scanned == |Scanned(disk, [d])|
    {
      var left := set p | p in disk && p.dir == d;
      scanned, upserted := 0, upserted0;
      ghost var all, done := left, seen;
      assert all == Scanned(disk, [d]);
      while left != {}
        invariant left <= all && done + left == seen + all
        invariant Indexed(disk, done, before, rows) && Counts(disk, done, before, rows, upserted)
        invariant scanned + |left| == |all|
        decreases left
      {
        var p :| p in left;
        VisitStep(disk, done, before, rows, p);
        CountStep(disk, done, before, rows, upserted, p);
        var changed := Visit(disk, p);
        left, done, scanned := left - {p}, done + {p}, scanned + 1;
        if changed {
          upserted := upserted + 1;
        }
      }
      assert done == seen + all;
    }

    /** Drop the rows under `dirs` whose file was not among those on disk. */
    method Prune(disk: Disk, dirs: seq<Dir>, onDisk: set<Path>, ghost before: Rows) returns (deleted: nat)
      requires Keyed(before) && onDisk == Scanned(disk, dirs) && Indexed(disk, onDisk, before, rows)
      modifies this
      ensures Keyed(rows) && Synced(disk, dirs, before, rows)
      ensures deleted == |Victims(disk, dirs, before)|
      ensures deleted == 0 ==> rows == old(rows)
    {
      IndexedIsKeyed(disk, onDisk, before, rows);
      var mid := rows;
      var left := set k | k in mid && UnderAny(dirs, mid[k].path) && mid[k].path !in onDisk;
      ghost var all := left;
      VictimsAre(disk, dirs, onDisk, before, mid, all);
      deleted := 0;
      while left != {}
        invariant left <= all && rows == mid - (all - left) && deleted + |left| == |all|
        decreases left
      {
        var k :| k in left;
        DeleteByPath(mid[k].path);
        assert (mid - (all - left)) - {k} == mid - (all - (left - {k}));
        left, deleted := left - {k}, deleted + 1;
      }
      assert all - left == all;
      PrunedIsSynced(disk, dirs, before, mid);
    }

    /** Bring the table up to date with the files in `dirs`. */
    method SyncDirs(disk: Disk, dirs: seq<Dir>) returns (scanned: nat, upserted: nat, deleted: nat)
      requires Keyed(rows)
      modifies this
      ensures Keyed(rows) && Synced(disk, dirs, old(rows), rows)
      ensures upserted == 0 <==> UpToDate(old(rows), disk, Scanned(disk, dirs))
      ensures deleted == |Victims(disk, dirs, old(rows))|
      ensures upserted == 0 && deleted == 0 ==> rows == old(rows)
      ensures NoRepeats(dirs) ==> scanned == |Scanned(disk, dirs)|
    {
      scanned, upserted, deleted := 0, 0, 0;
      ghost var before, seen: set<Path> := rows, {};
      for i := 0 to |dirs|
        invariant seen == Scanned(disk, dirs[..i]) && (NoRepeats(dirs) ==> scanned == |seen|)
        invariant Indexed(disk, seen, before, rows) && Counts(disk, seen, before, rows, upserted)
      {
        var inDir;
        inDir, upserted := SyncDir(disk, dirs[i], seen, before, upserted);
        scanned := scanned + inDir;
        ScannedMore(disk, dirs, i);
        seen := seen + Scanned(disk, [dirs[i]]);
      }
      assert dirs[..|dirs|] == dirs;
      var onDisk := set p | p in disk && p.dir in dirs;
      deleted := Prune(disk, dirs, onDisk, before);
    }
  }
}

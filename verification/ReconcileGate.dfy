/** The mtime gate in front of the library walk (speechtotext/api/reconcile.py): when no directory's
    mtime has changed since the last walk, the walk is skipped. The walk itself
    (speechtotext/api/library_db.py) is taken apart into the steps other writers can come between. */
module ReconcileGate {
  import opened Wrappers
  import I = LibraryIndex

  type Dir = I.Dir
  type Path = I.Path

  /** `doc` is the transcript, if the file parses. */
  datatype File = File(mtime: real, size: nat, doc: Option<string>)

  datatype Row = Row(path: Path, mtime: real, size: nat, doc: Option<string>)

  /** `upsert_path` on one file: chosen because its row did not match; its stat taken; its text
      read (None if the file was gone by then, or does not parse). */
  datatype Work = Free | Chosen(p: Path) | Statted(p: Path, mtime: real, size: nat)
                | Loaded(p: Path, mtime: real, size: nat, doc: Option<string>)
  {
    predicate On(q: Path) {
      !Free? && p == q
    }
  }

  datatype Phase = Idle | Stating | Walking | Deleting

  /** `mtimes`: the directories that exist. `clock`: no mtime is later. `seen`: what the reconciler
      remembers. `current`, `left`, `listed`, `todo`, `work`, `victims`: its call in progress. */
  datatype Sys = Sys(disk: map<Path, File>, mtimes: map<Dir, real>, clock: real, rows: map<string, Row>,
                     seen: map<Dir, real>, phase: Phase, current: map<Dir, real>, left: set<Dir>,
                     listed: set<Path>, todo: set<Path>, work: Work, victims: set<Path>)

  datatype Event =
    | Write(p: Path, size: nat, doc: Option<string>, now: real)
    | Remove(p: Path, now: real)
    | MakeDir(d: Dir, now: real)
    | RemoveDir(d: Dir)
    | Restart
    | WalkFails
    | Begin
    | StatDir(d: Dir)
    | Skip
    | StartWalk
    | Glob(d: Dir)
    | LookAt(p: Path)
    | UpsertStat
    | UpsertRead
    | UpsertWrite
    | Query
    | Delete(p: Path)
    | Finish

  function RowOf(disk: map<Path, File>, p: Path): Row
    requires p in disk
  {
    Row(p, disk[p].mtime, disk[p].size, disk[p].doc)
  }

  ghost predicate UnderAny(dirs: set<Dir>, p: Path) {
    exists d :: d in dirs && I.Under(d, p)
  }

  /** The test that skips a file: the row with its path has its mtime and size. */
  predicate LooksCurrent(s: Sys, p: Path)
    requires p in s.disk
  {
    p.stem in s.rows && s.rows[p.stem].path == p
    && s.rows[p.stem].mtime == s.disk[p].mtime && s.rows[p.stem].size == s.disk[p].size
  }

  ghost predicate DistinctStems(disk: map<Path, File>) {
    forall p, q :: p in disk && q in disk && p.stem == q.stem ==> p == q
  }

  // ---------------------------------------------------------------- steps

  /** Every change of a directory entry takes a time later than any before; a written file's own
      mtime is that time too. Stems stay unique. */
  ghost predicate Enabled(dirs: set<Dir>, s: Sys, ev: Event) {
    match ev
    case Write(p, _, _, now) =>
      now > s.clock && p.dir in s.mtimes && forall q :: q in s.disk && q.stem == p.stem ==> q == p
    case Remove(p, now) => now > s.clock && p in s.disk
    case MakeDir(d, now) => now > s.clock && d !in s.mtimes
    case RemoveDir(d) => d in s.mtimes
    case Restart => true
    case WalkFails => s.phase == Walking || s.phase == Deleting
    case Begin => s.phase == Idle
    case StatDir(d) => s.phase == Stating && d in s.left
    case Skip => s.phase == Stating && s.left == {} && s.current == s.seen
    case StartWalk => s.phase == Stating && s.left == {} && s.current != s.seen
    case Glob(d) => s.phase == Walking && d in s.left && s.todo == {} && s.work == Free
    case LookAt(p) => s.phase == Walking && p in s.todo && s.work == Free
    case UpsertStat => s.phase == Walking && s.work.Chosen?
    case UpsertRead => s.phase == Walking && s.work.Statted?
    case UpsertWrite => s.phase == Walking && s.work.Loaded?
    case Query => s.phase == Walking && s.left == {} && s.todo == {} && s.work == Free
    case Delete(p) => s.phase == Deleting && p in s.victims
    case Finish => s.phase == Deleting && s.victims == {}
  }

  ghost function FilesIn(disk: map<Path, File>, d: Dir): set<Path> {
    set p | p in disk && p.dir == d
  }

  ghost function Doomed(dirs: set<Dir>, s: Sys): set<Path> {
    set k | k in s.rows && UnderAny(dirs, s.rows[k].path) && s.rows[k].path !in s.listed :: s.rows[k].path
  }

  ghost function ApplyDisk(s: Sys, ev: Event): Sys {
    match ev
    case Write(p, size, doc, now) =>
      s.(disk := s.disk[p := File(now, size, doc)], mtimes := s.mtimes[p.dir := now], clock := now)
    case Remove(p, now) => s.(disk := s.disk - {p}, mtimes := s.mtimes[p.dir := now], clock := now)
    case MakeDir(d, now) => s.(mtimes := s.mtimes[d := now], clock := now)
    case RemoveDir(d) => s.(mtimes := s.mtimes - {d}, disk := map p | p in s.disk && p.dir != d :: s.disk[p])
    case _ => s
  }

  /** A file that is gone is passed over, as is one whose row looks current. */
  ghost function Look(s: Sys, p: Path): Work {
    if p !in s.disk || LooksCurrent(s, p) then Free else Chosen(p)
  }

  /** The stat and the read inside `upsert_path`. */
  ghost function Advance(s: Sys): Work {
    match s.work
    case Chosen(p) => if p in s.disk then Statted(p, s.disk[p].mtime, s.disk[p].size) else Free
    case Statted(p, m, n) => Loaded(p, m, n, if p in s.disk then s.disk[p].doc else None)
    case _ => s.work
  }

  ghost function RowsWritten(s: Sys): map<string, Row> {
    match s.work
    case Loaded(p, m, n, doc) => s.rows[p.stem := Row(p, m, n, doc)]
    case _ => s.rows
  }

  ghost function Apply(dirs: set<Dir>, s: Sys, ev: Event): Sys {
    match ev
    case Restart => s.(seen := map[], phase := Idle, work := Free)
    case WalkFails => s.(phase := Idle, work := Free)
    case Begin => s.(phase := Stating, left := dirs, current := map[])
    case StatDir(d) =>
      s.(left := s.left - {d}, current := if d in s.mtimes then s.current[d := s.mtimes[d]] else s.current)
    case Skip => s.(phase := Idle)
    case StartWalk => s.(phase := Walking, left := dirs, listed := {}, todo := {}, work := Free)
    case Glob(d) =>
      s.(left := s.left - {d}, listed := s.listed + FilesIn(s.disk, d), todo := FilesIn(s.disk, d))
    case Query => s.(phase := Deleting, victims := Doomed(dirs, s))
    case Delete(p) =>
      s.(rows := if p.stem in s.rows && s.rows[p.stem].path == p then s.rows - {p.stem} else s.rows,
         victims := s.victims - {p})
    case Finish => s.(phase := Idle, seen := s.current)
    case LookAt(p) => s.(todo := s.todo - {p}, work := Look(s, p))
    case UpsertStat => s.(work := Advance(s))
    case UpsertRead => s.(work := Advance(s))
    case UpsertWrite => s.(rows := RowsWritten(s), work := Free)
    case _ => ApplyDisk(s, ev)
  }

  // ---------------------------------------------------------------- the invariant

  ghost predicate Agrees(s: Sys, d: Dir) {
    && (forall p :: p in s.disk && p.dir == d ==> p.stem in s.rows && s.rows[p.stem] == RowOf(s.disk, p))
    && (forall k :: k in s.rows && s.rows[k].path.dir == d ==> s.rows[k].path in s.disk)
  }

  /** `d` exists with the mtime the reconciler remembers. */
  ghost predicate Settled(s: Sys, d: Dir) {
    d in s.seen && d in s.mtimes && s.mtimes[d] == s.seen[d]
  }

  /** `d` exists with the mtime the call in progress found. */
  ghost predicate Stable(s: Sys, d: Dir) {
    d in s.current && d in s.mtimes && s.mtimes[d] == s.current[d]
  }

  ghost predicate Clocked(s: Sys) {
    && (forall d :: d in s.mtimes ==> s.mtimes[d] <= s.clock)
    && (forall d :: d in s.seen ==> s.seen[d] <= s.clock)
    && (forall d :: d in s.current ==> s.current[d] <= s.clock)
    && (forall p :: p in s.disk ==> s.disk[p].mtime <= s.clock)
    && (forall k :: k in s.rows ==> s.rows[k].mtime <= s.clock)
    && (s.work.Statted? || s.work.Loaded? ==> s.work.mtime <= s.clock)
  }

  ghost predicate Shaped(dirs: set<Dir>, s: Sys) {
    && DistinctStems(s.disk)
    && (forall p :: p in s.disk ==> p.dir in s.mtimes)
    && (forall k :: k in s.rows ==> s.rows[k].path.stem == k)
    && s.seen.Keys <= dirs && s.current.Keys <= dirs && s.left <= dirs
    && (s.phase == Stating ==> s.current.Keys !! s.left)
  }

  ghost predicate SameTime(s: Sys, p: Path, mtime: real) {
    p in s.disk && s.disk[p].mtime == mtime
  }

  /** A row or a stat that has a file's mtime has its size and text too. */
  ghost predicate Honest(s: Sys) {
    && (forall k :: k in s.rows && SameTime(s, s.rows[k].path, s.rows[k].mtime) ==> s.rows[k] == RowOf(s.disk, s.rows[k].path))
    && (s.work.Statted? && SameTime(s, s.work.p, s.work.mtime) ==> s.work.size == s.disk[s.work.p].size)
    && (s.work.Loaded? && SameTime(s, s.work.p, s.work.mtime) ==>
        Row(s.work.p, s.work.mtime, s.work.size, s.work.doc) == RowOf(s.disk, s.work.p))
  }

  /** The call in progress has taken the stat of `d`. */
  ghost predicate HasStat(s: Sys, d: Dir) {
    s.phase == Walking || s.phase == Deleting || (s.phase == Stating && d !in s.left)
  }

  /** A directory that is as remembered is as the call in progress found it, once it has looked. */
  ghost predicate Tracked(dirs: set<Dir>, s: Sys) {
    forall d :: d in dirs && HasStat(s, d) && Settled(s, d) ==> Stable(s, d)
  }

  ghost predicate Matched(s: Sys, p: Path) {
    p in s.disk && p.stem in s.rows && s.rows[p.stem] == RowOf(s.disk, p)
  }

  /** The walk's bookkeeping, whatever happened to the disk. */
  ghost predicate Listed(dirs: set<Dir>, s: Sys) {
    && (forall p :: p in s.listed ==> p.dir in dirs - s.left)
    && s.todo <= s.listed && (!s.work.Free? ==> s.work.p in s.listed && s.work.p !in s.todo)
    && (forall q, p :: q in s.listed && p in s.disk && p.dir in dirs && Stable(s, p.dir) && q.stem == p.stem ==> q == p)
  }

  /** What the walk knows of a listed file in a directory that has not changed since its stat. */
  ghost predicate WalkedFile(s: Sys, p: Path) {
    && p in s.disk
    && (p in s.todo || s.work.On(p) || Matched(s, p))
    && (s.work.On(p) && s.work.Statted? ==> s.work.mtime == s.disk[p].mtime)
    && (s.work.On(p) && s.work.Loaded? ==> s.work.mtime == s.disk[p].mtime)
  }

  ghost predicate WalkedDirs(dirs: set<Dir>, s: Sys) {
    && (forall p :: p in s.listed && Stable(s, p.dir) ==> WalkedFile(s, p))
    && (forall p :: p in s.disk && p.dir in dirs - s.left && Stable(s, p.dir) ==> p in s.listed)
  }

  /** A row with this path must go: its file is missing from an unchanged directory. */
  ghost predicate Dangling(dirs: set<Dir>, s: Sys, p: Path) {
    p.dir in dirs && Stable(s, p.dir) && p !in s.disk
  }

  ghost predicate Pruning(dirs: set<Dir>, s: Sys) {
    && (forall p :: p in s.disk && p.dir in dirs && Stable(s, p.dir) ==> Matched(s, p))
    && (forall p :: p in s.victims && p.dir in dirs && Stable(s, p.dir) ==> p !in s.disk)
    && (forall k :: k in s.rows && Dangling(dirs, s, s.rows[k].path) ==> s.rows[k].path in s.victims)
  }

  ghost predicate SettledAgree(dirs: set<Dir>, s: Sys) {
    forall d :: d in dirs && Settled(s, d) ==> Agrees(s, d)
  }

  ghost predicate Inv(dirs: set<Dir>, s: Sys) {
    && Clocked(s) && Shaped(dirs, s) && Honest(s) && Tracked(dirs, s) && SettledAgree(dirs, s)
    && (s.phase == Walking ==> Listed(dirs, s) && WalkedDirs(dirs, s))
    && (s.phase == Deleting ==> Pruning(dirs, s))
  }

  ghost predicate OnDisk(ev: Event) {
    ev.Write? || ev.Remove? || ev.MakeDir? || ev.RemoveDir?
  }

  ghost predicate SameFiles(s: Sys, t: Sys, d: Dir) {
    forall p: Path :: p.dir == d ==> (p in t.disk <==> p in s.disk) && (p in s.disk ==> t.disk[p] == s.disk[p])
  }

  /** A writer's step leaves a directory settled only if nothing in it changed. */
  lemma WriterTouches(dirs: set<Dir>, s: Sys, ev: Event, d: Dir)
    requires Inv(dirs, s) && OnDisk(ev) && Enabled(dirs, s, ev) && d in dirs
    ensures Settled(ApplyDisk(s, ev), d) ==> Settled(s, d) && SameFiles(s, ApplyDisk(s, ev), d)
    ensures HasStat(s, d) && Stable(ApplyDisk(s, ev), d) ==> Stable(s, d) && SameFiles(s, ApplyDisk(s, ev), d)
  {
  }

  lemma WriterKeepsShape(dirs: set<Dir>, s: Sys, ev: Event)
    requires Inv(dirs, s) && OnDisk(ev) && Enabled(dirs, s, ev)
    ensures var t := ApplyDisk(s, ev); Clocked(t) && Shaped(dirs, t) && Honest(t)
  {
  }

  lemma WriterKeepsTracked(dirs: set<Dir>, s: Sys, ev: Event)
    requires Inv(dirs, s) && OnDisk(ev) && Enabled(dirs, s, ev)
    ensures Tracked(dirs, ApplyDisk(s, ev))
  {
  }

  lemma WriterKeepsAgree(dirs: set<Dir>, s: Sys, ev: Event)
    requires Inv(dirs, s) && OnDisk(ev) && Enabled(dirs, s, ev)
    ensures SettledAgree(dirs, ApplyDisk(s, ev))
  {
    forall d | d in dirs && Settled(ApplyDisk(s, ev), d) ensures Agrees(ApplyDisk(s, ev), d) {
      WriterTouches(dirs, s, ev, d);
    }
  }

  lemma WriterKeepsWalk(dirs: set<Dir>, s: Sys, ev: Event)
    requires Inv(dirs, s) && OnDisk(ev) && Enabled(dirs, s, ev) && s.phase == Walking
    ensures Listed(dirs, ApplyDisk(s, ev)) && WalkedDirs(dirs, ApplyDisk(s, ev))
  {
    forall d | d in dirs {
      WriterTouches(dirs, s, ev, d);
    }
  }

  lemma WriterKeepsPruning(dirs: set<Dir>, s: Sys, ev: Event)
    requires Inv(dirs, s) && OnDisk(ev) && Enabled(dirs, s, ev) && s.phase == Deleting
    ensures Pruning(dirs, ApplyDisk(s, ev))
  {
    forall d | d in dirs {
      WriterTouches(dirs, s, ev, d);
    }
  }

  ghost predicate IsCall(ev: Event) {
    ev == Restart || ev == WalkFails || ev == Begin || ev.StatDir? || ev == Skip || ev == StartWalk || ev == Finish
  }

  lemma CallLeaves(dirs: set<Dir>, s: Sys, ev: Event)
    requires Enabled(dirs, s, ev) && IsCall(ev)
    ensures var t := Apply(dirs, s, ev);
            t.disk == s.disk && t.mtimes == s.mtimes && t.clock == s.clock && t.rows == s.rows
            && (t.work == s.work || t.work == Free)
  {
  }

  lemma CallKeepsHonest(dirs: set<Dir>, s: Sys, ev: Event)
    requires Inv(dirs, s) && Enabled(dirs, s, ev) && IsCall(ev)
    ensures Honest(Apply(dirs, s, ev))
  {
    CallLeaves(dirs, s, ev);
  }

  lemma CallKeepsShape(dirs: set<Dir>, s: Sys, ev: Event)
    requires Inv(dirs, s) && Enabled(dirs, s, ev) && IsCall(ev)
    ensures Clocked(Apply(dirs, s, ev)) && Shaped(dirs, Apply(dirs, s, ev))
  {
    CallLeaves(dirs, s, ev);
  }

  lemma CallKeepsTracked(dirs: set<Dir>, s: Sys, ev: Event)
    requires Inv(dirs, s) && Enabled(dirs, s, ev) && IsCall(ev)
    ensures Tracked(dirs, Apply(dirs, s, ev))
  {
  }

  /** After a walk, a directory is remembered as it is only if nothing changed since its stat. */
  lemma CallKeepsAgree(dirs: set<Dir>, s: Sys, ev: Event)
    requires Inv(dirs, s) && Enabled(dirs, s, ev) && IsCall(ev)
    ensures SettledAgree(dirs, Apply(dirs, s, ev))
  {
    var t := Apply(dirs, s, ev);
    forall d | d in dirs && Settled(t, d) ensures Agrees(t, d) {
      if ev == Finish {
        assert Stable(s, d);
      } else {
        assert Settled(s, d);
      }
    }
  }

  /** Steps of the walk that change neither the disk nor a row. */
  ghost predicate Framed(s: Sys, t: Sys) {
    && t.disk == s.disk && t.mtimes == s.mtimes && t.clock == s.clock && t.rows == s.rows && t.seen == s.seen
    && t.current == s.current
    && s.phase == Walking && (t.phase == Walking || t.phase == Deleting) && t.left <= s.left
  }

  ghost predicate IsLook(ev: Event) {
    ev.Glob? || ev.LookAt? || ev == UpsertStat || ev == UpsertRead || ev == Query
  }

  lemma LookIsFramed(dirs: set<Dir>, s: Sys, ev: Event)
    requires Enabled(dirs, s, ev) && IsLook(ev)
    ensures Framed(s, Apply(dirs, s, ev))
  {
  }

  lemma FrameKeepsBasics(dirs: set<Dir>, s: Sys, t: Sys)
    requires Inv(dirs, s) && Framed(s, t)
    ensures Shaped(dirs, t) && Tracked(dirs, t)
    ensures forall d :: (Stable(t, d) <==> Stable(s, d)) && (Settled(t, d) <==> Settled(s, d))
  {
  }

  lemma FrameKeepsAgree(dirs: set<Dir>, s: Sys, t: Sys)
    requires Inv(dirs, s) && Framed(s, t)
    ensures SettledAgree(dirs, t)
  {
    forall d | d in dirs && Settled(t, d) ensures Agrees(t, d) {
      assert Settled(s, d);
    }
  }

  lemma LookKeepsHonest(dirs: set<Dir>, s: Sys, ev: Event)
    requires Inv(dirs, s) && Enabled(dirs, s, ev) && IsLook(ev)
    ensures Clocked(Apply(dirs, s, ev)) && Honest(Apply(dirs, s, ev))
  {
    LookIsFramed(dirs, s, ev);
  }

  lemma RowWriteKeepsBasics(dirs: set<Dir>, s: Sys)
    requires Inv(dirs, s) && Enabled(dirs, s, UpsertWrite)
    ensures var t := Apply(dirs, s, UpsertWrite); Clocked(t) && Shaped(dirs, t) && Honest(t) && Tracked(dirs, t)
  {
  }

  /** A row written by the walk is right for its file if the file's directory has not changed, and
      is no row of another such file. */
  lemma RowWriteKeepsAgree(dirs: set<Dir>, s: Sys)
    requires Inv(dirs, s) && Enabled(dirs, s, UpsertWrite)
    ensures SettledAgree(dirs, Apply(dirs, s, UpsertWrite))
  {
    var t := Apply(dirs, s, UpsertWrite);
    forall d | d in dirs && Settled(t, d) ensures Agrees(t, d) {
      assert Settled(s, d);
      assert s.work.p in s.listed;
    }
  }

  lemma GlobKeepsWalk(dirs: set<Dir>, s: Sys, d: Dir)
    requires Inv(dirs, s) && Enabled(dirs, s, Glob(d))
    ensures Listed(dirs, Apply(dirs, s, Glob(d))) && WalkedDirs(dirs, Apply(dirs, s, Glob(d)))
  {
    var t := Apply(dirs, s, Glob(d));
    FrameKeepsBasics(dirs, s, t);
    forall p | p in t.listed && Stable(t, p.dir) ensures WalkedFile(t, p) {
      if p in s.listed {
        assert WalkedFile(s, p);
      }
    }
  }

  lemma LookKeepsListed(dirs: set<Dir>, s: Sys, ev: Event)
    requires Inv(dirs, s) && Enabled(dirs, s, ev) && (ev.LookAt? || ev == UpsertStat || ev == UpsertRead)
    ensures Listed(dirs, Apply(dirs, s, ev))
  {
    LookIsFramed(dirs, s, ev);
    FrameKeepsBasics(dirs, s, Apply(dirs, s, ev));
  }

  lemma LookAtKeepsWalked(dirs: set<Dir>, s: Sys, p: Path)
    requires Inv(dirs, s) && Enabled(dirs, s, LookAt(p))
    ensures WalkedDirs(dirs, Apply(dirs, s, LookAt(p)))
  {
    var t := Apply(dirs, s, LookAt(p));
    FrameKeepsBasics(dirs, s, t);
    forall q | q in t.listed && Stable(t, q.dir) ensures WalkedFile(t, q) {
      assert WalkedFile(s, q);
    }
  }

  lemma UpsertStatKeepsWalked(dirs: set<Dir>, s: Sys)
    requires Inv(dirs, s) && Enabled(dirs, s, UpsertStat)
    ensures WalkedDirs(dirs, Apply(dirs, s, UpsertStat))
  {
    var t := Apply(dirs, s, UpsertStat);
    FrameKeepsBasics(dirs, s, t);
    forall q | q in t.listed && Stable(t, q.dir) ensures WalkedFile(t, q) {
      assert WalkedFile(s, q);
    }
  }

  lemma UpsertReadKeepsWalked(dirs: set<Dir>, s: Sys)
    requires Inv(dirs, s) && Enabled(dirs, s, UpsertRead)
    ensures WalkedDirs(dirs, Apply(dirs, s, UpsertRead))
  {
    var t := Apply(dirs, s, UpsertRead);
    FrameKeepsBasics(dirs, s, t);
    forall q | q in t.listed && Stable(t, q.dir) ensures WalkedFile(t, q) {
      assert WalkedFile(s, q);
    }
  }

  lemma RowWriteKeepsWalk(dirs: set<Dir>, s: Sys)
    requires Inv(dirs, s) && Enabled(dirs, s, UpsertWrite)
    ensures Listed(dirs, Apply(dirs, s, UpsertWrite)) && WalkedDirs(dirs, Apply(dirs, s, UpsertWrite))
  {
    var t := Apply(dirs, s, UpsertWrite);
    assert forall d :: Stable(t, d) <==> Stable(s, d);
    forall p | p in t.listed && Stable(t, p.dir) ensures WalkedFile(t, p) {
      assert WalkedFile(s, p);
    }
  }

  lemma StartKeepsWalk(dirs: set<Dir>, s: Sys)
    requires Inv(dirs, s) && Enabled(dirs, s, StartWalk)
    ensures Listed(dirs, Apply(dirs, s, StartWalk)) && WalkedDirs(dirs, Apply(dirs, s, StartWalk))
  {
  }

  lemma QueryStartsPruning(dirs: set<Dir>, s: Sys)
    requires Inv(dirs, s) && Enabled(dirs, s, Query)
    ensures Pruning(dirs, Apply(dirs, s, Query))
  {
    var t := Apply(dirs, s, Query);
    forall p | p in s.disk && p.dir in dirs && Stable(t, p.dir) ensures Matched(t, p) {
      assert Stable(s, p.dir) && p in s.listed && WalkedFile(s, p);
    }
    forall p | p in t.victims && p.dir in dirs && Stable(t, p.dir) ensures p !in t.disk {
      assert Stable(s, p.dir);
    }
    forall k | k in s.rows && Dangling(dirs, t, s.rows[k].path) ensures s.rows[k].path in t.victims {
      var p := s.rows[k].path;
      assert I.Under(p.dir, p) && Stable(s, p.dir);
      assert p in s.listed ==> WalkedFile(s, p);
    }
  }

  lemma DeleteKeepsBasics(dirs: set<Dir>, s: Sys, p: Path)
    requires Inv(dirs, s) && Enabled(dirs, s, Delete(p))
    ensures var t := Apply(dirs, s, Delete(p)); Clocked(t) && Shaped(dirs, t) && Honest(t) && Tracked(dirs, t)
  {
  }

  lemma DeleteKeepsPruning(dirs: set<Dir>, s: Sys, p: Path)
    requires Inv(dirs, s) && Enabled(dirs, s, Delete(p))
    ensures Pruning(dirs, Apply(dirs, s, Delete(p)))
  {
    var t := Apply(dirs, s, Delete(p));
    forall q | q in t.disk && q.dir in dirs && Stable(t, q.dir) ensures Matched(t, q) {
      assert Stable(s, q.dir) && Matched(s, q);
    }
    forall k | k in t.rows && Dangling(dirs, t, t.rows[k].path) ensures t.rows[k].path in t.victims {
      assert Dangling(dirs, s, s.rows[k].path);
    }
  }

  lemma DeleteKeepsAgree(dirs: set<Dir>, s: Sys, p: Path)
    requires Inv(dirs, s) && Enabled(dirs, s, Delete(p))
    ensures SettledAgree(dirs, Apply(dirs, s, Delete(p)))
  {
    var t := Apply(dirs, s, Delete(p));
    forall d | d in dirs && Settled(t, d) ensures Agrees(t, d) {
      assert Settled(s, d);
    }
  }

  lemma LookKeepsInv(dirs: set<Dir>, s: Sys, ev: Event)
    requires Inv(dirs, s) && Enabled(dirs, s, ev) && IsLook(ev)
    ensures Inv(dirs, Apply(dirs, s, ev))
  {
    LookIsFramed(dirs, s, ev);
    FrameKeepsBasics(dirs, s, Apply(dirs, s, ev));
    FrameKeepsAgree(dirs, s, Apply(dirs, s, ev));
    LookKeepsHonest(dirs, s, ev);
    if ev == Query {
      QueryStartsPruning(dirs, s);
    } else if ev.Glob? {
      GlobKeepsWalk(dirs, s, ev.d);
    } else {
      LookKeepsListed(dirs, s, ev);
      match ev
      case LookAt(p) => LookAtKeepsWalked(dirs, s, p);
      case UpsertStat => UpsertStatKeepsWalked(dirs, s);
      case _ => UpsertReadKeepsWalked(dirs, s);
    }
  }

  lemma WriterKeepsInv(dirs: set<Dir>, s: Sys, ev: Event)
    requires Inv(dirs, s) && Enabled(dirs, s, ev) && OnDisk(ev)
    ensures Inv(dirs, Apply(dirs, s, ev))
  {
    assert Apply(dirs, s, ev) == ApplyDisk(s, ev) && ApplyDisk(s, ev).phase == s.phase;
    WriterKeepsShape(dirs, s, ev);
    WriterKeepsTracked(dirs, s, ev);
    WriterKeepsAgree(dirs, s, ev);
    if s.phase == Walking {
      WriterKeepsWalk(dirs, s, ev);
    } else if s.phase == Deleting {
      WriterKeepsPruning(dirs, s, ev);
    }
  }

  lemma CallKeepsInv(dirs: set<Dir>, s: Sys, ev: Event)
    requires Inv(dirs, s) && Enabled(dirs, s, ev) && IsCall(ev)
    ensures Inv(dirs, Apply(dirs, s, ev))
  {
    CallKeepsHonest(dirs, s, ev);
    CallKeepsShape(dirs, s, ev);
    CallKeepsTracked(dirs, s, ev);
    CallKeepsAgree(dirs, s, ev);
    if ev == StartWalk {
      StartKeepsWalk(dirs, s);
    }
  }

  lemma StepKeepsInv(dirs: set<Dir>, s: Sys, ev: Event)
    requires Inv(dirs, s) && Enabled(dirs, s, ev)
    ensures Inv(dirs, Apply(dirs, s, ev))
  {
    if OnDisk(ev) {
      WriterKeepsInv(dirs, s, ev);
    } else if IsCall(ev) {
      CallKeepsInv(dirs, s, ev);
    } else if ev.Delete? {
      DeleteKeepsBasics(dirs, s, ev.p);
      DeleteKeepsPruning(dirs, s, ev.p);
      DeleteKeepsAgree(dirs, s, ev.p);
    } else if ev == UpsertWrite {
      RowWriteKeepsBasics(dirs, s);
      RowWriteKeepsAgree(dirs, s);
      RowWriteKeepsWalk(dirs, s);
    } else {
      LookKeepsInv(dirs, s, ev);
    }
  }

  // ---------------------------------------------------------------- runs

  /** A fresh process over any disk and any table whose rows do not misdescribe a file. */
  ghost predicate Start(dirs: set<Dir>, s: Sys) {
    && s.phase == Idle && s.work == Free && s.seen == map[] && s.current == map[] && s.left == {}
    && Clocked(s) && Shaped(dirs, s) && Honest(s)
  }

  ghost predicate Run(dirs: set<Dir>, s: Sys, es: seq<Event>, t: Sys)
    decreases |es|
  {
    if es == [] then s == t
    else
      var before, last := es[..|es| - 1], es[|es| - 1];
      exists u :: Run(dirs, s, before, u) && Enabled(dirs, u, last) && t == Apply(dirs, u, last)
  }

  lemma {:induction false} RunKeepsInv(dirs: set<Dir>, s: Sys, es: seq<Event>, t: Sys)
    requires Start(dirs, s) && Run(dirs, s, es, t)
    ensures Inv(dirs, t)
    decreases |es|
  {
    if es != [] {
      var last := es[|es| - 1];
      var u :| Run(dirs, s, es[..|es| - 1], u) && Enabled(dirs, u, last) && t == Apply(dirs, u, last);
      RunKeepsInv(dirs, s, es[..|es| - 1], u);
      StepKeepsInv(dirs, u, last);
    }
  }

  /** Main result: in every interleaving with writers, whenever a directory's remembered mtime is
      its current one, the table agrees with its files, in both directions. */
  lemma RememberedDirAgrees(dirs: set<Dir>, s: Sys, es: seq<Event>, t: Sys, d: Dir)
    requires Start(dirs, s) && Run(dirs, s, es, t)
    requires d in dirs && d in t.seen && d in t.mtimes && t.mtimes[d] == t.seen[d]
    ensures forall p :: p in t.disk && p.dir == d ==> p.stem in t.rows && t.rows[p.stem] == RowOf(t.disk, p)
    ensures forall k :: k in t.rows && t.rows[k].path.dir == d ==> t.rows[k].path in t.disk
  {
    RunKeepsInv(dirs, s, es, t);
    assert Settled(t, d) && Agrees(t, d);
  }

  /** Skipping a file by mtime and size is safe too, even though a file can change between the stat
      and the read that fill its row: a row with its file's mtime has its size and its text. */
  lemma NoRowMisleads(dirs: set<Dir>, s: Sys, es: seq<Event>, t: Sys, k: string)
    requires Start(dirs, s) && Run(dirs, s, es, t)
    requires k in t.rows && t.rows[k].path in t.disk && t.rows[k].mtime == t.disk[t.rows[k].path].mtime
    ensures t.rows[k] == RowOf(t.disk, t.rows[k].path)
  {
    RunKeepsInv(dirs, s, es, t);
  }

  function TableOf(rows: map<string, Row>): I.Rows {
    map k | k in rows :: I.Row(rows[k].path, rows[k].mtime, rows[k].size)
  }

  function DiskOf(disk: map<Path, File>): I.Disk {
    map p | p in disk :: I.File(disk[p].mtime, disk[p].size)
  }

  /** Nothing happened to `d` since the call in progress looked at it. */
  predicate AsFound(t: Sys, d: Dir) {
    if d in t.current then d in t.mtimes && t.mtimes[d] == t.current[d] else d !in t.mtimes
  }

  /** A walk now would upsert nothing and delete nothing. */
  ghost predicate WalkIsIdle(t: Sys, order: seq<Dir>) {
    && I.UpToDate(TableOf(t.rows), DiskOf(t.disk), I.Scanned(DiskOf(t.disk), order))
    && I.Victims(DiskOf(t.disk), order, TableOf(t.rows)) == {}
  }

  /** The reconciler remembers the directory of every row that is below the library directories. */
  predicate RowsAreRemembered(t: Sys, order: seq<Dir>) {
    forall k :: k in t.rows && I.UnderAny(order, t.rows[k].path) ==> t.rows[k].path.dir in t.seen
  }

  /** Main result, both ways: when the gate skips, and no directory changed since the call's stats, a
      walk would do nothing if and only if every row below the library directories is in a directory
      the reconciler remembers. It could check that against its table. */
  lemma SkipEqualsWalkIff(dirs: set<Dir>, s: Sys, es: seq<Event>, t: Sys, order: seq<Dir>)
    requires Start(dirs, s) && Run(dirs, s, es, t) && Enabled(dirs, t, Skip)
    requires forall d :: d in dirs ==> AsFound(t, d)
    requires forall d :: d in order <==> d in dirs
    ensures WalkIsIdle(t, order) <==> RowsAreRemembered(t, order)
  {
    RunKeepsInv(dirs, s, es, t);
    if RowsAreRemembered(t, order) {
      RememberedMeansIdle(dirs, t, order);
    }
    if WalkIsIdle(t, order) {
      IdleMeansRemembered(dirs, t, order);
    }
  }

  lemma RememberedMeansIdle(dirs: set<Dir>, t: Sys, order: seq<Dir>)
    requires Inv(dirs, t) && Enabled(dirs, t, Skip)
    requires (forall d :: d in dirs ==> AsFound(t, d)) && (forall d :: d in order <==> d in dirs)
    requires RowsAreRemembered(t, order)
    ensures WalkIsIdle(t, order)
  {
    var rows, disk := TableOf(t.rows), DiskOf(t.disk);
    forall p | p in I.Scanned(disk, order) ensures p in disk && I.Matches(rows, disk, p) {
      assert AsFound(t, p.dir) && Settled(t, p.dir) && Agrees(t, p.dir);
    }
    forall k ensures k !in I.Victims(disk, order, rows) {
      if k in rows && I.UnderAny(order, rows[k].path) {
        var p := rows[k].path;
        assert p == t.rows[k].path && AsFound(t, p.dir) && Settled(t, p.dir) && Agrees(t, p.dir);
        assert p in I.Scanned(disk, order) && p.stem == k;
      }
    }
  }

  lemma IdleMeansRemembered(dirs: set<Dir>, t: Sys, order: seq<Dir>)
    requires Inv(dirs, t) && Enabled(dirs, t, Skip)
    requires (forall d :: d in dirs ==> AsFound(t, d)) && (forall d :: d in order <==> d in dirs)
    requires WalkIsIdle(t, order)
    ensures RowsAreRemembered(t, order)
  {
    var rows, disk := TableOf(t.rows), DiskOf(t.disk);
    forall k | k in t.rows && I.UnderAny(order, t.rows[k].path) ensures t.rows[k].path.dir in t.seen {
      assert k !in I.Victims(disk, order, rows);
      var p :| p in I.Scanned(disk, order) && p.stem == k;
      assert I.Matches(rows, disk, p) && rows[k].path == p;
      assert AsFound(t, p.dir);
    }
  }

  lemma Extend(dirs: set<Dir>, s: Sys, es: seq<Event>, t: Sys, ev: Event)
    requires Run(dirs, s, es, t) && Enabled(dirs, t, ev)
    ensures Run(dirs, s, es + [ev], Apply(dirs, t, ev))
  {
    assert (es + [ev])[..|es + [ev]| - 1] == es;
  }

  /** `stats`: what the stat of each directory gave; one that failed is missing. */
  function Found(paths: seq<Dir>, stats: map<Dir, real>): map<Dir, real> {
    map d | d in stats && d in paths :: stats[d]
  }

  class LibraryReconciler {
    var seen: map<Dir, real>

    constructor ()
      ensures seen == map[]
    {
      seen := map[];
    }

    /** One call: it walks exactly if what it finds is not what it remembers. `raises`: a walk would
        raise; then the memory stays, and the next call walks again unless what it finds changed back. */
    method Reconcile(paths: seq<Dir>, stats: map<Dir, real>, raises: bool) returns (walk: bool, raised: bool)
      modifies this
      ensures walk <==> old(seen) != Found(paths, stats)
      ensures raised <==> walk && raises
      ensures seen == if raised then old(seen) else Found(paths, stats)
    {
      var current: map<Dir, real> := map[];
      var changed := false;
      for i := 0 to |paths|
        invariant current == Found(paths[..i], stats)
        invariant changed <==> exists d :: d in current && !(d in seen && seen[d] == current[d])
      {
        var d := paths[i];
        assert paths[..i + 1] == paths[..i] + [d];
        if d in stats {
          current := current[d := stats[d]];
          if !(d in seen && seen[d] == stats[d]) {
            changed := true;
          }
        }
      }
      assert paths[..|paths|] == paths;
      if !changed && current.Keys != seen.Keys {
        changed := true;
      }
      if !changed {
        assert current == seen;
        return false, false;
      }
      if raises {
        return true, true;
      }
      seen := current;
      return true, false;
    }
  }

  const OUT: Dir := ["out"]
  const INBOX: Dir := ["inbox"]
  const NOTE := I.Path(INBOX, "a")
  const TWO_DIRS := {OUT, INBOX}
  const EMPTY_LIBRARY := Sys(map[], map[OUT := 1.0], 1.0, map[], map[], Idle, map[], {}, {}, {}, Free, {})
  const NOTE_ROW := Row(NOTE, 3.0, 7, None)

  ghost predicate Reached(t: Sys) {
    exists es :: Run(TWO_DIRS, EMPTY_LIBRARY, es, t)
  }

  lemma Step(t: Sys, ev: Event) returns (u: Sys)
    requires Reached(t) && Enabled(TWO_DIRS, t, ev)
    ensures u == Apply(TWO_DIRS, t, ev) && Reached(u)
  {
    var es :| Run(TWO_DIRS, EMPTY_LIBRARY, es, t);
    u := Apply(TWO_DIRS, t, ev);
    Extend(TWO_DIRS, EMPTY_LIBRARY, es, t, ev);
  }

  /** The stats of a call, with `INBOX` missing. */
  lemma CallStats(t0: Sys) returns (t: Sys)
    requires Reached(t0) && t0.phase == Idle && t0.mtimes == map[OUT := 1.0]
    ensures Reached(t) && t == t0.(phase := Stating, current := map[OUT := 1.0], left := {})
  {
    t := Step(t0, Begin);
    t := Step(t, StatDir(OUT));
    assert INBOX in t.left && INBOX !in t.mtimes;
    t := Step(t, StatDir(INBOX));
    assert t.current == map[OUT := 1.0] && t.left == {};
  }

  /** A walk starts; the directory and a file appear. */
  lemma FileAppears(t0: Sys) returns (t: Sys)
    requires Reached(t0) && t0 == EMPTY_LIBRARY.(phase := Stating, current := map[OUT := 1.0])
    ensures Reached(t)
    ensures t == t0.(disk := map[NOTE := File(3.0, 7, None)], mtimes := map[OUT := 1.0, INBOX := 3.0], clock := 3.0,
                     phase := Walking, left := TWO_DIRS)
  {
    assert OUT in t0.current;
    t := Step(t0, StartWalk);
    t := Step(t, MakeDir(INBOX, 2.0));
    t := Step(t, Write(NOTE, 7, None, 3.0));
    assert t.mtimes == map[OUT := 1.0, INBOX := 3.0];
  }

  lemma FileIsListed(t0: Sys) returns (t: Sys)
    requires Reached(t0) && t0.phase == Walking && t0.left == TWO_DIRS && t0.work == Free
    requires t0.disk == map[NOTE := File(3.0, 7, None)] && t0.listed == {} && t0.todo == {}
    ensures Reached(t) && t == t0.(left := {}, listed := {NOTE}, todo := {NOTE})
  {
    assert FilesIn(t0.disk, OUT) == {} && FilesIn(t0.disk, INBOX) == {NOTE};
    t := Step(t0, Glob(OUT));
    t := Step(t, Glob(INBOX));
    assert t.left == {};
  }

  lemma FileIsIndexed(t0: Sys) returns (t: Sys)
    requires Reached(t0) && t0.phase == Walking && t0.work == Free && t0.rows == map[]
    requires t0.disk == map[NOTE := File(3.0, 7, None)] && t0.todo == {NOTE}
    ensures Reached(t) && t == t0.(rows := map["a" := NOTE_ROW], todo := {})
  {
    t := Step(t0, LookAt(NOTE));
    t := Step(t, UpsertStat);
    t := Step(t, UpsertRead);
    t := Step(t, UpsertWrite);
    assert t.rows == map["a" := NOTE_ROW] && t.todo == {};
  }

  /** The walk ends, and the directory goes again. */
  lemma DirGoes(t0: Sys) returns (t: Sys)
    requires Reached(t0) && t0.phase == Walking && t0.work == Free && t0.left == {} && t0.todo == {}
    requires t0.rows == map["a" := NOTE_ROW] && t0.listed == {NOTE}
    requires t0.disk == map[NOTE := File(3.0, 7, None)] && t0.mtimes == map[OUT := 1.0, INBOX := 3.0]
    ensures Reached(t) && t.phase == Idle && t.disk == map[] && t.mtimes == map[OUT := 1.0]
    ensures t.seen == t0.current && t.rows == t0.rows
  {
    assert Doomed(TWO_DIRS, t0) == {};
    t := Step(t0, Query);
    t := Step(t, Finish);
    t := Step(t, RemoveDir(INBOX));
    assert t.mtimes == map[OUT := 1.0] && t.disk == map[];
  }

  /** The condition can fail: a directory that was missing at the walk's stats, was made and walked,
      and is gone again before the next call is not noticed. The gate skips, and the row stays. */
  lemma DirThatCameAndWent() returns (t: Sys)
    ensures Start(TWO_DIRS, EMPTY_LIBRARY) && Reached(t)
    ensures Enabled(TWO_DIRS, t, Skip) && forall d :: d in TWO_DIRS ==> AsFound(t, d)
    ensures "a" in t.rows && t.rows["a"].path == NOTE && NOTE !in t.disk && !RowsAreRemembered(t, [OUT, INBOX])
  {
    assert Run(TWO_DIRS, EMPTY_LIBRARY, [], EMPTY_LIBRARY);
    t := CallStats(EMPTY_LIBRARY);
    t := FileAppears(t);
    t := FileIsListed(t);
    t := FileIsIndexed(t);
    t := DirGoes(t);
    t := CallStats(t);
    assert I.Under([OUT, INBOX][1], NOTE);
  }
}

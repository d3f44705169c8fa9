/** The trash bin (speechtotext/api/trash.py): a multi-file move that rolls back on failure,
    trashing a transcript with its files, and restoring them. */
module Trash {
  import opened Wrappers

  /** A directory as its path components. */
  type Dir = seq<string>

  const TRASH_DIRNAME := ".trash"

  function TrashBin(parent: Dir, tid: string): Dir {
    parent + [TRASH_DIRNAME, tid]
  }

  /** A file name is its stem followed by its suffix (".json", ".txt", ...). */
  datatype Path = Path(dir: Dir, stem: string, suffix: string) {
    function In(d: Dir): Path {
      Path(d, stem, suffix)
    }
    predicate SameName(other: Path) {
      stem == other.stem && suffix == other.suffix
    }
  }

  /** A transcript document: the fields migration compares, and everything else. */
  datatype Body = Body(segments: string, speakers: string, title: string, rest: string)

  /** `Doc` is a transcript that parses; `audio` is its `audio_path`. `Manifest` lists the original
      paths, the transcript's own first. */
  datatype Content = Doc(audio: Option<Path>, body: Body) | Bytes(bytes: string) | Manifest(json: Path, others: seq<Path>)

  type Files = map<Path, Content>

  datatype Move = Move(src: Path, dst: Path)

  // ---------------------------------------------------------------- renames

  /** A rename that finds its source: the target is overwritten. */
  function Renamed(files: Files, m: Move): Files {
    if m.src in files then (files - {m.src})[m.dst := files[m.src]] else files
  }

  function Moved(files: Files, moves: seq<Move>): Files {
    if moves == [] then files
    else Renamed(Moved(files, moves[..|moves| - 1]), moves[|moves| - 1])
  }

  function Back(m: Move): Move {
    Move(m.dst, m.src)
  }

  /** The rollback of `done`, last move first; `works(i)` tells whether undoing the i-th succeeds. */
  function Undone(files: Files, done: seq<Move>, works: nat -> bool): Files
    decreases |done|
  {
    if done == [] then files
    else
      var n := |done| - 1;
      Undone(if works(n) then Renamed(files, Back(done[n])) else files, done[..n], works)
  }

  ghost predicate StepSucceeds(files: Files, moves: seq<Move>, works: nat -> bool, i: nat)
    requires i < |moves|
  {
    works(i) && moves[i].src in Moved(files, moves[..i])
  }

  ghost predicate FirstFailure(files: Files, moves: seq<Move>, works: nat -> bool, k: nat) {
    && k < |moves|
    && !StepSucceeds(files, moves, works, k)
    && forall i: nat :: i < k ==> StepSucceeds(files, moves, works, i)
  }

  // ---------------------------------------------------------------- what moves and rollbacks mean

  ghost predicate WellFormed(moves: seq<Move>) {
    && (forall i, j :: 0 <= i < j < |moves| ==> moves[i].src != moves[j].src && moves[i].dst != moves[j].dst)
    && (forall i, j :: 0 <= i < |moves| && 0 <= j < |moves| ==> moves[i].src != moves[j].dst)
  }

  ghost predicate SourcesIn(files: Files, moves: seq<Move>) {
    forall i :: 0 <= i < |moves| ==> moves[i].src in files
  }

  ghost predicate Touched(moves: seq<Move>, p: Path) {
    exists i :: 0 <= i < |moves| && (moves[i].src == p || moves[i].dst == p)
  }

  ghost predicate SameAt(a: Files, b: Files, p: Path) {
    (p in a <==> p in b) && (p in a ==> a[p] == b[p])
  }

  /** The i-th file stands at its target if `there[i]`, else back at its source. */
  ghost predicate FilePlaced(files: Files, m: Move, there: bool, after: Files)
    requires m.src in files
  {
    if there then m.src !in after && m.dst in after && after[m.dst] == files[m.src]
    else m.dst !in after && m.src in after && after[m.src] == files[m.src]
  }

  ghost predicate Placed(files: Files, moves: seq<Move>, there: seq<bool>, after: Files)
    requires |there| == |moves| && SourcesIn(files, moves)
  {
    && (forall i :: 0 <= i < |moves| ==> FilePlaced(files, moves[i], there[i], after))
    && (forall p :: !Touched(moves, p) ==> SameAt(files, after, p))
  }

  function AllThere(n: nat): seq<bool> {
    seq(n, i => true)
  }

  /** Which files a rollback leaves behind. */
  function Stuck(n: nat, works: nat -> bool): seq<bool> {
    seq(n, i requires 0 <= i < n => !works(i))
  }

  lemma TouchedPrefix(moves: seq<Move>, k: nat, p: Path)
    requires k <= |moves|
    ensures Touched(moves[..k], p) ==> Touched(moves, p)
  {
    if Touched(moves[..k], p) {
      var i :| 0 <= i < k && (moves[..k][i].src == p || moves[..k][i].dst == p);
      assert moves[i].src == p || moves[i].dst == p;
    }
  }

  lemma TouchedByLast(moves: seq<Move>, p: Path)
    requires moves != []
    ensures var n := |moves| - 1;
            Touched(moves, p) <==> Touched(moves[..n], p) || moves[n].src == p || moves[n].dst == p
  {
    var n := |moves| - 1;
    TouchedPrefix(moves, n, p);
    if Touched(moves, p) {
      var i :| 0 <= i < |moves| && (moves[i].src == p || moves[i].dst == p);
      assert i < n ==> moves[..n][i] == moves[i];
    }
  }

  lemma UntouchedSource(moves: seq<Move>)
    requires WellFormed(moves) && moves != []
    ensures !Touched(moves[..|moves| - 1], moves[|moves| - 1].src)
    ensures !Touched(moves[..|moves| - 1], moves[|moves| - 1].dst)
  {
  }

  /** Every moved file stands at its target with its bytes; every other path is as before. */
  lemma {:induction false} MovedMeaning(files: Files, moves: seq<Move>)
    requires WellFormed(moves) && SourcesIn(files, moves)
    ensures Placed(files, moves, AllThere(|moves|), Moved(files, moves))
  {
    if moves != [] {
      var n := |moves| - 1;
      var m, pre := moves[n], moves[..n];
      MovedMeaning(files, pre);
      UntouchedSource(moves);
      var before, after := Moved(files, pre), Moved(files, moves);
      assert SameAt(files, before, m.src);
      forall i | 0 <= i < |moves| ensures FilePlaced(files, moves[i], true, after) {
        if i < n {
          assert FilePlaced(files, pre[i], AllThere(n)[i], before);
        }
      }
      forall p | !Touched(moves, p) ensures SameAt(files, after, p) {
        TouchedByLast(moves, p);
      }
    }
  }

  /** One undo, or a failed one, from a state where moves before `k` stand at their targets. */
  lemma UndoStep(files: Files, moves: seq<Move>, there: seq<bool>, k: nat, at: Files, works: nat -> bool)
    requires WellFormed(moves) && SourcesIn(files, moves) && |there| == |moves|
    requires k < |moves| && there[k] && Placed(files, moves, there, at)
    ensures Placed(files, moves, there[k := !works(k)], if works(k) then Renamed(at, Back(moves[k])) else at)
  {
    var after := if works(k) then Renamed(at, Back(moves[k])) else at;
    var now := there[k := !works(k)];
    assert FilePlaced(files, moves[k], there[k], at);
    forall i | 0 <= i < |moves| ensures FilePlaced(files, moves[i], now[i], after) {
      assert FilePlaced(files, moves[i], there[i], at);
    }
    forall p | !Touched(moves, p) ensures SameAt(files, after, p) {
      assert SameAt(files, at, p);
    }
  }

  ghost predicate Rolled(there: seq<bool>, k: nat, works: nat -> bool) {
    && k <= |there|
    && (forall i :: 0 <= i < k ==> there[i])
    && (forall i: nat :: k <= i < |there| ==> there[i] == !works(i))
  }

  lemma {:induction false} UndoneMeaning(files: Files, moves: seq<Move>, there: seq<bool>, k: nat, at: Files,
                                         works: nat -> bool)
    requires WellFormed(moves) && SourcesIn(files, moves) && |there| == |moves|
    requires Rolled(there, k, works) && Placed(files, moves, there, at)
    ensures Placed(files, moves, Stuck(|moves|, works), Undone(at, moves[..k], works))
    decreases k
  {
    if k == 0 {
      assert there == Stuck(|moves|, works);
    } else {
      UndoStep(files, moves, there, k - 1, at, works);
      assert moves[..k][..k - 1] == moves[..k - 1] && moves[..k][k - 1] == moves[k - 1];
      UndoneMeaning(files, moves, there[k - 1 := !works(k - 1)], k - 1,
                    if works(k - 1) then Renamed(at, Back(moves[k - 1])) else at, works);
    }
  }

  /** No file is lost by a rollback, even one that fails in part: each moved file stands, with its
      bytes, at its source if its undo succeeded and at its target if not. */
  lemma RollbackLosesNoFile(files: Files, done: seq<Move>, works: nat -> bool)
    requires WellFormed(done) && SourcesIn(files, done)
    ensures Placed(files, done, Stuck(|done|, works), Undone(Moved(files, done), done, works))
  {
    MovedMeaning(files, done);
    assert Rolled(AllThere(|done|), |done|, works);
    assert done[..|done|] == done;
    UndoneMeaning(files, done, AllThere(|done|), |done|, Moved(files, done), works);
  }

  ghost predicate FreshTargets(files: Files, moves: seq<Move>) {
    forall i :: 0 <= i < |moves| ==> moves[i].dst !in files
  }

  /** Main result, both ways: when every undo succeeds, the rollback gives back the original files
      exactly if no move that was done overwrote one. */
  lemma RollbackRestoresIff(files: Files, done: seq<Move>, works: nat -> bool)
    requires WellFormed(done) && SourcesIn(files, done)
    requires forall i: nat :: i < |done| ==> works(i)
    ensures Undone(Moved(files, done), done, works) == files <==> FreshTargets(files, done)
  {
    RollbackLosesNoFile(files, done, works);
    var after := Undone(Moved(files, done), done, works);
    assert forall i :: 0 <= i < |done| ==> FilePlaced(files, done[i], Stuck(|done|, works)[i], after);
    if FreshTargets(files, done) {
      forall p ensures SameAt(files, after, p) {
        if Touched(done, p) {
          var i :| 0 <= i < |done| && (done[i].src == p || done[i].dst == p);
          assert FilePlaced(files, done[i], Stuck(|done|, works)[i], after);
        }
      }
      SameEverywhere(files, after);
    }
  }

  lemma SameEverywhere(a: Files, b: Files)
    requires forall p :: SameAt(a, b, p)
    ensures a == b
  {
    assert forall p :: p in a <==> p in b by {
      forall p ensures p in a <==> p in b {
        assert SameAt(a, b, p);
      }
    }
    forall p | p in a ensures a[p] == b[p] {
      assert SameAt(a, b, p);
    }
  }

  // ---------------------------------------------------------------- trash and restore as functions

  function TrashDir(json: Path): Dir {
    TrashBin(json.dir, json.stem)
  }

  function ManifestIn(d: Dir): Path {
    Path(d, "manifest", ".json")
  }

  function TextOf(json: Path): Path {
    Path(json.dir, json.stem, ".txt")
  }

  function AudioOf(files: Files, json: Path): Option<Path> {
    if json in files && files[json].Doc? then files[json].audio else None
  }

  /** The text sidecar and the audio, where they exist. */
  function SidePaths(files: Files, json: Path): seq<Path> {
    (if TextOf(json) in files then [TextOf(json)] else [])
    + (if AudioOf(files, json).Some? && AudioOf(files, json).value in files then [AudioOf(files, json).value] else [])
  }

  function TrashedPaths(files: Files, json: Path): seq<Path> {
    [json] + SidePaths(files, json)
  }

  function MovesInto(paths: seq<Path>, d: Dir): (ms: seq<Move>)
    ensures |ms| == |paths|
    ensures forall i :: 0 <= i < |paths| ==> ms[i] == Move(paths[i], paths[i].In(d))
  {
    if paths == [] then [] else [Move(paths[0], paths[0].In(d))] + MovesInto(paths[1..], d)
  }

  function WithManifest(files: Files, json: Path): Files {
    files[ManifestIn(TrashDir(json)) := Manifest(json, SidePaths(files, json))]
  }

  /** The disk after a transcript was trashed without a failure. */
  function Trashed(files: Files, json: Path): Files {
    Moved(WithManifest(files, json), MovesInto(TrashedPaths(files, json), TrashDir(json)))
  }

  /** What `restore` plans: the entries still in the bin, or the first one whose place is taken. */
  function Planned(files: Files, entries: seq<Path>, bin: Dir): Result<seq<Move>, Path> {
    if entries == [] then Success([])
    else
      var p := entries[0];
      if p.In(bin) !in files then Planned(files, entries[1..], bin)
      else if p in files then Failure(p)
      else
        Prepend([Move(p.In(bin), p)], Planned(files, entries[1..], bin))
  }

  function Prepend(moves: seq<Move>, rest: Result<seq<Move>, Path>): Result<seq<Move>, Path> {
    if rest.Success? then Success(moves + rest.value) else rest
  }

  lemma PrependMore(moves: seq<Move>, m: Move, rest: Result<seq<Move>, Path>)
    ensures Prepend(moves + [m], rest) == Prepend(moves, Prepend([m], rest))
  {
    if rest.Success? {
      assert (moves + [m]) + rest.value == moves + ([m] + rest.value);
    }
  }

  /** `rmtree`. */
  function Without(files: Files, bin: Dir): Files {
    map p | p in files && !(bin <= p.dir) :: files[p]
  }

  /** The disk after a restore without a failure. */
  function Restored(files: Files, moves: seq<Move>, bin: Dir): Files {
    Without(Moved(files, moves), bin)
  }

  ghost predicate DistinctNames(paths: seq<Path>) {
    && (forall i, j :: 0 <= i < j < |paths| ==> !paths[i].SameName(paths[j]))
    && (forall i :: 0 <= i < |paths| ==> !paths[i].SameName(ManifestIn(paths[i].dir)))
  }

  ghost predicate FreshBin(files: Files, bin: Dir) {
    forall p :: p in files ==> !(bin <= p.dir)
  }

  ghost predicate CleanTrash(files: Files, json: Path) {
    json in files && FreshBin(files, TrashDir(json)) && DistinctNames(TrashedPaths(files, json))
  }

  lemma TrashMovesAreWellFormed(files: Files, json: Path)
    requires CleanTrash(files, json)
    ensures WellFormed(MovesInto(TrashedPaths(files, json), TrashDir(json)))
    ensures SourcesIn(WithManifest(files, json), MovesInto(TrashedPaths(files, json), TrashDir(json)))
    ensures forall i :: 0 <= i < |TrashedPaths(files, json)| ==> TrashedPaths(files, json)[i] in files
  {
    var paths, bin := TrashedPaths(files, json), TrashDir(json);
    var ms := MovesInto(paths, bin);
    assert forall i :: 0 <= i < |paths| ==> paths[i] in files && paths[i].dir != bin;
    forall i, j | 0 <= i < j < |ms| ensures ms[i].src != ms[j].src && ms[i].dst != ms[j].dst {
      assert !paths[i].SameName(paths[j]);
    }
    forall i, j | 0 <= i < |ms| && 0 <= j < |ms| ensures ms[i].src != ms[j].dst {
      assert ms[j].dst.dir == bin && ms[i].src == paths[i];
    }
  }

  lemma {:induction false} PlanAll(files: Files, entries: seq<Path>, bin: Dir)
    requires forall i :: 0 <= i < |entries| ==> entries[i].In(bin) in files && entries[i] !in files
    ensures var r := Planned(files, entries, bin);
            r.Success? && |r.value| == |entries|
            && forall i :: 0 <= i < |entries| ==> r.value[i] == Move(entries[i].In(bin), entries[i])
  {
    if entries != [] {
      PlanAll(files, entries[1..], bin);
    }
  }

  lemma SwappedIsWellFormed(ms: seq<Move>, back: seq<Move>)
    requires WellFormed(ms) && |back| == |ms| && forall i :: 0 <= i < |ms| ==> back[i] == Back(ms[i])
    ensures WellFormed(back)
  {
  }

  /** Main result: restoring what was just trashed gives back the original files, every one. */
  lemma RestoreUndoesTrash(files: Files, json: Path)
    requires CleanTrash(files, json)
    ensures var bin, after := TrashDir(json), Trashed(files, json);
            var plan := Planned(after, TrashedPaths(files, json), bin);
            && SameAt(WithManifest(files, json), after, ManifestIn(bin))
            && plan.Success? && Restored(after, plan.value, bin) == files
  {
    var paths, bin := TrashedPaths(files, json), TrashDir(json);
    var ms, after := MovesInto(paths, bin), Trashed(files, json);
    TrashMovesAreWellFormed(files, json);
    MovedMeaning(WithManifest(files, json), ms);
    forall i | 0 <= i < |paths| ensures FilePlaced(WithManifest(files, json), ms[i], true, after) {
      assert AllThere(|ms|)[i];
    }
    assert !Touched(ms, ManifestIn(bin));
    PlanAll(after, paths, bin);
    var plan := Planned(after, paths, bin).value;
    SwappedIsWellFormed(ms, plan);
    MovedMeaning(after, plan);
    forall p ensures SameAt(files, Restored(after, plan, bin), p) {
      RestoredAt(files, json, ms, plan, after, Moved(after, plan), p);
    }
    SameEverywhere(files, Restored(after, plan, bin));
  }

  lemma RestoredAt(files: Files, json: Path, ms: seq<Move>, plan: seq<Move>, after: Files, back: Files, p: Path)
    requires CleanTrash(files, json) && ms == MovesInto(TrashedPaths(files, json), TrashDir(json))
    requires |plan| == |ms| && forall i :: 0 <= i < |ms| ==> plan[i] == Back(ms[i])
    requires SourcesIn(WithManifest(files, json), ms) && SourcesIn(after, plan)
    requires Placed(WithManifest(files, json), ms, AllThere(|ms|), after)
    requires Placed(after, plan, AllThere(|ms|), back)
    ensures SameAt(files, Without(back, TrashDir(json)), p)
  {
    var paths, bin := TrashedPaths(files, json), TrashDir(json);
    if !(bin <= p.dir) {
      if i :| 0 <= i < |paths| && paths[i] == p {
        assert FilePlaced(WithManifest(files, json), ms[i], AllThere(|ms|)[i], after);
        assert FilePlaced(after, plan[i], AllThere(|ms|)[i], back);
      } else {
        assert !Touched(ms, p) && !Touched(plan, p);
        assert SameAt(WithManifest(files, json), after, p) && SameAt(after, back, p);
      }
    }
  }

  ghost predicate HoldsAt(files: Files, p: Path, content: Content) {
    p in files && files[p] == content
  }

  /** The files of a transcript: itself, its text sidecar and its audio, those that exist. */
  ghost predicate GoesAlong(files: Files, json: Path, p: Path) {
    && p in files
    && (|| p == json || p == Path(json.dir, json.stem, ".txt")
        || (json in files && files[json].Doc? && files[json].audio == Some(p)))
  }

  /** The bin is new, and its files will have different names there. */
  ghost predicate PlainNames(files: Files, json: Path) {
    && json in files && json.suffix == ".json" && json.stem != "manifest"
    && (forall p :: p in files ==> !(json.dir + [".trash", json.stem] <= p.dir))
    && (files[json].Doc? && files[json].audio.Some? && files[json].audio.value in files ==>
          var a := files[json].audio.value;
          && !(a.stem == json.stem && (a.suffix == ".json" || a.suffix == ".txt"))
          && !(a.stem == "manifest" && a.suffix == ".json"))
  }

  /** The files of the transcript, and no others, went to the bin with their bytes, and the manifest
      lists them. */
  ghost predicate IsTrashed(files: Files, json: Path, after: Files) {
    var bin := json.dir + [".trash", json.stem];
    && (forall p :: GoesAlong(files, json, p) ==> p !in after && HoldsAt(after, Path(bin, p.stem, p.suffix), files[p]))
    && (forall p: Path :: !GoesAlong(files, json, p) && !(bin <= p.dir) ==> SameAt(files, after, p))
    && Path(bin, "manifest", ".json") in after
    && var m := after[Path(bin, "manifest", ".json")];
       m.Manifest? && m.json == json && forall p :: p in m.others <==> p != json && GoesAlong(files, json, p)
  }

  lemma PlainNamesAreClean(files: Files, json: Path)
    requires PlainNames(files, json)
    ensures CleanTrash(files, json)
    ensures forall p :: p in TrashedPaths(files, json) <==> GoesAlong(files, json, p)
    ensures forall p :: p in SidePaths(files, json) <==> p != json && GoesAlong(files, json, p)
  {
  }

  lemma TrashedFile(files: Files, paths: seq<Path>, bin: Dir, after: Files, p: Path)
    requires SourcesIn(files, MovesInto(paths, bin)) && p in paths
    requires Placed(files, MovesInto(paths, bin), AllThere(|paths|), after)
    ensures p in files && p !in after && HoldsAt(after, p.In(bin), files[p])
  {
    var i :| 0 <= i < |paths| && paths[i] == p;
    assert FilePlaced(files, MovesInto(paths, bin)[i], AllThere(|paths|)[i], after);
  }

  lemma OtherFile(files: Files, paths: seq<Path>, bin: Dir, after: Files, p: Path)
    requires SourcesIn(files, MovesInto(paths, bin)) && p !in paths && forall q :: q in paths ==> q.In(bin) != p
    requires Placed(files, MovesInto(paths, bin), AllThere(|paths|), after)
    ensures SameAt(files, after, p)
  {
    assert forall i :: 0 <= i < |paths| ==> paths[i] in paths;
    assert !Touched(MovesInto(paths, bin), p);
  }

  lemma TrashTakesItsFiles(files: Files, json: Path)
    requires PlainNames(files, json)
    ensures IsTrashed(files, json, Trashed(files, json))
  {
    PlainNamesAreClean(files, json);
    TrashMovesAreWellFormed(files, json);
    var paths, bin, with, after := TrashedPaths(files, json), TrashDir(json), WithManifest(files, json), Trashed(files, json);
    MovedMeaning(with, MovesInto(paths, bin));
    forall p | GoesAlong(files, json, p) ensures p !in after && HoldsAt(after, p.In(bin), files[p]) {
      TrashedFile(with, paths, bin, after, p);
    }
    forall p: Path | !GoesAlong(files, json, p) && !(bin <= p.dir) ensures SameAt(files, after, p) {
      OtherFile(with, paths, bin, after, p);
    }
    NamesOffManifest(files, json);
    OtherFile(with, paths, bin, after, ManifestIn(bin));
  }

  lemma NamesOffManifest(files: Files, json: Path)
    requires PlainNames(files, json)
    ensures ManifestIn(TrashDir(json)) !in TrashedPaths(files, json)
    ensures forall q :: q in TrashedPaths(files, json) ==> q.In(TrashDir(json)) != ManifestIn(TrashDir(json))
  {
    PlainNamesAreClean(files, json);
  }

  /** A failed attempt to trash leaves every original file as it was, and nothing but the manifest
      in the bin, when each undo succeeds. */
  lemma FailedTrashChangesNoFile(files: Files, json: Path, k: nat, works: nat -> bool)
    requires CleanTrash(files, json)
    requires k <= |TrashedPaths(files, json)| && forall i: nat :: i < k ==> works(i)
    ensures var done := MovesInto(TrashedPaths(files, json), TrashDir(json))[..k];
            Undone(Moved(WithManifest(files, json), done), done, works) == WithManifest(files, json)
  {
    TrashMovesAreWellFormed(files, json);
    var done := MovesInto(TrashedPaths(files, json), TrashDir(json))[..k];
    forall i | 0 <= i < |done| ensures done[i].dst !in WithManifest(files, json) {
      assert !TrashedPaths(files, json)[i].SameName(ManifestIn(TrashedPaths(files, json)[i].dir));
    }
    RollbackRestoresIff(WithManifest(files, json), done, works);
  }

  ghost predicate RolledBack(files: Files, moves: seq<Move>, works: nat -> bool, undoes: nat -> bool, after: Files) {
    exists k: nat :: FirstFailure(files, moves, works, k)
                && after == Undone(Moved(files, moves[..k]), moves[..k], undoes)
  }

  lemma FailureKeepsFiles(files: Files, json: Path, works: nat -> bool, undoes: nat -> bool, after: Files)
    requires RolledBack(WithManifest(files, json), MovesInto(TrashedPaths(files, json), TrashDir(json)), works, undoes, after)
    ensures CleanTrash(files, json) && (forall i: nat :: undoes(i)) ==> after == WithManifest(files, json)
  {
    if CleanTrash(files, json) && forall i: nat :: undoes(i) {
      var ms := MovesInto(TrashedPaths(files, json), TrashDir(json));
      var k: nat :| FirstFailure(WithManifest(files, json), ms, works, k)
               && after == Undone(Moved(WithManifest(files, json), ms[..k]), ms[..k], undoes);
      FailedTrashChangesNoFile(files, json, k, undoes);
    }
  }

  // ---------------------------------------------------------------- the operations on a disk

  datatype RestoreOutcome = PutBack(json: Path) | NotInTrash | BadManifest | Occupied(p: Path) | MoveFailed

  /** A restore from `bin` that went as far as moving files. */
  ghost predicate RestoreRan(files: Files, bin: Dir, works: nat -> bool, undoes: nat -> bool, r: RestoreOutcome, after: Files) {
    && ManifestIn(bin) in files && files[ManifestIn(bin)].Manifest?
    && var manifest := files[ManifestIn(bin)];
       var plan := Planned(files, [manifest.json] + manifest.others, bin);
       && plan.Success?
       && (r.PutBack? ==> r.json == manifest.json && after == Restored(files, plan.value, bin))
       && (r.PutBack? <==> forall i: nat :: i < |plan.value| ==> StepSucceeds(files, plan.value, works, i))
       && (!r.PutBack? ==> RolledBack(files, plan.value, works, undoes, after))
  }

  /** A plan fails exactly on a listed path that has its copy in the bin and is taken; otherwise it
      moves every copy there is, each to a free place. */
  lemma {:induction false} PlannedMoves(files: Files, entries: seq<Path>, bin: Dir)
    ensures var r := Planned(files, entries, bin);
            && (r.Failure? <==> exists p :: p in entries && p.In(bin) in files && p in files)
            && (r.Failure? ==> r.error in entries && r.error.In(bin) in files && r.error in files)
            && (r.Success? ==> forall m :: m in r.value ==> m.dst in entries && m.src == m.dst.In(bin) && m.src in files && m.dst !in files)
            && (r.Success? ==> forall p :: p in entries && p.In(bin) in files ==> Move(p.In(bin), p) in r.value)
  {
    if entries != [] {
      PlannedMoves(files, entries[1..], bin);
      assert forall p :: p in entries <==> p == entries[0] || p in entries[1..];
    }
  }

  /** Each move takes a copy out of the bin to a free place. */
  ghost predicate TakesOut(files: Files, moves: seq<Move>, bin: Dir) {
    forall m :: m in moves ==> m.src == m.dst.In(bin) && m.src in files && m.dst !in files
  }

  lemma {:induction false} DoneIsWellFormed(files: Files, moves: seq<Move>, bin: Dir, works: nat -> bool, k: nat)
    requires TakesOut(files, moves, bin) && k <= |moves|
    requires forall i: nat :: i < k ==> StepSucceeds(files, moves, works, i)
    ensures WellFormed(moves[..k]) && SourcesIn(files, moves[..k])
  {
    assert forall i :: 0 <= i < k ==> moves[i] in moves;
    if k > 0 {
      var n := k - 1;
      DoneIsWellFormed(files, moves, bin, works, n);
      MovedMeaning(files, moves[..n]);
      assert StepSucceeds(files, moves, works, n);
      forall i | 0 <= i < n ensures moves[i].src != moves[n].src && moves[i].dst != moves[n].dst {
        assert FilePlaced(files, moves[..n][i], AllThere(n)[i], Moved(files, moves[..n]));
      }
    }
  }

  /** Untouched: a path outside the bin where something stands, or that no copy belongs to. */
  lemma OutsideIsUntouched(files: Files, moves: seq<Move>, bin: Dir, p: Path)
    requires TakesOut(files, moves, bin) && !(bin <= p.dir)
    requires p in files || forall m :: m in moves ==> m.dst != p
    ensures !Touched(moves, p)
  {
    assert forall i :: 0 <= i < |moves| ==> moves[i] in moves;
  }

  /** `listed` in their places, with what their copies in `bin` held; the bin gone; and nothing else
      changed. */
  ghost predicate IsPutBack(files: Files, bin: Dir, listed: seq<Path>, after: Files) {
    && (forall p :: p in listed && Path(bin, p.stem, p.suffix) in files && !(bin <= p.dir) ==>
          HoldsAt(after, p, files[Path(bin, p.stem, p.suffix)]))
    && (forall p :: p in after ==> !(bin <= p.dir))
    && (forall p: Path :: !(bin <= p.dir) && !(p in listed && Path(bin, p.stem, p.suffix) in files) ==> SameAt(files, after, p))
  }

  /** Each copy stands in the bin or in the place of a listed file of its name; nothing else changed. */
  ghost predicate IsUndone(files: Files, bin: Dir, listed: seq<Path>, after: Files) {
    && (forall p :: p in listed && Path(bin, p.stem, p.suffix) in files ==>
          var c := Path(bin, p.stem, p.suffix);
          HoldsAt(after, c, files[c]) || exists q :: q in listed && q.stem == p.stem && q.suffix == p.suffix && HoldsAt(after, q, files[c]))
    && (forall p: Path :: !(bin <= p.dir) && !(p in listed && Path(bin, p.stem, p.suffix) in files) ==> SameAt(files, after, p))
  }

  lemma PutBackMeaning(files: Files, bin: Dir, listed: seq<Path>, works: nat -> bool)
    requires Planned(files, listed, bin).Success?
    requires forall i: nat :: i < |Planned(files, listed, bin).value| ==>
               StepSucceeds(files, Planned(files, listed, bin).value, works, i)
    ensures IsPutBack(files, bin, listed, Restored(files, Planned(files, listed, bin).value, bin))
  {
    var plan := Planned(files, listed, bin).value;
    var after := Restored(files, plan, bin);
    PlannedMoves(files, listed, bin);
    DoneIsWellFormed(files, plan, bin, works, |plan|);
    assert plan[..|plan|] == plan;
    MovedMeaning(files, plan);
    forall p | p in listed && p.In(bin) in files && !(bin <= p.dir) ensures HoldsAt(after, p, files[p.In(bin)]) {
      var i :| 0 <= i < |plan| && plan[i] == Move(p.In(bin), p);
      assert FilePlaced(files, plan[i], AllThere(|plan|)[i], Moved(files, plan));
    }
    forall p: Path | !(bin <= p.dir) && !(p in listed && p.In(bin) in files) ensures SameAt(files, after, p) {
      OutsideIsUntouched(files, plan, bin, p);
      assert SameAt(files, Moved(files, plan), p);
    }
  }

  lemma UndoneRestoreMeaning(files: Files, bin: Dir, listed: seq<Path>, works: nat -> bool, undoes: nat -> bool, after: Files)
    requires Planned(files, listed, bin).Success?
    requires RolledBack(files, Planned(files, listed, bin).value, works, undoes, after)
    ensures IsUndone(files, bin, listed, after)
    ensures (forall i: nat :: undoes(i)) ==> after == files
  {
    var plan := Planned(files, listed, bin).value;
    var k: nat :| FirstFailure(files, plan, works, k) && after == Undone(Moved(files, plan[..k]), plan[..k], undoes);
    var done := plan[..k];
    PlannedMoves(files, listed, bin);
    DoneIsWellFormed(files, plan, bin, works, k);
    RollbackLosesNoFile(files, done, undoes);
    forall p | p in listed && p.In(bin) in files
      ensures HoldsAt(after, p.In(bin), files[p.In(bin)])
              || exists q :: q in listed && q.SameName(p) && HoldsAt(after, q, files[p.In(bin)])
    {
      assert forall i :: 0 <= i < k ==> done[i] in plan;
      CopyIsKept(files, listed, done, bin, undoes, after, p);
    }
    forall p: Path | !(bin <= p.dir) && !(p in listed && p.In(bin) in files) ensures SameAt(files, after, p) {
      OutsideIsUntouched(files, plan, bin, p);
      TouchedPrefix(plan, k, p);
    }
    if forall i: nat :: undoes(i) {
      assert forall i :: 0 <= i < k ==> done[i] in plan;
      RollbackRestoresIff(files, done, undoes);
    }
  }

  lemma CopyIsKept(files: Files, listed: seq<Path>, done: seq<Move>, bin: Dir, undoes: nat -> bool, after: Files, p: Path)
    requires SourcesIn(files, done) && Placed(files, done, Stuck(|done|, undoes), after)
    requires p.In(bin) in files
    requires forall i :: 0 <= i < |done| ==> done[i].dst in listed && done[i].src == done[i].dst.In(bin) && done[i].dst !in files
    ensures HoldsAt(after, p.In(bin), files[p.In(bin)])
            || exists q :: q in listed && q.SameName(p) && HoldsAt(after, q, files[p.In(bin)])
  {
    if i :| 0 <= i < |done| && done[i].src == p.In(bin) {
      assert FilePlaced(files, done[i], Stuck(|done|, undoes)[i], after);
      assert done[i].dst.SameName(p);
    } else {
      assert !Touched(done, p.In(bin));
      assert SameAt(files, after, p.In(bin));
    }
  }

  /** `bin` is the first of the bins named `tid` below `dirs` that have a manifest. */
  ghost predicate IsFirstBin(files: Files, dirs: seq<Dir>, tid: string, bin: Dir) {
    exists i :: 0 <= i < |dirs| && bin == dirs[i] + [".trash", tid] && Path(bin, "manifest", ".json") in files
                && forall j :: 0 <= j < i ==> Path(dirs[j] + [".trash", tid], "manifest", ".json") !in files
  }

  lemma FirstBinIsUnique(files: Files, dirs: seq<Dir>, tid: string, a: Dir, b: Dir)
    requires IsFirstBin(files, dirs, tid, a) && IsFirstBin(files, dirs, tid, b)
    ensures a == b
  {
    var i :| 0 <= i < |dirs| && a == dirs[i] + [".trash", tid] && Path(a, "manifest", ".json") in files
             && forall j :: 0 <= j < i ==> Path(dirs[j] + [".trash", tid], "manifest", ".json") !in files;
    var k :| 0 <= k < |dirs| && b == dirs[k] + [".trash", tid] && Path(b, "manifest", ".json") in files
             && forall j :: 0 <= j < k ==> Path(dirs[j] + [".trash", tid], "manifest", ".json") !in files;
    assert i == k;
  }

  /** A path where something stands is no place for a copy, if no listed one is taken. */
  lemma FilesOutsideStand(files: Files, bin: Dir, listed: seq<Path>, after: Files)
    requires Planned(files, listed, bin).Success?
    requires IsPutBack(files, bin, listed, after) || IsUndone(files, bin, listed, after)
    ensures forall p :: p in files && !(bin <= p.dir) ==> p in after && after[p] == files[p]
  {
    PlannedMoves(files, listed, bin);
    forall p | p in files && !(bin <= p.dir) ensures p in after && after[p] == files[p] {
      assert SameAt(files, after, p);
    }
  }

  /** How a restore from `bin` ends, given what its manifest lists. */
  ghost predicate RestoreEnds(files: Files, bin: Dir, listed: seq<Path>, undoes: nat -> bool, r: RestoreOutcome, after: Files) {
    && !r.NotInTrash? && !r.BadManifest?
    && (r.Occupied? <==> exists p :: p in listed && Path(bin, p.stem, p.suffix) in files && p in files)
    && (r.Occupied? ==> after == files && r.p in listed && r.p in files)
    && (r.PutBack? ==> listed != [] && r.json == listed[0] && IsPutBack(files, bin, listed, after))
    && (r.MoveFailed? ==> IsUndone(files, bin, listed, after) && ((forall i: nat :: undoes(i)) ==> after == files))
  }

  class Disk {
    var files: Files

    constructor (files: Files)
      ensures this.files == files
    {
      this.files := files;
    }

    method Rename(m: Move, works: bool) returns (ok: bool)
      modifies this
      ensures ok == (works && m.src in old(files))
      ensures files == if ok then Renamed(old(files), m) else old(files)
    {
      ok := works && m.src in files;
      if ok {
        files := Renamed(files, m);
      }
    }

    method RollBack(done: seq<Move>, works: nat -> bool)
      modifies this
      ensures files == Undone(old(files), done, works)
    {
      var n := |done|;
      assert done[..n] == done;
      while n > 0
        invariant 0 <= n <= |done|
        invariant Undone(old(files), done, works) == Undone(files, done[..n], works)
      {
        assert done[..n][..n - 1] == done[..n - 1];
        n := n - 1;
        var _ := Rename(Back(done[n]), works(n));
      }
    }

    /** `works(i)` and `undoes(i)`: whether the system lets the i-th rename, and its undo, succeed. */
    method ExecuteMoves(moves: seq<Move>, works: nat -> bool, undoes: nat -> bool) returns (ok: bool)
      modifies this
      ensures ok <==> forall i: nat :: i < |moves| ==> StepSucceeds(old(files), moves, works, i)
      ensures ok ==> files == Moved(old(files), moves)
      ensures !ok ==> RolledBack(old(files), moves, works, undoes, files)
    {
      var done := [];
      for i := 0 to |moves|
        invariant done == moves[..i] && files == Moved(old(files), moves[..i])
        invariant forall j: nat :: j < i ==> StepSucceeds(old(files), moves, works, j)
      {
        var moved := Rename(moves[i], works(i));
        if !moved {
          assert FirstFailure(old(files), moves, works, i);
          RollBack(done, undoes);
          return false;
        }
        done := done + [moves[i]];
        assert moves[..i + 1][..i] == moves[..i];
      }
      assert moves[..|moves|] == moves;
      ok := true;
    }

    /** `wrote`: making the bin and writing the manifest succeeded. */
    method TrashTranscript(json: Path, wrote: bool, works: nat -> bool, undoes: nat -> bool)
      returns (bin: Option<Dir>)
      modifies this
      ensures var ms := MovesInto(TrashedPaths(old(files), json), TrashDir(json));
              && (bin.Some? ==> bin.value == TrashDir(json) && files == Trashed(old(files), json))
              && (bin.Some? <==> wrote && forall i: nat :: i < |ms| ==>
                                 StepSucceeds(WithManifest(old(files), json), ms, works, i))
      ensures !wrote ==> files == old(files)
      ensures wrote && bin.None? ==>
          RolledBack(WithManifest(old(files), json), MovesInto(TrashedPaths(old(files), json), TrashDir(json)), works, undoes, files)
      ensures bin.Some? && PlainNames(old(files), json) ==> IsTrashed(old(files), json, files)
      ensures bin.None? && CleanTrash(old(files), json) && (forall i: nat :: undoes(i)) ==>
               files == old(files) || files == WithManifest(old(files), json)
      ensures bin.None? && PlainNames(old(files), json) && (forall i: nat :: undoes(i)) ==>
               forall p :: p in old(files) ==> p in files && files[p] == old(files)[p]
    {
      if !wrote {
        return None;
      }
      ghost var was := files;
      var dest := TrashDir(json);
      var others := [];
      if TextOf(json) in files {
        others := others + [TextOf(json)];
      }
      var audio := AudioOf(files, json);
      if audio.Some? && audio.value in files {
        others := others + [audio.value];
      }
      assert others == SidePaths(was, json);
      files := files[ManifestIn(dest) := Manifest(json, others)];
      assert files == WithManifest(was, json);
      var moves := MovesInto([json] + others, dest);
      assert moves == MovesInto(TrashedPaths(was, json), TrashDir(json));
      var ok := ExecuteMoves(moves, works, undoes);
      if !ok {
        FailureKeepsFiles(was, json, works, undoes, files);
        if PlainNames(was, json) {
          PlainNamesAreClean(was, json);
        }
        return None;
      }
      if PlainNames(was, json) {
        TrashTakesItsFiles(was, json);
      }
      bin := Some(dest);
    }

    method FindBin(dirs: seq<Dir>, tid: string) returns (bin: Option<Dir>)
      ensures bin.None? ==> forall d :: d in dirs ==> ManifestIn(TrashBin(d, tid)) !in files
      ensures bin.Some? ==> IsFirstBin(files, dirs, tid, bin.value)
    {
      for i := 0 to |dirs|
        invariant forall j :: 0 <= j < i ==> ManifestIn(TrashBin(dirs[j], tid)) !in files
      {
        if ManifestIn(TrashBin(dirs[i], tid)) in files {
          return Some(TrashBin(dirs[i], tid));
        }
      }
      bin := None;
    }
  
    method PlanRestore(entries: seq<Path>, bin: Dir) returns (plan: Result<seq<Move>, Path>)
      ensures plan == Planned(files, entries, bin)
    {
      var moves := [];
      ghost var all := Planned(files, entries, bin);
      assert entries[0..] == entries && (all.Success? ==> [] + all.value == all.value);
      for i := 0 to |entries|
        invariant all == Prepend(moves, Planned(files, entries[i..], bin))
      {
        var p := entries[i];
        assert entries[i..][1..] == entries[i + 1..];
        if p.In(bin) in files {
          if p in files {
            return Failure(p);
          }
          PrependMore(moves, Move(p.In(bin), p), Planned(files, entries[i + 1..], bin));
          moves := moves + [Move(p.In(bin), p)];
        }
      }
      assert moves + [] == moves;
      plan := Success(moves);
    }

    /** The restore from the bin that was found. */
    method RestoreFrom(bin: Dir, works: nat -> bool, undoes: nat -> bool) returns (r: RestoreOutcome)
      requires ManifestIn(bin) in files && files[ManifestIn(bin)].Manifest?
      modifies this
      ensures var m := old(files)[ManifestIn(bin)];
              RestoreEnds(old(files), bin, [m.json] + m.others, undoes, r, files)
      ensures forall p :: p in old(files) && !(bin <= p.dir) ==> p in files && files[p] == old(files)[p]
      ensures r.PutBack? || r.MoveFailed? ==> RestoreRan(old(files), bin, works, undoes, r, files)
    {
      var manifest := files[ManifestIn(bin)];
      var listed := [manifest.json] + manifest.others;
      PlannedMoves(files, listed, bin);
      var plan := PlanRestore(listed, bin);
      if plan.Failure? {
        return Occupied(plan.error);
      }
      var ok := ExecuteMoves(plan.value, works, undoes);
      if !ok {
        r := MoveFailed;
        UndoneRestoreMeaning(old(files), bin, listed, works, undoes, files);
      } else {
        files := Without(files, bin);
        r := PutBack(manifest.json);
        PutBackMeaning(old(files), bin, listed, works);
      }
      FilesOutsideStand(old(files), bin, listed, files);
    }

    /** Whatever the outcome, a file outside the bin stands as it was. */
    method Restore(dirs: seq<Dir>, tid: string, works: nat -> bool, undoes: nat -> bool) returns (r: RestoreOutcome)
      modifies this
      ensures r.NotInTrash? <==> forall d :: d in dirs ==> Path(d + [".trash", tid], "manifest", ".json") !in old(files)
      ensures r.NotInTrash? || r.BadManifest? ==> files == old(files)
      ensures forall bin :: IsFirstBin(old(files), dirs, tid, bin) ==>
                && (r.BadManifest? <==> !old(files)[Path(bin, "manifest", ".json")].Manifest?)
                && (forall p :: p in old(files) && !(bin <= p.dir) ==> p in files && files[p] == old(files)[p])
      ensures forall bin :: IsFirstBin(old(files), dirs, tid, bin) && !r.BadManifest? ==>
                var m := old(files)[Path(bin, "manifest", ".json")];
                RestoreEnds(old(files), bin, [m.json] + m.others, undoes, r, files)
      ensures r.PutBack? || r.MoveFailed? ==> exists d :: d in dirs && RestoreRan(old(files), TrashBin(d, tid), works, undoes, r, files)
    {
      var found := FindBin(dirs, tid);
      if found.None? {
        return NotInTrash;
      }
      var bin := found.value;
      forall other | IsFirstBin(files, dirs, tid, other) ensures other == bin {
        FirstBinIsUnique(files, dirs, tid, bin, other);
      }
      if !files[ManifestIn(bin)].Manifest? {
        return BadManifest;
      }
      r := RestoreFrom(bin, works, undoes);
      ghost var d :| d in dirs && bin == TrashBin(d, tid);
      assert RestoreRan(old(files), TrashBin(d, tid), works, undoes, r, files) || r.Occupied?;
    }
  }
}

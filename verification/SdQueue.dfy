/** The recorder's crash-safe queue of clips on an SD card
    (firmware/esp32-recorder/src/storage/SdQueue.cpp, SdFileWriter.cpp). Whether the card accepts
    an operation is a parameter of each call. */
module SdQueue {
  import opened Strings
  import opened QueueNames

  type Byte = n: int | 0 <= n < 256
  type Bytes = seq<Byte>

  const MAX_FILE_BYTES := 256 * 1024 * 1024

  /** `nvs` is the counter in flash, `dir` the queue directory; both survive power loss.
      `nextN` and `ready` are in memory. */
  datatype Card = Card(nvs: nat, nextN: nat, ready: bool, dir: map<string, Bytes>)

  // ---------------------------------------------------------------- the operations on values

  function Reserved(c: Card): Card {
    c.(dir := c.dir[PartialName(c.nextN) := []], nextN := c.nextN + 1, nvs := c.nextN + 1)
  }

  function Renamed(dir: map<string, Bytes>, from: string, to: string): map<string, Bytes> {
    if from in dir && to !in dir then (dir - {from})[to := dir[from]] else dir
  }

  /** Rename, which needs a free target, or else remove the partial file. */
  function Committed(dir: map<string, Bytes>, from: string, to: string, renameOk: bool, removeOk: bool): map<string, Bytes> {
    if renameOk && from in dir && to !in dir then Renamed(dir, from, to)
    else if removeOk then dir - {from}
    else dir
  }

  function Partials(dir: map<string, Bytes>): set<string> {
    set name | name in dir && EndsWith(name, ".partial")
  }

  /** The queued clips. */
  function Clips(dir: map<string, Bytes>): map<string, Bytes> {
    map name | name in dir && EndsWith(name, ".wav") :: dir[name]
  }

  lemma ClipsIgnore(a: map<string, Bytes>, b: map<string, Bytes>, partial: string)
    requires !EndsWith(partial, ".wav")
    requires forall name :: name != partial ==> (name in a <==> name in b) && (name in a ==> a[name] == b[name])
    ensures Clips(a) == Clips(b)
  {
  }

  lemma ClipsGain(a: map<string, Bytes>, from: string, to: string)
    requires !EndsWith(from, ".wav") && EndsWith(to, ".wav") && from in a && to !in a
    ensures Clips(Renamed(a, from, to)) == Clips(a)[to := a[from]]
  {
  }

  predicate IsOldest(dir: map<string, Bytes>, name: string) {
    && name in dir && EndsWith(name, ".wav")
    && forall other :: other in dir && EndsWith(other, ".wav") ==> !Less(other, name)
  }

  // ---------------------------------------------------------------- every run

  /** `open`: numbers whose writer is neither committed nor aborted. `log`: every number ever handed
      out, in order. */
  datatype Sys = Sys(card: Card, open: set<nat>, log: seq<nat>)

  /** How an `enqueue` ends: the clip queued and the counter stored; refused, its partial file removed;
      or the power lost while it writes the partial file, or after its rename and before it stores the
      counter. */
  datatype EnqueueEnd = Queued | Refused | CutWriting | CutRenamed

  datatype Event =
    | Reserve
    | PartialOnly
    | Append(n: nat, bytes: Bytes)
    | Commit(n: nat, renameOk: bool, removeOk: bool)
    | Abort(n: nat, removeOk: bool)
    | Remove(name: string)
    | PowerLoss
    | Reboot(removed: set<string>)
    | Enqueue(clip: Bytes, end: EnqueueEnd)

  /** `PartialOnly` is a power loss inside openWriter, after the partial file was created and
      before the counter was stored. */
  predicate Enabled(s: Sys, e: Event) {
    match e
    case Reserve => s.card.ready && s.card.nextN < NUMBER_LIMIT - 1
    case PartialOnly => s.card.ready && s.card.nextN < NUMBER_LIMIT - 1
    case Append(n, _) => n in s.open && PartialName(n) in s.card.dir
    case Commit(n, _, _) => n in s.open
    case Abort(n, _) => n in s.open
    case Remove(name) => s.card.ready && name in s.card.dir && EndsWith(name, ".wav")
    case PowerLoss => true
    case Reboot(removed) => !s.card.ready && removed <= Partials(s.card.dir)
    case Enqueue(_, end) =>
      s.card.ready && s.card.nextN < NUMBER_LIMIT - 1
      && (end == Queued || end == CutRenamed ==> WavName(s.card.nextN) !in s.card.dir)
  }

  /** The card after an `enqueue` of number `nextN`. */
  function Enqueued(c: Card, clip: Bytes, end: EnqueueEnd): Card {
    var queued := (c.dir - {PartialName(c.nextN)})[WavName(c.nextN) := clip];
    match end
    case Queued => Card(c.nextN + 1, c.nextN + 1, c.ready, queued)
    case Refused => c.(dir := c.dir - {PartialName(c.nextN)})
    case CutWriting => c.(dir := c.dir[PartialName(c.nextN) := clip], ready := false)
    case CutRenamed => c.(dir := queued, ready := false)
  }

  function Apply(s: Sys, e: Event): Sys
    requires Enabled(s, e)
  {
    var c := s.card;
    match e
    case Reserve => Sys(Reserved(c), s.open + {c.nextN}, s.log + [c.nextN])
    case PartialOnly => Sys(c.(dir := c.dir[PartialName(c.nextN) := []], ready := false), {}, s.log)
    case Append(n, bytes) =>
      s.(card := c.(dir := c.dir[PartialName(n) := c.dir[PartialName(n)] + bytes]))
    case Commit(n, renameOk, removeOk) =>
      s.(card := c.(dir := Committed(c.dir, PartialName(n), WavName(n), renameOk, removeOk)), open := s.open - {n})
    case Abort(n, removeOk) =>
      s.(card := c.(dir := if removeOk then c.dir - {PartialName(n)} else c.dir), open := s.open - {n})
    case Remove(name) => s.(card := c.(dir := c.dir - {name}))
    case PowerLoss => s.(card := c.(ready := false), open := {})
    case Reboot(removed) => s.(card := c.(dir := c.dir - removed, nextN := c.nvs, ready := true))
    case Enqueue(clip, end) =>
      Sys(Enqueued(c, clip, end), if end == Queued || end == Refused then s.open else {},
          if end == Queued || end == CutRenamed then s.log + [c.nextN] else s.log)
  }

  /** Every step keeps the invariant but one. */
  predicate KeepsCounter(e: Event) {
    !(e.Enqueue? && e.end == CutRenamed)
  }

  ghost predicate KnownName(s: Sys, name: string) {
    || (exists n :: n in s.log && name == WavName(n))
    || (exists n: nat :: n <= s.card.nvs && name == PartialName(n))
  }

  ghost predicate Inv(s: Sys) {
    && 1 <= s.card.nvs < NUMBER_LIMIT
    && (s.card.ready ==> s.card.nextN == s.card.nvs)
    && (!s.card.ready ==> s.open == {})
    && (forall i :: 0 <= i < |s.log| ==> s.log[i] < s.card.nvs)
    && (forall i, j :: 0 <= i < j < |s.log| ==> s.log[i] < s.log[j])
    && (forall name :: name in s.card.dir ==> KnownName(s, name))
    && (forall n :: n in s.open ==> n in s.log && PartialName(n) in s.card.dir && WavName(n) !in s.card.dir)
  }

  /** The names of two numbers in play are different. */
  lemma NamesDiffer(m: nat, n: nat)
    requires m < NUMBER_LIMIT && n < NUMBER_LIMIT && m != n
    ensures WavName(m) != WavName(n) && PartialName(m) != PartialName(n) && WavName(m) != PartialName(n)
  {
    NamesSortLikeNumbers(m, n);
    NamesAreApart(m, n);
  }

  lemma ReserveKeepsInv(s: Sys)
    requires Inv(s) && Enabled(s, Reserve)
    ensures Inv(Apply(s, Reserve))
  {
    var t, n := Apply(s, Reserve), s.card.nextN;
    forall name | name in t.card.dir ensures KnownName(t, name) {
      if name in s.card.dir {
        KnownNameGrows(s, t, name);
      }
    }
    forall m | m in t.open
      ensures m in t.log && PartialName(m) in t.card.dir && WavName(m) !in t.card.dir
    {
      NamesAreApart(m, n);
      if m == n && WavName(n) in s.card.dir {
        FreshNumberIsFree(s);
      }
    }
  }

  lemma KnownNameGrows(s: Sys, t: Sys, name: string)
    requires KnownName(s, name) && s.log <= t.log && s.card.nvs <= t.card.nvs
    ensures KnownName(t, name)
  {
    if exists n :: n in s.log && name == WavName(n) {
      var n :| n in s.log && name == WavName(n);
      assert n in t.log;
    }
  }

  /** The next number has no file in the queue. */
  lemma FreshNumberIsFree(s: Sys)
    requires Inv(s)
    ensures WavName(s.card.nvs) !in s.card.dir
  {
    var n := s.card.nvs;
    if WavName(n) in s.card.dir {
      assert KnownName(s, WavName(n));
      if exists m :: m in s.log && WavName(n) == WavName(m) {
        var m :| m in s.log && WavName(n) == WavName(m);
        NamesDiffer(m, n);
      } else {
        var m: nat :| m <= n && WavName(n) == PartialName(m);
        NamesAreApart(n, m);
      }
    }
  }

  lemma CommitKeepsInv(s: Sys, n: nat, renameOk: bool, removeOk: bool)
    requires Inv(s) && Enabled(s, Commit(n, renameOk, removeOk))
    ensures Inv(Apply(s, Commit(n, renameOk, removeOk)))
  {
    var t := Apply(s, Commit(n, renameOk, removeOk));
    forall m | m in t.open
      ensures m in t.log && PartialName(m) in t.card.dir && WavName(m) !in t.card.dir
    {
      NamesDiffer(m, n);
      NamesDiffer(n, m);
    }
    forall name | name in t.card.dir ensures KnownName(t, name) {
      if name in s.card.dir {
        KnownNameGrows(s, t, name);
      }
    }
  }

  lemma AbortKeepsInv(s: Sys, n: nat, removeOk: bool)
    requires Inv(s) && Enabled(s, Abort(n, removeOk))
    ensures Inv(Apply(s, Abort(n, removeOk)))
  {
    var t := Apply(s, Abort(n, removeOk));
    forall name | name in t.card.dir ensures KnownName(t, name) {
      KnownNameGrows(s, t, name);
    }
    forall m | m in t.open
      ensures m in t.log && PartialName(m) in t.card.dir && WavName(m) !in t.card.dir
    {
      NamesDiffer(m, n);
    }
  }

  lemma RemoveKeepsInv(s: Sys, name: string)
    requires Inv(s) && Enabled(s, Remove(name))
    ensures Inv(Apply(s, Remove(name)))
  {
    var t := Apply(s, Remove(name));
    forall other | other in t.card.dir ensures KnownName(t, other) {
      KnownNameGrows(s, t, other);
    }
    forall m | m in t.open
      ensures m in t.log && PartialName(m) in t.card.dir && WavName(m) !in t.card.dir
    {
      NamesAreApart(m, m);
    }
  }

  lemma RestartKeepsInv(s: Sys, e: Event)
    requires Inv(s) && Enabled(s, e) && (e.Reboot? || e.PowerLoss?)
    ensures Inv(Apply(s, e))
  {
    var t := Apply(s, e);
    forall name | name in t.card.dir ensures KnownName(t, name) {
      KnownNameGrows(s, t, name);
    }
  }

  lemma EnqueueKeepsInv(s: Sys, clip: Bytes, end: EnqueueEnd)
    requires Inv(s) && Enabled(s, Enqueue(clip, end)) && end != CutRenamed
    ensures Inv(Apply(s, Enqueue(clip, end)))
  {
    var t, n := Apply(s, Enqueue(clip, end)), s.card.nextN;
    forall name | name in t.card.dir ensures KnownName(t, name) {
      if name in s.card.dir {
        KnownNameGrows(s, t, name);
      } else if end == Queued {
        assert n in t.log && name == WavName(n);
      }
    }
    forall m | m in t.open
      ensures m in t.log && PartialName(m) in t.card.dir && WavName(m) !in t.card.dir
    {
      NamesDiffer(m, n);
    }
  }

  lemma StepKeepsInv(s: Sys, e: Event)
    requires Inv(s) && Enabled(s, e) && KeepsCounter(e)
    ensures Inv(Apply(s, e))
  {
    var t := Apply(s, e);
    match e
    case Reserve => ReserveKeepsInv(s);
    case PartialOnly =>
      forall name | name in t.card.dir ensures KnownName(t, name) {
        if name in s.card.dir {
          KnownNameGrows(s, t, name);
        }
      }
    case Append(n, _) =>
      forall name | name in t.card.dir ensures KnownName(t, name) {
        KnownNameGrows(s, t, name);
      }
    case Commit(n, renameOk, removeOk) => CommitKeepsInv(s, n, renameOk, removeOk);
    case Abort(n, removeOk) => AbortKeepsInv(s, n, removeOk);
    case Remove(name) => RemoveKeepsInv(s, name);
    case PowerLoss => RestartKeepsInv(s, e);
    case Reboot(_) => RestartKeepsInv(s, e);
    case Enqueue(clip, end) => EnqueueKeepsInv(s, clip, end);
  }

  ghost predicate Run(ss: seq<Sys>, es: seq<Event>) {
    && |ss| == |es| + 1
    && forall i :: 0 <= i < |es| ==>
         Enabled(ss[i], es[i]) && KeepsCounter(es[i]) && ss[i + 1] == Apply(ss[i], es[i])
  }

  /** A new card, before its first boot: the counter reads as its default, 1. */
  const BLANK := Sys(Card(1, 0, false, map[]), {}, [])

  lemma {:induction false} RunKeepsInv(ss: seq<Sys>, es: seq<Event>, i: nat)
    requires Run(ss, es) && ss[0] == BLANK && i < |ss|
    ensures Inv(ss[i])
  {
    if i > 0 {
      RunKeepsInv(ss, es, i - 1);
      StepKeepsInv(ss[i - 1], es[i - 1]);
    }
  }

  /** Main result: in every run of reservations, commits, aborts, removals, power losses and reboots,
      every queued clip has a number below the persisted counter. */
  lemma QueuedBelowCounter(ss: seq<Sys>, es: seq<Event>, i: nat, name: string)
    requires Run(ss, es) && ss[0] == BLANK && i < |ss|
    requires name in ss[i].card.dir && EndsWith(name, ".wav")
    ensures exists n :: n in ss[i].log && n < ss[i].card.nvs && name == WavName(n)
  {
    RunKeepsInv(ss, es, i);
    assert KnownName(ss[i], name);
    if exists n: nat :: n <= ss[i].card.nvs && name == PartialName(n) {
      var n: nat :| n <= ss[i].card.nvs && name == PartialName(n);
      NamesAreApart(n, n);
    }
    var n :| n in ss[i].log && name == WavName(n);
  }

  /** Main result: a commit never meets a file of its name, so a successful rename queues exactly
      the bytes appended since the reservation, and every clip queued before stays. */
  lemma CommitNeverCollides(ss: seq<Sys>, es: seq<Event>, i: nat, n: nat, removeOk: bool)
    requires Run(ss, es) && ss[0] == BLANK && i < |ss| && n in ss[i].open
    ensures WavName(n) !in ss[i].card.dir && PartialName(n) in ss[i].card.dir
    ensures var dir := ss[i].card.dir;
            var after := Apply(ss[i], Commit(n, true, removeOk)).card.dir;
            && WavName(n) in after && after[WavName(n)] == dir[PartialName(n)]
            && forall name :: name in dir && EndsWith(name, ".wav") ==> name in after && after[name] == dir[name]
  {
    RunKeepsInv(ss, es, i);
    NamesAreApart(n, n);
  }

  /** Main result: the oldest file by name is the clip reserved first among those still queued. */
  lemma OldestIsFirstReserved(ss: seq<Sys>, es: seq<Event>, i: nat, name: string)
    requires Run(ss, es) && ss[0] == BLANK && i < |ss| && IsOldest(ss[i].card.dir, name)
    ensures var s := ss[i];
            exists k :: 0 <= k < |s.log| && name == WavName(s.log[k])
              && forall j :: 0 <= j < k ==> WavName(s.log[j]) !in s.card.dir
  {
    var s := ss[i];
    RunKeepsInv(ss, es, i);
    QueuedBelowCounter(ss, es, i, name);
    var n :| n in s.log && n < s.card.nvs && name == WavName(n);
    var k :| 0 <= k < |s.log| && s.log[k] == n;
    forall j | 0 <= j < k ensures WavName(s.log[j]) !in s.card.dir {
      NamesAreApart(n, s.log[j]);
      NamesSortLikeNumbers(s.log[j], n);
    }
  }

  /** Reserve the next number, write a clip and commit it, with a card that allows the rename. */
  function Recorded(s: Sys, clip: Bytes, removeOk: bool): Sys
    requires Enabled(s, Reserve)
  {
    var t := Apply(s, Reserve);
    Apply(Apply(t, Append(s.card.nextN, clip)), Commit(s.card.nextN, true, removeOk))
  }

  /** Of any card whatever: if the next name is free the recording is queued with its bytes; if not, the
      clip that has it stays. No other clip changes. */
  lemma NextClipEnds(s: Sys, clip: Bytes, removeOk: bool)
    requires Enabled(s, Reserve)
    ensures var name, after := WavName(s.card.nextN), Recorded(s, clip, removeOk).card.dir;
            && name in after && after[name] == (if name in s.card.dir then s.card.dir[name] else clip)
            && forall other :: other != name && other != PartialName(s.card.nextN) ==>
                 (other in after <==> other in s.card.dir) && (other in after ==> after[other] == s.card.dir[other])
  {
    NamesAreApart(s.card.nextN, s.card.nextN);
    assert [] + clip == clip;
  }

  ghost predicate NextClipIsKept(s: Sys, clip: Bytes, removeOk: bool)
    requires Enabled(s, Reserve)
  {
    var after := Recorded(s, clip, removeOk).card.dir;
    WavName(s.card.nextN) in after && after[WavName(s.card.nextN)] == clip
  }

  /** Both ways: every next recording is kept under its name if and only if that name is free. */
  lemma NextClipIsKeptIff(s: Sys, removeOk: bool)
    requires Enabled(s, Reserve)
    ensures (forall clip :: NextClipIsKept(s, clip, removeOk)) <==> WavName(s.card.nextN) !in s.card.dir
  {
    var name := WavName(s.card.nextN);
    if name in s.card.dir {
      NextClipEnds(s, s.card.dir[name] + [0], removeOk);
      assert !NextClipIsKept(s, s.card.dir[name] + [0], removeOk);
    } else {
      forall clip ensures NextClipIsKept(s, clip, removeOk) {
        NextClipEnds(s, clip, removeOk);
      }
    }
  }

  /** So a power loss between `enqueue`'s rename and its counter costs a recording: from every state
      the queue can be in, after the reboot the next recording meets the queued clip's name, its
      commit is refused, and its bytes are in no queued file. */
  lemma EnqueueCanLoseTheNextClip(s: Sys, clip: Bytes, removed: set<string>, next: Bytes)
    requires Inv(s) && Enabled(s, Enqueue(clip, CutRenamed))
    requires removed <= Partials(Apply(s, Enqueue(clip, CutRenamed)).card.dir)
    ensures var cut := Apply(s, Enqueue(clip, CutRenamed));
            && Enabled(cut, Reboot(removed))
            && var booted := Apply(cut, Reboot(removed));
            && booted.card.nextN == s.card.nextN && WavName(booted.card.nextN) in booted.card.dir
            && Enabled(booted, Reserve)
            && Recorded(booted, next, true).card.dir == booted.card.dir - {PartialName(s.card.nextN)}
            && Recorded(booted, next, true).card.dir[WavName(s.card.nextN)] == clip
  {
    var n := s.card.nextN;
    NamesAreApart(n, n);
    var booted := Apply(Apply(s, Enqueue(clip, CutRenamed)), Reboot(removed));
    NextClipEnds(booted, next, true);
    assert Recorded(booted, next, true).card.dir == booted.card.dir - {PartialName(n)};
  }

  // ---------------------------------------------------------------- the queue object

  /** `removable` names the files whose removal the card accepts. */
  class Queue {
    var ready: bool
    var nextN: nat
    var nvs: nat
    var dir: map<string, Bytes>

    function Contents(): Card
      reads this
    {
      Card(nvs, nextN, ready, dir)
    }

    constructor ()
      ensures Contents() == BLANK.card
    {
      ready, nextN, nvs, dir := false, 0, 1, map[];
    }

    /** A directory scan: every entry once, in some order. */
    method Scan() returns (names: seq<string>)
      ensures forall name :: name in names <==> name in dir
    {
      names := [];
      var left := dir.Keys;
      while left != {}
        invariant left <= dir.Keys
        invariant forall name :: name in names <==> name in dir.Keys - left
        decreases left
      {
        var name :| name in left;
        names, left := names + [name], left - {name};
      }
    }

    method Begin(mounts: bool, removable: set<string>) returns (ok: bool)
      modifies this
      ensures ok == mounts == ready && nvs == old(nvs)
      ensures dir == if mounts then old(dir) - (Partials(old(dir)) * removable) else old(dir)
      ensures forall name :: name in dir <==> name in old(dir) && !(mounts && name in removable && EndsWith(name, ".partial"))
      ensures forall name :: name in dir ==> dir[name] == old(dir)[name]
      ensures nextN == if mounts then nvs else old(nextN)
    {
      ready := false;
      if !mounts {
        return false;
      }
      nextN := nvs;
      SweepPartials(removable);
      ready := true;
      return true;
    }

    method SweepPartials(removable: set<string>)
      modifies this`dir
      ensures dir == old(dir) - (Partials(old(dir)) * removable)
    {
      var names := Scan();
      ghost var swept := {};
      for i := 0 to |names|
        invariant forall name :: name in swept <==>
          name in removable && EndsWith(name, ".partial") && name in names[..i]
        invariant dir == old(dir) - swept
      {
        if EndsWith(names[i], ".partial") && names[i] in removable {
          dir := dir - {names[i]};
          swept := swept + {names[i]};
        }
      }
      assert names[..|names|] == names;
      assert swept == Partials(old(dir)) * removable;
    }

    method PeekOldestPath() returns (found: bool, oldest: string)
      ensures !ready ==> !found
      ensures ready && !found ==> forall name :: name in dir ==> !EndsWith(name, ".wav")
      ensures found ==> ready && IsOldest(dir, oldest)
      ensures found ==> oldest in dir && EndsWith(oldest, ".wav")
                        && forall other :: other in dir && EndsWith(other, ".wav") ==> other == oldest || Less(oldest, other)
    {
      oldest := "";
      if !ready {
        return false, oldest;
      }
      var names := Scan();
      for i := 0 to |names|
        invariant oldest == "" || (oldest in dir && EndsWith(oldest, ".wav"))
        invariant forall j :: 0 <= j < i && EndsWith(names[j], ".wav") ==> oldest != "" && !Less(names[j], oldest)
      {
        if EndsWith(names[i], ".wav") {
          LessIsTotal(names[i], oldest);
          if oldest == "" || Less(names[i], oldest) {
            ghost var before := oldest;
            oldest := names[i];
            LessIsTotal(oldest, oldest);
            forall j | 0 <= j < i && EndsWith(names[j], ".wav") ensures !Less(names[j], oldest) {
              if Less(names[j], oldest) {
                LessIsTransitive(names[j], oldest, before);
              }
            }
          }
        }
      }
      found := oldest != "";
      forall other | other in dir && EndsWith(other, ".wav") ensures other == oldest || Less(oldest, other) {
        LessIsTotal(other, oldest);
      }
    }

    method OpenWriter(full: bool, opens: bool) returns (writer: SdFileWriter?)
      requires nextN < NUMBER_LIMIT - 1
      modifies this
      ensures writer == null <==> !old(ready) || full || !opens
      ensures writer == null ==> Contents() == old(Contents())
      ensures writer != null ==>
        && fresh(writer) && writer.queue == this && !writer.finished
        && writer.partialName == PartialName(old(nextN)) && writer.finalName == WavName(old(nextN))
        && writer.pos == 0
        && Contents() == Reserved(old(Contents()))
      ensures writer != null ==> !EndsWith(writer.partialName, ".wav") && EndsWith(writer.finalName, ".wav")
      ensures Clips(dir) == Clips(old(dir))
    {
      if !ready || full {
        return null;
      }
      var n := nextN;
      NamesAreApart(n, n);
      ghost var before := dir;
      if !opens {
        return null;
      }
      dir := dir[PartialName(n) := []];
      ClipsIgnore(before, dir, PartialName(n));
      nextN := nextN + 1;
      nvs := nextN;
      writer := new SdFileWriter(this, WavName(n), PartialName(n));
    }

    method RemoveFile(name: string, removes: bool) returns (ok: bool)
      modifies this`dir
      ensures ok <==> ready && removes && name in old(dir)
      ensures dir == if ok then old(dir) - {name} else old(dir)
    {
      if !ready {
        return false;
      }
      ok := removes && name in dir;
      if ok {
        dir := dir - {name};
      }
    }

    /** The other way in, as written: rename first, counter second. */
    method Enqueue(bytes: Bytes, full: bool, opens: bool, accepted: nat, renameOk: bool) returns (ok: bool)
      requires accepted <= |bytes|
      modifies this
      ensures ok <==> && old(ready) && 0 < |bytes| <= 0x1000_0000 && !full && opens
                      && accepted == |bytes| && renameOk && WavName(old(nextN)) !in old(dir)
      ensures ok ==> Contents() == Enqueued(old(Contents()), bytes, Queued)
      ensures ok ==> dir == (old(dir) - {PartialName(old(nextN))})[WavName(old(nextN)) := bytes]
                     && nextN == nvs == old(nextN) + 1
      ensures !ok ==> nextN == old(nextN) && nvs == old(nvs)
      ensures !ok ==> dir == old(dir) || dir == old(dir) - {PartialName(old(nextN))}
    {
      if !ready {
        return false;
      }
      if |bytes| == 0 || |bytes| > MAX_FILE_BYTES {
        return false;
      }
      if full {
        return false;
      }
      var final, partial := WavName(nextN), PartialName(nextN);
      NamesAreApart(nextN, nextN);
      if !opens {
        return false;
      }
      dir := dir[partial := bytes[..accepted]];
      if accepted != |bytes| {
        dir := dir - {partial};
        assert dir == old(dir) - {partial};
        return false;
      }
      if !renameOk || final in dir {
        dir := dir - {partial};
        assert dir == old(dir) - {partial};
        return false;
      }
      assert bytes[..accepted] == bytes;
      dir := Renamed(dir, partial, final);
      assert dir == (old(dir) - {partial})[final := bytes];
      nextN := nextN + 1;
      nvs := nextN;
      return true;
    }
  }

  /** What a file holds after `bytes` were written at `pos`. */
  function WriteAt(content: Bytes, pos: nat, bytes: Bytes): Bytes
    requires pos <= |content|
  {
    content[..pos] + bytes + if pos + |bytes| <= |content| then content[pos + |bytes|..] else []
  }

  /** One open partial file. */
  class SdFileWriter {
    const queue: Queue
    const finalName: string
    const partialName: string
    var pos: nat
    var finished: bool

    constructor (queue: Queue, finalName: string, partialName: string)
      ensures this.queue == queue && this.finalName == finalName && this.partialName == partialName
      ensures pos == 0 && !finished
    {
      this.queue, this.finalName, this.partialName := queue, finalName, partialName;
      pos, finished := 0, false;
    }

    /** The partial file is there, and the position is inside it. */
    ghost predicate Open()
      reads this, queue
    {
      !finished && partialName in queue.dir && pos <= |queue.dir[partialName]|
    }

    /** The card takes the first `accepted` bytes. */
    method Write(bytes: Bytes, accepted: nat) returns (written: nat)
      requires Open() && accepted <= |bytes|
      modifies this`pos, queue`dir
      ensures Open() && written == accepted && pos == old(pos) + accepted
      ensures queue.dir == old(queue.dir)[partialName :=
        WriteAt(old(queue.dir)[partialName], old(pos), bytes[..accepted])]
      ensures !EndsWith(partialName, ".wav") ==> Clips(queue.dir) == Clips(old(queue.dir))
    {
      ghost var before := queue.dir;
      var content := queue.dir[partialName];
      queue.dir := queue.dir[partialName := WriteAt(content, pos, bytes[..accepted])];
      pos := pos + accepted;
      written := accepted;
      if !EndsWith(partialName, ".wav") {
        ClipsIgnore(before, queue.dir, partialName);
      }
    }

    method SeekTo(to: nat, seeks: bool) returns (ok: bool)
      requires Open()
      modifies this`pos
      ensures Open()
      ensures ok <==> seeks && to <= |queue.dir[partialName]|
      ensures pos == if ok then to else old(pos)
    {
      ok := seeks && to <= |queue.dir[partialName]|;
      if ok {
        pos := to;
      }
    }

    method Commit(renameOk: bool, removeOk: bool) returns (ok: bool)
      modifies this`finished, queue`dir
      ensures finished
      ensures ok <==> !old(finished) && renameOk && partialName in old(queue.dir) && finalName !in old(queue.dir)
      ensures ok ==> queue.dir == (old(queue.dir) - {partialName})[finalName := old(queue.dir)[partialName]]
      ensures !ok ==> queue.dir == if !old(finished) && removeOk then old(queue.dir) - {partialName} else old(queue.dir)
      ensures queue.dir == if old(finished) then old(queue.dir)
                           else Committed(old(queue.dir), partialName, finalName, renameOk, removeOk)
      ensures !EndsWith(partialName, ".wav") && EndsWith(finalName, ".wav") ==>
        Clips(queue.dir) == if ok then Clips(old(queue.dir))[finalName := old(queue.dir)[partialName]] else Clips(old(queue.dir))
    {
      ghost var before := queue.dir;
      if finished {
        return false;
      }
      finished := true;
      if !(renameOk && partialName in queue.dir && finalName !in queue.dir) {
        if removeOk {
          queue.dir := queue.dir - {partialName};
        }
        if !EndsWith(partialName, ".wav") {
          ClipsIgnore(before, queue.dir, partialName);
        }
        return false;
      }
      if !EndsWith(partialName, ".wav") && EndsWith(finalName, ".wav") {
        ClipsGain(before, partialName, finalName);
      }
      queue.dir := Renamed(queue.dir, partialName, finalName);
      return true;
    }

    method Abort(removeOk: bool)
      modifies this`finished, queue`dir
      ensures finished
      ensures queue.dir == if !old(finished) && removeOk then old(queue.dir) - {partialName} else old(queue.dir)
      ensures !EndsWith(partialName, ".wav") ==> Clips(queue.dir) == Clips(old(queue.dir))
    {
      if finished {
        return;
      }
      finished := true;
      ghost var before := queue.dir;
      if removeOk {
        queue.dir := queue.dir - {partialName};
      }
      if !EndsWith(partialName, ".wav") {
        ClipsIgnore(before, queue.dir, partialName);
      }
    }
  }
}

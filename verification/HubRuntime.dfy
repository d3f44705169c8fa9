/** The laptop's upload thread and its wake flag (speechtotext/client/hub_runtime.py), with the
    outbox it empties (speechtotext/client/upload_queue.py). Entries are named by their time stamp,
    so a larger number is a later entry. */
module HubRuntime {

  type Entry = nat

  /** How far a caller has come with one entry: audio copied, meta written, poked. */
  datatype Stage = Copied | Listed | Poked

  /** Where the runtime thread is. `Cleared`: flag cleared, outbox not read yet. `Sweeping`: the
      entries of its snapshot still to upload. `Waiting`: in `wait`, or about to enter it. */
  datatype Pc = Top | Cleared | Sweeping(todo: seq<Entry>) | Syncing | Waiting | Ended

  /** `outbox`: entries on disk. `seen`: every entry that was ever in a snapshot. `blind`: the last
      cycle failed before it read the outbox. */
  datatype Sys = Sys(stages: map<Entry, Stage>, outbox: set<Entry>, flag: bool, pc: Pc,
                     seen: set<Entry>, sent: set<Entry>, blind: bool)

  datatype Event =
    | Copy(e: Entry)
    | WriteMeta(e: Entry)
    | Poke(e: Entry)
    | Clear
    | FailEarly
    | Snapshot(todo: seq<Entry>)
    | Uploaded
    | UploadFails
    | SweepDone
    | CycleDone
    | Wake
    | TimeOut
    | Leave

  ghost predicate Ascending(es: seq<Entry>) {
    forall i, j :: 0 <= i < j < |es| ==> es[i] < es[j]
  }

  /** `pending()`: the outbox in time order. */
  ghost predicate IsPending(todo: seq<Entry>, outbox: set<Entry>) {
    Ascending(todo) && forall e :: e in todo <==> e in outbox
  }

  ghost predicate Enabled(s: Sys, ev: Event) {
    match ev
    case Copy(e) => e !in s.stages
    case WriteMeta(e) => e in s.stages && s.stages[e] == Copied
    case Poke(e) => e in s.stages && s.stages[e] != Copied
    case Clear => s.pc == Top
    case FailEarly => s.pc == Cleared
    case Snapshot(todo) => s.pc == Cleared && IsPending(todo, s.outbox)
    case Uploaded => s.pc.Sweeping? && s.pc.todo != []
    case UploadFails => s.pc.Sweeping? && s.pc.todo != []
    case SweepDone => s.pc == Sweeping([])
    case CycleDone => s.pc == Syncing
    case Wake => s.pc == Waiting && s.flag
    case TimeOut => s.pc == Waiting
    case Leave => s.pc == Top || s.pc == Cleared
  }

  /** `CycleDone` covers both a completed pull and one that raised: either way the thread waits. */
  function Apply(s: Sys, ev: Event): Sys {
    match ev
    case Copy(e) => s.(stages := s.stages[e := Copied])
    case WriteMeta(e) => s.(stages := s.stages[e := Listed], outbox := s.outbox + {e})
    case Poke(e) => s.(stages := s.stages[e := Poked], flag := true)
    case Clear => s.(pc := Cleared, flag := false)
    case FailEarly => s.(pc := Waiting, blind := true)
    case Snapshot(todo) => s.(pc := Sweeping(todo), seen := s.seen + s.outbox, blind := false)
    case Uploaded =>
      if s.pc.Sweeping? && s.pc.todo != [] then
        s.(pc := Sweeping(s.pc.todo[1..]), outbox := s.outbox - {s.pc.todo[0]}, sent := s.sent + {s.pc.todo[0]})
      else s
    case UploadFails => s.(pc := Syncing)
    case SweepDone => s.(pc := Syncing)
    case CycleDone => s.(pc := Waiting)
    case Wake => s.(pc := Top)
    case TimeOut => s.(pc := Top)
    case Leave => s.(pc := Ended)
  }

  /** A poked entry is known to the thread, or the flag is still up, or the thread is about to read
      the outbox, or its last cycle was blind. */
  ghost predicate Remembered(s: Sys, e: Entry) {
    e in s.seen || s.flag || s.pc == Cleared || s.pc == Ended || (s.blind && (s.pc == Waiting || s.pc == Top))
  }

  ghost predicate Inv(s: Sys) {
    && (forall e :: e in s.stages && s.stages[e] == Poked ==> Remembered(s, e))
    && (forall e :: e in s.stages && s.stages[e] != Copied <==> e in s.outbox + s.sent)
    && (forall e :: e in s.outbox ==> e !in s.sent)
    && s.sent <= s.seen
    && (forall e :: e in s.seen ==> e in s.stages && s.stages[e] != Copied)
    && (s.pc.Sweeping? ==> Ascending(s.pc.todo) && forall e :: e in s.pc.todo ==> e in s.outbox && e in s.seen)
  }

  lemma UploadKeepsInv(s: Sys)
    requires Inv(s) && Enabled(s, Uploaded)
    ensures Inv(Apply(s, Uploaded))
  {
    var t := Apply(s, Uploaded);
    var e := s.pc.todo[0];
    assert e in s.pc.todo;
    forall d | d in t.pc.todo ensures d in t.outbox && d in t.seen {
      var i :| 0 <= i < |t.pc.todo| && t.pc.todo[i] == d;
      assert s.pc.todo[i + 1] == d && s.pc.todo[0] < s.pc.todo[i + 1];
    }
  }

  lemma StepKeepsInv(s: Sys, ev: Event)
    requires Inv(s) && Enabled(s, ev)
    ensures Inv(Apply(s, ev))
  {
    if ev == Uploaded {
      UploadKeepsInv(s);
    } else if ev.Snapshot? {
      assert forall e :: e in s.outbox ==> e in s.outbox + s.sent;
      assert forall e :: e in s.stages && s.stages[e] == Poked ==> e in s.outbox + s.sent;
    }
  }

  ghost predicate Run(ss: seq<Sys>, es: seq<Event>) {
    && |ss| == |es| + 1
    && forall i :: 0 <= i < |es| ==> Enabled(ss[i], es[i]) && ss[i + 1] == Apply(ss[i], es[i])
  }

  const START := Sys(map[], {}, false, Top, {}, {}, false)

  lemma {:induction false} RunKeepsInv(ss: seq<Sys>, es: seq<Event>, i: nat)
    requires Run(ss, es) && ss[0] == START && i < |ss|
    ensures Inv(ss[i])
  {
    if i > 0 {
      RunKeepsInv(ss, es, i - 1);
      StepKeepsInv(ss[i - 1], es[i - 1]);
    }
  }

  /** Main result: no poke is lost. In every interleaving, once the thread waits with the flag down
      after a cycle that did read the outbox, every entry whose poke has finished was in a snapshot. */
  lemma NoPokeIsLost(ss: seq<Sys>, es: seq<Event>, i: nat, e: Entry)
    requires Run(ss, es) && ss[0] == START && i < |ss|
    requires ss[i].pc == Waiting && !ss[i].flag && !ss[i].blind
    requires e in ss[i].stages && ss[i].stages[e] == Poked
    ensures e in ss[i].seen
  {
    RunKeepsInv(ss, es, i);
  }

  /** Conservation: an enqueued entry is in the outbox until it is uploaded, and not after. */
  lemma EntriesAreKeptOrSent(ss: seq<Sys>, es: seq<Event>, i: nat, e: Entry)
    requires Run(ss, es) && ss[0] == START && i < |ss|
    requires e in ss[i].stages && ss[i].stages[e] != Copied
    ensures e in ss[i].outbox <==> e !in ss[i].sent
  {
    RunKeepsInv(ss, es, i);
    assert e in ss[i].outbox + ss[i].sent;
  }

  /** Uploads are first in, first out within a snapshot. */
  lemma OlderGoFirst(ss: seq<Sys>, es: seq<Event>, i: nat, e: Entry)
    requires Run(ss, es) && ss[0] == START && i < |es| && es[i] == Uploaded
    requires e in ss[i].pc.todo[1..]
    ensures ss[i].pc.todo[0] < e && e in ss[i + 1].outbox
  {
    RunKeepsInv(ss, es, i);
    var j :| 0 <= j < |ss[i].pc.todo[1..]| && ss[i].pc.todo[1..][j] == e;
    assert e == ss[i].pc.todo[j + 1];
    assert e in ss[i].pc.todo;
  }

  /** A cycle that fails before it reads the outbox consumes the poke: the flag is down, the entry
      was in no snapshot, and the thread waits out its period. */
  lemma BlindCycleSwallowsThePoke() returns (ss: seq<Sys>, es: seq<Event>)
    ensures Run(ss, es) && ss[0] == START
    ensures var s := ss[|es|];
            s.pc == Waiting && !s.flag && 0 in s.stages && s.stages[0] == Poked && 0 !in s.seen
  {
    es := [Copy(0), WriteMeta(0), Poke(0), Clear, FailEarly];
    var s1 := Apply(START, es[0]);
    var s2 := Apply(s1, es[1]);
    var s3 := Apply(s2, es[2]);
    var s4 := Apply(s3, es[3]);
    var s5 := Apply(s4, es[4]);
    ss := [START, s1, s2, s3, s4, s5];
  }

  ghost predicate IsListed(s: Sys, e: Entry) {
    e in s.stages && s.stages[e] != Copied
  }

  lemma StepSeen(s: Sys, ev: Event, e: Entry)
    requires Inv(s) && Enabled(s, ev) && IsListed(s, e)
    ensures IsListed(Apply(s, ev), e)
    ensures e in Apply(s, ev).seen <==> e in s.seen || ev.Snapshot?
  {
    assert e in s.outbox + s.sent;
  }

  /** Exactly which entries the thread has not looked at: those with no snapshot since their meta
      file was written. Together with `NoPokeIsLost`: a poke is swallowed exactly when every cycle
      since then failed before it read the outbox. */
  lemma {:induction false} SeenIffSnapshotSince(ss: seq<Sys>, es: seq<Event>, k: nat, i: nat, e: Entry)
    requires Run(ss, es) && ss[0] == START && k < i < |ss| && es[k] == WriteMeta(e)
    ensures IsListed(ss[i], e)
    ensures e in ss[i].seen <==> exists j :: k < j < i && es[j].Snapshot?
    decreases i
  {
    RunKeepsInv(ss, es, i - 1);
    if i - 1 > k {
      SeenIffSnapshotSince(ss, es, k, i - 1, e);
      StepSeen(ss[i - 1], es[i - 1], e);
    } else {
      assert Enabled(ss[k], WriteMeta(e));
    }
  }

  /** It loses only time: the next snapshot takes every entry that is still to be sent. */
  lemma NextSnapshotSeesEverything(ss: seq<Sys>, es: seq<Event>, i: nat, e: Entry)
    requires Run(ss, es) && ss[0] == START && i < |es| && es[i].Snapshot?
    requires e in ss[i].stages && ss[i].stages[e] != Copied
    ensures e in ss[i + 1].seen && (e !in ss[i].sent ==> e in es[i].todo)
  {
    RunKeepsInv(ss, es, i);
    assert e in ss[i].outbox + ss[i].sent;
  }

  // ---------------------------------------------------------------- the outbox

  /** `audio`: audio files on disk. `metas`: meta files; a cut-off removal can leave one without its
      audio. */
  class Outbox {
    var audio: set<Entry>
    var metas: set<Entry>

    ghost function Entries(): set<Entry>
      reads this
    {
      audio * metas
    }

    constructor ()
      ensures audio == {} && metas == {}
    {
      audio, metas := {}, {};
    }

    /** The name of a new entry is new: it ends in a random token. */
    method Enqueue(e: Entry)
      modifies this
      requires e !in audio && e !in metas
      ensures audio == old(audio) + {e} && metas == old(metas) + {e} && Entries() == old(Entries()) + {e}
    {
      audio := audio + {e};
      metas := metas + {e};
    }

    /** The entries in time order; meta files without audio are removed on the way. */
    method Pending() returns (todo: seq<Entry>)
      modifies this`metas
      ensures IsPending(todo, old(Entries())) && metas == old(Entries())
    {
      todo := [];
      var left := metas;
      while left != {}
        invariant left <= old(metas) && Ascending(todo)
        invariant forall e :: e in todo <==> e in old(metas) - left && e in audio
        invariant forall e :: e in metas <==> e in old(metas) && (e in left || e in audio)
        invariant forall d, e :: d in todo && e in left ==> d < e
        decreases left
      {
        var least := Least(left);
        left := left - {least};
        if least in audio {
          forall i | 0 <= i < |todo| ensures todo[i] < least {
            assert todo[i] in todo;
          }
          todo := todo + [least];
        } else {
          metas := metas - {least};
        }
      }
    }

    /** Upload oldest first and stop at the first failure; `up[i]` tells whether the hub takes the
        i-th upload. What was uploaded leaves the outbox, and nothing else does. */
    method Sweep(up: nat -> bool) returns (done: seq<Entry>)
      modifies this
      ensures Ascending(done)
      ensures forall e :: e in Entries() <==> e in old(Entries()) && e !in done
      ensures forall e :: e in done ==> e in old(Entries())
      ensures forall d, e :: d in done && e in Entries() ==> d < e
      ensures forall i: nat :: i < |done| ==> up(i)
      ensures Entries() != {} ==> !up(|done|)
    {
      var todo := Pending();
      done := [];
      while |done| < |todo|
        invariant |done| <= |todo| && done == todo[..|done|]
        invariant forall e :: e in metas <==> e in old(Entries()) && e !in done
        invariant metas <= audio
        invariant forall i: nat :: i < |done| ==> up(i)
      {
        if !up(|done|) {
          break;
        }
        var e := todo[|done|];
        ghost var was := done;
        audio := audio - {e};
        metas := metas - {e};
        done := done + [e];
        assert forall d :: d in done <==> d in was || d == e;
      }
      assert Entries() == metas;
      assert forall e :: e in done ==> e in todo;
      assert |done| == |todo| ==> done == todo;
      forall d, e | d in done && e in metas ensures d < e {
        var i :| 0 <= i < |done| && done[i] == d;
        assert e in todo;
        var j :| 0 <= j < |todo| && todo[j] == e;
        assert j >= |done|;
      }
    }
  }

  method Least(s: set<Entry>) returns (least: Entry)
    requires s != {}
    ensures least in s && forall e :: e in s ==> least <= e
  {
    least :| least in s;
    var left := s - {least};
    while left != {}
      invariant least in s && left <= s
      invariant forall e :: e in s ==> e in left || least <= e
      decreases left
    {
      var e :| e in left;
      if e < least {
        least := e;
      }
      left := left - {e};
    }
  }
}

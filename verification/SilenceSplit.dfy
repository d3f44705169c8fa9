/** Cutting a recording at silences for a remote transcriber (speechtotext/asr/remote.py), in exact
    arithmetic. Which frames are silent is an input. */
module SilenceSplit {

  const FRAME_SECONDS := 0.02
  const EPSILON := 0.000001

  datatype Range = Range(start: real, end: real)

  function MaxInt(a: int, b: int): int {
    if a >= b then a else b
  }

  function MinReal(a: real, b: real): real {
    if a <= b then a else b
  }

  function Ceil(x: real): int {
    -(-x).Floor
  }

  /** Samples per analysis frame, and frames in the (padded) recording. */
  function FrameSize(sampleRate: nat): nat {
    MaxInt(1, (sampleRate as real * FRAME_SECONDS).Floor)
  }

  function FrameTotal(n: nat, frame: nat): nat
    requires frame > 0
  {
    (n + frame - 1) / frame
  }

  function MinRun(minSilenceSeconds: real): int {
    MaxInt(1, (minSilenceSeconds / FRAME_SECONDS).Floor)
  }

  /** The whole frames of 20 ms in the minimum silence, at least one. */
  ghost predicate IsMinRun(m: int, minSilenceSeconds: real) {
    m >= 1 && (m == 1 || m as real * 0.02 <= minSilenceSeconds) && minSilenceSeconds < (m + 1) as real * 0.02
  }

  /** The whole samples in 20 ms, at least one. */
  ghost predicate IsFrameSize(frame: nat, sampleRate: nat) {
    && frame >= 1 && (frame == 1 || frame as real <= sampleRate as real * 0.02)
    && sampleRate as real * 0.02 < (frame + 1) as real
  }

  /** The fewest frames that hold n samples. */
  ghost predicate HoldsIn(total: nat, n: nat, frame: nat) {
    n <= total * frame && (total > 0 ==> (total - 1) * frame < n)
  }

  lemma MinRunMeaning(m: int, minSilenceSeconds: real)
    ensures IsMinRun(m, minSilenceSeconds) <==> m == MinRun(minSilenceSeconds)
  {
    var x := minSilenceSeconds / FRAME_SECONDS;
    assert x * 0.02 == minSilenceSeconds;
  }

  lemma FrameSizeMeaning(frame: nat, sampleRate: nat)
    ensures IsFrameSize(frame, sampleRate) <==> frame == FrameSize(sampleRate)
  {
  }

  lemma FrameTotalMeaning(total: nat, n: nat, frame: nat)
    requires frame > 0
    ensures HoldsIn(total, n, frame) <==> total == FrameTotal(n, frame)
  {
    var t := FrameTotal(n, frame);
    var r := (n + frame - 1) % frame;
    assert t * frame + r == n + frame - 1;
    assert (t - 1) * frame == t * frame - frame;
    FewestIsOne(total, t, n, frame);
  }

  lemma FewestIsOne(a: nat, b: nat, n: nat, frame: nat)
    requires frame > 0 && HoldsIn(b, n, frame)
    ensures HoldsIn(a, n, frame) <==> a == b
  {
    IntMulMonotone(a, b - 1, frame);
    IntMulMonotone(b, a - 1, frame);
  }

  // ---------------------------------------------------------------- silent runs

  /** Frames i..j are silent and the run cannot be extended. */
  ghost predicate IsRun(silent: seq<bool>, i: nat, j: nat) {
    && i < j <= |silent|
    && (forall k :: i <= k < j ==> silent[k])
    && (i == 0 || !silent[i - 1])
    && (j == |silent| || !silent[j])
  }

  datatype Run = Run(first: nat, end: nat)

  ghost predicate LongRun(silent: seq<bool>, minRun: int, upTo: nat, r: Run) {
    IsRun(silent, r.first, r.end) && r.end - r.first >= minRun && r.end <= upTo
  }

  /** `runs` are all maximal silent runs of at least `minRun` frames that end by `upTo`, in order. */
  ghost predicate AreRuns(runs: seq<Run>, silent: seq<bool>, minRun: int, upTo: nat) {
    && (forall r :: r in runs <==> LongRun(silent, minRun, upTo, r))
    && forall k, l :: 0 <= k < l < |runs| ==> runs[k].end < runs[l].first
  }

  /** The centre of a run, in seconds. */
  function Centre(run: Run, frame: nat, sampleRate: nat): real
    requires sampleRate > 0
  {
    (run.first + run.end) as real / 2.0 * frame as real / sampleRate as real
  }

  /** As far from the time the run begins as from the time it ends. */
  lemma CentreIsMiddle(run: Run, frame: nat, sampleRate: nat)
    requires sampleRate > 0
    ensures var begin, over := (run.first * frame) as real / sampleRate as real, (run.end * frame) as real / sampleRate as real;
            Centre(run, frame, sampleRate) - begin == over - Centre(run, frame, sampleRate)
  {
    CentreInSamples(run, frame, sampleRate);
    assert (run.first + run.end) * frame == run.first * frame + run.end * frame;
    Halves((run.first * frame) as real, (run.end * frame) as real, sampleRate as real);
  }

  lemma Halves(x: real, y: real, r: real)
    requires r > 0.0
    ensures (x + y) / 2.0 / r - x / r == y / r - (x + y) / 2.0 / r
  {
    var h := (x + y) / 2.0;
    assert h - x == y - h;
    assert h / r - x / r == (h - x) / r && y / r - h / r == (y - h) / r;
  }

  /** `cuts` are the centres of `runs`. */
  ghost predicate AreCentres(cuts: seq<real>, runs: seq<Run>, frame: nat, sampleRate: nat)
    requires sampleRate > 0
  {
    |cuts| == |runs| && forall k :: 0 <= k < |runs| ==> cuts[k] == Centre(runs[k], frame, sampleRate)
  }

  method RunEnd(silent: seq<bool>, i: nat) returns (j: nat)
    requires i < |silent| && silent[i] && (i == 0 || !silent[i - 1])
    ensures IsRun(silent, i, j)
  {
    j := i;
    while j < |silent| && silent[j]
      invariant i <= j <= |silent| && forall k :: i <= k < j ==> silent[k]
    {
      j := j + 1;
    }
  }

  /** The cuts are the centres of the long silent runs, in order. */
  ghost predicate AreCuts(cuts: seq<real>, silent: seq<bool>, minRun: int, frame: nat, sampleRate: nat)
    requires sampleRate > 0
  {
    exists runs :: AreRuns(runs, silent, minRun, |silent|) && AreCentres(cuts, runs, frame, sampleRate)
  }

  method FindCuts(silent: seq<bool>, minRun: int, frame: nat, sampleRate: nat)
    returns (cuts: seq<real>)
    requires sampleRate > 0
    ensures AreCuts(cuts, silent, minRun, frame, sampleRate)
  {
    cuts := [];
    ghost var runs: seq<Run> := [];
    var i := 0;
    while i < |silent|
      invariant i <= |silent| && (0 < i < |silent| && silent[i] ==> !silent[i - 1])
      invariant AreRuns(runs, silent, minRun, i)
      invariant AreCentres(cuts, runs, frame, sampleRate)
    {
      if silent[i] {
        var j := RunEnd(silent, i);
        RunsFrom(runs, silent, minRun, i, j);
        if j - i >= minRun {
          cuts := cuts + [(i + j) as real / 2.0 * frame as real / sampleRate as real];
          runs := runs + [Run(i, j)];
        }
        i := j;
      } else {
        RunsPastSpeech(runs, silent, minRun, i);
        i := i + 1;
      }
    }
  }

  /** Two maximal runs are equal or apart. */
  lemma RunsAreApart(silent: seq<bool>, a: nat, b: nat, i: nat, j: nat)
    requires IsRun(silent, a, b) && IsRun(silent, i, j)
    ensures (a == i && b == j) || b < i || j < a
  {
    if b >= i && j >= a {
      assert silent[a] && silent[i] && silent[b - 1] && silent[j - 1];
    }
  }

  lemma RunsFrom(runs: seq<Run>, silent: seq<bool>, minRun: int, i: nat, j: nat)
    requires AreRuns(runs, silent, minRun, i) && IsRun(silent, i, j)
    ensures j - i >= minRun ==> AreRuns(runs + [Run(i, j)], silent, minRun, j)
    ensures j - i < minRun ==> AreRuns(runs, silent, minRun, j)
  {
    forall r | LongRun(silent, minRun, j, r) ensures r == Run(i, j) || LongRun(silent, minRun, i, r) {
      RunsAreApart(silent, r.first, r.end, i, j);
    }
    forall k | 0 <= k < |runs| ensures runs[k].end < i {
      assert runs[k] in runs;
      RunsAreApart(silent, runs[k].first, runs[k].end, i, j);
    }
  }

  lemma RunsPastSpeech(runs: seq<Run>, silent: seq<bool>, minRun: int, i: nat)
    requires i < |silent| && !silent[i] && AreRuns(runs, silent, minRun, i)
    ensures AreRuns(runs, silent, minRun, i + 1)
  {
  }

  // ---------------------------------------------------------------- bounds

  lemma MulMonotone(x: real, y: real, f: real)
    requires f >= 0.0 && x <= y
    ensures x * f <= y * f
  {
  }

  lemma MulStrict(x: real, y: real, f: real)
    requires f > 0.0 && x < y
    ensures x * f < y * f
  {
  }

  /** Dividing by the sample rate turns a distance of h samples into more than EPSILON. */
  lemma SamplesApart(x: real, y: real, h: real, sampleRate: nat)
    requires sampleRate > 0 && EPSILON * sampleRate as real < h && y - x >= h
    ensures y / sampleRate as real - x / sampleRate as real > EPSILON
  {
    var r := sampleRate as real;
    var d := y / r - x / r;
    assert d * r == y - x by {
      assert y / r * r == y && x / r * r == x;
      assert d * r == y / r * r - x / r * r;
    }
    if d <= EPSILON {
      MulMonotone(d, EPSILON, r);
      assert false;
    }
  }

  lemma SamplesOrder(x: real, y: real, sampleRate: nat)
    requires sampleRate > 0
    ensures x < y <==> x / sampleRate as real < y / sampleRate as real
  {
    var r := sampleRate as real;
    assert x / r * r == x && y / r * r == y;
    if x / r < y / r {
      MulStrict(x / r, y / r, r);
    } else {
      MulMonotone(y / r, x / r, r);
    }
  }

  /** Twice the centre of a run, in samples. */
  function TwiceCentre(run: Run, frame: nat): nat {
    (run.first + run.end) * frame
  }

  lemma CentreInSamples(run: Run, frame: nat, sampleRate: nat)
    requires sampleRate > 0
    ensures Centre(run, frame, sampleRate) == TwiceCentre(run, frame) as real / 2.0 / sampleRate as real
  {
    var s := run.first + run.end;
    assert (s * frame) as real == s as real * frame as real;
    assert s as real / 2.0 * frame as real == s as real * frame as real / 2.0;
  }

  lemma IntMulMonotone(x: int, y: int, f: nat)
    ensures x <= y ==> x * f <= y * f
  {
  }

  lemma RunsApart(a: Run, b: Run, frame: nat)
    requires frame > 0 && a.first < a.end < b.first < b.end
    ensures TwiceCentre(b, frame) - TwiceCentre(a, frame) >= 2
  {
    IntMulMonotone(a.first + a.end + 2, b.first + b.end, frame);
    assert (a.first + a.end + 2) * frame == TwiceCentre(a, frame) + 2 * frame;
  }

  /** A run of two or more frames is centred at least one frame into the file and at least one
      sample before its end. */
  lemma RunInside(run: Run, n: nat, frame: nat)
    requires frame > 0 && n > 0
    requires run.first + 2 <= run.end <= FrameTotal(n, frame)
    ensures 2 <= TwiceCentre(run, frame) <= 2 * n - 2
  {
    var total := FrameTotal(n, frame);
    assert (total - 1) * frame < n;
    IntMulMonotone(2, run.first + run.end, frame);
    IntMulMonotone(run.first + run.end, 2 * (total - 1), frame);
    assert 2 * (total - 1) * frame == 2 * ((total - 1) * frame);
  }

  /** A bound in half samples: the start, a cut, or the end. */
  function TwiceBound(runs: seq<Run>, k: nat, n: nat, frame: nat): nat
    requires k < |runs| + 2
  {
    if k == 0 then 0 else if k <= |runs| then TwiceCentre(runs[k - 1], frame) else 2 * n
  }

  /** A last frame that is silent on its own, and more than half padding. */
  predicate Overshoots(silent: seq<bool>, minRun: int, n: nat, frame: nat) {
    var t := |silent|;
    && minRun <= 1 && t > 0 && silent[t - 1] && (t == 1 || !silent[t - 2])
    && 2 * n < (2 * t - 1) * frame
  }

  /** Before the last bound, bounds advance: by a sample between cuts, and by half a sample to the
      first cut, which needs a run of one frame. */
  lemma BoundsAdvance(runs: seq<Run>, silent: seq<bool>, minRun: int, n: nat, frame: nat, k: nat)
    requires n > 0 && frame > 0 && minRun >= 1 && k < |runs|
    requires |silent| == FrameTotal(n, frame) && AreRuns(runs, silent, minRun, |silent|)
    ensures TwiceBound(runs, k + 1, n, frame) - TwiceBound(runs, k, n, frame) >= if minRun >= 2 then 2 else 1
  {
    assert runs[k] in runs && LongRun(silent, minRun, |silent|, runs[k]);
    if k > 0 {
      assert runs[k - 1] in runs && LongRun(silent, minRun, |silent|, runs[k - 1]);
      RunsApart(runs[k - 1], runs[k], frame);
    } else {
      IntMulMonotone(minRun, runs[0].first + runs[0].end, frame);
      IntMulMonotone(if minRun >= 2 then 2 else 1, minRun, frame);
    }
  }

  /** A run that ends before the last frame is centred before the end of the file. */
  lemma EarlyRunInside(run: Run, n: nat, frame: nat)
    requires frame > 0 && n > 0 && run.first < run.end <= FrameTotal(n, frame) - 1
    ensures TwiceCentre(run, frame) < 2 * n
  {
    var total := FrameTotal(n, frame);
    assert (total - 1) * frame < n;
    IntMulMonotone(run.first + run.end, 2 * (total - 1), frame);
    assert 2 * (total - 1) * frame == 2 * ((total - 1) * frame);
  }

  /** The last cut passes the end exactly if the last frame overshoots. */
  lemma LastBound(runs: seq<Run>, silent: seq<bool>, minRun: int, n: nat, frame: nat)
    requires n > 0 && frame > 0 && minRun >= 1
    requires |silent| == FrameTotal(n, frame) && AreRuns(runs, silent, minRun, |silent|)
    ensures TwiceBound(runs, |runs|, n, frame) > 2 * n <==> Overshoots(silent, minRun, n, frame)
    ensures minRun >= 2 ==> TwiceBound(runs, |runs|, n, frame) <= 2 * n - 2
    ensures Overshoots(silent, minRun, n, frame) ==> runs != []
  {
    var t := |silent|;
    if Overshoots(silent, minRun, n, frame) {
      LastFrameIsLastRun(runs, silent, minRun, n, frame);
    }
    if runs != [] {
      var last := runs[|runs| - 1];
      assert last in runs && LongRun(silent, minRun, t, last);
      if last.end - last.first >= 2 {
        RunInside(last, n, frame);
      } else if last.end < t {
        EarlyRunInside(last, n, frame);
      } else {
        assert last == Run(t - 1, t);
      }
    }
  }

  lemma LastFrameIsLastRun(runs: seq<Run>, silent: seq<bool>, minRun: int, n: nat, frame: nat)
    requires minRun >= 1 && AreRuns(runs, silent, minRun, |silent|) && Overshoots(silent, minRun, n, frame)
    ensures runs != [] && runs[|runs| - 1] == Run(|silent| - 1, |silent|)
  {
    var r := Run(|silent| - 1, |silent|);
    assert LongRun(silent, minRun, |silent|, r) && r in runs;
    var j :| 0 <= j < |runs| && runs[j] == r;
    var last := runs[|runs| - 1];
    assert last in runs && LongRun(silent, minRun, |silent|, last);
  }

  function Bounds(cuts: seq<real>, n: nat, sampleRate: nat): seq<real>
    requires sampleRate > 0
  {
    [0.0] + cuts + [n as real / sampleRate as real]
  }

  lemma BoundsInSamples(runs: seq<Run>, cuts: seq<real>, n: nat, frame: nat, sampleRate: nat, k: nat)
    requires sampleRate > 0 && AreCentres(cuts, runs, frame, sampleRate) && k < |cuts| + 2
    ensures Bounds(cuts, n, sampleRate)[k] == TwiceBound(runs, k, n, frame) as real / 2.0 / sampleRate as real
  {
    if 0 < k <= |runs| {
      CentreInSamples(runs[k - 1], frame, sampleRate);
    }
  }

  /** Both ways: some cut lies past the end of the recording if and only if its last frame is silent on
      its own and more than half padding, and one frame is enough for a cut. */
  lemma CutPassesTheEndIff(cuts: seq<real>, silent: seq<bool>, minRun: int, n: nat, frame: nat, sampleRate: nat)
    requires n > 0 && frame > 0 && minRun >= 1 && sampleRate > 0 && |silent| == FrameTotal(n, frame)
    requires AreCuts(cuts, silent, minRun, frame, sampleRate)
    ensures (exists k :: 0 <= k < |cuts| && cuts[k] > n as real / sampleRate as real)
            <==> Overshoots(silent, minRun, n, frame)
  {
    var runs :| AreRuns(runs, silent, minRun, |silent|) && AreCentres(cuts, runs, frame, sampleRate);
    LastBound(runs, silent, minRun, n, frame);
    forall k | 0 <= k < |cuts|
      ensures cuts[k] > n as real / sampleRate as real <==> TwiceCentre(runs[k], frame) > 2 * n
    {
      BoundsInSamples(runs, cuts, n, frame, sampleRate, k + 1);
      SamplesOrder(n as real, TwiceCentre(runs[k], frame) as real / 2.0, sampleRate);
    }
    if k :| 0 <= k < |cuts| && TwiceCentre(runs[k], frame) > 2 * n {
      LastIsLatest(runs, silent, minRun, n, frame, k);
    }
    if Overshoots(silent, minRun, n, frame) {
      assert TwiceCentre(runs[|cuts| - 1], frame) > 2 * n;
    }
  }

  lemma LastIsLatest(runs: seq<Run>, silent: seq<bool>, minRun: int, n: nat, frame: nat, k: nat)
    requires frame > 0 && n > 0 && minRun >= 1 && AreRuns(runs, silent, minRun, |silent|) && k < |runs|
    ensures TwiceCentre(runs[k], frame) <= TwiceBound(runs, |runs|, n, frame)
  {
    var last := |runs| - 1;
    assert runs[k] in runs && LongRun(silent, minRun, |silent|, runs[k]);
    assert runs[last] in runs && LongRun(silent, minRun, |silent|, runs[last]);
    if k < last {
      RunsApart(runs[k], runs[last], frame);
    }
  }

  /** What a sample rate must be for the 1e-6 filter to tell the closest bounds apart. */
  predicate RateIsFine(minRun: int, sampleRate: nat) {
    0 < sampleRate < if minRun >= 2 then 1000000 else 500000
  }

  /** The step from bound k is longer than the filter; only the last may be zero, if there are cuts, and
      it leads back exactly if `over`. */
  ghost predicate StepIsPlain(bounds: seq<real>, k: nat, over: bool)
    requires k + 1 < |bounds|
  {
    var step := bounds[k + 1] - bounds[k];
    if k + 1 < |bounds| - 1 then step > EPSILON
    else
      && (over <==> step < 0.0) && (step > EPSILON || step <= 0.0)
      && (k == 0 ==> step > EPSILON)
  }

  /** The step from bound k to the next is longer than the filter, but for the last one: that is longer
      or zero, or leads back exactly if the last frame overshoots. */
  lemma BoundsAreWellSpaced(runs: seq<Run>, cuts: seq<real>, silent: seq<bool>, minRun: int,
                            n: nat, frame: nat, sampleRate: nat, k: nat)
    requires n > 0 && RateIsFine(minRun, sampleRate) && frame > 0 && minRun >= 1 && k < |cuts| + 1
    requires |silent| == FrameTotal(n, frame) && AreRuns(runs, silent, minRun, |silent|)
    requires AreCentres(cuts, runs, frame, sampleRate)
    ensures StepIsPlain(Bounds(cuts, n, sampleRate), k, Overshoots(silent, minRun, n, frame))
    ensures minRun >= 2 ==> Bounds(cuts, n, sampleRate)[k + 1] - Bounds(cuts, n, sampleRate)[k] > EPSILON
  {
    var x, y := TwiceBound(runs, k, n, frame), TwiceBound(runs, k + 1, n, frame);
    BoundsInSamples(runs, cuts, n, frame, sampleRate, k);
    BoundsInSamples(runs, cuts, n, frame, sampleRate, k + 1);
    StepInHalfSamples(runs, silent, minRun, n, frame, k);
    StepInSeconds(x, y, minRun, sampleRate);
  }

  lemma StepInHalfSamples(runs: seq<Run>, silent: seq<bool>, minRun: int, n: nat, frame: nat, k: nat)
    requires n > 0 && frame > 0 && minRun >= 1 && k <= |runs|
    requires |silent| == FrameTotal(n, frame) && AreRuns(runs, silent, minRun, |silent|)
    ensures var step := TwiceBound(runs, k + 1, n, frame) - TwiceBound(runs, k, n, frame);
            && (minRun >= 2 ==> step >= 2) && (k < |runs| || k == 0 ==> step >= 1)
            && (k == |runs| ==> (step < 0 <==> Overshoots(silent, minRun, n, frame)))
  {
    if k < |runs| {
      BoundsAdvance(runs, silent, minRun, n, frame, k);
    } else {
      LastBound(runs, silent, minRun, n, frame);
    }
  }

  lemma StepInSeconds(x: nat, y: nat, minRun: int, sampleRate: nat)
    requires RateIsFine(minRun, sampleRate) && (minRun >= 2 ==> y - x >= 2)
    ensures var step := y as real / 2.0 / sampleRate as real - x as real / 2.0 / sampleRate as real;
            && (y > x ==> step > EPSILON) && (step < 0.0 <==> y < x) && (y == x ==> step == 0.0)
  {
    SamplesOrder(y as real / 2.0, x as real / 2.0, sampleRate);
    if y > x {
      SamplesApart(x as real / 2.0, y as real / 2.0, if minRun >= 2 then 1.0 else 0.5, sampleRate);
    }
  }

  // ---------------------------------------------------------------- tiling

  /** The ranges run contiguously from a to b, forwards, none longer than `limit`. */
  ghost predicate Tiles(out: seq<Range>, a: real, b: real, limit: real) {
    && (forall k :: 0 <= k < |out| ==> out[k].start < out[k].end && out[k].end - out[k].start <= limit)
    && (forall k :: 0 <= k < |out| - 1 ==> out[k].end == out[k + 1].start)
    && (if out == [] then a == b else out[0].start == a && out[|out| - 1].end == b)
  }

  lemma TilesConcat(x: seq<Range>, y: seq<Range>, a: real, b: real, c: real, limit: real)
    requires Tiles(x, a, b, limit) && Tiles(y, b, c, limit)
    ensures Tiles(x + y, a, c, limit)
  {
  }

  /** Equal pieces of a..b: exact, forwards, within the limit. */
  lemma PieceBounds(a: real, b: real, limit: real, pieces: int, step: real)
    requires limit > 0.0 && a < b && pieces >= 1
    requires pieces as real >= (b - a) / limit && step == (b - a) / pieces as real
    ensures a + pieces as real * step == b && 0.0 < step <= limit
  {
    var p := pieces as real;
    assert step * p == b - a;
    assert (b - a) / limit * limit == b - a;
    MulMonotone((b - a) / limit, p, limit);
    if step > limit {
      MulStrict(limit, step, p);
    }
    if step <= 0.0 {
      MulMonotone(step, 0.0, p);
    }
  }

  /** Where piece m begins, one step at a time. */
  ghost function PieceStart(a: real, step: real, m: nat): real {
    if m == 0 then a else PieceStart(a, step, m - 1) + step
  }

  lemma {:induction false} PieceStartIsProduct(a: real, step: real, m: nat)
    ensures PieceStart(a, step, m) == a + m as real * step
  {
    if m > 0 {
      PieceStartIsProduct(a, step, m - 1);
      assert m as real == (m - 1) as real + 1.0;
    }
  }

  /** The m-th piece: it ends where the next begins, and the clamp to b changes nothing. */
  method Piece(a: real, b: real, ghost pieces: nat, step: real, m: nat) returns (r: Range)
    requires m < pieces && step > 0.0 && a + pieces as real * step == b
    ensures r == Range(PieceStart(a, step, m), PieceStart(a, step, m + 1))
  {
    r := Range(a + m as real * step, MinReal(b, a + (m + 1) as real * step));
    PieceStartIsProduct(a, step, m);
    PieceStartIsProduct(a, step, m + 1);
    MulMonotone((m + 1) as real, pieces as real, step);
    assert (m + 1) as real * step <= pieces as real * step;
    assert a + (m + 1) as real * step <= b;
  }

  lemma TilesExtend(out: seq<Range>, a: real, b: real, c: real, limit: real)
    requires Tiles(out, a, b, limit) && b < c <= b + limit
    ensures Tiles(out + [Range(b, c)], a, c, limit)
  {
  }

  lemma FewestPieces(a: real, b: real, limit: real)
    requires limit > 0.0 && a < b
    ensures Ceil((b - a) / limit) > 1 ==> (Ceil((b - a) / limit) - 1) as real * limit < b - a
  {
    var x := (b - a) / limit;
    var y := (Ceil(x) - 1) as real;
    QuotientTimes(b - a, limit);
    assert y < x;
    MulStrict(y, x, limit);
  }

  lemma QuotientTimes(x: real, f: real)
    requires f > 0.0
    ensures x / f * f == x
  {
  }

  /** Equal pieces, as few as the limit allows. */
  method SplitEvenly(a: real, b: real, limit: real) returns (out: seq<Range>)
    requires limit > 0.0 && a < b
    ensures Tiles(out, a, b, limit) && out != []
    ensures forall k :: 0 <= k < |out| ==> out[k].end - out[k].start == (b - a) / |out| as real
    ensures |out| > 1 ==> (|out| - 1) as real * limit < b - a
  {
    var pieces := MaxInt(1, Ceil((b - a) / limit));
    var step := (b - a) / pieces as real;
    PieceBounds(a, b, limit, pieces, step);
    FewestPieces(a, b, limit);
    out := CutPieces(a, b, pieces, step, limit);
  }

  method CutPieces(a: real, b: real, pieces: nat, step: real, ghost limit: real) returns (out: seq<Range>)
    requires pieces >= 1 && 0.0 < step <= limit && a + pieces as real * step == b
    ensures Tiles(out, a, b, limit) && |out| == pieces
    ensures forall k :: 0 <= k < |out| ==> out[k].end - out[k].start == step
  {
    out := [];
    for m := 0 to pieces
      invariant forall k :: 0 <= k < |out| ==> out[k].end - out[k].start == step
      invariant |out| == m && Tiles(out, a, PieceStart(a, step, m), limit)
    {
      var r := Piece(a, b, pieces, step, m);
      TilesExtend(out, a, r.start, r.end, limit);
      out := out + [r];
    }
    PieceStartIsProduct(a, step, pieces);
  }

  ghost predicate EndsAt(out: seq<Range>, t: real) {
    exists k :: 0 <= k < |out| && out[k].end == t
  }

  /** A range may end at a bound, or inside a stretch between bounds that is longer than the limit. */
  ghost predicate MayEnd(bounds: seq<real>, limit: real, t: real) {
    (exists m :: 0 < m < |bounds| && bounds[m] == t)
    || (exists m :: 0 <= m < |bounds| - 1 && InLongStretch(bounds[m], bounds[m + 1], limit, t))
  }

  ghost predicate InLongStretch(a: real, b: real, limit: real, t: real) {
    a < t < b && b - a > limit
  }

  /** The first k stretches are done: every bound ends a range, and no range ends elsewhere without
      need. */
  ghost predicate EndsRight(out: seq<Range>, bounds: seq<real>, k: nat, limit: real)
    requires k < |bounds|
  {
    && (forall m :: 0 < m <= k ==> EndsAt(out, bounds[m]))
    && (forall j :: 0 <= j < |out| ==> MayEnd(bounds, limit, out[j].end))
  }

  lemma {:induction false} TilesAreInside(out: seq<Range>, a: real, b: real, limit: real, j: nat)
    requires Tiles(out, a, b, limit) && j < |out|
    ensures a < out[j].end && (j < |out| - 1 ==> out[j].end < b)
    decreases |out|
  {
    if |out| > 1 {
      var n := |out| - 1;
      assert Tiles(out[..n], a, out[n].start, limit);
      if j < n {
        TilesAreInside(out[..n], a, out[n].start, limit, j);
      } else {
        TilesAreInside(out[..n], a, out[n].start, limit, n - 1);
      }
    }
  }

  lemma MoreThanOne(pieces: nat, limit: real, length: real)
    requires pieces > 1 && limit > 0.0 && (pieces - 1) as real * limit < length
    ensures length > limit
  {
    var x := (pieces - 1) as real;
    MulMonotone(1.0, x, limit);
    assert x * limit < length && 1.0 * limit == limit;
  }

  lemma EndsRightMore(out: seq<Range>, bounds: seq<real>, k: nat, limit: real, pieces: seq<Range>)
    requires limit > 0.0 && k + 1 < |bounds| && EndsRight(out, bounds, k, limit)
    requires Tiles(pieces, bounds[k], bounds[k + 1], limit) && pieces != []
    requires |pieces| > 1 ==> (|pieces| - 1) as real * limit < bounds[k + 1] - bounds[k]
    ensures EndsRight(out + pieces, bounds, k + 1, limit)
  {
    var all := out + pieces;
    forall m | 0 < m <= k + 1 ensures EndsAt(all, bounds[m]) {
      if m == k + 1 {
        assert all[|all| - 1].end == bounds[m];
      } else {
        assert EndsAt(out, bounds[m]);
        var j :| 0 <= j < |out| && out[j].end == bounds[m];
        assert all[j].end == bounds[m];
      }
    }
    forall j | 0 <= j < |all| ensures MayEnd(bounds, limit, all[j].end) {
      if j < |out| {
        assert all[j] == out[j];
      } else if j == |all| - 1 {
        assert bounds[k + 1] == all[j].end;
      } else {
        TilesAreInside(pieces, bounds[k], bounds[k + 1], limit, j - |out|);
        MoreThanOne(|pieces|, limit, bounds[k + 1] - bounds[k]);
        assert InLongStretch(bounds[k], bounds[k + 1], limit, all[j].end);
      }
    }
  }

  /** What the splitting promises: contiguous ranges within the limit, that end at every cut, and
      otherwise only where a stretch between cuts is longer than the limit. */
  ghost predicate IsSplit(out: seq<Range>, silent: seq<bool>, minRun: int, frame: nat, sampleRate: nat, n: nat, limit: real)
    requires sampleRate > 0
  {
    var duration := n as real / sampleRate as real;
    && Tiles(out, 0.0, duration, limit)
    && exists cuts ::
         && AreCuts(cuts, silent, minRun, frame, sampleRate)
         && EndsRight(out, [0.0] + cuts + [duration], |cuts| + 1, limit)
  }

  /** What it gives instead when the last frame overshoots: ranges that go on to a cut past the end. */
  ghost predicate RunsPastTheEnd(out: seq<Range>, silent: seq<bool>, minRun: int, frame: nat, sampleRate: nat, n: nat, limit: real)
    requires sampleRate > 0
  {
    exists cuts ::
      && AreCuts(cuts, silent, minRun, frame, sampleRate) && cuts != []
      && cuts[|cuts| - 1] > n as real / sampleRate as real
      && Tiles(out, 0.0, cuts[|cuts| - 1], limit)
  }

  /** How many bounds the ranges have reached after k stretches: a last stretch that leads back is
      filtered out. */
  function Reached(k: nat, last: nat, over: bool): nat
    requires last > 0
  {
    if over && k == last then k - 1 else k
  }

  ghost predicate SplitSoFar(out: seq<Range>, bounds: seq<real>, k: nat, limit: real)
    requires k < |bounds|
  {
    Tiles(out, 0.0, bounds[k], limit) && EndsRight(out, bounds, k, limit)
  }

  /** A stretch of length zero adds nothing and is no loss. */
  lemma EmptyStretch(out: seq<Range>, bounds: seq<real>, k: nat, limit: real)
    requires 0 < k && k + 1 < |bounds| && bounds[k + 1] == bounds[k] && SplitSoFar(out, bounds, k, limit)
    ensures SplitSoFar(out, bounds, k + 1, limit)
  {
    forall m | 0 < m <= k + 1 ensures EndsAt(out, bounds[m]) {
      assert EndsAt(out, bounds[if m == k + 1 then k else m]);
    }
  }

  /** The ranges of the whole recording. When the sample rate is fine they tile it from 0 to its duration,
      and end at the cuts, if and only if the last frame does not overshoot. */
  method SplitOnSilence(n: nat, silent: seq<bool>, sampleRate: nat, maxChunkSeconds: real, minSilenceSeconds: real)
    returns (out: seq<Range>)
    requires sampleRate > 0 && maxChunkSeconds > 0.0
    requires exists frame: nat :: IsFrameSize(frame, sampleRate) && HoldsIn(|silent|, n, frame)
    ensures n == 0 ==> out == []
    ensures forall minRun: int, frame: nat ::
              IsMinRun(minRun, minSilenceSeconds) && IsFrameSize(frame, sampleRate) && n > 0 && RateIsFine(minRun, sampleRate) ==>
                IsRightSplit(out, silent, minRun, frame, sampleRate, n, maxChunkSeconds)
  {
    if n == 0 {
      return [];
    }
    ghost var size: nat :| IsFrameSize(size, sampleRate) && HoldsIn(|silent|, n, size);
    FrameSizeMeaning(size, sampleRate);
    FrameTotalMeaning(|silent|, n, size);
    out := SplitAt(n, silent, sampleRate, maxChunkSeconds, FrameSize(sampleRate), MinRun(minSilenceSeconds));
    forall minRun: int, frame: nat
      | IsMinRun(minRun, minSilenceSeconds) && IsFrameSize(frame, sampleRate) && RateIsFine(minRun, sampleRate)
      ensures IsRightSplit(out, silent, minRun, frame, sampleRate, n, maxChunkSeconds)
    {
      MinRunMeaning(minRun, minSilenceSeconds);
      FrameSizeMeaning(frame, sampleRate);
    }
  }

  ghost predicate IsRightSplit(out: seq<Range>, silent: seq<bool>, minRun: int, frame: nat, sampleRate: nat, n: nat, limit: real)
    requires sampleRate > 0
  {
    && (IsSplit(out, silent, minRun, frame, sampleRate, n, limit) <==> !Overshoots(silent, minRun, n, frame))
    && (Overshoots(silent, minRun, n, frame) ==> RunsPastTheEnd(out, silent, minRun, frame, sampleRate, n, limit))
  }

  method SplitAt(n: nat, silent: seq<bool>, sampleRate: nat, limit: real, frame: nat, minRun: int)
    returns (out: seq<Range>)
    requires n > 0 && sampleRate > 0 && limit > 0.0 && frame > 0 && minRun >= 1
    requires |silent| == FrameTotal(n, frame)
    ensures RateIsFine(minRun, sampleRate) ==> IsRightSplit(out, silent, minRun, frame, sampleRate, n, limit)
  {
    var cuts := FindCuts(silent, minRun, frame, sampleRate);
    var duration := n as real / sampleRate as real;
    var bounds := [0.0] + cuts + [duration];
    ghost var regular, over := RateIsFine(minRun, sampleRate), Overshoots(silent, minRun, n, frame);
    ghost var runs :| AreRuns(runs, silent, minRun, |silent|) && AreCentres(cuts, runs, frame, sampleRate);
    if regular {
      forall k | 0 <= k < |bounds| - 1 ensures StepIsPlain(bounds, k, over) {
        BoundsAreWellSpaced(runs, cuts, silent, minRun, n, frame, sampleRate, k);
      }
    }
    out := AddStretches(bounds, limit, regular, over);
    if regular {
      SplitEnds(out, runs, cuts, silent, minRun, n, frame, sampleRate, limit);
    }
  }

  /** All stretches between bounds. */
  method AddStretches(bounds: seq<real>, limit: real, ghost regular: bool, ghost over: bool) returns (out: seq<Range>)
    requires limit > 0.0 && |bounds| > 1 && bounds[0] == 0.0
    requires regular ==> forall k :: 0 <= k < |bounds| - 1 ==> StepIsPlain(bounds, k, over)
    ensures regular ==> SplitSoFar(out, bounds, Reached(|bounds| - 1, |bounds| - 1, over), limit)
  {
    out := [];
    for k := 0 to |bounds| - 1
      invariant regular ==> SplitSoFar(out, bounds, Reached(k, |bounds| - 1, over), limit)
    {
      out := AddStretch(out, bounds, k, limit, regular, over);
    }
  }

  /** One stretch between bounds. */
  method AddStretch(out0: seq<Range>, bounds: seq<real>, k: nat, limit: real, ghost regular: bool, ghost over: bool)
    returns (out: seq<Range>)
    requires limit > 0.0 && k + 1 < |bounds|
    requires regular ==> SplitSoFar(out0, bounds, k, limit) && StepIsPlain(bounds, k, over)
    ensures regular ==> SplitSoFar(out, bounds, Reached(k + 1, |bounds| - 1, over), limit)
  {
    out := out0;
    var a, b := bounds[k], bounds[k + 1];
    if b - a <= EPSILON {
      if regular && !(over && k + 1 == |bounds| - 1) {
        EmptyStretch(out, bounds, k, limit);
      }
      return;
    }
    var pieces := SplitEvenly(a, b, limit);
    if regular {
      TilesConcat(out, pieces, 0.0, a, b, limit);
      EndsRightMore(out, bounds, k, limit, pieces);
    }
    out := out + pieces;
  }

  lemma SplitEnds(out: seq<Range>, runs: seq<Run>, cuts: seq<real>, silent: seq<bool>, minRun: int, n: nat,
                  frame: nat, sampleRate: nat, limit: real)
    requires n > 0 && RateIsFine(minRun, sampleRate) && frame > 0 && minRun >= 1 && limit > 0.0
    requires |silent| == FrameTotal(n, frame) && AreRuns(runs, silent, minRun, |silent|)
    requires AreCentres(cuts, runs, frame, sampleRate)
    requires SplitSoFar(out, Bounds(cuts, n, sampleRate),
                        Reached(|cuts| + 1, |cuts| + 1, Overshoots(silent, minRun, n, frame)), limit)
    ensures IsRightSplit(out, silent, minRun, frame, sampleRate, n, limit)
  {
    var bounds := Bounds(cuts, n, sampleRate);
    assert bounds[|cuts| + 1] == n as real / sampleRate as real;
    if Overshoots(silent, minRun, n, frame) {
      LastBound(runs, silent, minRun, n, frame);
      BoundsAreWellSpaced(runs, cuts, silent, minRun, n, frame, sampleRate, |cuts|);
      assert cuts[|cuts| - 1] == bounds[|cuts|];
      PositiveEnd(n, sampleRate);
    }
  }

  lemma PositiveEnd(n: nat, sampleRate: nat)
    requires n > 0 && sampleRate > 0
    ensures n as real / sampleRate as real > 0.0
  {
    SamplesOrder(0.0, n as real, sampleRate);
  }

  /** There are such recordings: one sample at 250 Hz, silent. */
  lemma ShortRunsOvershoot()
    ensures FrameTotal(1, FrameSize(250)) == 1 && Overshoots([true], 1, 1, FrameSize(250)) && RateIsFine(1, 250)
  {
    assert 250 as real * FRAME_SECONDS == 5.0;
  }

  // ---------------------------------------------------------------- sample slices

  /** `int(t * sampleRate)`. */
  function SampleAt(t: real, sampleRate: nat): int {
    (t * sampleRate as real).Floor
  }

  function Flatten<T>(slices: seq<seq<T>>): seq<T> {
    if slices == [] then [] else Flatten(slices[..|slices| - 1]) + slices[|slices| - 1]
  }

  lemma SampleAtIsMonotone(s: real, t: real, sampleRate: nat)
    requires s <= t
    ensures SampleAt(s, sampleRate) <= SampleAt(t, sampleRate)
  {
    MulMonotone(s, t, sampleRate as real);
  }

  /** Ends of tiles stay in order. */
  lemma {:induction false} TilesAscend(out: seq<Range>, a: real, b: real, limit: real, k: nat)
    requires Tiles(out, a, b, limit) && k < |out|
    ensures a <= out[k].start && out[k].end <= b
    decreases |out|
  {
    if k > 0 {
      assert Tiles(out[1..], out[0].end, b, limit);
      TilesAscend(out[1..], out[0].end, b, limit, k - 1);
    } else if |out| > 1 {
      assert Tiles(out[1..], out[0].end, b, limit);
      TilesAscend(out[1..], out[0].end, b, limit, 0);
      assert out[1..][0] == out[1];
    }
  }

  /** The slice is as long as its range, in whole samples at both ends. */
  ghost predicate IsSlice<T>(slice: seq<T>, range: Range, sampleRate: nat) {
    |slice| == (range.end * sampleRate as real).Floor - (range.start * sampleRate as real).Floor
  }

  /** The slices sent for transcription are all samples, each once, in order. */
  method SliceSamples<T>(samples: seq<T>, ranges: seq<Range>, sampleRate: nat, ghost limit: real)
    returns (slices: seq<seq<T>>)
    requires sampleRate > 0
    requires Tiles(ranges, 0.0, |samples| as real / sampleRate as real, limit)
    ensures |slices| == |ranges| && Flatten(slices) == samples
    ensures forall k :: 0 <= k < |slices| ==> IsSlice(slices[k], ranges[k], sampleRate)
  {
    slices := [];
    ghost var duration := |samples| as real / sampleRate as real;
    assert SampleAt(duration, sampleRate) == |samples| by {
      assert duration * sampleRate as real == |samples| as real;
    }
    if ranges == [] {
      assert |samples| as real == 0.0 * sampleRate as real;
      return;
    }
    assert SampleAt(0.0, sampleRate) == 0;
    for k := 0 to |ranges|
      invariant |slices| == k
      invariant forall i :: 0 <= i < k ==> IsSlice(slices[i], ranges[i], sampleRate)
      invariant k < |ranges| ==> 0 <= SampleAt(ranges[k].start, sampleRate) <= |samples|
      invariant Flatten(slices) == if k < |ranges| then samples[..SampleAt(ranges[k].start, sampleRate)] else samples
    {
      TilesAscend(ranges, 0.0, duration, limit, k);
      SampleAtIsMonotone(ranges[k].start, ranges[k].end, sampleRate);
      SampleAtIsMonotone(ranges[k].end, duration, sampleRate);
      var lo, hi := SampleAt(ranges[k].start, sampleRate), SampleAt(ranges[k].end, sampleRate);
      ghost var before := slices;
      var slice := samples[lo..hi];
      assert IsSlice(slice, ranges[k], sampleRate);
      slices := slices + [slice];
      assert slices[..|slices| - 1] == before;
      assert samples[..lo] + samples[lo..hi] == samples[..hi];
    }
  }
}

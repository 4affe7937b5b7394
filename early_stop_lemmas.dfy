/** Properties of the early stopper's decision logic. */
module EarlyStopLemmas {
  import opened Wrappers
  import opened EarlyStop

  // ---------------------------------------------------------------------------
  // The improvement predicate
  // ---------------------------------------------------------------------------

  /** `minimize` selects `score <= best - minDelta`, otherwise `score >= best + minDelta`. */
  lemma ComparatorSelection(minimize: bool, minDelta: real, score: real, best: real)
    ensures minimize ==> (IsBetter(ModeOf(minimize), minDelta, score, best) <==> score <= best - minDelta)
    ensures !minimize ==> (IsBetter(ModeOf(minimize), minDelta, score, best) <==> score >= best + minDelta)
  {
  }

  /** A score compared with itself is an improvement exactly when the margin is not positive. */
  lemma SelfComparison(mode: Mode, minDelta: real, score: real)
    ensures IsBetter(mode, minDelta, score, score) <==> minDelta <= 0.0
  {
  }

  /** Maximising a metric is minimising its negation. */
  lemma IsBetterDuality(minDelta: real, score: real, best: real)
    ensures IsBetter(Maximize, minDelta, score, best) <==> IsBetter(Minimize, minDelta, -score, -best)
  {
  }

  // ---------------------------------------------------------------------------
  // One epoch
  // ---------------------------------------------------------------------------

  /** An improving epoch resets the counter and records the score as best. */
  lemma ObserveImproving(mode: Mode, minDelta: real, t: Tracker, score: real)
    requires IsBetter(mode, minDelta, score, Baseline(t, score))
    ensures Observe(mode, minDelta, t, score) == Tracker(Some(score), 0)
  {
  }

  /**
   A non-improving epoch adds exactly one to the counter and keeps the best
   score, which on the first observation is the score itself.
   */
  lemma ObserveNotImproving(mode: Mode, minDelta: real, t: Tracker, score: real)
    requires !IsBetter(mode, minDelta, score, Baseline(t, score))
    ensures Observe(mode, minDelta, t, score).badEpochs == t.badEpochs + 1
    ensures t.best.Some? ==> Observe(mode, minDelta, t, score).best == t.best
    ensures t.best.None? ==> Observe(mode, minDelta, t, score).best == Some(score)
  {
  }

  /**
   The first epoch adopts its score as best and compares it with itself: with
   a positive margin it is a bad epoch, otherwise an improvement.
   */
  lemma FirstEpoch(mode: Mode, minDelta: real, score: real)
    ensures Observe(mode, minDelta, Initial, score) == Tracker(Some(score), if minDelta > 0.0 then 1 else 0)
  {
  }

  /** With a non-negative margin, one epoch never moves the best score the wrong way. */
  lemma ObserveBestMonotone(mode: Mode, minDelta: real, t: Tracker, score: real)
    requires minDelta >= 0.0 && t.best.Some?
    ensures mode == Minimize ==> Observe(mode, minDelta, t, score).best.value <= t.best.value
    ensures mode == Maximize ==> Observe(mode, minDelta, t, score).best.value >= t.best.value
  {
  }

  // ---------------------------------------------------------------------------
  // A sequence of epochs
  // ---------------------------------------------------------------------------

  /** With a non-negative margin, the best score is monotone along the run. */
  lemma {:induction false} RunBestMonotone(mode: Mode, minDelta: real, scores: seq<real>, i: nat, j: nat)
    requires minDelta >= 0.0 && 1 <= i <= j <= |scores|
    ensures mode == Minimize ==>
      Run(mode, minDelta, scores[..j]).best.value <= Run(mode, minDelta, scores[..i]).best.value
    ensures mode == Maximize ==>
      Run(mode, minDelta, scores[..j]).best.value >= Run(mode, minDelta, scores[..i]).best.value
    decreases j
  {
    if i < j {
      RunBestMonotone(mode, minDelta, scores, i, j - 1);
      assert scores[..j][..j - 1] == scores[..j - 1];
      ObserveBestMonotone(mode, minDelta, Run(mode, minDelta, scores[..j - 1]), scores[j - 1]);
    }
  }

  /** Whether epoch `j` of `scores` was an improvement on the best score of its time. */
  ghost predicate Improved(mode: Mode, minDelta: real, scores: seq<real>, j: nat)
    requires j < |scores|
  {
    IsBetter(mode, minDelta, scores[j], Baseline(Run(mode, minDelta, scores[..j]), scores[j]))
  }

  lemma ImprovedOnPrefix(mode: Mode, minDelta: real, scores: seq<real>, n: nat, j: nat)
    requires j < n <= |scores|
    ensures Improved(mode, minDelta, scores[..n], j) == Improved(mode, minDelta, scores, j)
  {
    assert scores[..n][..j] == scores[..j];
  }

  /**
   The bad-epoch counter is the length of the trailing run of non-improving
   epochs: every epoch it covers failed to improve, and the epoch just before
   them, if any, improved.
   */
  lemma {:induction false} BadEpochsCountTrailingFailures(mode: Mode, minDelta: real, scores: seq<real>)
    ensures var b := Run(mode, minDelta, scores).badEpochs;
      && b <= |scores|
      && (forall j :: |scores| - b <= j < |scores| ==> !Improved(mode, minDelta, scores, j))
      && (b < |scores| ==> Improved(mode, minDelta, scores, |scores| - b - 1))
    decreases |scores|
  {
    if scores != [] {
      var n := |scores|;
      var p := scores[..n - 1];
      BadEpochsCountTrailingFailures(mode, minDelta, p);
      assert scores[..n - 1] == p;
      var bp := Run(mode, minDelta, p).badEpochs;
      var b := Run(mode, minDelta, scores).badEpochs;
      if !Improved(mode, minDelta, scores, n - 1) {
        assert b == bp + 1;
        forall j | n - b <= j < n - 1
          ensures !Improved(mode, minDelta, scores, j)
        {
          ImprovedOnPrefix(mode, minDelta, scores, n - 1, j);
        }
        if b < n {
          ImprovedOnPrefix(mode, minDelta, scores, n - 1, n - b - 1);
        }
      }
    }
  }

  /** No stop can be requested before `patience` epochs have been observed. */
  lemma NoStopBeforePatience(mode: Mode, minDelta: real, patience: int, scores: seq<real>)
    requires |scores| < patience
    ensures Run(mode, minDelta, scores).badEpochs < patience
  {
  }

  /**
   The stop fires exactly when the counter reaches the patience, never
   earlier: if the flag was not yet set after the earlier epochs, this epoch
   sets it exactly when its counter equals the patience.
   */
  lemma StopFiresAtPatience(mode: Mode, minDelta: real, patience: int, scores: seq<real>)
    requires patience >= 1 && scores != []
    requires !StopFlag(mode, minDelta, patience, scores[..|scores| - 1], false)
    ensures StopFlag(mode, minDelta, patience, scores, false) <==>
      Run(mode, minDelta, scores).badEpochs == patience
  {
    var p := scores[..|scores| - 1];
    if p != [] {
      assert Run(mode, minDelta, p).badEpochs < patience;
    }
  }

  /**
   The stop flag after the callback has observed `scores`, starting from
   `flag`: it is set after every epoch whose counter has reached the patience
   and never cleared.
   */
  ghost function StopFlag(mode: Mode, minDelta: real, patience: int, scores: seq<real>, flag: bool): bool
    decreases |scores|
  {
    if scores == [] then flag
    else StopFlag(mode, minDelta, patience, scores[..|scores| - 1], flag)
         || Run(mode, minDelta, scores).badEpochs >= patience
  }

  /** Some epoch among the first `m` of `scores` left the counter at or above the patience. */
  ghost predicate ReachedWithin(mode: Mode, minDelta: real, patience: int, scores: seq<real>, m: nat)
    requires m <= |scores|
  {
    exists k :: 1 <= k <= m && Run(mode, minDelta, scores[..k]).badEpochs >= patience
  }

  lemma ReachedWithinPrefix(mode: Mode, minDelta: real, patience: int, scores: seq<real>, m: nat)
    requires m <= |scores|
    ensures ReachedWithin(mode, minDelta, patience, scores[..m], m) <==> ReachedWithin(mode, minDelta, patience, scores, m)
  {
    forall k | 1 <= k <= m
      ensures scores[..m][..k] == scores[..k]
    {
    }
  }

  lemma ReachedWithinStep(mode: Mode, minDelta: real, patience: int, scores: seq<real>, m: nat)
    requires 1 <= m <= |scores|
    ensures ReachedWithin(mode, minDelta, patience, scores, m) <==>
      ReachedWithin(mode, minDelta, patience, scores, m - 1) || Run(mode, minDelta, scores[..m]).badEpochs >= patience
  {
  }

  /**
   The flag is set after a run exactly when it was set before, or some epoch
   of the run left the counter at or above the patience.
   */
  lemma {:induction false} StopFlagExactly(mode: Mode, minDelta: real, patience: int, scores: seq<real>, flag: bool)
    ensures StopFlag(mode, minDelta, patience, scores, flag) <==>
      flag || exists k :: 1 <= k <= |scores| && Run(mode, minDelta, scores[..k]).badEpochs >= patience
    decreases |scores|
  {
    if scores != [] {
      var n := |scores|;
      var p := scores[..n - 1];
      StopFlagExactly(mode, minDelta, patience, p, flag);
      assert |p| == n - 1;
      ReachedWithinPrefix(mode, minDelta, patience, scores, n - 1);
      ReachedWithinStep(mode, minDelta, patience, scores, n);
      assert scores[..n] == scores;
      assert ReachedWithin(mode, minDelta, patience, p, n - 1) <==>
        exists k :: 1 <= k <= |p| && Run(mode, minDelta, p[..k]).badEpochs >= patience;
    }
  }

  // ---------------------------------------------------------------------------
  // Maximising is minimising the negated metric
  // ---------------------------------------------------------------------------

  function Negated(scores: seq<real>): (r: seq<real>)
    ensures |r| == |scores| && forall i :: 0 <= i < |scores| ==> r[i] == -scores[i]
  {
    seq(|scores|, i requires 0 <= i < |scores| => -scores[i])
  }

  function NegatedTracker(t: Tracker): Tracker {
    Tracker(if t.best.Some? then Some(-t.best.value) else None, t.badEpochs)
  }

  /** A maximising run is the mirror image of the minimising run on the negated scores. */
  lemma {:induction false} RunDuality(minDelta: real, scores: seq<real>)
    ensures Run(Maximize, minDelta, scores) == NegatedTracker(Run(Minimize, minDelta, Negated(scores)))
    decreases |scores|
  {
    if scores != [] {
      var n := |scores|;
      RunDuality(minDelta, scores[..n - 1]);
      assert Negated(scores)[..n - 1] == Negated(scores[..n - 1]);
      var t := Run(Maximize, minDelta, scores[..n - 1]);
      IsBetterDuality(minDelta, scores[n - 1], Baseline(t, scores[n - 1]));
    }
  }
}

/** Concrete runs of the two callbacks, worked out from their contracts. */
module EarlyStopScenarios {
  import opened Wrappers
  import opened RunStates
  import opened EarlyStop
  import opened EarlyStopLemmas

  const Scores: seq<real> := [1.0, 0.99999, 0.5, 0.6, 0.7]

  /**
   Minimising with margin 0.000001 and patience 2 over `Scores`: the first
   epoch is a bad epoch (the score is compared with itself), 0.99999 and 0.5
   improve, 0.6 and 0.7 do not, and the stop is first requested at the fifth.
   */
  lemma MinimizeScenario()
    ensures Run(Minimize, 0.000001, Scores[..1]) == Tracker(Some(1.0), 1)
    ensures Run(Minimize, 0.000001, Scores[..2]) == Tracker(Some(0.99999), 0)
    ensures Run(Minimize, 0.000001, Scores[..3]) == Tracker(Some(0.5), 0)
    ensures Run(Minimize, 0.000001, Scores[..4]) == Tracker(Some(0.5), 1)
    ensures Run(Minimize, 0.000001, Scores) == Tracker(Some(0.5), 2)
    ensures !StopFlag(Minimize, 0.000001, 2, Scores[..4], false)
    ensures StopFlag(Minimize, 0.000001, 2, Scores, false)
  {
    var d := 0.000001;
    RunSnoc(Minimize, d, [], 1.0);
    assert Scores[..1] == [] + [1.0];
    RunSnoc(Minimize, d, Scores[..1], 0.99999);
    assert Scores[..2] == Scores[..1] + [0.99999];
    RunSnoc(Minimize, d, Scores[..2], 0.5);
    assert Scores[..3] == Scores[..2] + [0.5];
    RunSnoc(Minimize, d, Scores[..3], 0.6);
    assert Scores[..4] == Scores[..3] + [0.6];
    RunSnoc(Minimize, d, Scores[..4], 0.7);
    assert Scores == Scores[..4] + [0.7];
    assert Scores[..4][..3] == Scores[..3];
    assert Scores[..3][..2] == Scores[..2];
    assert Scores[..2][..1] == Scores[..1];
    assert Scores[..1][..0] == [];
    assert !StopFlag(Minimize, d, 2, Scores[..1], false);
    assert !StopFlag(Minimize, d, 2, Scores[..2], false);
    assert !StopFlag(Minimize, d, 2, Scores[..3], false);
  }

  /** Maximising equal scores with margin 0: every epoch improves, so no stop even with patience 1. */
  lemma MaximizeEqualScoresZeroMargin()
    ensures Run(Maximize, 0.0, [0.1, 0.1, 0.1]) == Tracker(Some(0.1), 0)
    ensures !StopFlag(Maximize, 0.0, 1, [0.1, 0.1, 0.1], false)
  {
    var s := [0.1, 0.1, 0.1];
    assert s[..2] == [0.1, 0.1] && s[..2][..1] == [0.1] && [0.1][..0] == [];
  }

  /** With a positive margin and patience 1, the first epoch alone requests the stop. */
  lemma PositiveMarginPatienceOneStopsAtFirstEpoch(mode: Mode, minDelta: real, score: real)
    requires minDelta > 0.0
    ensures StopFlag(mode, minDelta, 1, [score], false)
  {
    FirstEpoch(mode, minDelta, score);
    assert [score][..0] == [];
  }

  /** The limiter's batch hook fires at the bound and not one step before it. */
  method BatchBoundary(bound: int) returns (atBound: bool, belowBound: bool)
    ensures atBound && !belowBound
  {
    var limiter := new CheckRunCallback(bound, 1);
    var s1 := new RunState(0, bound, "train", map[]);
    limiter.OnBatchEnd(s1);
    atBound := s1.needEarlyStop;
    var s2 := new RunState(0, bound - 1, "train", map[]);
    limiter.OnBatchEnd(s2);
    belowBound := s2.needEarlyStop;
  }

  /** The limiter's epoch hook fires at the bound and not one epoch before it. */
  method EpochBoundary(bound: int) returns (atBound: bool, belowBound: bool)
    ensures atBound && !belowBound
  {
    var limiter := new CheckRunCallback(1, bound);
    var s1 := new RunState(bound, 0, "train", map[]);
    limiter.OnEpochEnd(s1);
    atBound := s1.needEarlyStop;
    var s2 := new RunState(bound - 1, 0, "train", map[]);
    limiter.OnEpochEnd(s2);
    belowBound := s2.needEarlyStop;
  }

  /**
   The early stopper's hook on an inference stage, on a stage whose metrics
   lack the monitored one, and on a training stage with patience 1 and the
   default margin, where the first epoch requests the stop.
   */
  method HookOutcomes() returns (infer: Outcome<LookupError>, missing: Outcome<LookupError>, stopped: bool)
    ensures infer == Pass && missing == Fail(KeyError("loss")) && stopped
  {
    var stopper := new EarlyStoppingCallback(1);
    var s1 := new RunState(0, 0, "infer_test", map["loss" := 0.3]);
    infer := stopper.OnEpochEnd(s1);
    assert !s1.needEarlyStop;
    var s2 := new RunState(0, 0, "valid", map["accuracy" := 0.9]);
    assert !IsInferStage(s2.stageName) by {
      assert s2.stageName[0] != InferPrefix[0];
    }
    assert stopper.metric !in s2.validMetrics;
    missing := stopper.OnEpochEnd(s2);
    var s3 := new RunState(0, 0, "train", map["loss" := 0.3]);
    var r := stopper.OnEpochEnd(s3);
    FirstEpoch(Minimize, 0.000001, 0.3);
    stopped := s3.needEarlyStop;
  }
}

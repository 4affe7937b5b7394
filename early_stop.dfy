/**
 The two training-loop callbacks of the early-stop module: a run limiter that
 requests a stop once a step or epoch bound is reached, and a patience-based
 early stopper driven by one monitored validation metric.

 The early stopper's decision logic is given twice: as pure functions over a
 `Tracker` value (`Observe` for one epoch, `Run` for a whole sequence of
 epochs), and as the class `EarlyStoppingCallback` whose fields the hook
 updates in place and whose contract ties those fields to the functions.
 */
module EarlyStop {
  import opened Wrappers
  import opened RunStates

  /** Stage names starting with this prefix are inference stages. */
  const InferPrefix: string := "infer"

  predicate IsInferStage(stageName: string)
    ensures IsInferStage(stageName) <==> |stageName| >= 5 && stageName[..5] == "infer"
  {
    InferPrefix <= stageName
  }

  // ---------------------------------------------------------------------------
  // Run limiter
  // ---------------------------------------------------------------------------

  /** Requests a stop once the loader step or the stage epoch reaches its bound. */
  class CheckRunCallback {
    const numLoaderSteps: int
    const numEpochSteps: int

    constructor (numLoaderSteps: int := 1, numEpochSteps: int := 1)
      ensures this.numLoaderSteps == numLoaderSteps && this.numEpochSteps == numEpochSteps
    {
      this.numLoaderSteps := numLoaderSteps;
      this.numEpochSteps := numEpochSteps;
    }

    /** Sets the stop flag when the stage epoch has reached its bound; never clears it. */
    method OnEpochEnd(state: RunState)
      modifies state`needEarlyStop
      ensures state.stageEpoch >= numEpochSteps ==> state.needEarlyStop
      ensures state.stageEpoch < numEpochSteps ==> state.needEarlyStop == old(state.needEarlyStop)
    {
      if state.stageEpoch >= numEpochSteps {
        state.needEarlyStop := true;
      }
    }

    /** Sets the stop flag when the loader step has reached its bound; never clears it. */
    method OnBatchEnd(state: RunState)
      modifies state`needEarlyStop
      ensures state.loaderStep >= numLoaderSteps ==> state.needEarlyStop
      ensures state.loaderStep < numLoaderSteps ==> state.needEarlyStop == old(state.needEarlyStop)
    {
      if state.loaderStep >= numLoaderSteps {
        state.needEarlyStop := true;
      }
    }
  }

  // ---------------------------------------------------------------------------
  // Early stopper: the decision logic as functions
  // ---------------------------------------------------------------------------

  /** The direction in which the monitored metric improves. */
  datatype Mode = Minimize | Maximize

  /** The comparator chosen once, at construction, from the `minimize` flag. */
  function ModeOf(minimize: bool): (m: Mode)
    ensures m == Minimize <==> minimize
  {
    if minimize then Minimize else Maximize
  }

  /** Whether `score` improves on `best` by at least `minDelta` in direction `mode`. */
  predicate IsBetter(mode: Mode, minDelta: real, score: real, best: real)
    ensures IsBetter(mode, minDelta, score, best) && minDelta >= 0.0 ==>
      if mode == Minimize then score <= best else score >= best
    ensures IsBetter(mode, minDelta, score, best) && minDelta > 0.0 ==>
      if mode == Minimize then score < best else score > best
  {
    match mode
    case Minimize => score <= best - minDelta
    case Maximize => score >= best + minDelta
  }

  /** What the early stopper remembers between epochs. */
  datatype Tracker = Tracker(best: Option<real>, badEpochs: nat)

  /** The state right after construction: no best score, no bad epoch. */
  const Initial: Tracker := Tracker(None, 0)

  /**
   The best score a new score is compared with: the recorded best, or on the
   first observation the score itself, which is adopted as best before the
   comparison is made.
   */
  function Baseline(t: Tracker, score: real): real {
    if t.best.Some? then t.best.value else score
  }

  /** One non-inference epoch that observed `score`. */
  function Observe(mode: Mode, minDelta: real, t: Tracker, score: real): (r: Tracker)
    ensures r.best.Some?
    ensures r.badEpochs == 0 || r.badEpochs == t.badEpochs + 1
    ensures r.best == Some(score) || r.best == t.best
  {
    var best := Baseline(t, score);
    if IsBetter(mode, minDelta, score, best) then Tracker(Some(score), 0)
    else Tracker(Some(best), t.badEpochs + 1)
  }

  /** The tracker after observing `scores`, one per non-inference epoch, from `Initial`. */
  function Run(mode: Mode, minDelta: real, scores: seq<real>): (t: Tracker)
    ensures t.badEpochs <= |scores|
    ensures t.best.None? <==> scores == []
    decreases |scores|
  {
    if scores == [] then Initial
    else Observe(mode, minDelta, Run(mode, minDelta, scores[..|scores| - 1]), scores[|scores| - 1])
  }

  /** Appending one score to the history is one more `Observe`. */
  lemma RunSnoc(mode: Mode, minDelta: real, scores: seq<real>, score: real)
    ensures Run(mode, minDelta, scores + [score]) == Observe(mode, minDelta, Run(mode, minDelta, scores), score)
  {
    assert (scores + [score])[..|scores|] == scores;
  }

  // ---------------------------------------------------------------------------
  // Early stopper: the callback object
  // ---------------------------------------------------------------------------

  /** The error raised when the monitored metric is absent from `validMetrics`. */
  datatype LookupError = KeyError(key: string)

  class EarlyStoppingCallback {
    const metric: string
    const patience: int
    const mode: Mode
    const minDelta: real
    var bestScore: Option<real>
    var numBadEpochs: nat
    /** The scores observed so far, one per non-inference epoch. */
    ghost var observed: seq<real>

    /** The fields are the tracker that the observed scores lead to. */
    ghost predicate Valid()
      reads this
    {
      Current() == Run(mode, minDelta, observed)
    }

    /** The tracker that the fields hold. */
    function Current(): Tracker
      reads this
    {
      Tracker(bestScore, numBadEpochs)
    }

    constructor (patience: int, metric: string := "loss", minimize: bool := true, minDelta: real := 0.000001)
      ensures Valid() && observed == []
      ensures this.patience == patience && this.metric == metric
      ensures mode == ModeOf(minimize) && this.minDelta == minDelta
      ensures bestScore == None && numBadEpochs == 0
    {
      this.patience := patience;
      this.metric := metric;
      mode := ModeOf(minimize);
      this.minDelta := minDelta;
      bestScore := None;
      numBadEpochs := 0;
      observed := [];
    }

    /**
     The epoch-end hook. Inference stages are ignored; otherwise the monitored
     metric must be present, the tracker takes one `Observe` step with it, and
     the stop flag is set when the bad-epoch count has reached the patience.
     */
    method OnEpochEnd(state: RunState) returns (outcome: Outcome<LookupError>)
      requires Valid()
      modifies this, state`needEarlyStop
      ensures Valid()
      ensures IsInferStage(state.stageName) ==>
        outcome == Pass && unchanged(this) && state.needEarlyStop == old(state.needEarlyStop)
      ensures !IsInferStage(state.stageName) && metric !in state.validMetrics ==>
        outcome == Fail(KeyError(metric)) && unchanged(this) && state.needEarlyStop == old(state.needEarlyStop)
      ensures !IsInferStage(state.stageName) && metric in state.validMetrics ==>
        && outcome == Pass
        && observed == old(observed) + [state.validMetrics[metric]]
        && Current() == Observe(mode, minDelta, old(Current()), state.validMetrics[metric])
        && state.needEarlyStop == (old(state.needEarlyStop) || numBadEpochs >= patience)
    {
      if IsInferStage(state.stageName) {
        return Pass;
      }
      if metric !in state.validMetrics {
        return Fail(KeyError(metric));
      }
      var score := state.validMetrics[metric];
      RunSnoc(mode, minDelta, observed, score);
      if bestScore.None? {
        bestScore := Some(score);
      }
      if IsBetter(mode, minDelta, score, bestScore.value) {
        numBadEpochs := 0;
        bestScore := Some(score);
      } else {
        numBadEpochs := numBadEpochs + 1;
      }
      observed := observed + [score];
      if numBadEpochs >= patience {
        state.needEarlyStop := true;
      }
      outcome := Pass;
    }
  }
}

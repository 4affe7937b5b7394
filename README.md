# Early-stop callbacks of a training loop

This project models the two callbacks in `catalyst/core/callbacks/early_stop.py`,
which a training engine calls at the end of each batch and each epoch:

- `CheckRunCallback` is a run limiter. It asks the engine to stop, by setting the
  run state's `need_early_stop` flag, once the loader step reaches
  `num_loader_steps` or the stage epoch reaches `num_epoch_steps`.
- `EarlyStoppingCallback` is a patience-based early stopper. At the end of each
  epoch that is not part of an inference stage, it reads the monitored
  validation metric and updates its best score and its count of bad epochs. It
  asks for a stop once the count reaches the patience.

Module layout:

- `wrappers.dfy` (`Wrappers`): `Option` and `Outcome`.
- `run_state.dfy` (`RunStates`): class `RunState`. It stands for the engine's
  run state and holds only the fields the callbacks touch: `stageEpoch`,
  `loaderStep`, `stageName`, `validMetrics` and `needEarlyStop`.
- `early_stop.dfy` (`EarlyStop`) contains both callbacks as classes.
  - The methods `OnEpochEnd` and `OnBatchEnd` change the callback and the run
    state in place.
  - The early stopper's decision logic is also written as pure functions:
    - `IsBetter` is the improvement predicate over a two-valued `Mode`.
    - `Observe` is one epoch.
    - `Run` is a whole sequence of epochs, starting from the freshly built
      tracker.
  - The class keeps a ghost history `observed` of the scores it has seen. Its
    invariant `Valid()` states that its fields `bestScore` and `numBadEpochs`
    are equal to `Run` over that history.
- `early_stop_lemmas.dfy` (`EarlyStopLemmas`): properties of the decision logic.
- `early_stop_scenarios.dfy` (`EarlyStopScenarios`): concrete runs, worked out
  from the contracts.

A monitored metric that is missing from `valid_metrics` raises `KeyError` in
the source. Here `OnEpochEnd` returns it as the explicit failure
`Fail(KeyError(metric))` and leaves every state unchanged, which matches the
source: nothing has been written when the lookup fails.

On the first epoch, lines 49–51 make the first score the best score and then
compare it with itself. With a positive `min_delta` the first epoch is
therefore a bad epoch and the counter becomes 1; with `min_delta <= 0` it is an
improvement (`FirstEpoch`). For instance, minimising the scores 1.0, 0.99999,
0.5, 0.6, 0.7 with margin 0.000001 and patience 2 gives the counters 1, 0, 0,
1, 2 and the best scores 1.0, 0.99999, 0.5, 0.5, 0.5, and the stop is
requested first at the fifth epoch (`MinimizeScenario`).

## Model

| member | source | states |
|---|---|---|
| `EarlyStop.IsInferStage` | catalyst/core/callbacks/early_stop.py:45 | a stage is an inference stage exactly when its name is at least five characters long and begins with `"infer"` |
| `EarlyStop.ModeOf` | catalyst/core/callbacks/early_stop.py:39-42 | `minimize` selects the minimising comparator and its absence the maximising one |
| `EarlyStop.IsBetter` | catalyst/core/callbacks/early_stop.py:40-42 | with a non-negative margin an improvement never lies on the wrong side of the best score; with a positive margin it lies strictly beyond it |
| `EarlyStop.CheckRunCallback.constructor` | catalyst/core/callbacks/early_stop.py:10-13 | the limiter keeps the two bounds it is given (defaults 1 and 1) |
| `EarlyStop.CheckRunCallback.OnEpochEnd` | catalyst/core/callbacks/early_stop.py:15-17 | the flag is set when `stageEpoch >= numEpochSteps`; otherwise it keeps its old value; nothing else in the run state changes |
| `EarlyStop.CheckRunCallback.OnBatchEnd` | catalyst/core/callbacks/early_stop.py:19-21 | the flag is set when `loaderStep >= numLoaderSteps`; otherwise it keeps its old value; nothing else in the run state changes |
| `EarlyStop.Observe` | catalyst/core/callbacks/early_stop.py:49-55 | after one epoch a best score is always recorded; the counter either goes to 0 or goes up by exactly one; the best score is either the new score or the old best |
| `EarlyStop.Run` | catalyst/core/callbacks/early_stop.py:33-55 | after n epochs the counter is at most n; a best score is recorded exactly when at least one epoch has been observed |
| `EarlyStop.RunSnoc` | catalyst/core/callbacks/early_stop.py:48-55 | observing one more score is one more `Observe` step on the tracker reached so far |
| `EarlyStop.EarlyStoppingCallback.constructor` | catalyst/core/callbacks/early_stop.py:25-42 | no best score, counter 0, the given patience, metric and margin, and the comparator picked from `minimize` (defaults `"loss"`, minimise, 0.000001) |
| `EarlyStop.EarlyStoppingCallback.OnEpochEnd` | catalyst/core/callbacks/early_stop.py:44-59 | an inference stage changes nothing; a missing metric fails with `KeyError(metric)` and changes nothing; otherwise the fields take one `Observe` step with the metric's value, and the flag becomes old flag or `numBadEpochs >= patience`, so it is never cleared |
| `EarlyStopLemmas.ComparatorSelection` | catalyst/core/callbacks/early_stop.py:39-42 | with `minimize` the predicate is exactly `score <= best - minDelta`; without it, exactly `score >= best + minDelta` |
| `EarlyStopLemmas.SelfComparison` | catalyst/core/callbacks/early_stop.py:40-42 | a score compared with itself improves exactly when the margin is not positive |
| `EarlyStopLemmas.IsBetterDuality` | catalyst/core/callbacks/early_stop.py:40-42 | the maximising predicate is the minimising one on negated scores |
| `EarlyStopLemmas.ObserveImproving` | catalyst/core/callbacks/early_stop.py:51-53 | an improving epoch resets the counter to 0 and records the score as best |
| `EarlyStopLemmas.ObserveNotImproving` | catalyst/core/callbacks/early_stop.py:49-55 | a non-improving epoch adds exactly one to the counter; the best score keeps its old value, or becomes the score on the first observation |
| `EarlyStopLemmas.FirstEpoch` | catalyst/core/callbacks/early_stop.py:49-55 | the first epoch records the score as best; the counter becomes 1 when the margin is positive and 0 otherwise |
| `EarlyStopLemmas.ObserveBestMonotone` | catalyst/core/callbacks/early_stop.py:40-55 | with a non-negative margin, one epoch never raises the best score when minimising and never lowers it when maximising |
| `EarlyStopLemmas.RunBestMonotone` | catalyst/core/callbacks/early_stop.py:40-55 | with a non-negative margin, once a best score exists it is non-increasing along the run when minimising and non-decreasing when maximising |
| `EarlyStopLemmas.BadEpochsCountTrailingFailures` | catalyst/core/callbacks/early_stop.py:49-55 | the counter is the number of consecutive most recent epochs that did not improve on the best score of their time; the epoch just before them, if there is one, improved |
| `EarlyStopLemmas.NoStopBeforePatience` | catalyst/core/callbacks/early_stop.py:55-57 | fewer than `patience` epochs can never bring the counter up to the patience |
| `EarlyStopLemmas.StopFiresAtPatience` | catalyst/core/callbacks/early_stop.py:52-57 | for a patience of at least 1, if the flag was not yet set after the previous epochs, this epoch sets it exactly when the counter equals the patience |
| `EarlyStopLemmas.StopFlagExactly` | catalyst/core/callbacks/early_stop.py:57-59 | after a run the flag is set exactly when it was set before, or when some epoch of the run left the counter at or above the patience |
| `EarlyStopLemmas.RunDuality` | catalyst/core/callbacks/early_stop.py:39-55 | a maximising run equals the minimising run on the negated scores, with the best score negated back |
| `EarlyStopScenarios.MinimizeScenario` | catalyst/core/callbacks/early_stop.py:39-59 | minimising 1.0, 0.99999, 0.5, 0.6, 0.7 with margin 0.000001 and patience 2 gives counters 1, 0, 0, 1, 2 and best scores 1.0, 0.99999, 0.5, 0.5, 0.5; the stop is requested first at the fifth epoch |
| `EarlyStopScenarios.MaximizeEqualScoresZeroMargin` | catalyst/core/callbacks/early_stop.py:41-55 | maximising three equal scores with margin 0 keeps the counter at 0, so patience 1 never stops |
| `EarlyStopScenarios.PositiveMarginPatienceOneStopsAtFirstEpoch` | catalyst/core/callbacks/early_stop.py:49-59 | with a positive margin and patience 1, the first epoch alone requests the stop |
| `EarlyStopScenarios.BatchBoundary` | catalyst/core/callbacks/early_stop.py:19-21 | the batch hook sets the flag when the step equals the bound, and not when it is one below |
| `EarlyStopScenarios.EpochBoundary` | catalyst/core/callbacks/early_stop.py:15-17 | the epoch hook sets the flag when the epoch equals the bound, and not when it is one below |
| `EarlyStopScenarios.HookOutcomes` | catalyst/core/callbacks/early_stop.py:44-59 | through the class: an inference stage passes and sets no flag; a missing `"loss"` metric fails with `KeyError("loss")`; patience 1 with the default margin stops at the first training epoch |

## Left out

- The console notice printed when the stop is requested (line 58) is console output and is not modelled. It is printed exactly when the early stopper sets the flag. The epoch label it shows, `stage_epoch_log`, is used nowhere else and is not a field of `RunState`.
- The `Callback` base class and the `CallbackOrder.External` ordering tag (lines 3, 11, 32) are not modelled. They belong to the host engine, and so does the order in which callbacks are dispatched.
- The `TYPE_CHECKING` import and the engine's `_State` type (lines 1–6) are not part of this model. `RunState` stands for `_State`.
- Scores and `min_delta` are `real`, not IEEE floats. Only ordering comparisons with an additive margin are involved, and rounding of `best - min_delta` is not modelled.
- `numBadEpochs` is a `nat`, so the property that it is never negative holds by its type.
- The transient `is_better = None` (line 37) is replaced by `mode`, which the constructor sets once.
- Neither constructor validates its arguments, and neither does the model. A patience of 0 or less requests a stop at every non-inference epoch.

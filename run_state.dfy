/**
 The run state that the training engine owns and hands to every callback hook.
 Only the fields that the two callbacks read or write are modelled.
 */
module RunStates {

  class RunState {
    /** Index of the current epoch within the active stage. */
    var stageEpoch: int
    /** Index of the current step within the active data loader. */
    var loaderStep: int
    /** Name of the active stage, such as "train" or "infer". */
    var stageName: string
    /** The validation metrics of the current epoch, by metric name. */
    var validMetrics: map<string, real>
    /** Set by a callback to ask the engine to stop the run. */
    var needEarlyStop: bool

    constructor (stageEpoch: int, loaderStep: int, stageName: string, validMetrics: map<string, real>)
      ensures this.stageEpoch == stageEpoch && this.loaderStep == loaderStep
      ensures this.stageName == stageName && this.validMetrics == validMetrics
      ensures !needEarlyStop
    {
      this.stageEpoch := stageEpoch;
      this.loaderStep := loaderStep;
      this.stageName := stageName;
      this.validMetrics := validMetrics;
      needEarlyStop := false;
    }
  }
}

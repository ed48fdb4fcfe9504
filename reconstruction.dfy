/**
 * The reconstruction progress screen: the task that folds the
 * photogrammetry engine's outputs into the values the screen shows, the
 * cancel button, the "still reconstructing" test, the choice between the
 * model viewer and the progress screen, and the labels of the processing
 * stages.
 *
 * The outputs the engine delivers are a finite sequence here. Fractions and
 * times are carried as `real` values and never computed on.
 */
module Reconstruction {
  import opened Wrappers

  /** The kind of request an output is about. */
  datatype Request =
    | ModelFile(url: string)
    | ModelEntity
    | Bounds
    | Poses
    | PointCloud
    | UnknownRequest  // a request kind this app does not know about

  datatype ProcessingStage =
    | PreProcessing
    | ImageAlignment
    | PointCloudGeneration
    | MeshGeneration
    | TextureMapping
    | Optimization
    | OtherStage(name: string)  // any stage without a label

  /** The label shown for a stage (its localized text in the app). */
  datatype StageLabel =
    | Preprocessing
    | AligningImages
    | GeneratingPointCloud
    | GeneratingMesh
    | MappingTexture
    | Optimizing

  datatype ProgressInfo = ProgressInfo(estimatedRemainingTime: Option<real>, processingStage: Option<ProcessingStage>)

  datatype EngineError = EngineError(description: string)

  /** One output of the photogrammetry session's output stream. */
  datatype Output =
    | InputComplete
    | RequestProgress(request: Request, fractionComplete: real)
    | RequestProgressInfo(request: Request, info: ProgressInfo)
    | RequestComplete(request: Request)
    | RequestError(request: Request, requestError: EngineError)
    | ProcessingComplete
    | ProcessingCancelled
    | InvalidSample(id: int, reason: string)
    | SkippedSample(id: int)
    | AutomaticDownsampling
    | StitchingIncomplete
    | UnknownOutput  // an output kind this app does not know about

  // ---------------------------------------------------------------------
  // Stage labels
  // ---------------------------------------------------------------------

  /** `ProcessingStage.processingStageString`: six stages have a label, every other has none. */
  function ProcessingStageString(stage: ProcessingStage): (r: Option<StageLabel>)
    ensures r.None? <==> stage.OtherStage?
    ensures r.Some? ==> StageOfLabel(r.value) == stage
  {
    match stage
    case PreProcessing => Some(Preprocessing)
    case ImageAlignment => Some(AligningImages)
    case PointCloudGeneration => Some(GeneratingPointCloud)
    case MeshGeneration => Some(GeneratingMesh)
    case TextureMapping => Some(MappingTexture)
    case Optimization => Some(Optimizing)
    case OtherStage(_) => None
  }

  /** The stage a label describes. */
  function StageOfLabel(stageLabel: StageLabel): (stage: ProcessingStage)
    ensures !stage.OtherStage?
  {
    match stageLabel
    case Preprocessing => PreProcessing
    case AligningImages => ImageAlignment
    case GeneratingPointCloud => PointCloudGeneration
    case GeneratingMesh => MeshGeneration
    case MappingTexture => TextureMapping
    case Optimizing => Optimization
  }

  /** Every label is the label of exactly the stage it describes: distinct stages get distinct labels. */
  lemma LabelRoundTrip(stageLabel: StageLabel)
    ensures ProcessingStageString(StageOfLabel(stageLabel)) == Some(stageLabel)
  {
  }

  /** `progressInfo.processingStage?.processingStageString`. */
  function StageDescription(stage: Option<ProcessingStage>): (r: Option<StageLabel>)
    ensures r.Some? <==> stage.Some? && !stage.value.OtherStage?
  {
    match stage
    case None => None
    case Some(st) => ProcessingStageString(st)
  }

  // ---------------------------------------------------------------------
  // The values the progress screen shows, and how one output changes them
  // ---------------------------------------------------------------------

  /** The screen's state that the output loop writes (`completed` and `cancelled` are bound to the parent view). */
  datatype ProgressState = ProgressState(
    progress: real,
    estimatedRemainingTime: Option<real>,
    processingStageDescription: Option<StageLabel>,
    gotError: bool,
    error: Option<EngineError>,
    completed: bool,
    cancelled: bool)

  const Initial := ProgressState(0.0, None, None, false, None, false, false)

  /** The screen is still reconstructing: neither completed, failed nor cancelled. */
  predicate IsReconstructing(s: ProgressState)
    ensures IsReconstructing(s) ==> !ShowsModelViewer(s.completed, s.cancelled)
  {
    !s.completed && !s.gotError && !s.cancelled
  }

  /** The parent view shows the model viewer instead of the progress screen. */
  predicate ShowsModelViewer(completed: bool, cancelled: bool)
    ensures ShowsModelViewer(completed, cancelled) ==> completed
    ensures cancelled ==> !ShowsModelViewer(completed, cancelled)
  {
    completed && !cancelled
  }

  predicate IsModelFileProgress(o: Output)
  {
    o.RequestProgress? && o.request.ModelFile?
  }

  predicate IsModelFileProgressInfo(o: Output)
  {
    o.RequestProgressInfo? && o.request.ModelFile?
  }

  /** Outputs the loop only logs or skips. */
  predicate Inert(o: Output)
  {
    o.InputComplete? || o.RequestComplete? || o.InvalidSample? || o.SkippedSample?
    || o.AutomaticDownsampling? || o.StitchingIncomplete? || o.UnknownOutput?
  }

  /** One turn of the output loop, with the cancel flag as it stands. */
  function Step(s: ProgressState, isCancelling: bool, o: Output): (r: ProgressState)
    // outputs that are only logged or skipped change nothing
    ensures Inert(o) ==> r == s
    // progress follows model-file progress only
    ensures r.progress != s.progress ==> IsModelFileProgress(o)
    ensures IsModelFileProgress(o) ==> r == s.(progress := o.fractionComplete)
    // remaining time and stage label follow model-file progress info only
    ensures ((r.estimatedRemainingTime, r.processingStageDescription)
             != (s.estimatedRemainingTime, s.processingStageDescription)) ==> IsModelFileProgressInfo(o)
    ensures IsModelFileProgressInfo(o) ==>
              r == s.(estimatedRemainingTime := o.info.estimatedRemainingTime,
                      processingStageDescription := StageDescription(o.info.processingStage))
    // an error is recorded unless a cancel was requested
    ensures (r.gotError, r.error) != (s.gotError, s.error) ==> o.RequestError? && !isCancelling
    ensures o.RequestError? && isCancelling ==> r == s
    ensures o.RequestError? && !isCancelling ==> r.gotError && r.error == Some(o.requestError)
    // completion is refused after an error; cancellation is unconditional
    ensures r.completed != s.completed ==> o.ProcessingComplete? && !s.gotError
    ensures o.ProcessingComplete? ==> (r.completed <==> s.completed || !s.gotError)
    ensures r.cancelled != s.cancelled ==> o.ProcessingCancelled?
    ensures o.ProcessingCancelled? ==> r.cancelled
    // no flag is ever cleared
    ensures s.completed ==> r.completed
    ensures s.gotError ==> r.gotError
    ensures s.cancelled ==> r.cancelled
  {
    match o
    case RequestProgress(request, fraction) =>
      if request.ModelFile? then s.(progress := fraction) else s
    case RequestProgressInfo(request, info) =>
      if request.ModelFile? then
        s.(estimatedRemainingTime := info.estimatedRemainingTime,
           processingStageDescription := StageDescription(info.processingStage))
      else s
    case RequestError(_, requestError) =>
      if !isCancelling then s.(gotError := true, error := Some(requestError)) else s
    case ProcessingComplete =>
      if !s.gotError then s.(completed := true) else s
    case ProcessingCancelled =>
      s.(cancelled := true)
    case _ => s
  }

  /** The state after the loop has handled `outputs` in order. */
  function Fold(s: ProgressState, isCancelling: bool, outputs: seq<Output>): (r: ProgressState)
    ensures s.completed ==> r.completed
    ensures s.gotError ==> r.gotError
    ensures s.cancelled ==> r.cancelled
    decreases |outputs|
  {
    if outputs == [] then s
    else Step(Fold(s, isCancelling, outputs[..|outputs| - 1]), isCancelling, outputs[|outputs| - 1])
  }

  // ---------------------------------------------------------------------
  // Properties of the whole loop
  // ---------------------------------------------------------------------

  /** Handling a sequence in two parts is handling it at once. */
  lemma {:induction false} FoldSplit(s: ProgressState, c: bool, xs: seq<Output>, ys: seq<Output>)
    ensures Fold(s, c, xs + ys) == Fold(Fold(s, c, xs), c, ys)
    decreases |ys|
  {
    if ys != [] {
      var init := ys[..|ys| - 1];
      assert (xs + ys)[..|xs + ys| - 1] == xs + init;
      FoldSplit(s, c, xs, init);
    } else {
      assert xs + ys == xs;
    }
  }

  /** Once the screen stops reconstructing it never resumes, whatever outputs follow. */
  lemma ReconstructionEndsForGood(s: ProgressState, c: bool, outputs: seq<Output>, i: nat)
    requires i <= |outputs|
    requires !IsReconstructing(Fold(s, c, outputs[..i]))
    ensures !IsReconstructing(Fold(s, c, outputs))
  {
    FoldSplit(s, c, outputs[..i], outputs[i..]);
    assert outputs[..i] + outputs[i..] == outputs;
  }

  /** A run made only of logged or skipped outputs changes nothing. */
  lemma {:induction false} InertRunChangesNothing(s: ProgressState, c: bool, outputs: seq<Output>)
    requires forall i :: 0 <= i < |outputs| ==> Inert(outputs[i])
    ensures Fold(s, c, outputs) == s
    decreases |outputs|
  {
    if outputs != [] {
      InertRunChangesNothing(s, c, outputs[..|outputs| - 1]);
    }
  }

  /** A run without model-file progress leaves the progress as it was. */
  lemma {:induction false} ProgressUnchangedWithoutModelFileProgress(s: ProgressState, c: bool, outputs: seq<Output>)
    requires forall i :: 0 <= i < |outputs| ==> !IsModelFileProgress(outputs[i])
    ensures Fold(s, c, outputs).progress == s.progress
    decreases |outputs|
  {
    if outputs != [] {
      var init := outputs[..|outputs| - 1];
      assert forall i :: 0 <= i < |init| ==> init[i] == outputs[i];
      ProgressUnchangedWithoutModelFileProgress(s, c, init);
    }
  }

  /** The progress shown is the fraction of the last model-file progress output, or the initial one if there was none. */
  lemma ProgressIsLatestModelFileFraction(s: ProgressState, c: bool, outputs: seq<Output>)
    ensures (forall i :: 0 <= i < |outputs| ==> !IsModelFileProgress(outputs[i])) ==>
              Fold(s, c, outputs).progress == s.progress
    ensures forall i :: (0 <= i < |outputs| && IsModelFileProgress(outputs[i])
                         && (forall j :: i < j < |outputs| ==> !IsModelFileProgress(outputs[j]))) ==>
              Fold(s, c, outputs).progress == outputs[i].fractionComplete
  {
    if forall i :: 0 <= i < |outputs| ==> !IsModelFileProgress(outputs[i]) {
      ProgressUnchangedWithoutModelFileProgress(s, c, outputs);
    }
    forall i | 0 <= i < |outputs| && IsModelFileProgress(outputs[i])
               && (forall j :: i < j < |outputs| ==> !IsModelFileProgress(outputs[j]))
      ensures Fold(s, c, outputs).progress == outputs[i].fractionComplete
    {
      var rest := FoldAfter(s, c, outputs, i);
      ProgressUnchangedWithoutModelFileProgress(Fold(s, c, outputs[..i + 1]), c, rest);
    }
  }

  /** The run splits after output `i`: the fold up to and including it, then the outputs after it. */
  lemma FoldAfter(s: ProgressState, c: bool, outputs: seq<Output>, i: nat) returns (rest: seq<Output>)
    requires i < |outputs|
    ensures rest == outputs[i + 1..]
    ensures Fold(s, c, outputs[..i + 1]) == Step(Fold(s, c, outputs[..i]), c, outputs[i])
    ensures Fold(s, c, outputs) == Fold(Fold(s, c, outputs[..i + 1]), c, rest)
    ensures forall j :: 0 <= j < |rest| ==> rest[j] == outputs[i + 1 + j]
  {
    var upto := outputs[..i + 1];
    rest := outputs[i + 1..];
    assert upto + rest == outputs;
    assert upto[..i] == outputs[..i];
    FoldSplit(s, c, upto, rest);
  }

  /** A run without model-file progress info leaves remaining time and stage label as they were. */
  lemma {:induction false} InfoUnchangedWithoutModelFileInfo(s: ProgressState, c: bool, outputs: seq<Output>)
    requires forall i :: 0 <= i < |outputs| ==> !IsModelFileProgressInfo(outputs[i])
    ensures Fold(s, c, outputs).estimatedRemainingTime == s.estimatedRemainingTime
    ensures Fold(s, c, outputs).processingStageDescription == s.processingStageDescription
    decreases |outputs|
  {
    if outputs != [] {
      var init := outputs[..|outputs| - 1];
      assert forall i :: 0 <= i < |init| ==> init[i] == outputs[i];
      InfoUnchangedWithoutModelFileInfo(s, c, init);
    }
  }

  /** Remaining time and stage label come from the last model-file progress-info output, or are the initial ones. */
  lemma InfoIsLatestModelFileInfo(s: ProgressState, c: bool, outputs: seq<Output>)
    ensures (forall i :: 0 <= i < |outputs| ==> !IsModelFileProgressInfo(outputs[i])) ==>
              Fold(s, c, outputs).estimatedRemainingTime == s.estimatedRemainingTime
              && Fold(s, c, outputs).processingStageDescription == s.processingStageDescription
    ensures forall i :: (0 <= i < |outputs| && IsModelFileProgressInfo(outputs[i])
                         && (forall j :: i < j < |outputs| ==> !IsModelFileProgressInfo(outputs[j]))) ==>
              Fold(s, c, outputs).estimatedRemainingTime == outputs[i].info.estimatedRemainingTime
              && Fold(s, c, outputs).processingStageDescription == StageDescription(outputs[i].info.processingStage)
  {
    if forall i :: 0 <= i < |outputs| ==> !IsModelFileProgressInfo(outputs[i]) {
      InfoUnchangedWithoutModelFileInfo(s, c, outputs);
    }
    forall i | 0 <= i < |outputs| && IsModelFileProgressInfo(outputs[i])
               && (forall j :: i < j < |outputs| ==> !IsModelFileProgressInfo(outputs[j]))
      ensures Fold(s, c, outputs).estimatedRemainingTime == outputs[i].info.estimatedRemainingTime
      ensures Fold(s, c, outputs).processingStageDescription == StageDescription(outputs[i].info.processingStage)
    {
      var rest := FoldAfter(s, c, outputs, i);
      InfoUnchangedWithoutModelFileInfo(Fold(s, c, outputs[..i + 1]), c, rest);
    }
  }

  /** While a cancel is requested, errors are suppressed: the error state is what it was. */
  lemma {:induction false} ErrorsSuppressedWhileCancelling(s: ProgressState, outputs: seq<Output>)
    ensures Fold(s, true, outputs).gotError == s.gotError
    ensures Fold(s, true, outputs).error == s.error
    decreases |outputs|
  {
    if outputs != [] {
      ErrorsSuppressedWhileCancelling(s, outputs[..|outputs| - 1]);
    }
  }

  /** Without a cancel request, an error is shown iff one was already shown or some request failed; the last failure is the one kept. */
  lemma {:induction false} ErrorIsLatestRequestError(s: ProgressState, outputs: seq<Output>)
    ensures Fold(s, false, outputs).gotError <==>
              s.gotError || exists i :: 0 <= i < |outputs| && outputs[i].RequestError?
    ensures (forall i :: 0 <= i < |outputs| ==> !outputs[i].RequestError?) ==>
              Fold(s, false, outputs).error == s.error
    ensures forall i :: (0 <= i < |outputs| && outputs[i].RequestError?
                         && (forall j :: i < j < |outputs| ==> !outputs[j].RequestError?)) ==>
              Fold(s, false, outputs).error == Some(outputs[i].requestError)
    decreases |outputs|
  {
    if outputs != [] {
      var n := |outputs| - 1;
      var init := outputs[..n];
      ErrorIsLatestRequestError(s, init);
      assert forall i :: 0 <= i < n ==> init[i] == outputs[i];
      if outputs[n].RequestError? {
        assert exists i :: 0 <= i < |outputs| && outputs[i].RequestError?;
      }
    }
  }

  /** The screen is cancelled iff it already was or the engine reported processing cancelled. */
  lemma {:induction false} CancelledIffReported(s: ProgressState, c: bool, outputs: seq<Output>)
    ensures Fold(s, c, outputs).cancelled <==>
              s.cancelled || exists i :: 0 <= i < |outputs| && outputs[i].ProcessingCancelled?
    decreases |outputs|
  {
    if outputs != [] {
      var n := |outputs| - 1;
      var init := outputs[..n];
      CancelledIffReported(s, c, init);
      assert forall i :: 0 <= i < n ==> init[i] == outputs[i];
      if outputs[n].ProcessingCancelled? {
        assert exists i :: 0 <= i < |outputs| && outputs[i].ProcessingCancelled?;
      }
    }
  }

  /** An error is recorded before position i of the run. */
  predicate ErrorRecordedBefore(s: ProgressState, c: bool, outputs: seq<Output>, i: int)
    requires 0 <= i <= |outputs|
  {
    s.gotError || (!c && exists j :: 0 <= j < i && outputs[j].RequestError?)
  }

  /**
   * The screen is completed iff it already was, or the engine reported
   * processing complete at a point where no error had been recorded.
   */
  lemma {:induction false} CompletedIffCompleteBeforeAnyError(s: ProgressState, c: bool, outputs: seq<Output>)
    ensures Fold(s, c, outputs).completed <==>
              s.completed || exists i :: 0 <= i < |outputs| && outputs[i].ProcessingComplete?
                                         && !ErrorRecordedBefore(s, c, outputs, i)
    decreases |outputs|
  {
    if outputs != [] {
      var n := |outputs| - 1;
      var init := outputs[..n];
      CompletedIffCompleteBeforeAnyError(s, c, init);
      assert forall i :: 0 <= i < n ==> init[i] == outputs[i];
      forall i | 0 <= i < n
        ensures ErrorRecordedBefore(s, c, init, i) == ErrorRecordedBefore(s, c, outputs, i)
      {
      }
      // the error state before the last output
      if c {
        ErrorsSuppressedWhileCancelling(s, init);
      } else {
        ErrorIsLatestRequestError(s, init);
      }
      assert Fold(s, c, init).gotError == ErrorRecordedBefore(s, c, outputs, n);
      if outputs[n].ProcessingComplete? && !ErrorRecordedBefore(s, c, outputs, n) {
        assert exists i :: 0 <= i < |outputs| && outputs[i].ProcessingComplete?
                          && !ErrorRecordedBefore(s, c, outputs, i);
      }
    }
  }

  /** An error before every completion report wins: the run ends failed, not completed. */
  lemma ErrorBeforeCompletionWins(s: ProgressState, outputs: seq<Output>, e: nat)
    requires !s.completed
    requires e < |outputs| && outputs[e].RequestError?
    requires forall i :: 0 <= i < |outputs| && outputs[i].ProcessingComplete? ==> e < i
    ensures Fold(s, false, outputs).gotError
    ensures !Fold(s, false, outputs).completed
  {
    ErrorIsLatestRequestError(s, outputs);
    CompletedIffCompleteBeforeAnyError(s, false, outputs);
  }

  /**
   * Once a cancel has been requested, a run that had no error ends without one,
   * and if the engine reports the cancellation the model viewer is not shown.
   */
  lemma CancelledRunIsNotFailure(s: ProgressState, outputs: seq<Output>, k: nat)
    requires !s.gotError
    requires k < |outputs| && outputs[k].ProcessingCancelled?
    ensures !Fold(s, true, outputs).gotError
    ensures Fold(s, true, outputs).cancelled
    ensures !ShowsModelViewer(Fold(s, true, outputs).completed, Fold(s, true, outputs).cancelled)
  {
    ErrorsSuppressedWhileCancelling(s, outputs);
    CancelledIffReported(s, true, outputs);
  }

  /** Cancel pressed, then the engine reports an error followed by processing cancelled. */
  lemma CancelThenErrorThenCancelled(e: EngineError)
    ensures var r := Fold(Initial, true, [RequestError(ModelFile("model-mobile.usdz"), e), ProcessingCancelled]);
            !r.gotError && r.cancelled && !r.completed && !ShowsModelViewer(r.completed, r.cancelled)
  {
    var outputs := [RequestError(ModelFile("model-mobile.usdz"), e), ProcessingCancelled];
    assert outputs[..1][..0] == [] && outputs[..1] == [outputs[0]];
    assert Fold(Initial, true, outputs[..1][..0]) == Initial;
    var afterError := Fold(Initial, true, outputs[..1]);
    assert afterError == Step(Initial, true, outputs[0]) == Initial;
  }

  // ---------------------------------------------------------------------
  // The progress screen
  // ---------------------------------------------------------------------

  class ReconstructionProgressView {
    var progress: real
    var estimatedRemainingTime: Option<real>
    var processingStageDescription: Option<StageLabel>
    var gotError: bool
    var error: Option<EngineError>
    var completed: bool
    var cancelled: bool
    var isCancelling: bool
    /** Cancel requests forwarded to the photogrammetry session. */
    var cancelRequestsSent: nat

    function State(): ProgressState
      reads this
    {
      ProgressState(progress, estimatedRemainingTime, processingStageDescription, gotError, error, completed, cancelled)
    }

    constructor ()
      ensures State() == Initial
      ensures !isCancelling && cancelRequestsSent == 0
    {
      progress := 0.0;
      estimatedRemainingTime := None;
      processingStageDescription := None;
      gotError := false;
      error := None;
      completed := false;
      cancelled := false;
      isCancelling := false;
      cancelRequestsSent := 0;
    }

    /** The cancel button: flag the cancel and forward it to the session. */
    method CancelTapped()
      modifies this
      ensures isCancelling
      ensures cancelRequestsSent == old(cancelRequestsSent) + 1
      ensures State() == old(State())
    {
      isCancelling := true;
      cancelRequestsSent := cancelRequestsSent + 1;
    }

    /** The body of the output loop for one output. */
    method HandleOutput(output: Output)
      modifies this
      ensures State() == Step(old(State()), old(isCancelling), output)
      ensures isCancelling == old(isCancelling) && cancelRequestsSent == old(cancelRequestsSent)
    {
      match output {
        case InputComplete =>
        case RequestProgress(request, fraction) =>
          if request.ModelFile? {
            progress := fraction;
          }
        case RequestProgressInfo(request, info) =>
          if request.ModelFile? {
            estimatedRemainingTime := info.estimatedRemainingTime;
            processingStageDescription := StageDescription(info.processingStage);
          }
        case RequestComplete(_) =>
        case RequestError(_, requestError) =>
          if !isCancelling {
            gotError := true;
            error := Some(requestError);
          }
        case ProcessingComplete =>
          if !gotError {
            completed := true;
          }
        case ProcessingCancelled =>
          cancelled := true;
        case InvalidSample(_, _) =>
        case SkippedSample(_) =>
        case AutomaticDownsampling =>
        case StitchingIncomplete =>
        case UnknownOutput =>
      }
    }

    /** The output loop over the outputs delivered while no cancel tap intervenes. */
    method ConsumeOutputs(outputs: seq<Output>)
      modifies this
      ensures State() == Fold(old(State()), old(isCancelling), outputs)
      ensures isCancelling == old(isCancelling) && cancelRequestsSent == old(cancelRequestsSent)
    {
      for i := 0 to |outputs|
        invariant State() == Fold(old(State()), old(isCancelling), outputs[..i])
        invariant isCancelling == old(isCancelling) && cancelRequestsSent == old(cancelRequestsSent)
      {
        assert outputs[..i + 1][..i] == outputs[..i];
        HandleOutput(outputs[i]);
      }
      assert outputs[..|outputs|] == outputs;
    }
  }
}

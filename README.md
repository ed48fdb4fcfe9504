# flutter_object_capture: capture and reconstruction logic, modelled in Dafny

This project models the decision logic in the iOS side of `flutter_object_capture`. That side is a Flutter plugin that scans an object with RealityKit's object capture session and then builds a 3D model with the photogrammetry session. The modelled parts are spread across four SwiftUI files:

- **Reconstruction progress** (`reconstruction.dfy`, module `Reconstruction`). The `ReconstructionProgressView` task folds the photogrammetry session's outputs into a record: progress, estimated remaining time, stage label, error flag and error, completed, cancelled. A cancel flag guards that fold. `Step` specifies one output and `Fold` specifies a run of outputs. The class `ReconstructionProgressView` runs the loop (`HandleOutput`, `ConsumeOutputs`) and the cancel button (`CancelTapped`), and is proved against `Step` and `Fold`. Lemmas characterise each field after any run. The module also holds the "still reconstructing" test, the choice between the model viewer and the progress screen, and the stage labels.
- **Capture view** (`capture.dfy`, module `Capture`). `CaptureView.UpdateFeedbackMessages` reconciles the old and new sets of feedback conditions. It removes the texts of the conditions that went away, then adds the texts of the new ones. The timed message list is kept abstract: the model records the remove/add calls made on it. The text lookup is a function the view is given. The module also covers the listener tasks that assigning a new session detaches and re-attaches, and the path of the reconstructed model file.
- **Capture overlay predicates** (`capture_actions.dfy`, module `CaptureActions`): `isCapturingStarted`, the bounding-box guidance text, and the rotation of the feedback overlay for each device orientation.
- **Top overlay and gallery** (`top_capture_actions.dfy`, module `TopCaptureActions`). It covers when the folder button and the capture-mode guidance are shown and the cancel button's two calls. It covers the folder button pausing the session while the gallery is open and resuming it when the gallery closes. It covers the gallery's list of capture folders and each folder's first image.
- **Helpers**: `wrappers.dfy` holds the optional type. `paths.dfy` holds Swift's string order on paths, path components, directory-entry filters and `sorted(by:)`.

A reader might expect behaviour that the code does not have. In each of these places the model follows the code:
- One might expect progress fractions that never decrease. The code stores whatever fraction arrives last for the model-file request, and `ProgressIsLatestModelFileFraction` states exactly that.
- One might expect "cancelled" to override a racing completion. The code sets `completed` and `cancelled` independently. Only the viewer condition `completed && !cancelled` makes cancellation win (`CancelledRunIsNotFailure`).
- One might expect cancelling to detach the feedback listener as well. The cancel button cancels the session and then asks the folder manager to remove the capture folder. It does not touch the listener tasks (`CancelActionEffects`).
- Folder allocation, timed message expiry and the capture state machine live in collaborators whose source is not part of this model.
- No code checks the captured images before processing. The image count at ReconstructionView.swift:83-92 is only displayed.

## Model

| member | source | states |
|---|---|---|
| `Reconstruction.ProcessingStageString` | ios/Classes/Views/ReconstructionView.swift:344-392 | a stage has a label iff it is one of the six named stages, and the label names that stage back |
| `Reconstruction.LabelRoundTrip` | ios/Classes/Views/ReconstructionView.swift:344-392 | every label is the label of the stage it names, so distinct stages get distinct labels |
| `Reconstruction.StageDescription` | ios/Classes/Views/ReconstructionView.swift:297 | the description is present iff the progress info carries a stage and that stage has a label |
| `Reconstruction.IsReconstructing` | ios/Classes/Views/ReconstructionView.swift:218-220 | while reconstructing, the model viewer is not shown |
| `Reconstruction.ShowsModelViewer` | ios/Classes/Views/ReconstructionView.swift:180 | the model viewer is shown only after completion, and never once cancelled |
| `Reconstruction.Step` | ios/Classes/Views/ReconstructionView.swift:286-329 | one output: logged-only outputs change nothing; progress changes only on model-file progress; time and stage change only on model-file progress info; an error is recorded iff no cancel was requested; completion is refused after an error; cancellation always sets `cancelled`; no flag is cleared |
| `Reconstruction.Fold` | ios/Classes/Views/ReconstructionView.swift:286-329 | over any run of outputs, `completed`, `gotError` and `cancelled` are never reset |
| `Reconstruction.ReconstructionEndsForGood` | ios/Classes/Views/ReconstructionView.swift:218-220 | once the screen stops reconstructing at some point of a run, it is not reconstructing at the end of the run |
| `Reconstruction.InertRunChangesNothing` | ios/Classes/Views/ReconstructionView.swift:287-327 | a run of input-complete, request-complete, invalid/skipped sample, downsampling, stitching-incomplete and unknown outputs leaves the state unchanged |
| `Reconstruction.ProgressUnchangedWithoutModelFileProgress` | ios/Classes/Views/ReconstructionView.swift:290-293 | a run without model-file progress outputs leaves the progress as it was |
| `Reconstruction.ProgressIsLatestModelFileFraction` | ios/Classes/Views/ReconstructionView.swift:290-293 | the progress after a run is the fraction of the last model-file progress output, or the starting progress if there was none |
| `Reconstruction.InfoUnchangedWithoutModelFileInfo` | ios/Classes/Views/ReconstructionView.swift:294-298 | a run without model-file progress-info outputs leaves remaining time and stage label as they were |
| `Reconstruction.InfoIsLatestModelFileInfo` | ios/Classes/Views/ReconstructionView.swift:294-298 | remaining time and stage label after a run come from the last model-file progress-info output, or are the starting ones |
| `Reconstruction.ErrorsSuppressedWhileCancelling` | ios/Classes/Views/ReconstructionView.swift:309-313 | with a cancel requested, no run changes `gotError` or `error` |
| `Reconstruction.ErrorIsLatestRequestError` | ios/Classes/Views/ReconstructionView.swift:309-313 | without a cancel, `gotError` ends true iff it was true or some request failed, and `error` is the last failure's error |
| `Reconstruction.CancelledIffReported` | ios/Classes/Views/ReconstructionView.swift:319-321 | `cancelled` ends true iff it was true or the engine reported processing cancelled |
| `Reconstruction.CompletedIffCompleteBeforeAnyError` | ios/Classes/Views/ReconstructionView.swift:314-318 | `completed` ends true iff it was true or processing-complete arrived when no error had been recorded |
| `Reconstruction.ErrorBeforeCompletionWins` | ios/Classes/Views/ReconstructionView.swift:309-318 | a request error before every completion report leaves the run failed and not completed |
| `Reconstruction.CancelledRunIsNotFailure` | ios/Classes/Views/ReconstructionView.swift:309-321 | with a cancel requested and no earlier error, a run that reports cancellation ends cancelled, without an error, and does not show the viewer |
| `Reconstruction.CancelThenErrorThenCancelled` | ios/Classes/Views/ReconstructionView.swift:180 | while cancelling, [request error, processing cancelled] from the initial state ends with no error, cancelled, and the viewer not shown |
| `Reconstruction.ReconstructionProgressView.constructor` | ios/Classes/Views/ReconstructionView.swift:206-212 | the screen starts at progress 0, with nothing known, no flags set and no cancel requested |
| `Reconstruction.ReconstructionProgressView.CancelTapped` | ios/Classes/Views/ReconstructionView.swift:226-229 | the cancel button sets the cancel flag and forwards one cancel to the session, changing nothing shown |
| `Reconstruction.ReconstructionProgressView.HandleOutput` | ios/Classes/Views/ReconstructionView.swift:287-328 | the loop body's new state is `Step` of the old one; the cancel flag is untouched |
| `Reconstruction.ReconstructionProgressView.ConsumeOutputs` | ios/Classes/Views/ReconstructionView.swift:286-329 | the loop's final state is `Fold` of the starting state over the outputs |
| `Capture.MessageOps` | ios/Classes/CaptureView.swift:73-85 | a loop over conditions makes at most one call per condition, all removes or all adds |
| `Capture.MessageOpsTexts` | ios/Classes/CaptureView.swift:73-85 | a loop over a set mentions exactly the texts of the set's conditions that have one |
| `Capture.MessageOpsCount` | ios/Classes/CaptureView.swift:73-85 | a loop over a set makes exactly one call per condition that has a text; conditions without text are skipped |
| `Capture.ReconcileSets` | ios/Classes/CaptureView.swift:69-80 | the sets to remove and add are the old-minus-new and new-minus-old conditions; conditions in both are in neither |
| `Capture.ReconcileCounts` | ios/Classes/CaptureView.swift:72-85 | one update makes one remove per vanished condition with a text, then one add per new condition with a text, every remove first |
| `Capture.ReconcileTexts` | ios/Classes/CaptureView.swift:72-85 | the removes mention exactly the texts of vanished conditions and the adds exactly those of new conditions, removes first |
| `Capture.PersistentConditionUntouched` | ios/Classes/CaptureView.swift:69-85 | a condition in both sets causes no call on its text unless a changed condition shares that text |
| `Capture.UnchangedFeedbackIsSilent` | ios/Classes/CaptureView.swift:69-87 | an update with the set already current makes no calls |
| `Capture.RepeatedUpdateIsSilent` | ios/Classes/CaptureView.swift:49-51 | delivering the current set again adds nothing to the listener's trace |
| `Capture.ReconstructionOutputFile` | ios/Classes/CaptureView.swift:114 | the output file is the models folder followed by one separator (none if the folder already ends in '/') and "model-mobile.usdz", which is its last component |
| `Capture.CaptureView.constructor` | ios/Classes/CaptureView.swift:20-38 | a new view starts in object mode, with no feedback, no calls and no listener tasks |
| `Capture.CaptureView.AttachListeners` | ios/Classes/CaptureView.swift:43-56 | appends exactly one new task bound to the current session |
| `Capture.CaptureView.DetachListeners` | ios/Classes/CaptureView.swift:59-65 | cancels every task in order and leaves none |
| `Capture.CaptureView.ReplaceSession` | ios/Classes/CaptureView.swift:20-27 | assigning a session cancels every old task and leaves exactly one task, bound to the new session |
| `Capture.CaptureView.UpdateFeedbackMessages` | ios/Classes/CaptureView.swift:67-88 | the calls made are a reconcile trace from the old set to the new one, and the new set becomes current |
| `Capture.CaptureView.ReceiveFeedbackUpdates` | ios/Classes/CaptureView.swift:48-53 | the listener loop reconciles each delivered set in turn; the last one becomes current |
| `CaptureActions.IsCapturingStarted` | ios/Classes/Views/CaptureActionsView.swift:147-154 | capturing has started exactly in the capturing, finishing, completed and failed states |
| `CaptureActions.GuidanceText` | ios/Classes/Views/CaptureActionsView.swift:106-139 | each text and exactly when it shows: "can't find" in ready/object after a failed detection, "center the dot" in ready/object otherwise, "look at your subject" in ready/area, "inside the box" in detecting; none once capturing started |
| `CaptureActions.RotationAngle` | ios/Classes/Views/CaptureActionsView.swift:23-34 | 90 exactly for landscape-left, -90 for landscape-right, 180 for upside-down, 0 for every other orientation |
| `TopCaptureActions.ShowsCaptureFolderButton` | ios/Classes/Views/TopCaptureActionsView.swift:27-32 | the folder button shows exactly in the initializing, ready and detecting states |
| `TopCaptureActions.ShowsCaptureModeGuidance` | ios/Classes/Views/TopCaptureActionsView.swift:36-38 | the guidance shows iff the session is ready and guidance is asked for, and only with the folder button |
| `TopCaptureActions.CancelActionEffects` | ios/Classes/Views/TopCaptureActionsView.swift:48-52 | the session is cancelled iff present, the folder removed iff a manager is present, the cancel always first, and no other call is made |
| `TopCaptureActions.CaptureCancelButton.constructor` | ios/Classes/Views/TopCaptureActionsView.swift:43-45 | the button holds an optional session and folder manager and has made no call |
| `TopCaptureActions.CaptureCancelButton.Tapped` | ios/Classes/Views/TopCaptureActionsView.swift:48-52 | a tap appends the cancel action's calls |
| `TopCaptureActions.CaptureFolderButton.constructor` | ios/Classes/Views/TopCaptureActionsView.swift:68-72 | the gallery starts closed and no session call has been made |
| `TopCaptureActions.CaptureFolderButton.SetShowCaptureFolders` | ios/Classes/Views/TopCaptureActionsView.swift:94-100 | opening pauses and closing resumes the session, only on a change of value; pauses and resumes alternate and the session is paused exactly while the gallery is open |
| `TopCaptureActions.CaptureFolderButton.Tapped` | ios/Classes/Views/TopCaptureActionsView.swift:75-78 | the folder button opens the gallery, pausing the session if it was closed |
| `TopCaptureActions.CaptureFolderButton.GalleryCancelTapped` | ios/Classes/Views/TopCaptureActionsView.swift:127-132 | the gallery's cancel closes it, resuming the session if it was open |
| `TopCaptureActions.CaptureFolderUrls` | ios/Classes/Views/TopCaptureActionsView.swift:151-162 | none without a folder manager or when listing fails; otherwise exactly the directory entries, as a permutation, latest path first |
| `TopCaptureActions.GetFirstImage` | ios/Classes/Views/TopCaptureActionsView.swift:227-237 | lists the images folder under the capture folder and returns a file entry with no smaller path, or none iff the listing fails or holds no file |
| `TopCaptureActions.FirstIsSmallest` | ios/Classes/Views/TopCaptureActionsView.swift:233-235 | the first of the ascending-sorted files is a file of the listing and no file's path is smaller |
| `Paths.StrLt` | ios/Classes/Views/TopCaptureActionsView.swift:158 | Swift's `<` on paths: a path is never before itself, and a proper prefix comes first |
| `Paths.StrLtTrichotomy` | ios/Classes/Views/TopCaptureActionsView.swift:158 | any two paths are equal or exactly one is before the other |
| `Paths.StrLtTransitive` | ios/Classes/Views/TopCaptureActionsView.swift:234 | the path order is transitive |
| `Paths.Directories` | ios/Classes/Views/TopCaptureActionsView.swift:157 | keeps every directory entry as often as it occurs, and nothing else |
| `Paths.Files` | ios/Classes/Views/TopCaptureActionsView.swift:233 | keeps every non-directory entry as often as it occurs, and nothing else |
| `Paths.Sort` | ios/Classes/Views/TopCaptureActionsView.swift:158 | a permutation of its input in which no entry is strictly before an earlier one |
| `Paths.AppendingPathComponent` | ios/Classes/Views/TopCaptureActionsView.swift:228 | the result is the folder's path, then one '/' unless the path already ends in one, then the component; a non-empty component without '/' is the result's last component |
| `Paths.LastPathComponent` | ios/Classes/Views/TopCaptureActionsView.swift:201 | trailing '/' ignored, the longest non-empty '/'-free suffix; "/" for a path of '/' alone, "" for the empty path |

## Left out

- SwiftUI layout, styling, localized string tables, the QuickLook viewer and the progress bar's formatting are rendering, not logic (ReconstructionView.swift:11-169, all `body` layout). This includes the image count at ReconstructionView.swift:83-92.
- `FlutterObjectCaptureView.swift`, `FlutterObjectCapturePlugin.swift`, `CaptureModeGuidanceView.swift` and `ios/Views/CaptureView.swift` are not part of this model. They hold platform-view glue, a label lookup and a stale draft.
- Asynchronous plumbing is left out: `for await`, the semantics of `Task` cancellation, the orientation notification stream, and thumbnail creation. Each loop is modelled as a loop over a finite sequence. Cancelling a task is recorded, not enacted.
- Reconstruction.ReconstructionProgressView.ConsumeOutputs keeps the cancel flag fixed for one run of outputs. A cancel tap between two outputs is modelled as two runs with `CancelTapped` between them.
- The start of the reconstruction task is not modelled. That covers the `appModel.state` precondition, the nil-session guard, `session.process` and its logged failure, and the `UntilProcessingCompleteFilter` wrapper. The outputs are taken as the filter delivers them.
- The error alert's OK action (`appModel.state = .restart`) is not modelled. Neither is the alert resetting `gotError` when it is dismissed, which happens outside the output loop.
- Progress fractions and remaining times are opaque `real` values. The Double-to-Float conversion of the fraction is not modelled.
- `TimedMessageList`, `FeedbackMessages.getFeedbackString` and `CaptureFolderManager` are not part of this model. Their source is not available. The message list is a trace of calls, the text lookup is a parameter, and the folder manager's folders are strings or presence flags. Feedback conditions are a type parameter.
- Swift visits a set in an unspecified order. The feedback contracts therefore quantify over every order of visiting the removed and added conditions.
- The capture view's rescan and finish buttons and its reconstruction sheet (CaptureView.swift:92-119) are session commands and presentation. Only the output-file path is modelled.
- Wiring defects are not modelled; the logic is modelled as if the missing values were supplied. These are the incomplete `dis` at ReconstructionView.swift:182, the photogrammetry session that is never set, the capture view's `session` (CaptureView.swift:20) that is never reassigned, so its observers never attach a listener and no feedback update runs (`Capture.CaptureView.constructor` accordingly starts with no tasks), the capture folder manager that is never assigned, the extra argument at CaptureView.swift:128-132, and `CaptureCancelButton()` built without references at TopCaptureActionsView.swift:25.
- Paths.StrLtTrichotomy: Swift compares strings by Unicode canonical equivalence. The model compares characters by code point, which agrees for paths without combining sequences.
- Paths.LastPathComponent: the component is returned as stored in the path; URL percent-decoding is not modelled.
- Paths.AppendingPathComponent: URL normalisation beyond the separator (percent-encoding, `.` and `..`, the directory flag a trailing '/' in the component sets) is not modelled.
- TopCaptureActions.CaptureFolderUrls: `URL.hasDirectoryPath` is modelled as the entry's directory flag. The directory's listing is a parameter instead of a file-system call.

/**
 * The case analyses of the capture overlay: whether capturing has started,
 * which guidance text the bounding-box view shows, and how far the
 * feedback overlay is turned for the device orientation.
 */
module CaptureActions {
  import opened Wrappers
  import opened Capture

  /** The states of an object capture session. */
  datatype CaptureState =
    | Initializing
    | Ready
    | Detecting
    | Capturing
    | Finishing
    | Completed
    | Failed(reason: string)

  /** The guidance texts of the bounding-box view (localized in the app). */
  datatype GuidanceMessage =
    | ObjectNotFound   // "Can't find your object. It should be larger than 3 in (8 cm) in each dimension."
    | CenterTheDot     // "Move close and center the dot on your object, then tap Continue."
    | LookAtSubject    // "Look at your subject."
    | ObjectInsideBox  // "Move around to ensure that the whole object is inside the box. ..."

  datatype DeviceOrientation =
    | Unknown
    | Portrait
    | PortraitUpsideDown
    | LandscapeLeft
    | LandscapeRight
    | FaceUp
    | FaceDown

  /** `OverlayButtons.isCapturingStarted`: capturing has started once the session is past detecting. */
  function IsCapturingStarted(state: CaptureState): (r: bool)
    ensures r <==> state.Capturing? || state.Finishing? || state.Completed? || state.Failed?
  {
    match state
    case Initializing | Ready | Detecting => false
    case _ => true
  }

  /** `BoundingBoxGuidanceView.guidanceText`: each text and exactly when it is shown. */
  function GuidanceText(state: CaptureState, captureMode: CaptureMode, hasDetectionFailed: bool): (r: Option<GuidanceMessage>)
    ensures r == Some(ObjectNotFound) <==> state.Ready? && captureMode == Object && hasDetectionFailed
    ensures r == Some(CenterTheDot) <==> state.Ready? && captureMode == Object && !hasDetectionFailed
    ensures r == Some(LookAtSubject) <==> state.Ready? && captureMode == Area
    ensures r == Some(ObjectInsideBox) <==> state.Detecting?
    ensures r.Some? ==> !IsCapturingStarted(state)
  {
    if state.Ready? then
      match captureMode
      case Object => if hasDetectionFailed then Some(ObjectNotFound) else Some(CenterTheDot)
      case Area => Some(LookAtSubject)
    else if state.Detecting? then
      Some(ObjectInsideBox)
    else
      None
  }

  /** `CaptureActionsView.rotationAngle`, in degrees: each turn and the one orientation it is for. */
  function RotationAngle(orientation: DeviceOrientation): (degrees: int)
    ensures degrees == 90 <==> orientation == LandscapeLeft
    ensures degrees == -90 <==> orientation == LandscapeRight
    ensures degrees == 180 <==> orientation == PortraitUpsideDown
    ensures degrees == 0 <==> orientation !in {LandscapeLeft, LandscapeRight, PortraitUpsideDown}
  {
    match orientation
    case LandscapeLeft => 90
    case LandscapeRight => -90
    case PortraitUpsideDown => 180
    case _ => 0
  }
}

/**
 The object-detector component (NumberDetector.tsx): an uploaded picture is
 handed to a pre-trained detector; each prediction is outlined on an overlay
 canvas and cut out of the picture at native resolution.

 The detector itself is not modelled: its answer is a parameter of the
 transition (`Detection`). React state is one immutable `State` record and each
 event handler is a function from the state before to the state after it has
 run to completion.
 */
module ObjectDetector {
  import opened Nullable
  import opened Geometry

  /** One detector prediction: bounding box in rendered coordinates, class name, confidence. */
  datatype Prediction = Prediction(bbox: Box, cls: string, score: real)

  /** What the detector answered: its predictions, or a failure (of loading the
      model or of running it). */
  datatype Detection = Detected(predictions: seq<Prediction>) | DetectionFailed

  /** The encoded crop (a data URL in the component). Its pixels are not
      modelled: a crop is identified by the native rectangle it is cut from. */
  datatype CroppedImage = CroppedImage(source: Box)

  /** An entry of the gallery of detected regions. */
  datatype Region = Region(cls: string, croppedImage: CroppedImage)

  /** The caption drawn above a box: class name and confidence. Its textual
      formatting (percentage with two decimals) is not modelled. */
  datatype Label = Label(cls: string, score: real)

  /** The drawing operations issued on the overlay canvas. */
  datatype DrawCommand =
    | ClearRect(width: real, height: real)
    | DrawImage(width: real, height: real)
    | StrokeRect(box: Box)
    | FillText(caption: Label, x: real, y: real)

  /** Distance, in rendered pixels, between a caption's baseline and its box's top edge. */
  const LabelOffset: real := 5.0

  const UploadFirstMessage := "Please upload an image first."
  const NoObjectsMessage := "No objects detected."
  const DetectionFailedMessage := "An error occurred during detection. Please try again."

  /** The component's state: the uploaded image URL, the gallery, the error
      banner, the busy flag, and what has been drawn on the overlay canvas. */
  datatype State = State(
    image: Option<string>,
    detectedRegions: seq<Region>,
    error: Option<string>,
    isLoading: bool,
    canvas: seq<DrawCommand>)

  const Initial := State(None, [], None, false, [])

  /** The gallery entry for one prediction. */
  function RegionOf(v: ImageView, p: Prediction): Region
    requires LaidOut(v)
  {
    Region(p.cls, CroppedImage(NativeCrop(v, p.bbox)))
  }

  /** The `forEach` over the predictions that pushes one region per prediction
      onto `acc`. */
  function CollectRegions(v: ImageView, preds: seq<Prediction>, acc: seq<Region>): (r: seq<Region>)
    requires LaidOut(v)
    ensures |r| == |acc| + |preds|
    ensures r[..|acc|] == acc
    ensures forall i :: 0 <= i < |preds| ==>
      r[|acc| + i].cls == preds[i].cls && r[|acc| + i].croppedImage.source == NativeCrop(v, preds[i].bbox)
    decreases |preds|
  {
    if |preds| == 0 then acc
    else
      var acc' := acc + [RegionOf(v, preds[0])];
      var r := CollectRegions(v, preds[1..], acc');
      assert r[..|acc|] == r[..|acc'|][..|acc|];
      assert forall i :: 1 <= i < |preds| ==> preds[i] == preds[1..][i - 1];
      r
  }

  /** The same `forEach` seen from the overlay: for every prediction an
      outline at its rendered box followed by its caption 5 pixels above the
      box, appended to `acc`. */
  function Annotate(preds: seq<Prediction>, acc: seq<DrawCommand>): (r: seq<DrawCommand>)
    ensures |r| == |acc| + 2 * |preds|
    ensures r[..|acc|] == acc
    ensures forall i :: 0 <= i < |preds| ==>
      && r[|acc| + 2 * i] == StrokeRect(preds[i].bbox)
      && r[|acc| + 2 * i + 1] == FillText(Label(preds[i].cls, preds[i].score), preds[i].bbox.x, preds[i].bbox.y - LabelOffset)
    decreases |preds|
  {
    if |preds| == 0 then acc
    else
      var p := preds[0];
      Annotate(preds[1..], acc + [StrokeRect(p.bbox), FillText(Label(p.cls, p.score), p.bbox.x, p.bbox.y - LabelOffset)])
  }

  /** The full overlay: the canvas is resized to the rendered image, cleared,
      the image is painted, then every prediction is annotated. */
  function Overlay(v: ImageView, preds: seq<Prediction>): (r: seq<DrawCommand>)
    ensures |r| == 2 + 2 * |preds|
    ensures r[0] == ClearRect(v.width, v.height) && r[1] == DrawImage(v.width, v.height)
    ensures forall i :: 0 <= i < |preds| ==>
      && r[2 + 2 * i] == StrokeRect(preds[i].bbox)
      && r[3 + 2 * i] == FillText(Label(preds[i].cls, preds[i].score), preds[i].bbox.x, preds[i].bbox.y - LabelOffset)
  {
    Annotate(preds, [ClearRect(v.width, v.height), DrawImage(v.width, v.height)])
  }

  /** `handleImageUpload`: `file` is the object URL of the chosen file, or
      None when the picker returned no file. */
  function Upload(s: State, file: Option<string>): (r: State)
    ensures file.None? ==> r == s
    ensures file.Some? ==> r.image == file && r.detectedRegions == [] && r.error.None?
    ensures r.isLoading == s.isLoading && r.canvas == s.canvas
  {
    match file
    case None => s
    case Some(url) => s.(image := Some(url), detectedRegions := [], error := None)
  }

  /** The pass reaches the crop scaling: the image is mounted, the detector
      found something and the canvas can be drawn on. */
  predicate Scales(view: Option<ImageView>, detection: Detection, hasContext: bool) {
    view.Some? && detection.Detected? && |detection.predictions| > 0 && hasContext
  }

  /** `detectObjects`. `view` is the mounted image (None when the image or the
      canvas element is absent), `detection` the detector's answer and
      `hasContext` whether the canvas handed out a 2D drawing context. Only the
      scaling path divides by the rendered size, so only it needs a laid-out image. */
  function DetectObjects(s: State, view: Option<ImageView>, detection: Detection, hasContext: bool): (r: State)
    requires Scales(view, detection, hasContext) ==> LaidOut(view.value)
    // the uploaded image is never touched
    ensures r.image == s.image
    // missing image or canvas: only the error changes, the detector is not consulted
    ensures view.None? ==>
      && r.error == Some(UploadFirstMessage)
      && r.isLoading == s.isLoading
      && r.detectedRegions == s.detectedRegions
      && r.canvas == s.canvas
    // past the guard the busy flag always ends cleared
    ensures view.Some? ==> !r.isLoading
    ensures view.Some? && detection.DetectionFailed? ==>
      r.error == Some(DetectionFailedMessage) && r.detectedRegions == s.detectedRegions && r.canvas == s.canvas
    ensures view.Some? && detection == Detected([]) ==>
      r.error == Some(NoObjectsMessage) && r.detectedRegions == s.detectedRegions && r.canvas == s.canvas
    // no drawing context: neither gallery, canvas nor error is touched
    ensures view.Some? && detection.Detected? && |detection.predictions| > 0 && !hasContext ==>
      r.error == s.error && r.canvas == s.canvas && r.detectedRegions == s.detectedRegions
    // the gallery changes only on a successful pass
    ensures r.detectedRegions != s.detectedRegions ==> view.Some? && detection.Detected? && hasContext
    // success: the gallery is replaced by exactly one region per prediction, in order
    ensures Scales(view, detection, hasContext) ==>
      && |r.detectedRegions| == |detection.predictions|
      && (forall i :: 0 <= i < |detection.predictions| ==>
            r.detectedRegions[i] == RegionOf(view.value, detection.predictions[i]))
      && r.canvas == Overlay(view.value, detection.predictions)
      && r.error == s.error
  {
    match view
    case None => s.(error := Some(UploadFirstMessage))
    case Some(v) =>
      match detection
      case DetectionFailed => s.(error := Some(DetectionFailedMessage), isLoading := false)
      case Detected(preds) =>
        if |preds| == 0 then s.(error := Some(NoObjectsMessage), isLoading := false)
        else if !hasContext then s.(isLoading := false)
        else s.(detectedRegions := CollectRegions(v, preds, []), canvas := Overlay(v, preds), isLoading := false)
  }

  /** A user interaction with the component. */
  datatype Event =
    | FileChosen(file: Option<string>)
    | DetectClicked(view: Option<ImageView>, detection: Detection, hasContext: bool)

  predicate WellFormed(e: Event) {
    e.DetectClicked? && Scales(e.view, e.detection, e.hasContext) ==> LaidOut(e.view.value)
  }

  function Step(s: State, e: Event): State
    requires WellFormed(e)
  {
    match e
    case FileChosen(file) => Upload(s, file)
    case DetectClicked(view, detection, hasContext) => DetectObjects(s, view, detection, hasContext)
  }

  /** The state after handling `events` in order, starting from `s`. */
  function Run(s: State, events: seq<Event>): State
    requires forall i :: 0 <= i < |events| ==> WellFormed(events[i])
    decreases |events|
  {
    if |events| == 0 then s else Run(Step(s, events[0]), events[1..])
  }

  /** Between interactions the component is not busy and shows either no
      error or one of its three messages. */
  predicate Settled(s: State) {
    && !s.isLoading
    && s.error in {None, Some(UploadFirstMessage), Some(NoObjectsMessage), Some(DetectionFailedMessage)}
  }

  lemma InitialIsSettled()
    ensures Settled(Initial)
  {
  }

  /** Every handler keeps the component settled. */
  lemma StepKeepsSettled(s: State, e: Event)
    requires Settled(s) && WellFormed(e)
    ensures Settled(Step(s, e))
  {
  }

  /** Whatever the user does, starting from the initial state, the busy flag
      never stays set and no other error message ever appears. */
  lemma {:induction false} RunKeepsSettled(s: State, events: seq<Event>)
    requires Settled(s)
    requires forall i :: 0 <= i < |events| ==> WellFormed(events[i])
    ensures Settled(Run(s, events))
    decreases |events|
  {
    if |events| > 0 {
      StepKeepsSettled(s, events[0]);
      RunKeepsSettled(Step(s, events[0]), events[1..]);
    }
  }

  /** Regions never accumulate across images: after a new upload and a
      detection pass, the gallery holds only regions of the new pass, and
      is empty when that pass produced none. */
  lemma NoAccumulation(s: State, url: string, v: ImageView, detection: Detection, hasContext: bool)
    requires Scales(Some(v), detection, hasContext) ==> LaidOut(v)
    ensures var r := DetectObjects(Upload(s, Some(url)), Some(v), detection, hasContext);
      if Scales(Some(v), detection, hasContext)
      then r.detectedRegions == CollectRegions(v, detection.predictions, [])
      else r.detectedRegions == []
  {
  }

  /** The label of every prediction sits 5 pixels above the top-left corner of
      its outline, and its crop is the outline scaled to native coordinates. */
  lemma OverlayMatchesRegions(v: ImageView, preds: seq<Prediction>, i: nat)
    requires LaidOut(v) && i < |preds|
    ensures var o := Overlay(v, preds); var g := CollectRegions(v, preds, []);
      && o[2 + 2 * i].StrokeRect? && o[3 + 2 * i].FillText?
      && o[3 + 2 * i].x == o[2 + 2 * i].box.x
      && o[3 + 2 * i].y + LabelOffset == o[2 + 2 * i].box.y
      && g[i].croppedImage.source == NativeCrop(v, o[2 + 2 * i].box)
      && g[i].cls == o[3 + 2 * i].caption.cls
  {
    var o := Overlay(v, preds);
    var p := preds[i];
    assert o[2 + 2 * i] == StrokeRect(p.bbox);
    assert o[3 + 2 * i] == FillText(Label(p.cls, p.score), p.bbox.x, p.bbox.y - LabelOffset);
  }
}

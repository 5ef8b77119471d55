# Object detection and number extraction front-end, modelled in Dafny

The application lets a user upload a picture and either run an object
detector over it, which outlines every detected object on an overlay canvas
and cuts each object out at the picture's native resolution, or run OCR over
it and show the numbers found in the recognised text. The detector (coco-ssd)
and the OCR engine (Tesseract) are pre-trained third-party models. Here their
answers are parameters. What remains, and what this project models and proves
things about, is:

- **Geometry** (`geometry.dfy`): scaling a bounding box from the rendered
  size of the `<img>` to its intrinsic size, and the inverse mapping.
- **ObjectDetector** (`object_detector.dfy`): the gallery of cropped regions
  and the overlay drawing commands built from the predictions, and the
  component's state (`image`, `detectedRegions`, `error`, `isLoading`, plus what
  is drawn on the canvas) under the two handlers `handleImageUpload` and
  `detectObjects`.
- **DigitRuns** (`digit_runs.dfy`): JavaScript `trim`, the matches of
  `/\d+/g`, `join(", ")` and the "No numbers found." fallback.
- **TextRecognition** (`text_recognition.dfy`): the hook's state
  (`recognizedText`, `selectedImage`, `isLoading`, `error`) under
  `handleTextRecognition` and `handleImageSelection`.
- **Nullable** (`nullable.dfy`): `Option`, for TypeScript's `T | null`.

Each handler is a pure function from the state before it to the state after
it has run to completion. The foreign calls are its inputs:

- `Detection` is the detector's answer.
- `Recognition` is one OCR answer.
- `view: Option<ImageView>` is the mounted image element with its sizes. It
  is `None` when the image or canvas element is absent.
- `hasContext` says whether the canvas gave out a 2D context.

The crop's pixels (`toDataURL`) are represented by the native rectangle they
are cut from (`CroppedImage`). Overlay drawing is a sequence of `DrawCommand`s.

Main results:

- `RunSplitUnique` and `RunsAreMaximalRuns`: the extracted runs are exactly
  the maximal digit runs, in order.
- `TrimKeepsRuns`: trimming never changes the runs.
- `SummaryKeepsRuns` and `SummaryIdempotent`: re-extracting from the summary
  gives the same runs, and summarising a summary changes nothing.
- `NativeCropRoundTrip`: scaling a box to native size and back returns it.
- `RunKeepsSettled` in both state machines: once each handler has run to
  completion, no sequence of user actions leaves a component busy or shows an
  unknown message.

Behaviour of the code worth noting:

- Crops with zero or negative size are not skipped, and nothing is clamped
  to the image (`CropKeepsDegeneracy`, `DetectObjects`).
- `handleTextRecognition` calls the OCR engine twice. The second call's
  result, its raw text or the retry message if it fails, always replaces the
  digit summary (`SummaryIsOverwritten`).
- `detectObjects` never clears `error` on success. An error message from an
  earlier pass stays on screen next to the new regions (`DetectObjects`
  promises `r.error == s.error` on success).

## Model

| member | source | states |
|---|---|---|
| Geometry.NativeCrop | client/src/components/NumberDetector.tsx:80-91 | each native crop coordinate times the rendered size equals the box coordinate times the native size along the same axis, i.e. (x·W/w, y·H/h, bw·W/w, bh·H/h) |
| Geometry.RenderedBox | client/src/components/NumberDetector.tsx:80-91 | the inverse scaling, native to rendered coordinates, characterised the same way |
| Geometry.IdentityScale | client/src/components/NumberDetector.tsx:80-91 | when native and rendered sizes agree the crop is the box unchanged |
| Geometry.NativeCropRoundTrip | client/src/components/NumberDetector.tsx:80-91 | scaling a box to native coordinates and back gives the box again |
| Geometry.RenderedBoxRoundTrip | client/src/components/NumberDetector.tsx:80-91 | scaling a native rectangle to rendered coordinates and cropping again gives it back |
| Geometry.CropKeepsDegeneracy | client/src/components/NumberDetector.tsx:88-94 | a crop has non-positive width or height exactly when its box does: degenerate boxes are kept, not skipped |
| ObjectDetector.CollectRegions | client/src/components/NumberDetector.tsx:61-111 | the region list keeps what was there and gains exactly one region per prediction, in prediction order, with that prediction's class and its box scaled to native coordinates |
| ObjectDetector.Annotate | client/src/components/NumberDetector.tsx:64-77 | per prediction, in order, an outline at the rendered box followed by its caption at (x, y − 5) |
| ObjectDetector.Overlay | client/src/components/NumberDetector.tsx:48-77 | the canvas is cleared and repainted at the rendered size, then holds 2 commands per prediction: outline then caption 5 pixels above it |
| ObjectDetector.Upload | client/src/components/NumberDetector.tsx:16-27 | with a file: image set, regions emptied, error cleared; without one nothing changes; busy flag and canvas never touched |
| ObjectDetector.DetectObjects | client/src/components/NumberDetector.tsx:29-121 | missing image/canvas: only the error "Please upload an image first." is set, loading untouched; past the guard loading always ends false; failure and empty predictions set their messages and keep regions and canvas; no 2D context: error, regions and canvas untouched; success replaces regions by one per prediction in order and draws the overlay; regions change on success only; a laid-out image is needed only on the scaling path |
| ObjectDetector.InitialIsSettled | client/src/components/NumberDetector.tsx:6-11 | the initial state is not busy and shows no error |
| ObjectDetector.StepKeepsSettled | client/src/components/NumberDetector.tsx:16-121 | each handler leaves the component not busy with no error or one of its three messages |
| ObjectDetector.RunKeepsSettled | client/src/components/NumberDetector.tsx:16-121 | the same for any sequence of uploads and detection passes |
| ObjectDetector.NoAccumulation | client/src/components/NumberDetector.tsx:18-113 | after a new upload and a detection pass the gallery is exactly the regions built from the new predictions, and is empty if the pass produced none |
| ObjectDetector.OverlayMatchesRegions | client/src/components/NumberDetector.tsx:64-109 | each caption sits at the outline's x, 5 pixels above its top, and the corresponding crop is that outline scaled to native coordinates with the same class |
| DigitRuns.TrimStart | client/src/hooks/useTextRecognition.tsx:24 | a suffix of the input whose removed prefix is all whitespace and which does not start with whitespace |
| DigitRuns.TrimEnd | client/src/hooks/useTextRecognition.tsx:24 | a prefix of the input whose removed suffix is all whitespace and which does not end with whitespace |
| DigitRuns.Trim | client/src/hooks/useTextRecognition.tsx:24 | a slice of the input, everything removed on both sides is whitespace, and it neither starts nor ends with whitespace |
| DigitRuns.Runs | client/src/hooks/useTextRecognition.tsx:25 | every match of /\d+/g is a non-empty string of ASCII digits |
| DigitRuns.MatchDigits | client/src/hooks/useTextRecognition.tsx:25 | match returns null exactly when the text has no digit, otherwise the non-empty list of runs |
| DigitRuns.Gaps | client/src/hooks/useTextRecognition.tsx:25 | the text is its runs interleaved with digit-free gaps, the inner gaps non-empty |
| DigitRuns.RunSplitUnique | client/src/hooks/useTextRecognition.tsx:25 | any split of the text into maximal digit runs and digit-free gaps has exactly the extracted runs |
| DigitRuns.RunsAreMaximalRuns | client/src/hooks/useTextRecognition.tsx:25 | a list is the extracted runs if and only if the text splits into it and digit-free gaps, the inner gaps non-empty |
| DigitRuns.RunsEmptyIffNoDigits | client/src/hooks/useTextRecognition.tsx:25-28 | there are no runs exactly when the text holds no digit |
| DigitRuns.RunsCoverDigits | client/src/hooks/useTextRecognition.tsx:25 | the concatenation of the runs is the subsequence of digit characters of the text |
| DigitRuns.TrimKeepsRuns | client/src/hooks/useTextRecognition.tsx:24-25 | trimming the text does not change its runs |
| DigitRuns.Join | client/src/hooks/useTextRecognition.tsx:27 | `join`: an empty list gives "", one element gives itself, otherwise the result starts with the first element |
| DigitRuns.JoinSnoc | client/src/hooks/useTextRecognition.tsx:27 | appending an element to a non-empty list appends the separator and then the element, so the separator sits between every pair of neighbours |
| DigitRuns.JoinLength | client/src/hooks/useTextRecognition.tsx:27 | the joined string is as long as the elements together plus one separator between each pair of neighbours |
| DigitRuns.DigitSummary | client/src/hooks/useTextRecognition.tsx:24-28 | "No numbers found." exactly when the (untrimmed) text has no digit, otherwise its runs joined by ", " |
| DigitRuns.RunsOfJoin | client/src/hooks/useTextRecognition.tsx:26-28 | extracting runs from digit runs joined by ", " gives the runs back |
| DigitRuns.SummaryKeepsRuns | client/src/hooks/useTextRecognition.tsx:24-28 | the summary has the same runs as the text |
| DigitRuns.SummaryIdempotent | client/src/hooks/useTextRecognition.tsx:24-28 | summarising a summary gives the same summary |
| TextRecognition.FirstRecognition | client/src/hooks/useTextRecognition.tsx:16-34 | afterwards not busy; error null exactly on success and otherwise "Error during text recognition."; on success the text is the runs joined by ", " or "No numbers found."; on failure the text is kept |
| TextRecognition.SecondRecognition | client/src/hooks/useTextRecognition.tsx:36-46 | the raw recognised text, or the retry message, replaces the shown text; nothing else changes |
| TextRecognition.HandleTextRecognition | client/src/hooks/useTextRecognition.tsx:10-47 | empty image: only the error "Please upload an image first." is set and the OCR engine is not called; otherwise two calls, not busy, error set by the first call, shown text from the second |
| TextRecognition.HandleImageSelection | client/src/hooks/useTextRecognition.tsx:49-56 | the selection is stored; no file: text reset to "" and no recognition; a file: recognition of its URL on a state with the text reset |
| TextRecognition.SummaryIsOverwritten | client/src/hooks/useTextRecognition.tsx:24-45 | for a non-empty image the final text does not depend on the first recognition at all |
| TextRecognition.EmptyImageIgnoresRecognizer | client/src/hooks/useTextRecognition.tsx:11-14 | for an empty image the outcome does not depend on any OCR answer |
| TextRecognition.InitialIsSettled | client/src/hooks/useTextRecognition.tsx:5-8 | the initial hook state is not busy, shows no error and no text |
| TextRecognition.SelectKeepsSettled | client/src/hooks/useTextRecognition.tsx:49-56 | a selection leaves the hook not busy, with no error or the recognition error, and with no text while nothing is selected |
| TextRecognition.RunKeepsSettled | client/src/hooks/useTextRecognition.tsx:10-64 | the same after any sequence of selections; "Please upload an image first." can never appear through the handler the hook exposes |

## Left out

- Calls to the detector and the OCR engine (coco-ssd `load`/`detect`, Tesseract `recognize`): foreign pre-trained models. Their answers are transition parameters.
- Canvas raster operations: `drawImage` pixel copying, stroke and fill styles, fonts and `toDataURL` encoding have no pixel semantics here. A crop is identified by its native source rectangle.
- Caption text: the `toFixed(2)` percentage formatting is abstracted to `Label(cls, score)`.
- Floating-point arithmetic: the model computes over exact reals. The truncation when a real crop size is assigned to `croppedCanvas.width`/`height` (NumberDetector.tsx lines 93-94) is also not modelled.
- The per-crop `getContext("2d")` returning null (NumberDetector.tsx line 96) is not modelled. A fresh canvas is assumed to give a context. Without this assumption such a prediction would get no region.
- Whether the image and canvas refs are mounted, and the image's sizes, come from React rendering. They are the `view` parameter. The main canvas context is the `hasContext` flag.
- `URL.createObjectURL`: the URL it returns is the handler's input.
- Foreign calls that never settle: a detector or OCR promise that neither resolves nor rejects would leave `isLoading` true forever (NumberDetector.tsx lines 36-38, useTextRecognition.tsx lines 16-20). Every answer is a parameter that always arrives, so the settledness lemmas hold only once each handler has run to completion.
- Asynchronous interleaving is not modelled. This covers the transient `isLoading = true` state, the disabled button and overlapping handler runs. Each handler runs to completion as one transition.
- Logging (`console.log`, `console.error`, the Tesseract progress logger).
- Camera capture in client/src/pages/InvoiceMaker.tsx (device I/O) and routing in client/src/App.tsx.

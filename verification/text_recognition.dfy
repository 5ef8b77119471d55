/**
 The text-recognition hook (useTextRecognition.tsx). The OCR engine is not
 modelled: each of its two invocations is represented by its answer, a
 `Recognition`. React state is one immutable `State` record; every handler is
 a function from the state before it to the state after it has run to
 completion, together with the number of times it invoked the OCR engine.
 */
module TextRecognition {
  import opened Nullable
  import opened DigitRuns

  /** An OCR engine answer: the recognised text, or a rejected call. */
  datatype Recognition = Recognized(text: string) | RecognitionFailed

  const UploadFirstMessage := "Please upload an image first."
  const RecognitionErrorMessage := "Error during text recognition."
  const RetryMessage := "Error recognizing text. Please try again."

  datatype State = State(
    recognizedText: string,
    selectedImage: Option<string>,
    isLoading: bool,
    error: Option<string>)

  const Initial := State("", None, false, None)

  /** The state after a handler, and how often it called the OCR engine. */
  datatype Outcome = Outcome(state: State, recognizerCalls: nat)

  /** The first recognition (English, with a progress logger): the busy flag
      and the error are reset, then the digit summary of the trimmed text is
      shown, or the error is set when the engine fails. */
  function FirstRecognition(s: State, first: Recognition): (r: State)
    ensures !r.isLoading
    ensures r.error == None || r.error == Some(RecognitionErrorMessage)
    ensures r.error.None? <==> first.Recognized?
    ensures first.Recognized? && NoDigits(first.text) ==> r.recognizedText == NoNumbersMessage
    ensures first.Recognized? && !NoDigits(first.text) ==>
      && r.recognizedText == Join(Runs(first.text), Separator)
      && Runs(r.recognizedText) == Runs(first.text)
      && |Runs(r.recognizedText)| > 0
    ensures first.RecognitionFailed? ==> r.recognizedText == s.recognizedText
    ensures r.selectedImage == s.selectedImage
  {
    match first
    case Recognized(text) =>
      SummaryKeepsRuns(text);
      s.(isLoading := false, error := None, recognizedText := DigitSummary(text))
    case RecognitionFailed =>
      s.(isLoading := false, error := Some(RecognitionErrorMessage))
  }

  /** The second recognition (default options): the raw, untrimmed text
      replaces whatever is shown, or a retry message does when the engine
      fails. Error and busy flag are left alone. */
  function SecondRecognition(s: State, second: Recognition): (r: State)
    ensures second.Recognized? ==> r.recognizedText == second.text
    ensures second.RecognitionFailed? ==> r.recognizedText == RetryMessage
    ensures r.error == s.error && r.isLoading == s.isLoading && r.selectedImage == s.selectedImage
  {
    match second
    case Recognized(text) => s.(recognizedText := text)
    case RecognitionFailed => s.(recognizedText := RetryMessage)
  }

  /** `handleTextRecognition(image)`: an empty image URL only sets the error;
      otherwise both recognitions run in turn. */
  function HandleTextRecognition(s: State, image: string, first: Recognition, second: Recognition): (r: Outcome)
    ensures image == "" <==> r.recognizerCalls == 0
    ensures image == "" ==>
      && r.state.error == Some(UploadFirstMessage)
      && r.state.recognizedText == s.recognizedText
      && r.state.isLoading == s.isLoading
      && r.state.selectedImage == s.selectedImage
    ensures image != "" ==>
      && r.recognizerCalls == 2
      && !r.state.isLoading
      && (r.state.error.None? <==> first.Recognized?)
      && (first.RecognitionFailed? ==> r.state.error == Some(RecognitionErrorMessage))
      && r.state.recognizedText == (if second.Recognized? then second.text else RetryMessage)
      && r.state.selectedImage == s.selectedImage
  {
    if image == "" then Outcome(s.(error := Some(UploadFirstMessage)), 0)
    else Outcome(SecondRecognition(FirstRecognition(s, first), second), 2)
  }

  /** `handleImageSelection(file)`: `file` is the object URL made for the chosen
      file, or None for no file. The selection and a cleared text are stored
      first; recognition starts only for a non-empty URL. */
  function HandleImageSelection(s: State, file: Option<string>, first: Recognition, second: Recognition): (r: Outcome)
    ensures r.state.selectedImage == file
    ensures file.None? || file.value == "" ==>
      && r.state.recognizedText == ""
      && r.recognizerCalls == 0
      && r.state.error == s.error
      && r.state.isLoading == s.isLoading
    ensures file.Some? && file.value != "" ==>
      r == HandleTextRecognition(s.(selectedImage := file, recognizedText := ""), file.value, first, second)
  {
    var s' := s.(selectedImage := file, recognizedText := "");
    match file
    case Some(url) => if url != "" then HandleTextRecognition(s', url, first, second) else Outcome(s', 0)
    case None => Outcome(s', 0)
  }

  /** Whatever the first recognition produced, a non-empty image ends with the
      second recognition's text on display: the digit summary never survives
      the handler. */
  lemma SummaryIsOverwritten(s: State, image: string, first1: Recognition, first2: Recognition, second: Recognition)
    requires image != ""
    ensures HandleTextRecognition(s, image, first1, second).state.recognizedText
         == HandleTextRecognition(s, image, first2, second).state.recognizedText
  {
  }

  /** An empty image URL never reaches the OCR engine: the outcome does not
      depend on what the engine would answer. */
  lemma EmptyImageIgnoresRecognizer(s: State, a1: Recognition, a2: Recognition, b1: Recognition, b2: Recognition)
    ensures HandleTextRecognition(s, "", a1, a2) == HandleTextRecognition(s, "", b1, b2)
  {
  }

  /** One call of the only handler the hook exposes. */
  datatype Selection = Selection(file: Option<string>, first: Recognition, second: Recognition)

  function Select(s: State, e: Selection): State {
    HandleImageSelection(s, e.file, e.first, e.second).state
  }

  /** The hook's state after the selections in `events`, in order. */
  function Run(s: State, events: seq<Selection>): State
    decreases |events|
  {
    if |events| == 0 then s else Run(Select(s, events[0]), events[1..])
  }

  /** What a caller of the hook can observe between selections: it is not
      busy, the only error it can show is the recognition error, and with no
      image selected no text is shown. */
  predicate Settled(s: State) {
    && !s.isLoading
    && (s.error == None || s.error == Some(RecognitionErrorMessage))
    && (s.selectedImage.None? ==> s.recognizedText == "")
  }

  lemma SelectKeepsSettled(s: State, e: Selection)
    requires Settled(s)
    ensures Settled(Select(s, e))
  {
  }

  /** From the initial state, no sequence of selections leaves the hook busy,
      and "Please upload an image first." is never shown: the exposed
      handler only starts recognition for a non-empty URL. */
  lemma {:induction false} RunKeepsSettled(s: State, events: seq<Selection>)
    requires Settled(s)
    ensures Settled(Run(s, events))
    ensures Run(s, events).error != Some(UploadFirstMessage)
    decreases |events|
  {
    if |events| > 0 {
      SelectKeepsSettled(s, events[0]);
      RunKeepsSettled(Select(s, events[0]), events[1..]);
    }
  }

  lemma InitialIsSettled()
    ensures Settled(Initial)
  {
  }
}

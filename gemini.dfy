/**
  The checks `analyzeImage` makes around its one call to the hosted model: the image
  must be a base64 data URL, the payload is the text after its first `base64,`, the
  prompt is the caller's (trimmed) or the built-in one, an empty reply is refused, and
  every failure leaves the function as an error whose message starts with
  `Failed to analyze image`. The model call itself is a parameter.
 */
module Gemini {
  import opened Wrappers
  import opened JsString

  /** The prompt used when the caller gives none, or only whitespace. */
  const DefaultPrompt: String := PromptHead + PromptMiddle + PromptTail

  const PromptHead: String := "Analyze" + " this running shoe image and provide a comprehensive analysis including: "
  const PromptMiddle: String :=
    "1) Brand and model identification with confidence percentage, "
    + "2) Detailed description of the style, colors, and materials, "
    + "3) Running specialty (trail, road, competition, etc.), "
    + "4) Where to purchase this exact or similar shoes with price ranges, "
    + "5) Performance features (cushioning, support type, drop height if visible), "
    + "6) Recommended running surfaces and distances. "
  const PromptTail: String := "Format your response as markdown with appropriate headings and bullet" + " points."

  /** The MIME type every request declares, whatever the data URL says. */
  const JpegMimeType: String := "image/jpeg"

  /** The marker before the payload of a base64 data URL. */
  const Base64Marker: String := "base64,"

  const InvalidFormatMessage: String := "Invalid image data format"
  const InvalidPayloadMessage: String := "Invalid base64 image data"
  const NoAnalysisMessage: String := "No analysis generated"
  const FailurePrefix: String := "Failed to analyze image: "
  const FallbackMessage: String := "Failed to analyze image. Please try again."

  /** The two parts sent to the model: the prompt, and the image as inline data. */
  datatype Request = Request(prompt: String, mimeType: String, data: String)

  /** What the model call, or anything inside the function, can throw: an `Error`
      with a message, or some other value. */
  datatype Thrown = ErrorThrown(message: String) | OtherThrown

  /** How the model call ends: with the reply's text, or by throwing. */
  datatype Reply = Replied(text: String) | Threw(thrown: Thrown)

  // ---------------------------------------------------------------- the steps

  /** `imageData.split('base64,')[1]`, read as `''` when it is missing. */
  function Payload(imageData: String): String {
    ItemOr(Split(imageData, Base64Marker), 1)
  }

  /** `customPrompt?.trim() || DEFAULT_PROMPT` */
  function PromptFor(customPrompt: Option<String>): (prompt: String)
    ensures customPrompt.Some? && Trim(customPrompt.value) != [] ==> prompt == Trim(customPrompt.value)
    ensures customPrompt.None? || Trim(customPrompt.value) == [] ==> prompt == DefaultPrompt
  {
    if customPrompt.Some? && Trim(customPrompt.value) != [] then Trim(customPrompt.value) else DefaultPrompt
  }

  /** The request made for a payload and a prompt. */
  function RequestFor(data: String, customPrompt: Option<String>): Request {
    Request(PromptFor(customPrompt), JpegMimeType, data)
  }

  /** The body of the `try`: the checks, the call and the empty-reply check, ending in
      the text or in what was thrown. */
  function Attempt(imageData: String, customPrompt: Option<String>, generate: Request -> Reply): Result<String, Thrown> {
    if imageData == [] || !Contains(imageData, "base64") then Failure(ErrorThrown(InvalidFormatMessage))
    else
      var data := Payload(imageData);
      if data == [] then Failure(ErrorThrown(InvalidPayloadMessage))
      else
        match generate(RequestFor(data, customPrompt))
        case Threw(t) => Failure(t)
        case Replied(text) => if text == [] then Failure(ErrorThrown(NoAnalysisMessage)) else Success(text)
  }

  /** The `catch`: an `Error` is thrown again with its message behind the failure prefix,
      anything else becomes the fixed fallback message. */
  function Rewrap(t: Thrown): (message: String)
    ensures StartsWith(message, "Failed to analyze image")
    ensures t.ErrorThrown? ==> StartsWith(message, FailurePrefix) && message[|FailurePrefix|..] == t.message
  {
    match t
    case ErrorThrown(m) => FailurePrefix + m
    case OtherThrown => FallbackMessage
  }

  /** `analyzeImage(imageData, customPrompt)` with the model call given as `generate`:
      the analysis text, or the message of the `Error` it throws. */
  function AnalyzeImage(imageData: String, customPrompt: Option<String>, generate: Request -> Reply): (r: Result<String, String>)
    ensures r.Success? ==> r.value != []
    ensures r.Failure? ==> StartsWith(r.error, "Failed to analyze image")
  {
    match Attempt(imageData, customPrompt, generate)
    case Success(text) => Success(text)
    case Failure(t) => Failure(Rewrap(t))
  }

  // ---------------------------------------------------------------- properties

  /** The built-in prompt has no whitespace at its ends. */
  lemma DefaultPromptEnds()
    ensures DefaultPrompt != [] && !IsWhitespace(DefaultPrompt[0]) && !IsWhitespace(DefaultPrompt[|DefaultPrompt| - 1])
  {
    var rest := PromptHead + PromptMiddle;
    assert DefaultPrompt == rest + PromptTail;
    assert DefaultPrompt[0] == PromptHead[0] == 'A';
    assert DefaultPrompt[|DefaultPrompt| - 1] == PromptTail[|PromptTail| - 1] == '.';
  }

  /** The prompt sent is never empty and has no whitespace at its ends. */
  lemma PromptEnds(customPrompt: Option<String>)
    ensures var p := PromptFor(customPrompt);
      p != [] && !IsWhitespace(p[0]) && !IsWhitespace(p[|p| - 1])
  {
    if customPrompt.None? || Trim(customPrompt.value) == [] {
      DefaultPromptEnds();
    }
  }

  /** The prompt sent is its own trim: trimming it again changes nothing. */
  lemma PromptTrimmed(customPrompt: Option<String>)
    ensures Trim(PromptFor(customPrompt)) == PromptFor(customPrompt)
  {
    PromptEnds(customPrompt);
    TrimUntouched(PromptFor(customPrompt));
  }

  /** The payload is the text after the first `base64,`, cut at the next one, if any;
      without a `base64,` it is empty. */
  lemma PayloadAfterMarker(imageData: String)
    ensures !Contains(imageData, Base64Marker) ==> Payload(imageData) == []
    ensures Contains(imageData, Base64Marker) ==> AfterFirst(imageData, Base64Marker, Payload(imageData))
    ensures !Contains(Payload(imageData), Base64Marker)
  {
    if Contains(imageData, Base64Marker) {
      SecondPieceStops(imageData, Base64Marker);
    }
  }

  /** Data without `base64` fails before the model is called, with the format message
      behind the failure prefix. */
  lemma RejectsWithoutBase64(imageData: String, customPrompt: Option<String>, generate: Request -> Reply)
    requires !Contains(imageData, "base64")
    ensures AnalyzeImage(imageData, customPrompt, generate) == Failure(FailurePrefix + InvalidFormatMessage)
  {
  }

  /** Data holding `base64` but no non-empty payload after a `base64,` fails before the
      model is called, with the payload message behind the failure prefix. */
  lemma RejectsWithoutPayload(imageData: String, customPrompt: Option<String>, generate: Request -> Reply)
    requires Contains(imageData, "base64") && Payload(imageData) == []
    ensures AnalyzeImage(imageData, customPrompt, generate) == Failure(FailurePrefix + InvalidPayloadMessage)
  {
  }

  /** The model is asked exactly when the payload is there: the result then depends on
      the reply alone, and the request carries the payload, the prompt and the JPEG type. */
  lemma CallsModelWithPayload(imageData: String, customPrompt: Option<String>, generate: Request -> Reply)
    requires Contains(imageData, "base64") && Payload(imageData) != []
    ensures var request := RequestFor(Payload(imageData), customPrompt);
      && request.mimeType == JpegMimeType
      && request.data == Payload(imageData)
      && request.prompt == PromptFor(customPrompt)
      && AnalyzeImage(imageData, customPrompt, generate) == ReplyOutcome(generate(request))
  {
    PayloadHoldsMarker(imageData);
  }

  /** How a reply is turned into the result when the model was called. */
  function ReplyOutcome(reply: Reply): (r: Result<String, String>)
    ensures r.Success? <==> reply.Replied? && reply.text != []
    ensures r.Success? ==> r.value == reply.text
    ensures reply == Replied([]) ==> r == Failure(FailurePrefix + NoAnalysisMessage)
    ensures reply.Threw? ==> r == Failure(Rewrap(reply.thrown))
  {
    match reply
    case Threw(t) => Failure(Rewrap(t))
    case Replied(text) => if text == [] then Failure(FailurePrefix + NoAnalysisMessage) else Success(text)
  }

  /** A data string with a non-empty payload holds `base64,`. */
  lemma PayloadHoldsMarker(imageData: String)
    requires Payload(imageData) != []
    ensures Contains(imageData, Base64Marker) && Contains(imageData, "base64") && imageData != []
  {
    PayloadAfterMarker(imageData);
    assert Base64Marker == "base64" + ",";
    ContainsPrefix(imageData, "base64", ",");
  }

  /** A success is the model's own non-empty text for the one request made. */
  lemma SuccessIsReply(imageData: String, customPrompt: Option<String>, generate: Request -> Reply)
    requires AnalyzeImage(imageData, customPrompt, generate).Success?
    ensures Payload(imageData) != []
    ensures generate(RequestFor(Payload(imageData), customPrompt)) == Replied(AnalyzeImage(imageData, customPrompt, generate).value)
  {
  }

  /** The rewrapped message tells what was thrown: different throws give different messages. */
  lemma RewrapInjective(a: Thrown, b: Thrown)
    requires Rewrap(a) == Rewrap(b)
    ensures a == b
  {
    var n := |FailurePrefix| - 2;
    assert Rewrap(a)[n] == (if a.ErrorThrown? then ':' else '.');
    assert Rewrap(b)[n] == (if b.ErrorThrown? then ':' else '.');
    if a.ErrorThrown? && b.ErrorThrown? {
      assert a.message == Rewrap(a)[|FailurePrefix|..];
    }
  }

  /** A PNG data URL, as a browser's file reader produces it. */
  const PngDataUrl: String := PngHead + Base64Marker + PngPayload
  const PngHead: String := "data:image/png;"
  const PngPayload: String := "iVBORw0KGgo"

  /** A data URL that says PNG is still sent as JPEG, with the text after `base64,`. */
  lemma PngSentAsJpeg(generate: Request -> Reply)
    ensures var request := RequestFor(Payload(PngDataUrl), None);
      && request == Request(DefaultPrompt, JpegMimeType, PngPayload)
      && AnalyzeImage(PngDataUrl, None, generate) == ReplyOutcome(generate(request))
  {
    PngPayloadFound();
    PayloadHoldsMarker(PngDataUrl);
    CallsModelWithPayload(PngDataUrl, None, generate);
  }

  lemma PngPayloadFound()
    ensures Payload(PngDataUrl) == PngPayload
  {
    assert 'b' !in PngHead && ',' !in PngPayload;
    MarkerOnce(PngHead, PngPayload);
  }

  /** The same URL cut short before the comma. */
  const CommaLessUrl: String := PngHead + "base64"

  /** `base64` without the comma after it leaves no payload. */
  lemma Base64WithoutComma(generate: Request -> Reply)
    ensures AnalyzeImage(CommaLessUrl, None, generate) == Failure(FailurePrefix + InvalidPayloadMessage)
  {
    CommaLessHasNoPayload();
    RejectsWithoutPayload(CommaLessUrl, None, generate);
  }

  lemma CommaLessHasNoPayload()
    ensures Contains(CommaLessUrl, "base64") && Payload(CommaLessUrl) == []
  {
    assert ',' !in CommaLessUrl;
    LacksChar(CommaLessUrl, Base64Marker, 6);
    PayloadAfterMarker(CommaLessUrl);
    assert CommaLessUrl[|PngHead|..] == "base64";
    OccursContains(CommaLessUrl, "base64", |PngHead|);
  }

  /** Between a text without `b` and one without `,` the marker occurs once, so the
      payload is all of the text after it. */
  lemma MarkerOnce(head: String, tail: String)
    requires 'b' !in head && ',' !in tail && tail != []
    ensures Payload(head + Base64Marker + tail) == tail
  {
    var d := head + Base64Marker + tail;
    assert OccursAt(d, Base64Marker, |head|) by {
      assert d[|head|..|head| + |Base64Marker|] == Base64Marker;
    }
    assert d[..|head|] == head;
    IndexOfAfterFree(d, Base64Marker, |head|);
    var after := d[|head| + |Base64Marker|..];
    assert after == tail;
    SplitFirst(d, Base64Marker, |head|);
    LacksChar(tail, Base64Marker, 6);
    assert Split(tail, Base64Marker) == [tail];
  }
}

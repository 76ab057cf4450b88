/** The `POST /process` request pipeline: pick the payload text from an
    uploaded file or the `text` form field, validate it, forward it to the
    inference API and wrap the answer or the error in a JSON envelope. */
module Handler {

  import opened Wrappers
  import opened JsonValue
  import opened PyStr
  import opened Errors

  newtype byte = x: int | 0 <= x < 256

  /** An uploaded file: its name and its raw contents. */
  datatype Upload = Upload(filename: string, content: seq<byte>)

  /** The multipart form: optional `file`, optional `text`, and `task`
      (which the form fills with "summarize" when absent). */
  datatype Request = Request(file: Option<Upload>, text: Option<string>, task: string)

  /** The library calls the handler makes on file contents, as partial
      functions: UTF-8 decoding (`None` on a decode error) and JSON parsing
      (`None` on a JSON syntax error). */
  datatype Codecs = Codecs(decodeUtf8: seq<byte> -> Option<string>, parseJson: string -> Option<Json>)

  /** The inference API's answer to one POST: the parsed JSON body, or
      `Fail` for a network error, a timeout, a 4xx or 5xx status or a body
      that is not JSON (each raised as a `requests.RequestException`). */
  datatype Reply = Ok(body: Json) | Fail

  /** The HTTP response: a status and a JSON body, or `Unspecified` when the
      request fails outside the three documented error kinds. */
  datatype Response = Response(status: int, body: Json) | Unspecified

  const MaxInputLength := 5000

  /** A text the handler is willing to forward. */
  predicate Acceptable(s: string)
  {
    1 <= |s| <= MaxInputLength
  }

  // ---------------------------------------------------------------------
  // Validation
  // ---------------------------------------------------------------------

  /** `validate_input`: passes the text through when it is acceptable and
      fails with the matching input-validation error otherwise. */
  function Validate(s: string): (r: Outcome<string>)
    ensures r.Success? <==> Acceptable(s)
    ensures r.Success? ==> r.value == s
    ensures |s| == 0 ==> r == Failure(Error(InputValidation, EmptyInputMessage))
    ensures |s| > MaxInputLength ==> r == Failure(Error(InputValidation, TooLongMessage))
    ensures !r.Unspecified?
  {
    if |s| == 0 then Failure(Error(InputValidation, EmptyInputMessage))
    else if |s| > MaxInputLength then Failure(Error(InputValidation, TooLongMessage))
    else Success(s)
  }

  // ---------------------------------------------------------------------
  // Input resolution
  // ---------------------------------------------------------------------

  datatype FileKind = CsvFile | JsonFile | OtherFile

  /** Suffix dispatch on the lower-cased file name; `.csv` is tested first. */
  function KindOf(filename: string): FileKind
  {
    var name := Lower(filename);
    if EndsWith(name, ".csv") then CsvFile
    else if EndsWith(name, ".json") then JsonFile
    else OtherFile
  }

  /** The file contents decoded as UTF-8 text. */
  function DecodeText(codecs: Codecs, content: seq<byte>): Outcome<string>
  {
    match codecs.decodeUtf8(content)
    case Some(s) => Success(s)
    case None => Failure(Error(FileProcessing, UndecodableMessage))
  }

  /** `parsed.get('text', '') if isinstance(parsed, dict) else ''`. A falsy
      field of another type stands as "": validation rejects it exactly as it
      rejects "", with "Input cannot be empty.". A truthy non-string field is
      left unspecified. */
  function TextField(parsed: Json): Outcome<string>
  {
    match parsed
    case JObject(fields) =>
      if "text" !in fields then Success("")
      else if fields["text"].JString? then Success(fields["text"].s)
      else if Falsy(fields["text"]) then Success("")
      else Outcome.Unspecified
    case _ => Success("")
  }

  /** The `.json` branch: decode, parse, take the `text` field. */
  function ReadJsonText(codecs: Codecs, content: seq<byte>): Outcome<string>
  {
    match DecodeText(codecs, content)
    case Failure(e) => Failure(e)
    case Unspecified => Outcome.Unspecified
    case Success(s) =>
      match codecs.parseJson(s)
      case None => Failure(Error(FileProcessing, InvalidJsonMessage))
      case Some(parsed) => TextField(parsed)
  }

  /** The text an uploaded file yields. */
  function ResolveFile(f: Upload, codecs: Codecs): (r: Outcome<string>)
    // every error from a file is a file-processing error
    ensures r.Failure? ==> r.error.kind == FileProcessing
    // undecodable bytes fail the same way in every branch, `.json` included
    ensures codecs.decodeUtf8(f.content).None? ==> r == Failure(Error(FileProcessing, UndecodableMessage))
    // `.csv` and every other non-`.json` name: the decoded text, verbatim
    ensures KindOf(f.filename) != JsonFile && codecs.decodeUtf8(f.content).Some?
            ==> r == Success(codecs.decodeUtf8(f.content).value)
    ensures KindOf(f.filename) != JsonFile ==> r.Success? || r.error.detail == UndecodableMessage
    // a JSON syntax error is reported exactly for a decodable `.json` file that does not parse
    ensures r == Failure(Error(FileProcessing, InvalidJsonMessage))
        <==> KindOf(f.filename) == JsonFile && codecs.decodeUtf8(f.content).Some?
             && codecs.parseJson(codecs.decodeUtf8(f.content).value).None?
    // a parsed `.json` value: its string `text` field, or "" when it has none or is no object
    ensures KindOf(f.filename) == JsonFile && codecs.decodeUtf8(f.content).Some?
            && codecs.parseJson(codecs.decodeUtf8(f.content).value).Some?
            ==> var v := codecs.parseJson(codecs.decodeUtf8(f.content).value).value;
                && (!v.JObject? ==> r == Success(""))
                && (v.JObject? && "text" !in v.fields ==> r == Success(""))
                && (v.JObject? && "text" in v.fields && v.fields["text"].JString?
                    ==> r == Success(v.fields["text"].s))
                && (v.JObject? && "text" in v.fields && Falsy(v.fields["text"]) ==> r == Success(""))
    // only a truthy non-string `text` field leaves the documented behaviour
    ensures r.Unspecified?
        <==> KindOf(f.filename) == JsonFile && codecs.decodeUtf8(f.content).Some?
             && codecs.parseJson(codecs.decodeUtf8(f.content).value).Some?
             && var v := codecs.parseJson(codecs.decodeUtf8(f.content).value).value;
                v.JObject? && "text" in v.fields && !v.fields["text"].JString? && !Falsy(v.fields["text"])
  {
    match KindOf(f.filename)
    case CsvFile => DecodeText(codecs, f.content)
    case JsonFile => ReadJsonText(codecs, f.content)
    case OtherFile => DecodeText(codecs, f.content)
  }

  /** The text the request carries: the file's when a file is uploaded,
      otherwise the non-empty `text` field. */
  function Resolve(file: Option<Upload>, text: Option<string>, codecs: Codecs): (r: Outcome<string>)
    // without a file, a non-empty field is taken unchanged, and nothing else is accepted
    ensures file.None? ==> (r.Success? <==> text.Some? && text.value != [])
    ensures file.None? && r.Success? ==> r.value == text.value
    ensures file.None? && !r.Success? ==> r == Failure(Error(InputValidation, NoInputMessage))
    // "No input provided." is the only input-validation error raised here
    ensures r.Failure? && r.error.kind == InputValidation ==> file.None? && r.error.detail == NoInputMessage
    ensures r.Failure? ==> r.error.kind != LlmProcessing
    // file errors arise only from a file
    ensures r.Failure? && r.error.kind == FileProcessing ==> file.Some?
  {
    if file.Some? then ResolveFile(file.value, codecs)
    else if text.Some? && text.value != [] then Success(text.value)
    else Failure(Error(InputValidation, NoInputMessage))
  }

  /** Resolution followed by validation: the text that may be forwarded. */
  function Prepare(req: Request, codecs: Codecs): (r: Outcome<string>)
    // whatever is forwarded was resolved from the request and is acceptable
    ensures r.Success? ==> Acceptable(r.value)
    ensures r.Success? ==> Resolve(req.file, req.text, codecs) == Success(r.value)
    // validation runs on the resolved text; a resolution failure is passed on as it is
    ensures Resolve(req.file, req.text, codecs).Success?
            ==> r == Validate(Resolve(req.file, req.text, codecs).value)
    ensures !Resolve(req.file, req.text, codecs).Success? ==> r == Resolve(req.file, req.text, codecs)
    ensures r.Failure? ==> r.error.kind != LlmProcessing
  {
    match Resolve(req.file, req.text, codecs)
    case Success(t) => Validate(t)
    case Failure(e) => Failure(e)
    case Unspecified => Outcome.Unspecified
  }

  // ---------------------------------------------------------------------
  // Remote call
  // ---------------------------------------------------------------------

  /** The JSON body posted to the inference API. `task` is accepted and not used. */
  function Payload(text: string, task: string): Json
  {
    Single("inputs", JString(text))
  }

  /** The outbound payload is `{"inputs": text}` whatever the task. */
  lemma PayloadIgnoresTask(text: string, task1: string, task2: string)
    ensures Payload(text, task1) == Payload(text, task2)
    ensures Payload(text, task1).JObject? && Payload(text, task1).fields.Keys == {"inputs"}
    ensures Payload(text, task1).fields["inputs"] == JString(text)
  {
  }

  /** `call_llm_api`: post the payload; any request failure becomes an LLM error. */
  function CallLlm(text: string, task: string, post: Json -> Reply): (r: Outcome<Json>)
    ensures r.Success? <==> post(Payload(text, task)).Ok?
    ensures r.Success? ==> r.value == post(Payload(text, task)).body
    ensures !r.Success? ==> r == Failure(Error(LlmProcessing, LlmFailedMessage))
  {
    match post(Payload(text, task))
    case Ok(body) => Success(body)
    case Fail => Failure(Error(LlmProcessing, LlmFailedMessage))
  }

  // ---------------------------------------------------------------------
  // Response assembly
  // ---------------------------------------------------------------------

  /** The body of the handler's `try`: prepare, then call the API. */
  function Process(req: Request, codecs: Codecs, post: Json -> Reply): Outcome<Json>
  {
    match Prepare(req, codecs)
    case Success(t) => CallLlm(t, req.task, post)
    case Failure(e) => Failure(e)
    case Unspecified => Outcome.Unspecified
  }

  /** The handler's `except`: a value becomes `200 {"result": v}` and each of
      the three error kinds its own status with `{"error": detail}`. */
  function Envelope(o: Outcome<Json>): (r: Response)
    ensures r.Unspecified? <==> o.Unspecified?
    ensures r.Response? ==> r.status in {200, 400, 500}
    ensures r.Response? && r.status == 200 <==> o.Success?
    ensures o.Success? ==> r.body == ResultBody(o.value)
    ensures o.Failure? ==> r == Response(StatusCode(o.error.kind), ErrorBody(o.error.detail))
  {
    match o
    case Success(v) => Response(200, ResultBody(v))
    case Failure(e) => Response(StatusCode(e.kind), ErrorBody(e.detail))
    case Unspecified => Response.Unspecified
  }

  /** `process_data`: the whole request, end to end. */
  function Handle(req: Request, codecs: Codecs, post: Json -> Reply): (r: Response)
    // success: the text was accepted and the API answered; its answer is relayed unchanged
    ensures r.Response? && r.status == 200
        <==> Prepare(req, codecs).Success? && post(Payload(Prepare(req, codecs).value, req.task)).Ok?
    ensures r.Response? && r.status == 200
        ==> r.body == ResultBody(post(Payload(Prepare(req, codecs).value, req.task)).body)
    // 500: the text was accepted and the API call failed
    ensures r.Response? && r.status == 500
        <==> Prepare(req, codecs).Success? && post(Payload(Prepare(req, codecs).value, req.task)).Fail?
    ensures r.Response? && r.status == 500 ==> r.body == ErrorBody(LlmFailedMessage)
    // 400: resolution or validation failed, and its message is relayed
    ensures r.Response? && r.status == 400 <==> Prepare(req, codecs).Failure?
    ensures Prepare(req, codecs).Failure? ==> r.body == ErrorBody(Prepare(req, codecs).error.detail)
    ensures r.Unspecified? <==> Prepare(req, codecs).Unspecified?
    ensures r.Response? ==> r.status in {200, 400, 500}
  {
    Envelope(Process(req, codecs, post))
  }

  // ---------------------------------------------------------------------
  // Properties of the pipeline
  // ---------------------------------------------------------------------

  /** An uploaded file alone decides the text; the `text` field is then
      ignored, even when it is non-empty. */
  lemma FileOverridesText(f: Upload, text1: Option<string>, text2: Option<string>, codecs: Codecs)
    ensures Resolve(Some(f), text1, codecs) == Resolve(Some(f), text2, codecs)
    ensures Resolve(Some(f), text1, codecs) == ResolveFile(f, codecs)
  {
  }

  /** Suffix dispatch ignores ASCII letter case: names that differ only in
      case are handled alike. */
  lemma DispatchIgnoresCase(a: string, b: string)
    requires SameIgnoringCase(a, b)
    ensures KindOf(a) == KindOf(b)
  {
    LowerAgrees(a, b);
  }

  /** A name is dispatched as `.json` exactly when its last five characters
      spell ".json" in any mix of cases. */
  lemma JsonSuffixInAnyCase(name: string)
    ensures KindOf(name) == JsonFile <==> |name| >= 5 && SameIgnoringCase(name[|name| - 5..], ".json")
  {
    assert Lower(".json") == ".json";
    EndsWithLowerIgnoresCase(name, ".json");
    if EndsWith(Lower(name), ".json") {
      assert Lower(name)[|name| - 1] == 'n';
    }
  }

  /** A name is dispatched as `.csv` exactly when its last four characters
      spell ".csv" in any mix of cases. */
  lemma CsvSuffixInAnyCase(name: string)
    ensures KindOf(name) == CsvFile <==> |name| >= 4 && SameIgnoringCase(name[|name| - 4..], ".csv")
  {
    assert Lower(".csv") == ".csv";
    EndsWithLowerIgnoresCase(name, ".csv");
  }

  /** With no file, an absent or empty `text` field is answered with
      "No input provided." (not with the validator's "Input cannot be empty."),
      and the inference API is not called. */
  lemma NoInputRejected(text: Option<string>, task: string, codecs: Codecs, post: Json -> Reply)
    requires text.None? || text.value == []
    ensures Handle(Request(None, text, task), codecs, post) == Response(400, ErrorBody(NoInputMessage))
  {
  }

  /** The response depends on the inference API only through its answer to
      `{"inputs": t}` for the text `t` that passed validation: two APIs that
      agree on that one payload give the same response, and when resolution
      or validation fails any two APIs do. */
  lemma RemoteSeesOnlyAcceptedPayload(req: Request, codecs: Codecs, post1: Json -> Reply, post2: Json -> Reply)
    requires Prepare(req, codecs).Success?
             ==> post1(Payload(Prepare(req, codecs).value, req.task))
                 == post2(Payload(Prepare(req, codecs).value, req.task))
    ensures Handle(req, codecs, post1) == Handle(req, codecs, post2)
  {
  }

  /** The `task` field never changes the response. */
  lemma TaskIgnored(req: Request, task: string, codecs: Codecs, post: Json -> Reply)
    ensures Handle(req.(task := task), codecs, post) == Handle(req, codecs, post)
  {
  }

  /** Inline text with an answering API: the answer comes back under
      "result" with status 200 (e.g. "Hello world" and `{"summary_text": "Hi"}`). */
  lemma InlineTextRelayed(text: string, task: string, codecs: Codecs, post: Json -> Reply, answer: Json)
    requires Acceptable(text)
    requires post(Payload(text, task)) == Ok(answer)
    ensures Handle(Request(None, Some(text), task), codecs, post) == Response(200, ResultBody(answer))
  {
  }

  /** A `.json` upload whose object has a falsy `text` field (`""`, `null`,
      `false`, `0`, `[]` or `{}`) is rejected by validation with
      "Input cannot be empty.", whatever the `text` form field says and
      without calling the API. */
  lemma FalsyJsonTextRejected(f: Upload, text: Option<string>, task: string, codecs: Codecs, post: Json -> Reply)
    requires KindOf(f.filename) == JsonFile
    requires codecs.decodeUtf8(f.content).Some?
    requires codecs.parseJson(codecs.decodeUtf8(f.content).value).Some?
    requires var v := codecs.parseJson(codecs.decodeUtf8(f.content).value).value;
             v.JObject? && "text" in v.fields && Falsy(v.fields["text"])
    ensures Handle(Request(Some(f), text, task), codecs, post) == Response(400, ErrorBody(EmptyInputMessage))
  {
  }
}

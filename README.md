# Request pipeline of the LLM summarizer service

This project models the `POST /process` handler of a small FastAPI service. The handler
takes text, either inline or from an uploaded file, and validates it. It forwards the text
to a remote inference API and wraps the answer or the error in a JSON envelope. The model
is pure: datatypes, functions and lemmas, as in the source, which has no loops and no
mutable state.

- `Wrappers`: `Option`.
- `JsonValue`: JSON values and the `{"error": …}` and `{"result": …}` bodies.
- `PyStr`: the two string methods the handler applies to a file name, `str.lower()` (ASCII
  letters) and `str.endswith`. The module also has a reference relation, "same up to ASCII
  letter case", that lowering is proved to decide.
- `Errors`: the three error kinds (input validation, file processing, LLM processing), their
  messages and status codes, and `Outcome`. An `Outcome` is a value, one of the three
  errors, or `Unspecified`.
- `Handler`: validation, input resolution, the outbound payload, the remote call, the
  envelope and the end-to-end `Handle`, with lemmas about them.

The environment appears as parameters:

- UTF-8 decoding is a partial function `seq<byte> -> Option<string>`. `None` is a decode
  error.
- JSON parsing is a partial function `string -> Option<Json>`. `None` is a syntax error.
- The inference API is a function from the posted JSON payload to `Ok(body)` or `Fail`.
  `Fail` stands for a network error, a timeout, a 4xx or 5xx status or a body that is not JSON.

Two behaviours of the handler are worth stating up front:

- The handler accepts both a file and a `text` field in one request and uses the file
  (main.py:71, `FileOverridesText`).
- In a `.json` upload, a parsed value that is not an object gives `''` (main.py:81). A
  `text` field that is falsy but not a string (`null`, `false`, `0`, `[]`, `{}`) fails
  validation with "Input cannot be empty." (main.py:42-43), just as `''` does. The model
  resolves such a field to `''` (`FalsyJsonTextRejected`).

## Model

| member | source | states |
|---|---|---|
| `Errors.StatusCode` | main.py:27-37 | An input-validation error and a file-processing error give 400. An LLM-processing error gives 500, and only it does. |
| `Handler.Validate` | main.py:41-45 | Succeeds exactly when 1 <= length <= 5000, and then passes the text through unchanged. An empty string fails with "Input cannot be empty.". Length 5001 or more fails with "Input exceeds the maximum allowed length.". |
| `PyStr.Lower` | main.py:74 | `filename.lower()` keeps the length and lowers each character in place. |
| `PyStr.LowerAgrees` | main.py:74 | Two names lower to the same string exactly when they differ only in the case of ASCII letters. |
| `PyStr.EndsWithLowerIgnoresCase` | main.py:74-78 | A lower-case suffix ends the lowered name exactly when the name's last characters match it up to case. |
| `Handler.DispatchIgnoresCase` | main.py:74-85 | Names that differ only in letter case are dispatched to the same branch. |
| `Handler.JsonSuffixInAnyCase` | main.py:74-78 | A file takes the `.json` branch exactly when its name ends in ".json" in any mix of cases. |
| `Handler.CsvSuffixInAnyCase` | main.py:74-77 | A file takes the `.csv` branch exactly when its name ends in ".csv" in any mix of cases. |
| `Handler.ResolveFile` | main.py:72-88 | Only file-processing errors are raised. Undecodable bytes give "Unable to decode file content." in every branch, `.json` included. A `.csv` name or any other non-`.json` name gives the decoded text verbatim. "Invalid JSON format." is raised exactly for a decodable `.json` file that does not parse. A parsed object gives its string `text` field, or `''` when the field is absent or falsy. A parsed non-object gives `''`. Only a truthy non-string `text` field is left unspecified. |
| `Handler.Resolve` | main.py:70-93 | Without a file, a non-empty `text` is taken unchanged, and an absent or empty one fails with "No input provided.". That is the only input-validation error resolution raises. File errors arise only when a file is present. |
| `Handler.FileOverridesText` | main.py:71-91 | When a file is present, the result does not depend on the `text` field. |
| `Handler.Prepare` | main.py:70-95 | Validation runs on the resolved text, and a resolution failure passes through unchanged. Any text accepted for forwarding is 1..5000 characters long and is exactly the resolved text. |
| `Handler.PayloadIgnoresTask` | main.py:49-54 | The outbound payload is the single-key object `{"inputs": text}`, whatever `task` is. |
| `Handler.CallLlm` | main.py:49-60 | An answering API gives its body unchanged. Any request failure gives "LLM API processing failed.". |
| `Handler.Envelope` | main.py:97-100 | A value gives `200 {"result": v}`. Each error gives its kind's status and `{"error": detail}`. The status is always 200, 400 or 500. |
| `JsonValue.BodiesAreDistinguishable` | main.py:97-100 | A success body and an error body are never equal, and each one returns what was put into it. |
| `Handler.Handle` | main.py:64-100 | Status 200 is returned exactly when the text was accepted and the API answered, and the answer is relayed unchanged under `result`. Status 500 is returned exactly when the text was accepted and the API failed. Status 400 is returned exactly when resolution or validation failed, and it relays that error's message. |
| `Handler.RemoteSeesOnlyAcceptedPayload` | main.py:95-96 | The response depends on the API only through its answer to `{"inputs": t}` for the accepted text `t`. When resolution or validation fails, the API is not consulted at all. |
| `Handler.TaskIgnored` | main.py:68 | Changing `task` never changes the response. |
| `Handler.NoInputRejected` | main.py:90-93 | No file and an absent or empty `text` give `400 {"error": "No input provided."}`, not the validator's message. |
| `Handler.InlineTextRelayed` | main.py:90-97 | Acceptable inline text with an answering API gives `200 {"result": answer}`. |
| `Handler.FalsyJsonTextRejected` | main.py:78-95 | A `.json` upload whose object has a falsy `text` field (`{"text": ""}`, `null`, `false`, `0`, `[]`, `{}`) gives `400 {"error": "Input cannot be empty."}`, whatever the form's `text` is. |

## Left out

- FastAPI routing, multipart parsing, the asynchronous file read and the construction of the `JSONResponse` (main.py:4-5, 64-69, 73). These are framework plumbing. A request is a value: an optional upload (name and bytes), an optional `text` and a `task` string.
- The HTTP client call, its 30-second timeout, the bearer-token headers and `raise_for_status` (main.py:50-58). The model replaces them with the `post` parameter, which returns `Ok(body)` or `Fail`.
- Configuration loading from the environment, the startup `RuntimeError` when the API key is missing, and the `uvicorn` entry point (main.py:10-23, 102-104). These are process setup, not request handling.
- The real UTF-8 decoder and JSON parser (main.py:77, 80, 85). They are library code and appear as partial-function parameters.
- `Handler.ResolveFile`: a truthy non-string JSON `text` field gives `Unspecified`. In the source (main.py:81, 41-45, 54), a non-empty list or object of at most 5000 items or keys is forwarded as `{"inputs": value}`. A longer one fails with "Input exceeds the maximum allowed length.". A non-zero number or `true` raises an unhandled `TypeError` from `len`.
- JSON strings are sequences of Unicode scalar values, so a lone surrogate that `json.loads` can produce from a `\ud800` escape is not representable.
- `Handler.Handle`: relays every `Ok` answer with status 200. In the source, the response at main.py:97 serialises the answer with `allow_nan=False` and UTF-8 encoding. An answer holding NaN or an infinity raises `ValueError`, and one holding a lone surrogate raises `UnicodeEncodeError`. main.py:99 catches neither, so the client gets an unhandled 500. The model's `Json` values cannot hold such answers.
- An upload without a file name (main.py:74). The source raises `AttributeError` there, outside the documented errors. The model's upload always has a name.
- `PyStr.Lower`: lowers only ASCII letters. Python's `str.lower()` is full Unicode lowering and can change the length of some strings. In Unicode's case tables, no character outside ASCII lowers to a character of ".csv" or ".json", and the one multi-character lowering ends in a combining mark. So the dispatch verdict is expected to be the same, but the model does not prove this.
- Any other unexpected exception (main.py:99 catches only the three kinds). The model has no such failures except the `Unspecified` case above, which the response also reports as `Unspecified`.

/** The three error kinds the handler raises and catches, their fixed
    messages and HTTP status codes, and the outcome of a pipeline step. */
module Errors {

  datatype ErrorKind = InputValidation | FileProcessing | LlmProcessing

  /** An error is a kind and the detail message it carries. */
  datatype Error = Error(kind: ErrorKind, detail: string)

  /** The status code each kind is raised with. */
  function StatusCode(kind: ErrorKind): (code: int)
    ensures code == 500 <==> kind == LlmProcessing
    ensures code == 400 <==> kind != LlmProcessing
  {
    match kind
    case InputValidation => 400
    case FileProcessing => 400
    case LlmProcessing => 500
  }

  const EmptyInputMessage := "Input cannot be empty."
  const TooLongMessage := "Input exceeds the maximum allowed length."
  const NoInputMessage := "No input provided."
  const InvalidJsonMessage := "Invalid JSON format."
  const UndecodableMessage := "Unable to decode file content."
  const LlmFailedMessage := "LLM API processing failed."

  /** What a step of the pipeline produces: a value, one of the three
      documented errors, or a case whose behaviour is left unspecified
      (a failure outside the three kinds, or none at all). */
  datatype Outcome<+T> = Success(value: T) | Failure(error: Error) | Unspecified
}

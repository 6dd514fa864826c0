/**
 * The `summarize` endpoints around `format_summary`: request validation,
 * the generation hints and their defaults, the input length cap of the
 * T5 variant, and the mapping from an Ollama failure to an HTTP status and
 * a user-facing message.
 */
module Summarize {
  import opened Text
  import opened Values

  /** What a request handler answers before any model is called. */
  datatype Validation = Accepted(fields: map<string, Json>) | BadRequest | ServerError

  /**
   * `if not data or 'text' not in data: return 400`, then `data['text']`.
   * Python's `in` on a list tests membership and on a string tests for a
   * substring; on a number or `True` it raises, as does subscripting
   * anything but a dictionary with a string key, which Flask answers 500.
   */
  function ValidateRequest(data: Json): (v: Validation)
    ensures v.Accepted? <==> data.Obj? && "text" in data.fields
    ensures v.Accepted? ==> v.fields == data.fields
    ensures v.BadRequest? <==>
      || !Truthy(data)
      || (data.Obj? && "text" !in data.fields)
      || (data.Arr? && Str("text") !in data.items)
      || (data.Str? && !Contains(data.s, "text"))
  {
    if !Truthy(data) then BadRequest
    else match data
      case Obj(fields) => if "text" in fields then Accepted(fields) else BadRequest
      case Arr(items) => if Str("text") in items then ServerError else BadRequest
      case Str(s) => if Contains(s, "text") then ServerError else BadRequest
      case _ => ServerError
  }

  const DefaultMaxLength: Json := Num(150)
  const DefaultMinLength: Json := Num(30)
  const DefaultModel: Json := Str("llama3.2")

  /** The hints the Ollama backend reads from the request body. */
  datatype Hints = Hints(maxLength: Json, minLength: Json, model: Json)

  function RequestHints(fields: map<string, Json>): Hints {
    Hints(
      Get(fields, "max_length", DefaultMaxLength),
      Get(fields, "min_length", DefaultMinLength),
      Get(fields, "model", DefaultModel))
  }

  /** A hint that is present is passed through; a missing one takes its default. */
  lemma HintsDefaults(fields: map<string, Json>)
    ensures "max_length" in fields ==> RequestHints(fields).maxLength == fields["max_length"]
    ensures "max_length" !in fields ==> RequestHints(fields).maxLength == Num(150)
    ensures "min_length" in fields ==> RequestHints(fields).minLength == fields["min_length"]
    ensures "min_length" !in fields ==> RequestHints(fields).minLength == Num(30)
    ensures "model" in fields ==> RequestHints(fields).model == fields["model"]
    ensures "model" !in fields ==> RequestHints(fields).model == Str("llama3.2")
  {
  }

  const MaxInputLength := 1024

  /** The T5 endpoint cuts its input to the first 1024 characters. */
  function TruncateInput(text: string): (r: string)
    ensures |r| <= MaxInputLength && |r| <= |text|
    ensures r == text[..|r|]
    ensures |text| <= MaxInputLength ==> r == text
    ensures |text| > MaxInputLength ==> |r| == MaxInputLength
  {
    if |text| > MaxInputLength then text[..MaxInputLength] else text
  }

  /** The error answer of the Ollama backend. */
  datatype ErrorReply = ErrorReply(status: int, message: string)

  const ConnectionRefused := "Connection refused"
  const ConnectionFailed := "Failed to establish a new connection"
  const ModelNotFound := "model not found"
  const ContextWindow := "context window"

  const ConnectionMessage := "Could not connect to local Ollama service. Please ensure Ollama is running."
  const ContextMessage := "The input text is too long for the Ollama model's context window."

  /** The 404 message, which names the model. */
  function NotFoundMessage(model: string): (m: string)
    ensures Contains(m, model)
  {
    var prefix := "Ollama model specified ('";
    var suffix := "') not found. Please ensure it's downloaded (e.g., 'ollama pull llama3.2').";
    ContainsEnd(prefix, model);
    ContainsAppend(prefix + model, suffix, model);
    prefix + model + suffix
  }

  /** The 500 message, which carries the exception text. */
  function UnexpectedMessage(error: string): (m: string)
    ensures Contains(m, error)
  {
    var prefix := "An unexpected error occurred during summarization: ";
    ContainsEnd(prefix, error);
    prefix + error
  }

  /**
   * The status and message for an exception whose text is `error`;
   * `model` is the model name as the request gave it (or the default).
   */
  function ClassifyError(error: string, model: string): (r: ErrorReply)
    ensures r.status in {503, 404, 413, 500}
    ensures r.status == 503 <==> Contains(error, ConnectionRefused) || Contains(error, ConnectionFailed)
    ensures r.status == 404 <==>
      !Contains(error, ConnectionRefused) && !Contains(error, ConnectionFailed) && Contains(error, ModelNotFound)
    ensures r.status == 413 <==>
      && !Contains(error, ConnectionRefused) && !Contains(error, ConnectionFailed)
      && !Contains(error, ModelNotFound) && Contains(error, ContextWindow)
    ensures r.status == 404 ==> Contains(r.message, model)
    ensures r.status == 500 ==> Contains(r.message, error)
  {
    if Contains(error, ConnectionRefused) || Contains(error, ConnectionFailed) then
      ErrorReply(503, ConnectionMessage)
    else if Contains(error, ModelNotFound) then
      ErrorReply(404, NotFoundMessage(model))
    else if Contains(error, ContextWindow) then
      ErrorReply(413, ContextMessage)
    else
      ErrorReply(500, UnexpectedMessage(error))
  }
}

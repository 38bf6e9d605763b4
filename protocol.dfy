/**
 * Values exchanged by the OpenAI-compatible serving layer: adapter
 * descriptors, error responses and the outcome of a call into the engine.
 */
module Protocol {

  /** The HTTP status codes the serving layer reports. */
  datatype HTTPStatus = BadRequest | NotFound | UnprocessableEntity | InternalServerError
  {
    /** The numeric code, as `HTTPStatus.value` gives it. */
    function Value(): int
    {
      match this
      case BadRequest => 400
      case NotFound => 404
      case UnprocessableEntity => 422
      case InternalServerError => 500
    }
  }

  /** An error response: its message, error type name and numeric status code. */
  datatype ErrorResponse = ErrorResponse(message: string, errType: string, code: int)

  /** An adapter error response additionally names the adapter it is about. */
  datatype LoraErrorResponse = LoraErrorResponse(message: string, errType: string, code: int, errorLoraName: string)

  /**
   * `create_error_response`: keeps the message and the error type and reports the status as
   * its number, an error code (4xx or 5xx) that is a server error exactly
   * for `INTERNAL_SERVER_ERROR`.
   */
  function CreateErrorResponse(message: string, errType: string, status: HTTPStatus): (r: ErrorResponse)
    ensures r.message == message && r.errType == errType
    ensures 400 <= r.code < 600
    ensures r.code >= 500 <==> status == InternalServerError
  {
    ErrorResponse(message, errType, status.Value())
  }

  /**
   * `create_lora_error_response`: as `create_error_response`, and the
   * response names the adapter it is about.
   */
  function CreateLoraErrorResponse(message: string, loraName: string, errType: string, status: HTTPStatus)
    : (r: LoraErrorResponse)
    ensures r.message == message && r.errType == errType && r.errorLoraName == loraName
    ensures 400 <= r.code < 600
    ensures r.code >= 500 <==> status == InternalServerError
  {
    LoraErrorResponse(message, errType, status.Value(), loraName)
  }

  /** A registered adapter: name, integer id and local path. */
  datatype LoRARequest = LoRARequest(loraName: string, loraIntId: int, loraLocalPath: string)

  /**
   * The equality `list.remove` compares entries with. `LoRARequest` is
   * defined outside the modelled file, so both readings are modelled:
   * field-wise (a dataclass's default) and by `lora_int_id` alone.
   */
  datatype LoraEquality = FieldWise | IdOnly
  {
    predicate Equal(a: LoRARequest, b: LoRARequest) {
      match this
      case FieldWise => a == b
      case IdOnly => a.loraIntId == b.loraIntId
    }
  }

  /** An adapter given on the command line: name and local path. */
  datatype LoRAModulePath = LoRAModulePath(name: string, localPath: string)

  /** The `model` part of an add-adapter request body. */
  datatype LoraModel = LoraModel(name: string, path: string)

  datatype LoraAddRequest = LoraAddRequest(model: LoraModel)

  /**
   * What a call into the engine's model runner (`add_lora` / `remove_lora`)
   * came back with: a returned boolean, or an exception of one of the
   * categories the handlers distinguish, with its text (`str(e)`) where a
   * handler puts that into its message.
   */
  datatype EngineCall =
    | Completed(result: bool)
    | RaisedRuntimeError(text: string)
    | RaisedValueError(text: string)
    | RaisedOtherException
  {
    predicate Raised() { !Completed? }
  }

  /** The `Union[bool, ErrorResponse]` returned by the adapter administration calls. */
  datatype LoraResponse = Success(result: bool) | Failure(error: LoraErrorResponse)
}

/**
  The two error envelope shapes and the mapping that chooses between them
  (`ErrorHandler.create_error_response`).
 */
module ErrorEnvelope {
  import opened Wrappers

  /** The protocol name that selects the alternate envelope. */
  const CustomProtocol: string := "custom"

  const DefaultErrorType: string := "BadRequestError"

  /** `HTTPStatus.BAD_REQUEST`. */
  const BadRequest: int := 400

  datatype Envelope =
    | CustomError(retMsg: string, retCode: int, requestId: Option<string>)
    | ErrorResponse(message: string, errorType: string, code: int, requestId: Option<string>)
  {
    /** The status code the envelope carries, whichever shape it has. */
    function Code(): int {
      match this
      case CustomError(_, c, _) => c
      case ErrorResponse(_, _, c, _) => c
    }

    /** The human-readable message, whichever shape it has. */
    function Message(): string {
      match this
      case CustomError(m, _, _) => m
      case ErrorResponse(m, _, _, _) => m
    }
  }

  /**
    The shape depends on the protocol alone; both shapes keep the message, the
    status value and the request id, and only the default shape has a type.
   */
  function CreateErrorResponse(
    message: string,
    errorType: string := DefaultErrorType,
    status: int := BadRequest,
    requestId: Option<string> := None,
    protocol: string := "default"): (e: Envelope)
    ensures e.CustomError? <==> protocol == CustomProtocol
    ensures e.Code() == status && e.Message() == message && e.requestId == requestId
    ensures e.ErrorResponse? ==> e.errorType == errorType
  {
    if protocol == CustomProtocol then CustomError(message, status, requestId)
    else ErrorResponse(message, errorType, status, requestId)
  }

  /** Leaving out the optional arguments gives a 400 `BadRequestError` without a request id. */
  lemma DefaultsAreBadRequest(message: string, protocol: string)
    ensures CreateErrorResponse(message, protocol := protocol).Code() == 400
    ensures CreateErrorResponse(message, protocol := protocol).requestId == None
    ensures protocol != CustomProtocol ==>
      CreateErrorResponse(message, protocol := protocol) == ErrorResponse(message, "BadRequestError", 400, None)
  {
  }
}

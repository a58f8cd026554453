/** ApiCommonAdvice: the global exception handlers. Each exception kind is turned
    into an HTTP status and an error body. */
module ApiAdvice {
  import opened Wrappers
  import opened Exceptions

  const BadRequest := 400
  const NotFoundStatus := 404
  const InternalServerError := 500

  const NoResourceCode := "NoResource"
  const NoResourceMessage := "리소스를 찾을 수 없습니다."
  const ParameterNotValidCode := "ParameterNotValid"
  const ServerErrorCode := "ServerError"
  const ServerErrorMessage := "서버 에러입니다."

  /** ApiResponseDto: a success carrying data, or an error with a code, a message
      and an optional payload. */
  datatype ApiResponseDto =
    | Ok(data: string)
    | Error(errorCode: string, errorMessage: string, payload: Option<FieldList>)

  /** What the handler hands back to the client: the status from @ResponseStatus and
      the body. */
  datatype ErrorResponse = ErrorResponse(status: int, body: ApiResponseDto)

  /** Dispatch of an exception to the handler Spring selects for it. */
  function Handle(e: ApiException): (r: ErrorResponse)
    ensures r.body.Error?
    ensures r.status == BadRequest <==> e.BadParameter? || e.ClientError? || e.ArgumentNotValid?
    ensures r.status == NotFoundStatus <==> e.NotFound? || e.NoResourceFound?
    ensures r.status == InternalServerError <==> e.NonUniqueResult? || e.Unhandled?
    ensures e.BadParameter? || e.NotFound? || e.ClientError? ==>
      r.body == Error(e.errorCode, e.errorMessage, None)
    ensures e.NoResourceFound? ==> r.body == Error(NoResourceCode, NoResourceMessage, None)
    ensures e.ArgumentNotValid? ==>
      r.body == Error(ParameterNotValidCode, e.fieldList.errorMessage, Some(e.fieldList))
    ensures e.NonUniqueResult? || e.Unhandled? ==>
      r.body == Error(ServerErrorCode, ServerErrorMessage, None)
  {
    match e
    case BadParameter(code, message) => ErrorResponse(BadRequest, Error(code, message, None))
    case NotFound(code, message) => ErrorResponse(NotFoundStatus, Error(code, message, None))
    case ClientError(code, message) => ErrorResponse(BadRequest, Error(code, message, None))
    case NoResourceFound(_) => ErrorResponse(NotFoundStatus, Error(NoResourceCode, NoResourceMessage, None))
    case ArgumentNotValid(fieldList) =>
      ErrorResponse(BadRequest, Error(ParameterNotValidCode, fieldList.errorMessage, Some(fieldList)))
    case NonUniqueResult => ErrorResponse(InternalServerError, Error(ServerErrorCode, ServerErrorMessage, None))
    case Unhandled(_) => ErrorResponse(InternalServerError, Error(ServerErrorCode, ServerErrorMessage, None))
  }

  /** The catch-all handler does not pass the exception's own message to the client:
      every unanticipated exception gets the same response. */
  lemma UnhandledHidesMessage(m1: string, m2: string)
    ensures Handle(Unhandled(m1)) == Handle(Unhandled(m2)) == Handle(NonUniqueResult)
  {
  }
}

/** The exceptions the core throws and the advice catches. */
module Exceptions {

  /** ParameterErrorDto.FieldList: the per-field validation report built from a
      binding result. Only the summary message the advice reads is modelled. */
  datatype FieldList = FieldList(errorMessage: string)

  /** The error codes filled in by the one-argument constructors of BadParameter and
      NotFound. Those classes are not part of this model, so the values are left
      unspecified; no property below depends on them. */
  const BadParameterCode: string
  const NotFoundCode: string

  datatype ApiException =
    | BadParameter(errorCode: string, errorMessage: string)
    | NotFound(errorCode: string, errorMessage: string)
    | ClientError(errorCode: string, errorMessage: string)
      /** Spring MVC's NoResourceFoundException (no handler or static resource). */
    | NoResourceFound(resourcePath: string)
      /** MethodArgumentNotValidException raised by @Valid request bodies. */
    | ArgumentNotValid(fieldList: FieldList)
      /** The repository's single-result query found more than one row. */
    | NonUniqueResult
      /** Any other exception, with its own message. */
    | Unhandled(message: string)

  /** `new BadParameter(message)` */
  function NewBadParameter(message: string): (e: ApiException)
    ensures e.BadParameter? && e.errorMessage == message
  {
    BadParameter(BadParameterCode, message)
  }

  /** `new NotFound(message)` */
  function NewNotFound(message: string): (e: ApiException)
    ensures e.NotFound? && e.errorMessage == message
  {
    NotFound(NotFoundCode, message)
  }
}

/** The exceptions the request path can raise and the error codes they are
    reported under. */
module Exceptions {

  /** `CodecException`, `DecodingException` and `InvalidArgumentsException`
      from the zmapi exception module, and any other Python exception, known
      here by its type name only. */
  datatype Exception =
    | CodecException
    | DecodingException(cause: string)
    | InvalidArguments(message: string)
    | Unexpected(name: string)

  /** The error codes of zmapi's `error` module that the frontend uses. */
  datatype ECode = DECODE | CODEC | ARGS | GENERIC

  /** `EXCEPTION_TO_ECODE.get(type(e), error.GENERIC)`. */
  function ECodeOf(e: Exception): (code: ECode)
    ensures code == GENERIC <==> e.Unexpected?
    ensures code == ARGS <==> e.InvalidArguments?
    ensures code == CODEC <==> e == CodecException
    ensures code == DECODE <==> e.DecodingException?
  {
    match e
    case DecodingException(_) => DECODE
    case CodecException => CODEC
    case InvalidArguments(_) => ARGS
    case Unexpected(_) => GENERIC
  }

  /** The detail handed to `send_error`: the exception text for a mapped
      exception, the exception itself (shown by its type name) for a generic
      one. */
  function What(e: Exception): (what: string)
    ensures e.InvalidArguments? ==> what == e.message
    ensures e.Unexpected? ==> what == e.name
  {
    match e
    case CodecException => ""
    case DecodingException(cause) => cause
    case InvalidArguments(message) => message
    case Unexpected(name) => name
  }
}

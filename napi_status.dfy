/** The status/error bridge of `src/napi.rs`: the host reports every outcome
    as a `napi_status`; on anything but `napi_ok` the binding asks the host
    for its one-slot "last error" record and turns it into a `NapiError`. */
module NapiStatus {
  import opened RustStd

  /** `napi_status` as the host reports it. `NapiUnlisted` stands for any
      status value the binding's match does not name. */
  datatype Status =
    | NapiOk
    | NapiInvalidArg
    | NapiObjectExpected
    | NapiStringExpected
    | NapiNameExpected
    | NapiFunctionExpected
    | NapiNumberExpected
    | NapiBooleanExpected
    | NapiArrayExpected
    | NapiGenericFailure
    | NapiPendingException
    | NapiCancelled
    | NapiStatusLast
    | NapiUnlisted(code: int)

  /** `NapiErrorType`: one kind per named failure status. */
  datatype ErrorType =
    | InvalidArg
    | ObjectExpected
    | StringExpected
    | NameExpected
    | FunctionExpected
    | NumberExpected
    | BooleanExpected
    | ArrayExpected
    | GenericFailure
    | PendingException
    | Cancelled
    | StatusLast

  /** The twelve failure statuses that the table names. */
  predicate IsNamedFailure(s: Status) {
    s != NapiOk && !s.NapiUnlisted?
  }

  /** The failure status whose name the kind `k` carries. */
  function StatusOf(k: ErrorType): (s: Status)
    ensures IsNamedFailure(s)
  {
    match k
    case InvalidArg => NapiInvalidArg
    case ObjectExpected => NapiObjectExpected
    case StringExpected => NapiStringExpected
    case NameExpected => NapiNameExpected
    case FunctionExpected => NapiFunctionExpected
    case NumberExpected => NapiNumberExpected
    case BooleanExpected => NapiBooleanExpected
    case ArrayExpected => NapiArrayExpected
    case GenericFailure => NapiGenericFailure
    case PendingException => NapiPendingException
    case Cancelled => NapiCancelled
    case StatusLast => NapiStatusLast
  }

  /** `NapiErrorType::from(napi_status)`: total; a named failure keeps its
      name, everything else (`napi_ok` included) is a generic failure. */
  function ErrorTypeOf(s: Status): (k: ErrorType)
    ensures IsNamedFailure(s) ==> StatusOf(k) == s
    ensures !IsNamedFailure(s) ==> k == GenericFailure
  {
    match s
    case NapiInvalidArg => InvalidArg
    case NapiObjectExpected => ObjectExpected
    case NapiStringExpected => StringExpected
    case NapiNameExpected => NameExpected
    case NapiFunctionExpected => FunctionExpected
    case NapiNumberExpected => NumberExpected
    case NapiBooleanExpected => BooleanExpected
    case NapiArrayExpected => ArrayExpected
    case NapiGenericFailure => GenericFailure
    case NapiPendingException => PendingException
    case NapiCancelled => Cancelled
    case NapiStatusLast => StatusLast
    case _ => GenericFailure
  }

  /** Every kind is reached, and from the status of its own name. */
  lemma ErrorTypeOfStatusOf(k: ErrorType)
    ensures ErrorTypeOf(StatusOf(k)) == k
  {
  }

  /** `napi_extended_error_info`: the host's last-error record. */
  datatype ErrorInfo = ErrorInfo(message: string, engineErrorCode: u32, errorCode: Status)

  /** The record the host keeps after a call that succeeded. */
  const CLEARED: ErrorInfo := ErrorInfo("", 0, NapiOk)

  /** `NapiError`: what the binding propagates. */
  datatype NapiError = NapiError(message: string, engineErrorCode: u32, errorCode: ErrorType)

  /** `NapiError::from(napi_extended_error_info)`. */
  function ErrorFromInfo(info: ErrorInfo): (e: NapiError)
    ensures e.message == info.message
    ensures e.engineErrorCode == info.engineErrorCode
    ensures IsNamedFailure(info.errorCode) ==> StatusOf(e.errorCode) == info.errorCode
    ensures !IsNamedFailure(info.errorCode) ==> e.errorCode == GenericFailure
  {
    NapiError(info.message, info.engineErrorCode, ErrorTypeOf(info.errorCode))
  }

  /** The record of a named failure can be read back from its `NapiError`. */
  function InfoOf(e: NapiError): ErrorInfo {
    ErrorInfo(e.message, e.engineErrorCode, StatusOf(e.errorCode))
  }

  lemma ErrorFromInfoRoundTrip(info: ErrorInfo)
    requires IsNamedFailure(info.errorCode)
    ensures InfoOf(ErrorFromInfo(info)) == info
  {
  }

  /** `get_last_napi_error`: the outcome of the host's last-error query
      (`get_last_error_info`) with the record turned into a `NapiError`, or
      the query's own failing status turned into a kind. */
  function LastNapiError(query: Outcome<ErrorInfo, Status>): (r: Outcome<NapiError, ErrorType>)
    requires !query.Panic?
    ensures !r.Panic?
    ensures r.Ok? <==> query.Ok?
    ensures query.Ok? ==> r.value == ErrorFromInfo(query.value)
    ensures query.Err? && IsNamedFailure(query.error) ==> StatusOf(r.error) == query.error
    ensures query.Err? && !IsNamedFailure(query.error) ==> r.error == GenericFailure
  {
    match query
    case Ok(info) => Ok(ErrorFromInfo(info))
    case Err(s) => Err(ErrorTypeOf(s))
  }

  const LAST_ERROR_PANIC: string := "error fetching last napi error"

  /** `napi_either`: `val` passes through on `napi_ok`; on any other status
      the error is built from the last-error record (`query` is what the host
      answers to the last-error query), and a failing query panics. */
  function Either<T>(status: Status, val: T, query: Outcome<ErrorInfo, Status>): (r: Outcome<T, NapiError>)
    requires !query.Panic?
    ensures r.Ok? <==> status == NapiOk
    ensures r.Ok? ==> r.value == val
    ensures status != NapiOk && query.Ok? ==> r == Err(ErrorFromInfo(query.value))
    ensures status != NapiOk && query.Err? ==> r == Panic(LAST_ERROR_PANIC)
  {
    if status == NapiOk then Ok(val)
    else
      match LastNapiError(query)
      case Ok(e) => Err(e)
      case _ => Panic(LAST_ERROR_PANIC)
  }

  /** The failing status itself never reaches the error: two failing
      statuses give the same result. */
  lemma EitherIgnoresFailingStatus<T>(s1: Status, s2: Status, val: T, query: Outcome<ErrorInfo, Status>)
    requires !query.Panic?
    requires s1 != NapiOk && s2 != NapiOk
    ensures Either(s1, val, query) == Either(s2, val, query)
  {
  }
}

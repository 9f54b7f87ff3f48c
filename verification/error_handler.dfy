/** The server-side helpers of ai-tool/lib/errorHandler.ts: the JSON error
    response every API failure becomes, and the environment-variable guard. */
module ErrorHandler {
  import opened Wrappers
  import opened Strings
  import opened Errors

  datatype LogLevel = LogAsError | LogAsWarning

  /** The body `{ success: false, error }` with its HTTP status, and the level
      the failure is logged at. */
  datatype ErrorResponse = ErrorResponse(status: int, success: bool, error: string, logLevel: LogLevel)

  /** `createErrorResponse(error, defaultStatus)`: the status is the
      normalised error's own when present and non-zero, the default otherwise;
      the body carries the normalised message; statuses from 500 up are
      logged as errors, the rest as warnings. */
  function CreateErrorResponse(t: Thrown, defaultStatus: int): (r: ErrorResponse)
    ensures !r.success
    ensures r.error == NormalizeError(t, None).message
    ensures TruthyStatus(NormalizeError(t, None).statusCode) ==> r.status == NormalizeError(t, None).statusCode.value
    ensures !TruthyStatus(NormalizeError(t, None).statusCode) ==> r.status == defaultStatus
    ensures r.logLevel == LogAsError <==> r.status >= 500
  {
    var e := NormalizeError(t, None);
    var status := if TruthyStatus(e.statusCode) then e.statusCode.value else defaultStatus;
    ErrorResponse(status, false, e.message, if status >= 500 then LogAsError else LogAsWarning)
  }

  /** An AppError keeps its status and message through the response; a
      thrown string has no status and so takes the default. */
  lemma ResponseOfAppError(e: AppError, m: string, d: int)
    requires TruthyStatus(e.statusCode)
    ensures CreateErrorResponse(App(e), d).status == e.statusCode.value
    ensures CreateErrorResponse(App(e), d).error == e.message
    ensures CreateErrorResponse(Foreign(StringValue(m)), d).status == d
  {
  }

  const NotConfiguredSuffix := " is not configured. Please add it to your .env file."

  /** `requireEnvVar(name)` over the process environment `env`: a variable
      that is missing, empty or only whitespace is an API error with status
      500 and a message naming it; otherwise its value, untrimmed. */
  function RequireEnvVar(env: map<string, string>, name: string): (r: Result<string, AppError>)
    ensures r.Success? <==> name in env && !IsBlank(env[name])
    ensures r.Success? ==> r.value == env[name]
    ensures r.Failure? ==>
              && r.error.category == Api && r.error.severity == Medium
              && r.error.statusCode == Some(500)
              && r.error.message == name + NotConfiguredSuffix
  {
    if name !in env || env[name] == [] || |Trim(env[name])| == 0 then
      Failure(NewAppError(name + NotConfiguredSuffix, Api, Medium, Some(500)))
    else
      Success(env[name])
  }
}

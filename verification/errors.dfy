/** The error taxonomy of ai-tool/lib/errors.ts: the AppError hierarchy with
    its fixed category, severity and status per subclass, the keyword-driven
    `normalizeError`, and `extractErrorMessage`.

    JavaScript `instanceof` consults the prototype an object really carries.
    The AppError constructor ends by setting the instance's prototype to
    `AppError.prototype`, also when a subclass constructor is running, so an
    instance built by `new ValidationError(...)` is an AppError but not a
    ValidationError as far as `instanceof` can tell. The model keeps that
    prototype in the `proto` field. */
module Errors {
  import opened Wrappers
  import opened Strings

  datatype Category = Validation | Network | Api | File | Auth | Unknown

  datatype Severity = Low | Medium | High | Critical

  /** The classes of the hierarchy, rooted at the built-in `Error`. */
  datatype ErrorClass =
    | ErrorRoot
    | AppErrorClass
    | ValidationErrorClass
    | NetworkErrorClass
    | ApiErrorClass
    | FileErrorClass
    | AuthErrorClass

  function Depth(c: ErrorClass): nat {
    match c
    case ErrorRoot => 0
    case AppErrorClass => 1
    case _ => 2
  }

  /** The class `c` extends; the root extends nothing. */
  function Parent(c: ErrorClass): (p: ErrorClass)
    requires c != ErrorRoot
    ensures Depth(p) + 1 == Depth(c)
  {
    if c == AppErrorClass then ErrorRoot else AppErrorClass
  }

  /** `cls.prototype` lies on the prototype chain that starts at `proto`. */
  predicate ChainHas(proto: ErrorClass, cls: ErrorClass)
    decreases Depth(proto)
  {
    proto == cls || (proto != ErrorRoot && ChainHas(Parent(proto), cls))
  }

  /** An AppError instance: `proto` is the prototype it really carries and
      `name` what its constructor assigned to `this.name`. */
  datatype AppError = AppError(
    message: string,
    category: Category,
    severity: Severity,
    statusCode: Option<int>,
    name: string,
    proto: ErrorClass)

  /** Values code outside this hierarchy may throw. */
  datatype ForeignValue =
      /** an `Error` (or a library subclass of it) */
    | PlainError(message: string)
      /** the `Error` subclass axios throws for a failed request */
    | AxiosFailure(message: string, code: Option<string>, responseStatus: Option<int>, bodyError: Option<string>)
      /** a thrown string */
    | StringValue(s: string)
      /** a non-Error object with a `message` property, as `String(message)` renders it */
    | MessageObject(messageText: string)
      /** anything else: `null`, `undefined`, a number, an object without `message` */
    | OtherValue

  datatype Thrown = App(err: AppError) | Foreign(value: ForeignValue)

  /** `value instanceof cls` */
  predicate InstanceOf(t: Thrown, cls: ErrorClass) {
    match t
    case App(e) => ChainHas(e.proto, cls)
    case Foreign(v) => (v.PlainError? || v.AxiosFailure?) && cls == ErrorRoot
  }

  /** A present, non-zero status code: `statusCode || fallback` keeps it. */
  predicate TruthyStatus(statusCode: Option<int>) {
    statusCode.Some? && statusCode.value != 0
  }

  /** `new AppError(message, category, severity, statusCode)`; the `name` and
      the prototype are AppError's. */
  function NewAppError(message: string, category: Category, severity: Severity, statusCode: Option<int>): (e: AppError)
    ensures e.message == message && e.category == category && e.severity == severity && e.statusCode == statusCode
    ensures e.name == "AppError" && InstanceOf(App(e), AppErrorClass) && InstanceOf(App(e), ErrorRoot)
  {
    AppError(message, category, severity, statusCode, "AppError", AppErrorClass)
  }

  /** `statusCode || 500` */
  function StatusOr500(statusCode: Option<int>): (s: int)
    ensures s != 0
    ensures TruthyStatus(statusCode) ==> s == statusCode.value
    ensures !TruthyStatus(statusCode) ==> s == 500
  {
    if TruthyStatus(statusCode) then statusCode.value else 500
  }

  /** `new ValidationError(message)`: VALIDATION, LOW, 400, named after its
      class, yet not an instance of it. */
  function NewValidationError(message: string): (e: AppError)
    ensures e.message == message && e.category == Validation && e.severity == Low && e.statusCode == Some(400)
    ensures e.name == "ValidationError" && InstanceOf(App(e), AppErrorClass) && !InstanceOf(App(e), ValidationErrorClass)
  {
    NewAppError(message, Validation, Low, Some(400)).(name := "ValidationError")
  }

  /** `new NetworkError(message, undefined, statusCode)`: NETWORK, HIGH, and
      `statusCode || 500`. */
  function NewNetworkError(message: string, statusCode: Option<int>): (e: AppError)
    ensures e.message == message && e.category == Network && e.severity == High
    ensures e.statusCode == Some(if TruthyStatus(statusCode) then statusCode.value else 500)
    ensures e.name == "NetworkError" && InstanceOf(App(e), AppErrorClass) && !InstanceOf(App(e), NetworkErrorClass)
  {
    NewAppError(message, Network, High, Some(StatusOr500(statusCode))).(name := "NetworkError")
  }

  /** `new ApiError(message, undefined, statusCode)`: API, HIGH, and
      `statusCode || 500`. */
  function NewApiError(message: string, statusCode: Option<int>): (e: AppError)
    ensures e.message == message && e.category == Api && e.severity == High
    ensures e.statusCode == Some(if TruthyStatus(statusCode) then statusCode.value else 500)
    ensures e.name == "ApiError" && InstanceOf(App(e), AppErrorClass) && !InstanceOf(App(e), ApiErrorClass)
  {
    NewAppError(message, Api, High, Some(StatusOr500(statusCode))).(name := "ApiError")
  }

  /** `new FileError(message)`: FILE, MEDIUM, 400. */
  function NewFileError(message: string): (e: AppError)
    ensures e.message == message && e.category == File && e.severity == Medium && e.statusCode == Some(400)
    ensures e.name == "FileError" && InstanceOf(App(e), AppErrorClass) && !InstanceOf(App(e), FileErrorClass)
  {
    NewAppError(message, File, Medium, Some(400)).(name := "FileError")
  }

  /** `new AuthError(message)`: AUTH, HIGH, 401. */
  function NewAuthError(message: string): (e: AppError)
    ensures e.message == message && e.category == Auth && e.severity == High && e.statusCode == Some(401)
    ensures e.name == "AuthError" && InstanceOf(App(e), AppErrorClass) && !InstanceOf(App(e), AuthErrorClass)
  {
    NewAppError(message, Auth, High, Some(401)).(name := "AuthError")
  }

  /** The fixed attributes of each subclass: ValidationError is
      VALIDATION/LOW/400, FileError FILE/MEDIUM/400, AuthError AUTH/HIGH/401,
      and NetworkError and ApiError are HIGH with the given status when it is
      present and non-zero, 500 otherwise. */
  lemma SubclassAttributes(m: string, s: Option<int>)
    ensures var e := NewValidationError(m);
            e.category == Validation && e.severity == Low && e.statusCode == Some(400)
    ensures var e := NewFileError(m);
            e.category == File && e.severity == Medium && e.statusCode == Some(400)
    ensures var e := NewAuthError(m);
            e.category == Auth && e.severity == High && e.statusCode == Some(401)
    ensures var e := NewNetworkError(m, s);
            e.category == Network && e.severity == High
            && e.statusCode == Some(if TruthyStatus(s) then s.value else 500)
    ensures var e := NewApiError(m, s);
            e.category == Api && e.severity == High
            && e.statusCode == Some(if TruthyStatus(s) then s.value else 500)
  {
  }

  /** Every subclass instance keeps its message and is an AppError and an
      Error, yet -- because the base constructor resets the prototype --
      none is an instance of its own subclass. */
  lemma SubclassPrototypes(m: string, s: Option<int>)
    ensures forall e :: e in [NewValidationError(m), NewFileError(m), NewAuthError(m), NewNetworkError(m, s), NewApiError(m, s)] ==>
              e.message == m && InstanceOf(App(e), AppErrorClass) && InstanceOf(App(e), ErrorRoot)
    ensures !InstanceOf(App(NewValidationError(m)), ValidationErrorClass)
    ensures !InstanceOf(App(NewFileError(m)), FileErrorClass)
    ensures !InstanceOf(App(NewNetworkError(m, s)), NetworkErrorClass)
    ensures !InstanceOf(App(NewApiError(m, s)), ApiErrorClass)
    ensures !InstanceOf(App(NewAuthError(m)), AuthErrorClass)
  {
  }

  // --------------------------------------------------------- extractErrorMessage

  const DefaultFallback := "An unexpected error occurred"

  /** `extractErrorMessage(error, fallback)`: the message of an Error (AppError
      or not), a thrown string itself, `String(message)` of an object that has
      one, and the fallback for anything else. */
  function ExtractErrorMessage(t: Thrown, fallback: string): (m: string)
    ensures InstanceOf(t, ErrorRoot) ==>
              m == (if t.App? then t.err.message else t.value.message)
    ensures t.Foreign? && t.value.StringValue? ==> m == t.value.s
    ensures t.Foreign? && t.value.MessageObject? ==> m == t.value.messageText
    ensures t.Foreign? && t.value.OtherValue? ==> m == fallback
  {
    match t
    case App(e) => e.message
    case Foreign(PlainError(msg)) => msg
    case Foreign(AxiosFailure(msg, _, _, _)) => msg
    case Foreign(StringValue(s)) => s
    case Foreign(MessageObject(msg)) => msg
    case Foreign(OtherValue) => fallback
  }

  /** Every AppError is an instance of Error, so extraction never reaches the
      string or object cases for one. */
  lemma AppErrorIsError(e: AppError)
    ensures InstanceOf(App(e), ErrorRoot)
  {
    assert Depth(e.proto) <= 2;
    if e.proto != ErrorRoot && e.proto != AppErrorClass {
      assert Parent(e.proto) == AppErrorClass;
    }
  }

  // --------------------------------------------------------------- normalizeError

  const ValidationKeywords: seq<string> := ["validation", "invalid", "required"]
  const NetworkKeywords: seq<string> := ["network", "fetch", "timeout"]
  const ApiKeywords: seq<string> := ["api", "server"]
  const FileKeywords: seq<string> := ["file", "upload", "document"]

  /** Some keyword of `words` occurs in `s`. */
  predicate MentionsAny(s: string, words: seq<string>) {
    exists k :: 0 <= k < |words| && Contains(s, words[k])
  }

  lemma MentionsAnyOfThree(s: string, w: seq<string>)
    requires |w| == 3
    ensures MentionsAny(s, w) <==> Contains(s, w[0]) || Contains(s, w[1]) || Contains(s, w[2])
  {
    if Contains(s, w[0]) { assert 0 < |w|; }
    if Contains(s, w[1]) { assert 1 < |w|; }
    if Contains(s, w[2]) { assert 2 < |w|; }
  }

  lemma MentionsAnyOfTwo(s: string, w: seq<string>)
    requires |w| == 2
    ensures MentionsAny(s, w) <==> Contains(s, w[0]) || Contains(s, w[1])
  {
    if Contains(s, w[0]) { assert 0 < |w|; }
    if Contains(s, w[1]) { assert 1 < |w|; }
  }

  /** The Error branch of `normalizeError`: the lower-cased message is
      searched for keywords, and the first group that matches decides the
      subclass; the original message is kept. */
  function ClassifyError(message: string): (e: AppError)
    ensures e.message == message && e.proto == AppErrorClass
    ensures var lower := ToLower(message);
            var v := MentionsAny(lower, ValidationKeywords);
            var n := MentionsAny(lower, NetworkKeywords);
            var a := MentionsAny(lower, ApiKeywords);
            var f := MentionsAny(lower, FileKeywords);
            && (e.category == Validation <==> v)
            && (e.category == Network <==> !v && n)
            && (e.category == Api <==> !v && !n && a)
            && (e.category == File <==> !v && !n && !a && f)
            && (e.category == Unknown <==> !v && !n && !a && !f)
    ensures e.category == Unknown ==> e.severity == Medium && e.statusCode == None
    ensures e.category == Validation ==> e.severity == Low
    ensures e.category == File ==> e.severity == Medium
    ensures e.category == Validation || e.category == File ==> e.statusCode == Some(400)
    ensures e.category == Network || e.category == Api ==> e.statusCode == Some(500) && e.severity == High
  {
    var lower := ToLower(message);
    MentionsAnyOfThree(lower, ValidationKeywords);
    MentionsAnyOfThree(lower, NetworkKeywords);
    MentionsAnyOfTwo(lower, ApiKeywords);
    MentionsAnyOfThree(lower, FileKeywords);
    if Contains(lower, "validation") || Contains(lower, "invalid") || Contains(lower, "required") then
      NewValidationError(message)
    else if Contains(lower, "network") || Contains(lower, "fetch") || Contains(lower, "timeout") then
      NewNetworkError(message, None)
    else if Contains(lower, "api") || Contains(lower, "server") then
      NewApiError(message, None)
    else if Contains(lower, "file") || Contains(lower, "upload") || Contains(lower, "document") then
      NewFileError(message)
    else
      NewAppError(message, Unknown, Medium, None)
  }

  /** `normalizeError(error, defaultMessage)`: an AppError comes back
      unchanged; an Error is classified by its message; a thrown string
      becomes an UNKNOWN/MEDIUM AppError with that message; anything else
      gets the default message when it is non-empty, else the generic one. */
  function NormalizeError(t: Thrown, defaultMessage: Option<string>): (e: AppError)
    ensures t.App? ==> e == t.err
    ensures t.Foreign? && (t.value.PlainError? || t.value.AxiosFailure?) ==>
              e == ClassifyError(t.value.message) && e.message == t.value.message
    ensures t.Foreign? && t.value.StringValue? ==>
              e.message == t.value.s && e.category == Unknown && e.severity == Medium && e.statusCode == None
    ensures t.Foreign? && (t.value.MessageObject? || t.value.OtherValue?) ==>
              e.category == Unknown && e.severity == Medium && e.statusCode == None
              && e.message == (if defaultMessage.Some? && defaultMessage.value != "" then defaultMessage.value else DefaultFallback)
  {
    match t
    case App(err) => err
    case Foreign(PlainError(msg)) => ClassifyError(msg)
    case Foreign(AxiosFailure(msg, _, _, _)) => ClassifyError(msg)
    case Foreign(StringValue(s)) => NewAppError(s, Unknown, Medium, None)
    case Foreign(_) =>
      var msg := if defaultMessage.Some? && defaultMessage.value != "" then defaultMessage.value else DefaultFallback;
      NewAppError(msg, Unknown, Medium, None)
  }

  /** Normalising is idempotent: its output is an AppError, which a second
      pass returns unchanged. */
  lemma NormalizeIdempotent(t: Thrown, d1: Option<string>, d2: Option<string>)
    ensures NormalizeError(App(NormalizeError(t, d1)), d2) == NormalizeError(t, d1)
  {
  }

  /** The message `normalizeError` produces is the one `extractErrorMessage`
      reports, except for an object with a `message` property, which
      `normalizeError` does not read. */
  lemma NormalizedMessageAgreesWithExtract(t: Thrown)
    requires !(t.Foreign? && t.value.MessageObject?)
    ensures NormalizeError(t, None).message == ExtractErrorMessage(t, DefaultFallback)
  {
  }

  /** A concrete reading of the priority: a message that mentions both a
      network word and "invalid" is a validation error. */
  lemma ValidationWinsOverNetwork()
    ensures NormalizeError(Foreign(PlainError("Invalid network")), None).category == Validation
  {
    var lower := ToLower("Invalid network");
    assert lower[..7] == "invalid";
    assert "invalid" <= lower;
    assert Contains(lower, ValidationKeywords[1]);
  }
}

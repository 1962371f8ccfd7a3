/**
 * The application's exception hierarchy: a base class with a default message
 * and HTTP status code, and four subclasses that only override those two
 * class attributes. The constructor picks the given message when it is truthy
 * and the class default otherwise, and overrides the status code only when a
 * truthy one is given.
 */
module Exceptions {
  import opened Wrappers

  datatype ExceptionKind =
    | BaseApp            // BaseAppException
    | ResourceNotFound   // ResourceNotFoundException
    | PermissionDenied   // PermissionDeniedException
    | Validation         // ValidationException
    | Authentication     // AuthenticationException

  /** The class attribute `status_code` of each class. */
  function DefaultStatus(kind: ExceptionKind): (code: int)
    ensures 400 <= code <= 500
  {
    match kind
    case BaseApp => 500
    case ResourceNotFound => 404
    case PermissionDenied => 403
    case Validation => 400
    case Authentication => 401
  }

  /** The class attribute `default_message` of each class. */
  function DefaultMessage(kind: ExceptionKind): (msg: string)
    ensures msg != ""
  {
    match kind
    case BaseApp => "An error occurred"
    case ResourceNotFound => "The requested resource was not found"
    case PermissionDenied => "You don't have permission to perform this action"
    case Validation => "Invalid input data"
    case Authentication => "Authentication failed"
  }

  /** An exception instance: its class, and the two instance attributes set by `__init__`. */
  datatype AppException = AppException(kind: ExceptionKind, message: string, statusCode: int)

  /**
   * Python truthiness of the optional arguments: `None` and the empty string
   * are falsy, and so are `None` and the integer 0.
   */
  predicate TruthyText(s: Option<string>) { s.Some? && s.value != "" }
  predicate TruthyCode(c: Option<int>) { c.Some? && c.value != 0 }

  /** `Kind(message, status_code)`, i.e. `BaseAppException.__init__` run on an instance of `kind`. */
  function Raise(kind: ExceptionKind, message: Option<string>, statusCode: Option<int>): (e: AppException)
    ensures e.kind == kind
    ensures TruthyText(message) ==> e.message == message.value
    ensures !TruthyText(message) ==> e.message == DefaultMessage(kind)
    ensures TruthyCode(statusCode) ==> e.statusCode == statusCode.value
    ensures !TruthyCode(statusCode) ==> e.statusCode == DefaultStatus(kind)
  {
    AppException(kind,
      if TruthyText(message) then message.value else DefaultMessage(kind),
      if TruthyCode(statusCode) then statusCode.value else DefaultStatus(kind))
  }

  /** `str(e)`: the argument passed to `Exception.__init__`, which is `self.message`. */
  function Str(e: AppException): (s: string)
    ensures s == e.message
  {
    e.message
  }

  /** Every exception built by `Raise` has a non-empty string form. */
  lemma StrNeverEmpty(kind: ExceptionKind, message: Option<string>, statusCode: Option<int>)
    ensures Str(Raise(kind, message, statusCode)) != ""
    ensures Str(Raise(kind, message, statusCode)) == Raise(kind, message, statusCode).message
  {
  }

  /** Passing 0 as the status code does not override the class default. */
  lemma ZeroStatusKeepsDefault(kind: ExceptionKind, message: Option<string>)
    ensures Raise(kind, message, Some(0)).statusCode == DefaultStatus(kind)
    ensures Raise(kind, message, Some(0)) == Raise(kind, message, None)
  {
  }

  /** An empty message falls back to the class default just as a missing one does. */
  lemma EmptyMessageKeepsDefault(kind: ExceptionKind, statusCode: Option<int>)
    ensures Raise(kind, Some(""), statusCode) == Raise(kind, None, statusCode)
  {
  }

  /** The five classes have five different default status codes. */
  lemma DefaultStatusesDistinct(k1: ExceptionKind, k2: ExceptionKind)
    requires k1 != k2
    ensures DefaultStatus(k1) != DefaultStatus(k2)
  {
  }

  /** The exceptions the services raise: the default status code with a message of their own. */
  function NotFound(message: string): (e: AppException)
    requires message != ""
    ensures e.kind == ResourceNotFound && e.statusCode == 404 && Str(e) == message
  {
    Raise(ResourceNotFound, Some(message), None)
  }

  function Forbidden(message: string): (e: AppException)
    requires message != ""
    ensures e.kind == PermissionDenied && e.statusCode == 403 && Str(e) == message
  {
    Raise(PermissionDenied, Some(message), None)
  }

  /** The outcome of a service call: a value, or the exception it raises. */
  datatype Result<T> = Ok(value: T) | Err(error: AppException)
}

/**
 * The wire-format types of the uniform error contract (ErrorResponse, ErrorDetail,
 * FieldError), the ErrorType enumeration, and the small wrappers used for Java's
 * nullable references and thrown exceptions.
 */
module ErrorModel {

  /** A nullable Java reference: `None` stands for `null`. */
  datatype Option<+T> = None | Some(value: T)

  /** The outcome of a Java call that either returns a value or throws. */
  datatype Result<+T, +E> = Ok(value: T) | Err(error: E)

  /** An instant on the server clock; `Instant.now()` is always passed in as a parameter. */
  type Instant = int

  /** An opaque rejected value (a Java `Object`), as far as the error contract needs it. */
  datatype Value = NullValue | Text(text: string) | Number(number: int)

  /** ErrorType.java: the closed set of error categories. */
  datatype ErrorType =
    | ValidationError
    | BusinessLogicError
    | AuthenticationError
    | AuthorizationError
    | ResourceNotFound
    | ClientError
    | ServerError
  {
    /** `toString()` of the Java enum constant, i.e. its declared name. */
    function Name(): string
    {
      match this
      case ValidationError => "VALIDATION_ERROR"
      case BusinessLogicError => "BUSINESS_LOGIC_ERROR"
      case AuthenticationError => "AUTHENTICATION_ERROR"
      case AuthorizationError => "AUTHORIZATION_ERROR"
      case ResourceNotFound => "RESOURCE_NOT_FOUND"
      case ClientError => "CLIENT_ERROR"
      case ServerError => "SERVER_ERROR"
    }
  }

  /** ErrorDetail.java: three nullable strings. */
  datatype ErrorDetail = ErrorDetail(code: Option<string>, errorType: Option<string>, details: Option<string>)

  /** The ErrorDetail a fresh `new ErrorDetail()` holds. */
  const EmptyErrorDetail := ErrorDetail(None, None, None)

  /**
   * FieldError.java, with the list-valued `messages` that its callers set through
   * `setMessages(List)`.
   */
  datatype FieldError = FieldError(field: string, messages: seq<string>, rejectedValue: Value)

  /** ErrorResponse.java. Every producer in this model sets the timestamp. */
  datatype ErrorResponse = ErrorResponse(
    status: int,
    message: Option<string>,
    error: Option<ErrorDetail>,
    path: Option<string>,
    httpMethod: Option<string>,
    fieldErrors: Option<seq<FieldError>>,
    timestamp: Instant)

  /** The two parts of an HttpServletRequest the core reads. */
  datatype Request = Request(uri: string, httpMethod: string)

  /** `ResponseEntity<ErrorResponse>`: the HTTP status and the body. */
  datatype ResponseEntity = ResponseEntity(status: int, body: ErrorResponse)

  /** An HTTP status as Spring's HttpStatus carries it: its numeric value. */
  datatype HttpStatus = HttpStatus(value: int)

  /**
   * The pairs of HTTP status and error type that the handlers of this system produce
   * (section 15 of RFC 9110 gives the meaning of the codes).
   */
  predicate StatusMatchesType(status: int, errorType: string)
  {
    || (status == 400 && errorType in {ValidationError.Name(), BusinessLogicError.Name()})
    || (status == 401 && errorType == AuthenticationError.Name())
    || (status == 404 && errorType == ResourceNotFound.Name())
    || (status == 500 && errorType == ServerError.Name())
  }

  /** A response whose status and `error.type` agree, and whose error code is present. */
  predicate WellFormed(r: ErrorResponse)
  {
    && r.error.Some?
    && r.error.value.code.Some?
    && r.error.value.errorType.Some?
    && StatusMatchesType(r.status, r.error.value.errorType.value)
  }

  /** Two responses that agree on everything but the timestamp. */
  predicate SameButTimestamp(a: ErrorResponse, b: ErrorResponse)
  {
    a.(timestamp := 0) == b.(timestamp := 0)
  }

  /** Distinct enum constants have distinct names. */
  lemma ErrorTypeNameInjective(a: ErrorType, b: ErrorType)
    requires a.Name() == b.Name()
    ensures a == b
  {
  }
}

/** The parts of Java's `String.format` that the handlers use for numbers (`%d`, `%s` of a Long). */
module Formatting {

  function DigitChar(d: nat): (c: char)
    requires d < 10
    ensures '0' <= c <= '9'
  {
    ('0' as int + d) as char
  }

  predicate AllDigits(s: string)
  {
    forall i :: 0 <= i < |s| ==> '0' <= s[i] <= '9'
  }

  /** Decimal rendering of a natural number, without leading zeros. */
  function NatToString(n: nat): (s: string)
    ensures |s| >= 1 && AllDigits(s)
    ensures |s| > 1 ==> s[0] != '0'
  {
    if n < 10 then [DigitChar(n)] else NatToString(n / 10) + [DigitChar(n % 10)]
  }

  /** Decimal rendering of a (Long) integer, with a leading '-' when negative. */
  function IntToString(i: int): (s: string)
    ensures |s| >= 1 && (s[0] == '-' <==> i < 0)
    ensures i >= 0 ==> AllDigits(s) && ParseDigits(s) == i
    ensures i < 0 ==> AllDigits(s[1..]) && ParseDigits(s[1..]) == -i
    ensures i >= 0 && |s| > 1 ==> s[0] != '0'
    ensures i < 0 ==> |s| >= 2 && (|s| > 2 ==> s[1] != '0')
  {
    ParseNatToString(if i >= 0 then i else -i);
    if i >= 0 then NatToString(i) else "-" + NatToString(-i)
  }

  /** Reads a string of decimal digits back as a number. */
  function ParseDigits(s: string): nat
    requires AllDigits(s)
  {
    if s == [] then 0 else 10 * ParseDigits(s[..|s| - 1]) + (s[|s| - 1] as int - '0' as int)
  }

  /** The decimal rendering loses nothing: reading it back gives the number. */
  lemma {:induction false} ParseNatToString(n: nat)
    ensures ParseDigits(NatToString(n)) == n
  {
    var s := NatToString(n);
    if n >= 10 {
      ParseNatToString(n / 10);
      assert s[..|s| - 1] == NatToString(n / 10);
    }
  }

  /** Hence distinct numbers are rendered differently. */
  lemma NatToStringInjective(a: nat, b: nat)
    requires NatToString(a) == NatToString(b)
    ensures a == b
  {
    ParseNatToString(a);
    ParseNatToString(b);
  }
}

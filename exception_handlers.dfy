/**
 * The three per-exception handlers (`ExceptionResponseHandler.handle`). Each one builds a
 * fresh ErrorResponse from the exception's fields and the request; none touches shared
 * state.
 */
module ExceptionHandlers {
  import opened ErrorModel
  import opened Formatting
  import opened Exceptions

  /** The details sentence of a not-registered caller. */
  function NotRegisteredDetails(externalId: string): string
  {
    "User with external ID '" + externalId + "' is not registered. Please complete signup."
  }

  /** The details sentence of a duplicate signup. */
  function AlreadyExistsDetails(externalId: string): string
  {
    "User with external ID '" + externalId + "' already exists"
  }

  /** The message of a missing resource, `"%s with ID '%s' does not exist"`. */
  function NotFoundMessage(resourceName: string, resourceId: int): string
  {
    resourceName + " with ID '" + IntToString(resourceId) + "' does not exist"
  }

  /** UserNotRegisteredExceptionHandler.handle: 401 AUTHENTICATION_ERROR. */
  function HandleUserNotRegistered(ex: Exception, req: Request, now: Instant): (r: ErrorResponse)
    requires ex.UserNotRegisteredException?
    ensures r.status == 401 && WellFormed(r)
    ensures r.error == Some(ErrorDetail(Some("USER_NOT_REGISTERED"), Some(AuthenticationError.Name()),
      Some(NotRegisteredDetails(ex.externalId))))
    ensures r.message == Some("User not registered") && r.fieldErrors == Some([])
    ensures r.path == Some(req.uri) && r.httpMethod == Some(req.httpMethod)
    ensures r.timestamp == now
  {
    var detail := ErrorDetail(Some("USER_NOT_REGISTERED"), Some(AuthenticationError.Name()),
      Some(NotRegisteredDetails(ex.externalId)));
    ErrorResponse(401, Some("User not registered"), Some(detail), Some(req.uri), Some(req.httpMethod), Some([]), now)
  }

  /** UserAlreadyExistsExceptionHandler.handle: 400 BUSINESS_LOGIC_ERROR. */
  function HandleUserAlreadyExists(ex: Exception, req: Request, now: Instant): (r: ErrorResponse)
    requires ex.UserAlreadyExistsException?
    ensures r.status == 400 && WellFormed(r)
    ensures r.error == Some(ErrorDetail(Some("USER_ALREADY_EXISTS"), Some(BusinessLogicError.Name()),
      Some(AlreadyExistsDetails(ex.externalId))))
    ensures r.message == Some("User registration failed") && r.fieldErrors == Some([])
    ensures r.path == Some(req.uri) && r.httpMethod == Some(req.httpMethod)
    ensures r.timestamp == now
  {
    var detail := ErrorDetail(Some("USER_ALREADY_EXISTS"), Some(BusinessLogicError.Name()),
      Some(AlreadyExistsDetails(ex.externalId)));
    ErrorResponse(400, Some("User registration failed"), Some(detail), Some(req.uri), Some(req.httpMethod), Some([]), now)
  }

  /** ResourceNotFountExceptionHandler.handle: 404 RESOURCE_NOT_FOUND, without details. */
  function HandleResourceNotFound(ex: Exception, req: Request, now: Instant): (r: ErrorResponse)
    requires ex.ResourceNotFoundException?
    ensures r.status == 404 && WellFormed(r)
    ensures r.error == Some(ErrorDetail(Some("RESOURCE_NOT_FOUND"), Some(ResourceNotFound.Name()), None))
    ensures r.message == Some(NotFoundMessage(ex.resourceName, ex.resourceId))
    ensures r.path == Some(req.uri) && r.httpMethod == Some(req.httpMethod) && r.fieldErrors == Some([])
    ensures r.timestamp == now
  {
    var detail := ErrorDetail(Some("RESOURCE_NOT_FOUND"), Some(ResourceNotFound.Name()), None);
    ErrorResponse(404, Some(NotFoundMessage(ex.resourceName, ex.resourceId)), Some(detail),
      Some(req.uri), Some(req.httpMethod), Some([]), now)
  }

  /** A text framed by a fixed prefix and suffix can be read back from the framed string. */
  lemma FramedInjective(prefix: string, a: string, b: string, suffix: string)
    requires prefix + a + suffix == prefix + b + suffix
    ensures a == b
  {
    var s := prefix + a + suffix;
    assert |a| == |b|;
    assert a == s[|prefix|..|prefix| + |a|];
    assert b == (prefix + b + suffix)[|prefix|..|prefix| + |b|];
  }

  /** The 401 details name the caller: different external ids give different details. */
  lemma NotRegisteredDetailsInjective(a: string, b: string)
    requires NotRegisteredDetails(a) == NotRegisteredDetails(b)
    ensures a == b
  {
    FramedInjective("User with external ID '", a, b, "' is not registered. Please complete signup.");
  }

  /** The 400 details name the duplicate: different external ids give different details. */
  lemma AlreadyExistsDetailsInjective(a: string, b: string)
    requires AlreadyExistsDetails(a) == AlreadyExistsDetails(b)
    ensures a == b
  {
    FramedInjective("User with external ID '", a, b, "' already exists");
  }

  /** A negative Long is rendered with a '-' that no non-negative rendering starts with. */
  lemma IntToStringInjective(a: int, b: int)
    requires IntToString(a) == IntToString(b)
    ensures a == b
  {
    if a >= 0 && b >= 0 {
      NatToStringInjective(a, b);
    } else if a < 0 && b < 0 {
      assert NatToString(-a) == IntToString(a)[1..];
      NatToStringInjective(-a, -b);
    }
  }

  /** For one resource kind, the 404 message names the id: different ids, different messages. */
  lemma NotFoundMessageInjective(name: string, a: int, b: int)
    requires NotFoundMessage(name, a) == NotFoundMessage(name, b)
    ensures a == b
  {
    FramedInjective(name + " with ID '", IntToString(a), IntToString(b), "' does not exist");
    IntToStringInjective(a, b);
  }

  /** The missing property with id 42 is reported as "Property with ID '42' does not exist". */
  lemma NotFoundExample(req: Request, now: Instant)
    ensures HandleResourceNotFound(ResourceNotFoundException(42, "Property"), req, now).message
      == Some("Property with ID '42' does not exist")
  {
    assert DigitChar(4) == '4' && DigitChar(2) == '2';
    assert NatToString(42) == NatToString(4) + [DigitChar(2)] == "42";
    assert NotFoundMessage("Property", 42) == "Property with ID '42' does not exist";
  }

  /**
   * Apart from the timestamp a handler's output is a function of the exception and the
   * request alone: handling twice gives the same body.
   */
  lemma HandlersIgnoreTime(ex: Exception, req: Request, t1: Instant, t2: Instant)
    ensures ex.UserNotRegisteredException? ==>
      SameButTimestamp(HandleUserNotRegistered(ex, req, t1), HandleUserNotRegistered(ex, req, t2))
    ensures ex.UserAlreadyExistsException? ==>
      SameButTimestamp(HandleUserAlreadyExists(ex, req, t1), HandleUserAlreadyExists(ex, req, t2))
    ensures ex.ResourceNotFoundException? ==>
      SameButTimestamp(HandleResourceNotFound(ex, req, t1), HandleResourceNotFound(ex, req, t2))
  {
  }
}

/**
 * GlobalExceptionHandler: a registry from exact exception classes to handlers, filled once
 * by the constructor, and the dispatch that looks a failure up in it and falls back to a
 * fixed 500 response.
 */
module GlobalExceptionHandler {
  import opened ErrorModel
  import opened Exceptions
  import opened ExceptionHandlers

  /** The ExceptionResponseHandler implementations. */
  datatype Handler = UserAlreadyExistsHandler | UserNotRegisteredHandler | ResourceNotFoundHandler
  {
    /** The exception class named by the handler's type argument. */
    function Handles(): (c: ExceptionClass)
      ensures c in {UserAlreadyExistsClass, UserNotRegisteredClass, ResourceNotFoundClass}
    {
      match this
      case UserAlreadyExistsHandler => UserAlreadyExistsClass
      case UserNotRegisteredHandler => UserNotRegisteredClass
      case ResourceNotFoundHandler => ResourceNotFoundClass
    }

    /** `handle(ex, request)` on an exception of the handled class. */
    function Apply(ex: Exception, req: Request, now: Instant): (r: ErrorResponse)
      requires ClassOf(ex) == Handles()
      ensures WellFormed(r) && r.timestamp == now
      ensures r.path == Some(req.uri) && r.httpMethod == Some(req.httpMethod)
    {
      match this
      case UserAlreadyExistsHandler => HandleUserAlreadyExists(ex, req, now)
      case UserNotRegisteredHandler => HandleUserNotRegistered(ex, req, now)
      case ResourceNotFoundHandler => HandleResourceNotFound(ex, req, now)
    }
  }

  /**
   * `handleGenericException`: 500 INTERNAL_ERROR. Nothing of the exception reaches the
   * body; only the request's path and method are copied.
   */
  function HandleGenericException(ex: Exception, req: Request, now: Instant): (r: ResponseEntity)
    ensures r.status == r.body.status == 500 && WellFormed(r.body)
    ensures r.body.error == Some(ErrorDetail(Some("INTERNAL_ERROR"), Some(ServerError.Name()),
      Some("An unexpected error occurred")))
    ensures r.body.message == Some("Internal server error") && r.body.fieldErrors == Some([])
    ensures r.body.path == Some(req.uri) && r.body.httpMethod == Some(req.httpMethod)
    ensures r.body.timestamp == now
  {
    var detail := ErrorDetail(Some("INTERNAL_ERROR"), Some(ServerError.Name()), Some("An unexpected error occurred"));
    ResponseEntity(500, ErrorResponse(500, Some("Internal server error"), Some(detail),
      Some(req.uri), Some(req.httpMethod), Some([]), now))
  }

  /** The fallback body is the same whichever exception reached it. */
  lemma FallbackIgnoresException(e1: Exception, e2: Exception, req: Request, now: Instant)
    ensures HandleGenericException(e1, req, now) == HandleGenericException(e2, req, now)
  {
  }

  class GlobalExceptionHandler {
    /** `handlerMap`, keyed by the exact runtime class of the exception. */
    var handlerMap: map<ExceptionClass, Handler>

    /**
     * The registry as the constructor leaves it and as nothing afterwards changes it:
     * exactly the UserAlreadyExists and UserNotRegistered classes, each mapped to the
     * handler for that class.
     */
    ghost predicate Valid()
      reads this
    {
      && handlerMap.Keys == {UserAlreadyExistsClass, UserNotRegisteredClass}
      && forall c :: c in handlerMap ==> handlerMap[c].Handles() == c
    }

    constructor()
      ensures Valid()
    {
      handlerMap := map[];
      new;
      InitializeHandlers();
    }

    /** `initializeHandlers`: two `put`s. ResourceNotFoundHandler is not registered. */
    method InitializeHandlers()
      modifies this
      ensures handlerMap == old(handlerMap)[UserAlreadyExistsClass := UserAlreadyExistsHandler]
        [UserNotRegisteredClass := UserNotRegisteredHandler]
    {
      handlerMap := handlerMap[UserAlreadyExistsClass := UserAlreadyExistsHandler];
      handlerMap := handlerMap[UserNotRegisteredClass := UserNotRegisteredHandler];
    }

    /**
     * `handleException`: the handler registered for the exact class answers, with the
     * entity status taken from its body; every other failure, ResourceNotFound included,
     * gets the fallback.
     */
    function HandleException(ex: Exception, req: Request, now: Instant): (r: ResponseEntity)
      reads this
      requires Valid()
      ensures r.status == r.body.status && WellFormed(r.body)
      ensures r.body.path == Some(req.uri) && r.body.httpMethod == Some(req.httpMethod)
      ensures ex.UserNotRegisteredException? ==>
        r.status == 401 && r.body == HandleUserNotRegistered(ex, req, now)
      ensures ex.UserAlreadyExistsException? ==>
        r.status == 400 && r.body == HandleUserAlreadyExists(ex, req, now)
      ensures !ex.UserNotRegisteredException? && !ex.UserAlreadyExistsException? ==>
        r == HandleGenericException(ex, req, now)
    {
      var c := ClassOf(ex);
      if c in handlerMap then
        var body := handlerMap[c].Apply(ex, req, now);
        ResponseEntity(body.status, body)
      else
        HandleGenericException(ex, req, now)
    }

    /**
     * Dispatch is total and its statuses are those of the registered handlers or of the
     * fallback: every failure yields exactly one well-formed response.
     */
    lemma DispatchStatuses(ex: Exception, req: Request, now: Instant)
      requires Valid()
      ensures HandleException(ex, req, now).status in {400, 401, 500}
      ensures ex.ResourceNotFoundException? ==>
        HandleException(ex, req, now).status != HandleResourceNotFound(ex, req, now).status
    {
    }

    /** Handling the same failure twice gives the same response up to the timestamp. */
    lemma DispatchIgnoresTime(ex: Exception, req: Request, t1: Instant, t2: Instant)
      requires Valid()
      ensures HandleException(ex, req, t1).status == HandleException(ex, req, t2).status
      ensures SameButTimestamp(HandleException(ex, req, t1).body, HandleException(ex, req, t2).body)
    {
    }
  }
}

/**
 * ErrorResponseBuilder: a fluent builder whose setters fill one field each, whose field
 * error list grows in place, and whose `build` checks that a status was given and stamps
 * the response if no timestamp was.
 */
module ErrorResponseBuilder {
  import opened ErrorModel
  import opened Exceptions
  import opened Formatting
  import GlobalExceptionHandler

  /** The codes `HttpStatusCode.valueOf` accepts: 100 through 999. */
  predicate ThreeDigit(code: int)
  {
    100 <= code <= 999
  }

  /** The message of the IllegalArgumentException for a code outside that range. */
  function StatusCodeMessage(code: int): string
  {
    "Status code '" + IntToString(code) + "' should be a three-digit positive integer"
  }

  /** The ErrorDetail that `errorCode`, `errorType` and `errorDetails` start from. */
  function DetailOrEmpty(error: Option<ErrorDetail>): ErrorDetail
  {
    if error.Some? then error.value else EmptyErrorDetail
  }

  class ErrorResponseBuilder {
    var status: Option<int>
    var message: Option<string>
    var error: Option<ErrorDetail>
    var path: Option<string>
    var httpMethod: Option<string>
    var fieldErrors: seq<FieldError>
    var timestamp: Option<Instant>

    /** `create()`: every field unset and an empty field error list. */
    constructor Create()
      ensures status.None? && message.None? && error.None? && path.None? && httpMethod.None?
      ensures fieldErrors == [] && timestamp.None?
    {
      status, message, error, path, httpMethod := None, None, None, None, None;
      fieldErrors, timestamp := [], None;
    }

    /** `status(int)`. */
    method Status(code: int)
      modifies this`status
      ensures status == Some(code)
    {
      status := Some(code);
    }

    /** `status(HttpStatus)`: the numeric value of the constant. */
    method HttpStatusValue(httpStatus: HttpStatus)
      modifies this`status
      ensures status == Some(httpStatus.value)
    {
      status := Some(httpStatus.value);
    }

    method Message(m: Option<string>)
      modifies this`message
      ensures message == m
    {
      message := m;
    }

    method Error(e: Option<ErrorDetail>)
      modifies this`error
      ensures error == e
    {
      error := e;
    }

    /** `errorCode`: creates the detail if absent and sets its code, keeping type and details. */
    method ErrorCode(code: Option<string>)
      modifies this`error
      ensures error.Some? && error.value.code == code
      ensures error.value.errorType == DetailOrEmpty(old(error)).errorType
      ensures error.value.details == DetailOrEmpty(old(error)).details
    {
      error := Some(DetailOrEmpty(error).(code := code));
    }

    /** `errorType`: creates the detail if absent and sets its type, keeping code and details. */
    method ErrorType(errorType: Option<string>)
      modifies this`error
      ensures error.Some? && error.value.errorType == errorType
      ensures error.value.code == DetailOrEmpty(old(error)).code
      ensures error.value.details == DetailOrEmpty(old(error)).details
    {
      error := Some(DetailOrEmpty(error).(errorType := errorType));
    }

    /** `errorDetails`: creates the detail if absent and sets its details, keeping code and type. */
    method ErrorDetails(details: Option<string>)
      modifies this`error
      ensures error.Some? && error.value.details == details
      ensures error.value.code == DetailOrEmpty(old(error)).code
      ensures error.value.errorType == DetailOrEmpty(old(error)).errorType
    {
      error := Some(DetailOrEmpty(error).(details := details));
    }

    method Path(p: Option<string>)
      modifies this`path
      ensures path == p
    {
      path := p;
    }

    method HttpMethod(m: Option<string>)
      modifies this`httpMethod
      ensures httpMethod == m
    {
      httpMethod := m;
    }

    /** `fieldErrors(list)`: a null list leaves an empty one, any other is kept as given. */
    method FieldErrors(fes: Option<seq<FieldError>>)
      modifies this`fieldErrors
      ensures fes.None? ==> fieldErrors == []
      ensures fes.Some? ==> fieldErrors == fes.value
    {
      fieldErrors := if fes.Some? then fes.value else [];
    }

    /** `addFieldError(field, message, rejectedValue)`: one new entry with a single message. */
    method AddFieldError(field: string, msg: string, rejectedValue: Value)
      modifies this`fieldErrors
      ensures |fieldErrors| == |old(fieldErrors)| + 1
      ensures fieldErrors[..|old(fieldErrors)|] == old(fieldErrors)
      ensures fieldErrors[|old(fieldErrors)|] == FieldError(field, [msg], rejectedValue)
    {
      fieldErrors := fieldErrors + [FieldError(field, [msg], rejectedValue)];
    }

    /** `addFieldError(fieldError)`: the entry goes last. */
    method AddFieldErrorEntry(fe: FieldError)
      modifies this`fieldErrors
      ensures |fieldErrors| == |old(fieldErrors)| + 1
      ensures fieldErrors[..|old(fieldErrors)|] == old(fieldErrors)
      ensures fieldErrors[|old(fieldErrors)|] == fe
    {
      fieldErrors := fieldErrors + [fe];
    }

    method Timestamp(t: Option<Instant>)
      modifies this`timestamp
      ensures timestamp == t
    {
      timestamp := t;
    }

    /**
     * `build()`: without a status it fails with IllegalStateException and changes nothing.
     * Otherwise a missing timestamp is filled in with `now` and a given one is kept. Then
     * `ResponseEntity.status(int)` looks the code up as an HttpStatusCode, which refuses
     * anything but a three-digit code with IllegalArgumentException. A code it accepts gives
     * a body holding every builder field, whose status is also the entity's.
     */
    method Build(now: Instant) returns (r: Result<ResponseEntity, Exception>)
      modifies this`timestamp
      ensures status.None? ==> r == Err(IllegalStateException("Status is required")) && timestamp == old(timestamp)
      ensures status.Some? ==> timestamp == Some(if old(timestamp).Some? then old(timestamp).value else now)
      ensures status.Some? && !ThreeDigit(status.value) ==> r == Err(IllegalArgumentException(StatusCodeMessage(status.value)))
      ensures r.Ok? <==> status.Some? && ThreeDigit(status.value)
      ensures r.Ok? ==> r.value.status == r.value.body.status == status.value
      ensures r.Ok? ==>
        r.value.body == ErrorResponse(status.value, message, error, path, httpMethod, Some(fieldErrors), timestamp.value)
    {
      if status.None? {
        return Err(IllegalStateException("Status is required"));
      }
      if timestamp.None? {
        timestamp := Some(now);
      }
      var response := ErrorResponse(status.value, message, error, path, httpMethod, Some(fieldErrors), timestamp.value);
      if !ThreeDigit(status.value) {
        return Err(IllegalArgumentException(StatusCodeMessage(status.value)));
      }
      return Ok(ResponseEntity(status.value, response));
    }
  }

  /**
   * The builder reproduces the fallback response of GlobalExceptionHandler when given its
   * fields one by one.
   */
  method BuildInternalError(ex: Exception, req: Request, now: Instant) returns (r: Result<ResponseEntity, Exception>)
    ensures r == Ok(GlobalExceptionHandler.HandleGenericException(ex, req, now))
  {
    var b := new ErrorResponseBuilder.Create();
    b.Status(500);
    b.Message(Some("Internal server error"));
    b.ErrorCode(Some("INTERNAL_ERROR"));
    b.ErrorType(Some(ServerError.Name()));
    b.ErrorDetails(Some("An unexpected error occurred"));
    b.Path(Some(req.uri));
    b.HttpMethod(Some(req.httpMethod));
    r := b.Build(now);
  }
}

/**
 * ResponseBuilder<T>: the fluent builder of success responses. `build` refuses a missing
 * status and then a missing message; the data may be absent.
 */
module ResponseBuilder {
  import opened ErrorModel
  import opened Exceptions

  /** ApiResponse<T>: the success envelope. */
  datatype ApiResponse<T> = ApiResponse(status: int, message: Option<string>, data: Option<T>, timestamp: Instant)

  /** `ResponseEntity<ApiResponse<T>>`. */
  datatype ApiEntity<T> = ApiEntity(status: int, body: ApiResponse<T>)

  class ResponseBuilder<T> {
    var httpStatus: Option<HttpStatus>
    var message: Option<string>
    var data: Option<T>

    /** `create()`: nothing set. */
    constructor Create()
      ensures httpStatus.None? && message.None? && data.None?
    {
      httpStatus, message, data := None, None, None;
    }

    /** `status(HttpStatus)`. */
    method Status(s: Option<HttpStatus>)
      modifies this`httpStatus
      ensures httpStatus == s
    {
      httpStatus := s;
    }

    /**
     * `status(int)`: the constant `HttpStatus.valueOf(code)` names. That lookup belongs to
     * Spring and is passed in as `valueOf`; a code it refuses propagates its failure and
     * leaves the status as it was.
     */
    method StatusCode(code: int, valueOf: int -> Result<HttpStatus, Exception>) returns (thrown: Option<Exception>)
      modifies this`httpStatus
      ensures valueOf(code).Ok? ==> httpStatus == Some(valueOf(code).value) && thrown.None?
      ensures valueOf(code).Err? ==> httpStatus == old(httpStatus) && thrown == Some(valueOf(code).error)
    {
      match valueOf(code)
      case Ok(s) =>
        httpStatus := Some(s);
        thrown := None;
      case Err(e) =>
        thrown := Some(e);
    }

    method Message(m: Option<string>)
      modifies this`message
      ensures message == m
    {
      message := m;
    }

    method Data(d: Option<T>)
      modifies this`data
      ensures data == d
    {
      data := d;
    }

    /**
     * `build()`: IllegalStateException when the status is unset, then when the message is
     * unset; otherwise the body carries the status value, the message and the data as
     * given (the data may be null), stamped with `now`, and the entity has the body's status.
     */
    method Build(now: Instant) returns (r: Result<ApiEntity<T>, Exception>)
      ensures httpStatus.None? ==> r == Err(IllegalStateException("HTTP status is required"))
      ensures httpStatus.Some? && message.None? ==> r == Err(IllegalStateException("Message is required"))
      ensures r.Ok? <==> httpStatus.Some? && message.Some?
      ensures r.Ok? ==>
        && r.value.status == r.value.body.status == httpStatus.value.value
        && r.value.body.message == message && r.value.body.data == data
        && r.value.body.timestamp == now
    {
      if httpStatus.None? {
        return Err(IllegalStateException("HTTP status is required"));
      }
      if message.None? {
        return Err(IllegalStateException("Message is required"));
      }
      var apiResponse := ApiResponse(httpStatus.value.value, message, data, now);
      return Ok(ApiEntity(httpStatus.value.value, apiResponse));
    }
  }
}

/**
 * ValidationExceptionHandler: the four bean-validation and request-binding handlers,
 * each of which fills a fresh 400 ErrorResponse, and the two grouping helpers that
 * merge raw validation failures into one FieldError per field path.
 */
module ValidationExceptionHandler {
  import opened ErrorModel
  import opened Formatting
  import opened FieldErrorAggregation

  /** org.springframework.validation.FieldError, as far as the grouping reads it. */
  datatype SpringFieldError = SpringFieldError(field: string, defaultMessage: string, rejectedValue: Value)

  /**
   * jakarta.validation.ConstraintViolation, with its property path already rendered by
   * `toString()`.
   */
  datatype ConstraintViolation = ConstraintViolation(propertyPath: string, message: string, invalidValue: Value)

  /** Spring field errors read as (field, defaultMessage, rejectedValue). */
  function FieldErrorViolations(errs: seq<SpringFieldError>): seq<Violation>
  {
    seq(|errs|, i requires 0 <= i < |errs| =>
      Violation(errs[i].field, errs[i].defaultMessage, errs[i].rejectedValue))
  }

  /**
   * Constraint violations read as (propertyPath, message, invalidValue), in the iteration
   * order of the violation set.
   */
  function ConstraintViolations(cvs: seq<ConstraintViolation>): seq<Violation>
  {
    seq(|cvs|, i requires 0 <= i < |cvs| =>
      Violation(cvs[i].propertyPath, cvs[i].message, cvs[i].invalidValue))
  }

  /**
   * `groupFieldErrors`: one FieldError per distinct field in order of first occurrence,
   * holding every message of that field in input order and the first rejected value.
   */
  function GroupFieldErrors(errs: seq<SpringFieldError>): (r: seq<FieldError>)
    ensures GroupingLaws(FieldErrorViolations(errs), r)
    ensures forall i :: 0 <= i < |r| ==> r[i].messages != []
    ensures TotalMessages(r) == |errs|
    ensures r == [] <==> errs == []
    ensures |r| == |FieldSet(FieldErrorViolations(errs))| <= |errs|
  {
    var vs := FieldErrorViolations(errs);
    AggregateLaws(vs);
    AggregateComplete(vs);
    GroupCount(vs);
    Aggregate(vs)
  }

  /** `groupConstraintViolations`: the same grouping, keyed on the property path. */
  function GroupConstraintViolations(cvs: seq<ConstraintViolation>): (r: seq<FieldError>)
    ensures GroupingLaws(ConstraintViolations(cvs), r)
    ensures forall i :: 0 <= i < |r| ==> r[i].messages != []
    ensures TotalMessages(r) == |cvs|
    ensures r == [] <==> cvs == []
    ensures |r| == |FieldSet(ConstraintViolations(cvs))| <= |cvs|
  {
    var vs := ConstraintViolations(cvs);
    AggregateLaws(vs);
    AggregateComplete(vs);
    GroupCount(vs);
    Aggregate(vs)
  }

  /** The body both bean-validation handlers build around the grouped field errors. */
  function ValidationFailed(fieldErrors: seq<FieldError>, req: Request, now: Instant): ResponseEntity
  {
    var detail := ErrorDetail(
      Some("VALIDATION_FAILED"),
      Some(ValidationError.Name()),
      Some(ValidationDetails(|fieldErrors|)));
    ResponseEntity(400, ErrorResponse(400, Some("Validation failed"), Some(detail),
      Some(req.uri), Some(req.httpMethod), Some(fieldErrors), now))
  }

  /** The details line of a validation failure that involves `n` distinct fields. */
  function ValidationDetails(n: nat): string
  {
    NatToString(n) + " validation error(s) occurred"
  }

  /**
   * `handleValidationException` (a MethodArgumentNotValidException): 400 VALIDATION_FAILED,
   * whose details count the distinct fields rather than the raw errors.
   */
  function HandleValidationException(errs: seq<SpringFieldError>, req: Request, now: Instant): (r: ResponseEntity)
    ensures r.status == r.body.status == 400
    ensures WellFormed(r.body)
    ensures r.body.message == Some("Validation failed")
    ensures r.body.error == Some(ErrorDetail(Some("VALIDATION_FAILED"), Some(ValidationError.Name()),
      Some(ValidationDetails(|FieldSet(FieldErrorViolations(errs))|))))
    ensures r.body.fieldErrors == Some(GroupFieldErrors(errs))
    ensures r.body.path == Some(req.uri) && r.body.httpMethod == Some(req.httpMethod)
    ensures r.body.timestamp == now
  {
    ValidationFailed(GroupFieldErrors(errs), req, now)
  }

  /** `handleConstraintViolation` (a ConstraintViolationException): the same response shape. */
  function HandleConstraintViolation(cvs: seq<ConstraintViolation>, req: Request, now: Instant): (r: ResponseEntity)
    ensures r.status == r.body.status == 400
    ensures WellFormed(r.body)
    ensures r.body.message == Some("Validation failed")
    ensures r.body.error == Some(ErrorDetail(Some("VALIDATION_FAILED"), Some(ValidationError.Name()),
      Some(ValidationDetails(|FieldSet(ConstraintViolations(cvs))|))))
    ensures r.body.fieldErrors == Some(GroupConstraintViolations(cvs))
    ensures r.body.path == Some(req.uri) && r.body.httpMethod == Some(req.httpMethod)
    ensures r.body.timestamp == now
  {
    ValidationFailed(GroupConstraintViolations(cvs), req, now)
  }

  /** `%s` of a rejected value: Java renders a null reference as "null". */
  function Render(v: Value): (s: string)
    ensures v.NullValue? ==> s == "null"
    ensures v.Text? ==> s == v.text
    ensures v.Number? ==> s == IntToString(v.number)
  {
    match v
    case NullValue => "null"
    case Text(t) => t
    case Number(n) => IntToString(n)
  }

  /**
   * `handleMethodArgumentTypeMismatch`: 400 INVALID_PARAMETER_TYPE naming the parameter
   * and the received value; neither details nor field errors are set.
   */
  function HandleMethodArgumentTypeMismatch(name: string, value: Value, req: Request, now: Instant): (r: ResponseEntity)
    ensures r.status == r.body.status == 400
    ensures WellFormed(r.body)
    ensures r.body.error == Some(ErrorDetail(Some("INVALID_PARAMETER_TYPE"), Some(ValidationError.Name()), None))
    ensures r.body.message == Some("Parameter '" + name + "' must be a valid number. Received: '" + Render(value) + "'")
    ensures r.body.fieldErrors.None?
    ensures r.body.path == Some(req.uri) && r.body.httpMethod == Some(req.httpMethod)
    ensures r.body.timestamp == now
  {
    var detail := ErrorDetail(Some("INVALID_PARAMETER_TYPE"), Some(ValidationError.Name()), None);
    var message := "Parameter '" + name + "' must be a valid number. Received: '" + Render(value) + "'";
    ResponseEntity(400, ErrorResponse(400, Some(message), Some(detail), Some(req.uri), Some(req.httpMethod), None, now))
  }

  /**
   * The details of an unreadable body: the exception message up to (not including) its
   * first ':', the whole message when it has none, a fixed text when it is null.
   */
  function JsonParseDetails(message: Option<string>): (d: string)
    ensures message.None? ==> d == "Invalid request body format"
    ensures message.Some? ==> d <= message.value && ':' !in d
    ensures message.Some? && ':' in message.value ==> |d| < |message.value| && message.value[|d|] == ':'
    ensures message.Some? && ':' !in message.value ==> d == message.value
  {
    match message
    case None => "Invalid request body format"
    case Some(m) =>
      if ':' in m then m[..FirstIndex(m, ':')] else m
  }

  /**
   * `handleJsonParseException` (an HttpMessageNotReadableException): 400
   * INVALID_REQUEST_BODY with the shortened message as details and an empty field list.
   */
  function HandleJsonParseException(message: Option<string>, req: Request, now: Instant): (r: ResponseEntity)
    ensures r.status == r.body.status == 400
    ensures WellFormed(r.body)
    ensures r.body.message == Some("Invalid request body")
    ensures r.body.error == Some(ErrorDetail(Some("INVALID_REQUEST_BODY"), Some(ValidationError.Name()),
      Some(JsonParseDetails(message))))
    ensures r.body.fieldErrors == Some([])
    ensures r.body.path == Some(req.uri) && r.body.httpMethod == Some(req.httpMethod)
    ensures r.body.timestamp == now
  {
    var detail := ErrorDetail(Some("INVALID_REQUEST_BODY"), Some(ValidationError.Name()), Some(JsonParseDetails(message)));
    ResponseEntity(400, ErrorResponse(400, Some("Invalid request body"), Some(detail),
      Some(req.uri), Some(req.httpMethod), Some([]), now))
  }

  /**
   * Shortening is idempotent: the details of an unreadable body contain no ':' and so
   * are their own details.
   */
  lemma JsonParseDetailsIdempotent(message: Option<string>)
    ensures JsonParseDetails(Some(JsonParseDetails(message))) == JsonParseDetails(message)
  {
    var d := JsonParseDetails(message);
    if message.Some? {
      assert ':' !in d;
    } else {
      assert forall i :: 0 <= i < |d| ==> d[i] != ':';
    }
  }

  /**
   * The details line counts fields, not raw errors: one more error on a field that is
   * already reported leaves it as it was, and an error on a new field raises it by one.
   */
  lemma DetailsCountFields(errs: seq<SpringFieldError>, e: SpringFieldError, req: Request, now: Instant)
    ensures e.field in Fields(FieldErrorViolations(errs)) ==>
      HandleValidationException(errs + [e], req, now).body.error
        == HandleValidationException(errs, req, now).body.error
    ensures e.field !in Fields(FieldErrorViolations(errs)) ==>
      |GroupFieldErrors(errs + [e])| == |GroupFieldErrors(errs)| + 1
  {
    var vs := FieldErrorViolations(errs);
    var v := Violation(e.field, e.defaultMessage, e.rejectedValue);
    assert FieldErrorViolations(errs + [e]) == vs + [v];
    FieldsAppend(vs, v);
    assert FieldSet(vs + [v]) == FieldSet(vs) + {e.field};
  }
}

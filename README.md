# rentals-backend error contract and registration gate, in Dafny

This project models the error-handling core of the rentals-backend Spring service and
proves properties of that model. The core has four parts:

- **The uniform error body.** The `ErrorResponse`, `ErrorDetail` and `FieldError` types
  and the `ErrorType` enumeration (`error_model.dfy`).
- **Validation failures.** The bean-validation and request-binding handlers, and the
  grouping that merges validation failures into one `FieldError` per field path
  (`field_error_aggregation.dfy`, `validation_exception_handler.dfy`).
- **Dispatch.** The class-keyed handler map of `GlobalExceptionHandler`, its
  fallback to a 500 `INTERNAL_ERROR` body, and the three domain handlers
  (`exceptions.dfy`, `exception_handlers.dfy`, `global_exception_handler.dfy`).
- **The registration gate.** `RegisteredUserFilter` sits after token authentication. It
  rejects an authenticated caller who has no user record with the 401 body of
  `UserNotRegisteredExceptionHandler` (`registered_user_filter.dfy`).

The model also covers the collaborators these parts call:

- user lookup and signup (`user_store.dfy`, `user_service.dfy`, `user_context_service.dfy`);
- the two response builders (`error_response_builder.dfy`, `response_builder.dfy`);
- the enum validator and the property creation path that it guards (`property_model.dfy`,
  `enum_validator.dfy`, `property_service.dfy`, `property_mapper.dfy`);
- the one controller method with a defect (`user_controller.dfy`).

How the Java maps onto Dafny:

- Code that only computes becomes functions over datatypes. The handlers, the grouping,
  path matching and the request decision are all of this kind.
- Objects whose fields the source updates become classes with `modifies` frames. These are
  the handler registry, both builders, the repositories, the validator, the filter chain
  and the servlet response.
- A Java `null` is `Option.None`.
- A thrown exception is the `Err` side of a `Result`, or an `Exception` value returned
  beside the new state.
- `Instant.now()` is always a parameter `now`.

Where the code departs from the behaviour one would expect, the model follows the code:

- **Status 400 with a business error.** A 400 body is expected to carry `VALIDATION_ERROR`
  or `CLIENT_ERROR`. But `UserAlreadyExistsExceptionHandler` answers
  400 with `BUSINESS_LOGIC_ERROR`. `ErrorModel.StatusMatchesType` therefore admits
  that pair.
- **ResourceNotFound is not registered.** A `ResourceNotFoundException` is expected to be
  dispatched to a 404. But
  `GlobalExceptionHandler.initializeHandlers` registers only the two user exceptions, so
  dispatch falls back to the 500 body. `DispatchStatuses` proves this. The 404 handler
  exists and is modelled on its own (`HandleResourceNotFound`, `NotFoundExample`).
- **The gate's status.** The comment in `RegisteredUserFilter` at line 64 speaks of a
  403. The code writes the status of the handler's body, which is 401.
- **One FieldError per field, with a list of messages.** `FieldError.java` declares a
  single `message` field. Every caller sets a list of messages, so the model's
  `FieldError` holds `messages: seq<string>`.
- **UserAlreadyExistsException cannot reach dispatch.** The class extends
  `RuntimeException`, not `ApplicationException`, so `handleException` can never receive
  it. The registry still holds its handler, and the model keeps that entry as written.

## Model

| member | source | states |
|---|---|---|
| ErrorModel.ErrorTypeNameInjective | src/main/java/dev/ganeshpalankar/rentals_backend/common/exception/ErrorType.java:12-42 | distinct error categories have distinct wire names |
| Formatting.NatToString | src/main/java/dev/ganeshpalankar/rentals_backend/common/exception/ValidationExceptionHandler.java:47 | `%d` of a count is a non-empty string of decimal digits without a leading zero |
| Formatting.ParseNatToString | src/main/java/dev/ganeshpalankar/rentals_backend/common/exception/ValidationExceptionHandler.java:47 | reading the decimal rendering back gives the number (round trip) |
| Formatting.IntToString | src/main/java/dev/ganeshpalankar/rentals_backend/common/exception/ResourceNotFountExceptionHandler.java:22-26 | `%s` of a Long id: a leading '-' exactly for negative ids, followed by digits without a leading zero that read back as the absolute value |
| Formatting.NatToStringInjective | src/main/java/dev/ganeshpalankar/rentals_backend/common/exception/ResourceNotFountExceptionHandler.java:22-26 | different numbers render differently |
| FieldErrorAggregation.Insert | src/main/java/dev/ganeshpalankar/rentals_backend/common/exception/ValidationExceptionHandler.java:163-168 | one step of `computeIfAbsent(...).add(v)`: a known field keeps its place and gets the violation appended to its bucket; a new field opens a bucket at the end |
| FieldErrorAggregation.GroupingBy | src/main/java/dev/ganeshpalankar/rentals_backend/common/exception/ValidationExceptionHandler.java:163-168 | every bucket of the collected map holds at least one violation |
| FieldErrorAggregation.SelectHead | src/main/java/dev/ganeshpalankar/rentals_backend/common/exception/ValidationExceptionHandler.java:180-181 | the first violation selected for a field is the one at that field's first index, so the rejected value is taken from the first occurrence |
| FieldErrorAggregation.InsertPreserves | src/main/java/dev/ganeshpalankar/rentals_backend/common/exception/ValidationExceptionHandler.java:163-168 | one insertion keeps the bucket invariant: keys are the distinct fields in first-occurrence order, and each bucket is exactly the input's violations for its key, in input order |
| FieldErrorAggregation.GroupingByInvariant | src/main/java/dev/ganeshpalankar/rentals_backend/common/exception/ValidationExceptionHandler.java:162-168 | the grouped map (a LinkedHashMap) satisfies the bucket invariant for every input |
| FieldErrorAggregation.InsertTotal | src/main/java/dev/ganeshpalankar/rentals_backend/common/exception/ValidationExceptionHandler.java:163-168 | an insertion adds exactly one member to the buckets |
| FieldErrorAggregation.GroupingByTotal | src/main/java/dev/ganeshpalankar/rentals_backend/common/exception/ValidationExceptionHandler.java:162-168 | the buckets together hold every input violation |
| FieldErrorAggregation.ToFieldErrorsTotal | src/main/java/dev/ganeshpalankar/rentals_backend/common/exception/ValidationExceptionHandler.java:170-189 | converting buckets to FieldErrors keeps one message per member |
| FieldErrorAggregation.AggregateLaws | src/main/java/dev/ganeshpalankar/rentals_backend/common/exception/ValidationExceptionHandler.java:162-190 | the result has one FieldError per distinct field path in first-occurrence order; each holds all of that field's messages in input order and the first rejected value, and no message list is empty |
| FieldErrorAggregation.AggregateComplete | src/main/java/dev/ganeshpalankar/rentals_backend/common/exception/ValidationExceptionHandler.java:162-190 | no violation is dropped (the message count equals the input length), and the result is empty exactly when the input is |
| FieldErrorAggregation.DistinctCardinality | src/main/java/dev/ganeshpalankar/rentals_backend/common/exception/ValidationExceptionHandler.java:170-189 | a sequence of distinct keys has as many elements as its set |
| FieldErrorAggregation.SetOfSeqBound | src/main/java/dev/ganeshpalankar/rentals_backend/common/exception/ValidationExceptionHandler.java:162-168 | a sequence has no more distinct elements than its length |
| FieldErrorAggregation.GroupCount | src/main/java/dev/ganeshpalankar/rentals_backend/common/exception/ValidationExceptionHandler.java:162-190 | the number of FieldErrors is the number of distinct field paths, and never more than the number of violations |
| FieldErrorAggregation.AggregateExample | src/main/java/dev/ganeshpalankar/rentals_backend/common/exception/ValidationExceptionHandler.java:162-190 | two `name` violations and one `type` violation group into `name` with both messages in order, then `type` with rejected value "XYZ" |
| ValidationExceptionHandler.GroupFieldErrors | src/main/java/dev/ganeshpalankar/rentals_backend/common/exception/ValidationExceptionHandler.java:162-190 | `groupFieldErrors` satisfies the grouping laws on (field, defaultMessage, rejectedValue), drops nothing, is empty iff its input is, and has one entry per distinct field |
| ValidationExceptionHandler.GroupConstraintViolations | src/main/java/dev/ganeshpalankar/rentals_backend/common/exception/ValidationExceptionHandler.java:200-228 | the same laws for constraint violations keyed on the property path |
| ValidationExceptionHandler.HandleValidationException | src/main/java/dev/ganeshpalankar/rentals_backend/common/exception/ValidationExceptionHandler.java:35-60 | 400 with VALIDATION_FAILED / VALIDATION_ERROR; details count the distinct fields; the field errors are the grouped errors; path, method and the dispatch-time timestamp are copied |
| ValidationExceptionHandler.HandleConstraintViolation | src/main/java/dev/ganeshpalankar/rentals_backend/common/exception/ValidationExceptionHandler.java:65-90 | the same 400 body, built from constraint violations |
| ValidationExceptionHandler.HandleMethodArgumentTypeMismatch | src/main/java/dev/ganeshpalankar/rentals_backend/common/exception/ValidationExceptionHandler.java:92-116 | 400 INVALID_PARAMETER_TYPE naming the parameter and the received value; no details and no field errors |
| ValidationExceptionHandler.Render | src/main/java/dev/ganeshpalankar/rentals_backend/common/exception/ValidationExceptionHandler.java:105-109 | `%s` of the received value: a null value is rendered "null", a string as itself, a number in decimal |
| ValidationExceptionHandler.JsonParseDetails | src/main/java/dev/ganeshpalankar/rentals_backend/common/exception/ValidationExceptionHandler.java:127-136 | details are a prefix of the parse message that stops just before its first ':' (or the whole message if it has none); a null message gives the fixed text |
| ValidationExceptionHandler.HandleJsonParseException | src/main/java/dev/ganeshpalankar/rentals_backend/common/exception/ValidationExceptionHandler.java:121-149 | 400 INVALID_REQUEST_BODY with the shortened details and an empty field-error list |
| ValidationExceptionHandler.JsonParseDetailsIdempotent | src/main/java/dev/ganeshpalankar/rentals_backend/common/exception/ValidationExceptionHandler.java:127-136 | shortening the details again changes nothing |
| ValidationExceptionHandler.DetailsCountFields | src/main/java/dev/ganeshpalankar/rentals_backend/common/exception/ValidationExceptionHandler.java:41-47 | one more error on a reported field leaves the error detail unchanged; an error on a new field adds one FieldError |
| ExceptionHandlers.HandleUserNotRegistered | src/main/java/dev/ganeshpalankar/rentals_backend/users/exception/UserNotRegisteredExceptionHandler.java:20-36 | 401 USER_NOT_REGISTERED / AUTHENTICATION_ERROR naming the external id, an empty field-error list, request path and method, timestamp now |
| ExceptionHandlers.HandleUserAlreadyExists | src/main/java/dev/ganeshpalankar/rentals_backend/users/exception/UserAlreadyExistsExceptionHandler.java:20-36 | 400 USER_ALREADY_EXISTS / BUSINESS_LOGIC_ERROR naming the external id, an empty field-error list |
| ExceptionHandlers.HandleResourceNotFound | src/main/java/dev/ganeshpalankar/rentals_backend/common/exception/ResourceNotFountExceptionHandler.java:15-34 | 404 RESOURCE_NOT_FOUND without details; the message names the resource and its id |
| ExceptionHandlers.FramedInjective | src/main/java/dev/ganeshpalankar/rentals_backend/users/exception/UserNotRegisteredExceptionHandler.java:24 | a value framed by a fixed prefix and suffix can be recovered |
| ExceptionHandlers.NotRegisteredDetailsInjective | src/main/java/dev/ganeshpalankar/rentals_backend/users/exception/UserNotRegisteredExceptionHandler.java:24 | the 401 details identify the external id uniquely |
| ExceptionHandlers.AlreadyExistsDetailsInjective | src/main/java/dev/ganeshpalankar/rentals_backend/users/exception/UserAlreadyExistsExceptionHandler.java:24 | the 400 details identify the external id uniquely |
| ExceptionHandlers.IntToStringInjective | src/main/java/dev/ganeshpalankar/rentals_backend/common/exception/ResourceNotFountExceptionHandler.java:22-26 | `%s` of a Long is injective |
| ExceptionHandlers.NotFoundMessageInjective | src/main/java/dev/ganeshpalankar/rentals_backend/common/exception/ResourceNotFountExceptionHandler.java:22-26 | for one resource name, the 404 message identifies the id |
| ExceptionHandlers.NotFoundExample | src/main/java/dev/ganeshpalankar/rentals_backend/common/exception/ResourceNotFountExceptionHandler.java:22-26 | Property 42 gives "Property with ID '42' does not exist" |
| ExceptionHandlers.HandlersIgnoreTime | src/main/java/dev/ganeshpalankar/rentals_backend/users/exception/UserNotRegisteredExceptionHandler.java:20-36 | each domain handler's body depends only on the exception and the request, apart from the timestamp |
| GlobalExceptionHandler.Handler.Handles | src/main/java/dev/ganeshpalankar/rentals_backend/users/exception/UserNotRegisteredExceptionHandler.java:17 | the exception class of a handler's type argument; every handler handles one of the three domain exception classes |
| GlobalExceptionHandler.Handler.Apply | src/main/java/dev/ganeshpalankar/rentals_backend/common/exception/GlobalExceptionHandler.java:43-46 | a registered handler applied to its own exception class yields a well-formed body carrying the request's path and method |
| GlobalExceptionHandler.HandleGenericException | src/main/java/dev/ganeshpalankar/rentals_backend/common/exception/GlobalExceptionHandler.java:52-68 | 500 INTERNAL_ERROR / SERVER_ERROR with a generic message and an empty field-error list |
| GlobalExceptionHandler.FallbackIgnoresException | src/main/java/dev/ganeshpalankar/rentals_backend/common/exception/GlobalExceptionHandler.java:52-68 | the fallback body leaks nothing of the exception: every exception gives the same body |
| GlobalExceptionHandler.GlobalExceptionHandler.constructor | src/main/java/dev/ganeshpalankar/rentals_backend/common/exception/GlobalExceptionHandler.java:28-31 | the new registry holds exactly the two user-exception handlers, each keyed by its own class |
| GlobalExceptionHandler.GlobalExceptionHandler.InitializeHandlers | src/main/java/dev/ganeshpalankar/rentals_backend/common/exception/GlobalExceptionHandler.java:33-37 | the two puts, in source order |
| GlobalExceptionHandler.GlobalExceptionHandler.HandleException | src/main/java/dev/ganeshpalankar/rentals_backend/common/exception/GlobalExceptionHandler.java:39-50 | dispatch is total; the entity status equals the body status; the body is well formed; UserNotRegistered gives 401, UserAlreadyExists gives 400, anything else gives the fallback body |
| GlobalExceptionHandler.GlobalExceptionHandler.DispatchStatuses | src/main/java/dev/ganeshpalankar/rentals_backend/common/exception/GlobalExceptionHandler.java:39-50 | every dispatched status is 400, 401 or 500; a ResourceNotFoundException is not answered by its own 404 handler |
| GlobalExceptionHandler.GlobalExceptionHandler.DispatchIgnoresTime | src/main/java/dev/ganeshpalankar/rentals_backend/common/exception/GlobalExceptionHandler.java:39-50 | dispatching the same failure twice gives bodies equal except for the timestamp |
| RegisteredUserFilter.AnyMatch | src/main/java/dev/ganeshpalankar/rentals_backend/config/RegisteredUserFilter.java:75-78 | `anyMatch` over the pattern list holds exactly when some pattern of the list matches |
| RegisteredUserFilter.AnyMatchOrderIndependent | src/main/java/dev/ganeshpalankar/rentals_backend/config/RegisteredUserFilter.java:75-78 | reordering the patterns does not change the decision |
| RegisteredUserFilter.ShouldSkipRegistrationCheck | src/main/java/dev/ganeshpalankar/rentals_backend/config/RegisteredUserFilter.java:36-39 | a path is exempt exactly when it is `/public`, lies under `/public/`, or is `/users/signup` |
| RegisteredUserFilter.Decide | src/main/java/dev/ganeshpalankar/rentals_backend/config/RegisteredUserFilter.java:45-72 | exempt or unauthenticated requests continue; an authenticated JWT caller without a record is rejected with the 401 USER_NOT_REGISTERED body; a non-JWT principal propagates "Invalid authentication type" |
| RegisteredUserFilter.FilterChain.DoFilter | src/main/java/dev/ganeshpalankar/rentals_backend/config/RegisteredUserFilter.java:51 | invoking the rest of the chain is counted once |
| RegisteredUserFilter.SendErrorResponse | src/main/java/dev/ganeshpalankar/rentals_backend/config/RegisteredUserFilter.java:80-91 | the servlet response gets the handler's 401 body, its status, JSON content type and UTF-8 |
| RegisteredUserFilter.DoFilterInternal | src/main/java/dev/ganeshpalankar/rentals_backend/config/RegisteredUserFilter.java:45-72 | continues the chain exactly once when the decision is to continue; on rejection writes the status, the body, the JSON content type and UTF-8, and leaves the chain untouched; otherwise rethrows the failure without continuing |
| UserStore.UserRepository.Save | src/main/java/dev/ganeshpalankar/rentals_backend/users/service/UserServiceImpl.java:25-28 | saving stores the user under its external id with an id no stored user has |
| UserService.UserServiceImpl.Signup | src/main/java/dev/ganeshpalankar/rentals_backend/users/service/UserServiceImpl.java:16-29 | a null or blank id fails with "External ID cannot be null or empty"; a known id fails with UserAlreadyExists; otherwise the user is stored; the store is unchanged on failure |
| UserService.UserServiceImpl.FindByExternalId | src/main/java/dev/ganeshpalankar/rentals_backend/users/service/UserServiceImpl.java:31-35 | found iff stored, with the stored user; otherwise "User not found with external ID: " + id |
| UserService.UserServiceImpl.ExistsByExternalId | src/main/java/dev/ganeshpalankar/rentals_backend/users/service/UserServiceImpl.java:38-40 | `existsByExternalId` holds exactly when `findByExternalId` succeeds |
| UserService.UserServiceImpl.SignupTwice | src/main/java/dev/ganeshpalankar/rentals_backend/users/service/UserServiceImpl.java:21-23 | after a successful signup, the same id is registered, signing up again fails with UserAlreadyExists, and the store holds exactly the first signup's user |
| UserContextService.GetCurrentUserExternalId | src/main/java/dev/ganeshpalankar/rentals_backend/users/service/UserContextService.java:41-49 | the subject of a JWT principal; any other principal fails with "Invalid authentication type" |
| UserContextService.GetCurrentUser | src/main/java/dev/ganeshpalankar/rentals_backend/users/service/UserContextService.java:57-61 | the stored user for the subject; a subject with no record fails with UserNotRegistered |
| UserContextService.GetCurrentUserId | src/main/java/dev/ganeshpalankar/rentals_backend/users/service/UserContextService.java:28-33 | the id of that stored user, with the same failures |
| UserContextService.CurrentUserAgreement | src/main/java/dev/ganeshpalankar/rentals_backend/users/service/UserContextService.java:28-33 | `getCurrentUserId` and `getCurrentUser` fail alike, and succeed with the same user's id |
| ErrorResponseBuilder.ErrorResponseBuilder.Create | src/main/java/dev/ganeshpalankar/rentals_backend/common/response/ErrorResponseBuilder.java:10-24 | a new builder has every field unset and an empty field-error list |
| ErrorResponseBuilder.ErrorResponseBuilder.Status | src/main/java/dev/ganeshpalankar/rentals_backend/common/response/ErrorResponseBuilder.java:27-30 | sets the status and nothing else |
| ErrorResponseBuilder.ErrorResponseBuilder.HttpStatusValue | src/main/java/dev/ganeshpalankar/rentals_backend/common/response/ErrorResponseBuilder.java:32-35 | sets the status to the HttpStatus value |
| ErrorResponseBuilder.ErrorResponseBuilder.Message | src/main/java/dev/ganeshpalankar/rentals_backend/common/response/ErrorResponseBuilder.java:37-40 | sets the message only |
| ErrorResponseBuilder.ErrorResponseBuilder.Error | src/main/java/dev/ganeshpalankar/rentals_backend/common/response/ErrorResponseBuilder.java:42-45 | replaces the whole error detail |
| ErrorResponseBuilder.ErrorResponseBuilder.ErrorCode | src/main/java/dev/ganeshpalankar/rentals_backend/common/response/ErrorResponseBuilder.java:47-53 | creates an empty detail if none exists, then sets its code and keeps its type and details |
| ErrorResponseBuilder.ErrorResponseBuilder.ErrorType | src/main/java/dev/ganeshpalankar/rentals_backend/common/response/ErrorResponseBuilder.java:55-61 | creates an empty detail if none exists, then sets its type and keeps its code and details |
| ErrorResponseBuilder.ErrorResponseBuilder.ErrorDetails | src/main/java/dev/ganeshpalankar/rentals_backend/common/response/ErrorResponseBuilder.java:63-69 | creates an empty detail if none exists, then sets its details and keeps its code and type |
| ErrorResponseBuilder.ErrorResponseBuilder.Path | src/main/java/dev/ganeshpalankar/rentals_backend/common/response/ErrorResponseBuilder.java:71-74 | sets the path only |
| ErrorResponseBuilder.ErrorResponseBuilder.HttpMethod | src/main/java/dev/ganeshpalankar/rentals_backend/common/response/ErrorResponseBuilder.java:76-79 | sets the method only |
| ErrorResponseBuilder.ErrorResponseBuilder.FieldErrors | src/main/java/dev/ganeshpalankar/rentals_backend/common/response/ErrorResponseBuilder.java:81-84 | a null list becomes an empty list; otherwise the given list is kept |
| ErrorResponseBuilder.ErrorResponseBuilder.AddFieldError | src/main/java/dev/ganeshpalankar/rentals_backend/common/response/ErrorResponseBuilder.java:86-93 | appends one FieldError holding the single message and keeps the earlier entries |
| ErrorResponseBuilder.ErrorResponseBuilder.AddFieldErrorEntry | src/main/java/dev/ganeshpalankar/rentals_backend/common/response/ErrorResponseBuilder.java:95-98 | appends the given FieldError and keeps the earlier entries |
| ErrorResponseBuilder.ErrorResponseBuilder.Timestamp | src/main/java/dev/ganeshpalankar/rentals_backend/common/response/ErrorResponseBuilder.java:100-103 | sets the timestamp only |
| ErrorResponseBuilder.ErrorResponseBuilder.Build | src/main/java/dev/ganeshpalankar/rentals_backend/common/response/ErrorResponseBuilder.java:105-126 | no status fails with "Status is required" and changes nothing; otherwise an unset timestamp becomes now; a status outside 100..999 then fails with IllegalArgumentException, as `ResponseEntity.status(int)` does; it succeeds exactly for a set three-digit status, and the entity and body carry that status and every field as set |
| ErrorResponseBuilder.BuildInternalError | src/main/java/dev/ganeshpalankar/rentals_backend/common/exception/GlobalExceptionHandler.java:52-68 | the fallback body built step by step through the builder equals the dispatcher's fallback body |
| ResponseBuilder.ResponseBuilder.Create | src/main/java/dev/ganeshpalankar/rentals_backend/common/response/ResponseBuilder.java:13-17 | a new builder has no status, message or data |
| ResponseBuilder.ResponseBuilder.Status | src/main/java/dev/ganeshpalankar/rentals_backend/common/response/ResponseBuilder.java:19-22 | sets the status only |
| ResponseBuilder.ResponseBuilder.StatusCode | src/main/java/dev/ganeshpalankar/rentals_backend/common/response/ResponseBuilder.java:24-27 | a resolvable code sets the status; an unresolvable one throws and leaves the status as it was |
| ResponseBuilder.ResponseBuilder.Message | src/main/java/dev/ganeshpalankar/rentals_backend/common/response/ResponseBuilder.java:29-32 | sets the message only |
| ResponseBuilder.ResponseBuilder.Data | src/main/java/dev/ganeshpalankar/rentals_backend/common/response/ResponseBuilder.java:34-37 | sets the data only |
| ResponseBuilder.ResponseBuilder.Build | src/main/java/dev/ganeshpalankar/rentals_backend/common/response/ResponseBuilder.java:39-57 | the status is checked first, then the message; it succeeds iff both are set, carrying status, message, data and now |
| UserController.NotFound | src/main/java/dev/ganeshpalankar/rentals_backend/users/controller/UserController.java:40-43 | the 404 "User not found" response |
| UserController.GetUserByIdAsWritten | src/main/java/dev/ganeshpalankar/rentals_backend/users/controller/UserController.java:32-45 | as written, every call answers 404, including when the user exists |
| UserController.GetUserById | src/main/java/dev/ganeshpalankar/rentals_backend/users/controller/UserController.java:32-45 | corrected: a stored user gives 200 with that user; an unknown id gives 404 |
| PropertyModel.ValueOf | src/main/java/dev/ganeshpalankar/rentals_backend/property/model/PropertyType.java:6-11 | `PropertyType.valueOf`: a null name throws NPE; a declared constant name gives that constant; any other name throws IllegalArgumentException naming it |
| PropertyModel.ValueOfName | src/main/java/dev/ganeshpalankar/rentals_backend/property/model/PropertyType.java:6-11 | `valueOf(t.name()) == t` for every constant (round trip) |
| EnumValidator.AnyNameMatches | src/main/java/dev/ganeshpalankar/rentals_backend/common/validation/EnumValidator.java:28-29 | the stream's anyMatch holds exactly when the value is one of the constant names |
| EnumValidator.AnyNameMatchesOrderIndependent | src/main/java/dev/ganeshpalankar/rentals_backend/common/validation/EnumValidator.java:28-29 | the order of the constants does not matter |
| EnumValidator.EnumValidator.Initialize | src/main/java/dev/ganeshpalankar/rentals_backend/common/validation/EnumValidator.java:17-19 | stores the annotation's enum class |
| EnumValidator.EnumValidator.IsValid | src/main/java/dev/ganeshpalankar/rentals_backend/common/validation/EnumValidator.java:22-30 | null is valid; otherwise valid iff the value is a constant name, case-sensitively |
| EnumValidator.PropertyTypeAccepted | src/main/java/dev/ganeshpalankar/rentals_backend/common/validation/EnumValidator.java:22-30 | for PropertyType, exactly APARTMENT, HOUSE, COMMERCIAL and VILLA are accepted, and "apartment" is not |
| EnumValidator.AcceptedValueParses | src/main/java/dev/ganeshpalankar/rentals_backend/property/service/PropertyService.java:28 | every accepted value parses with `PropertyType.valueOf` to a constant of that name |
| PropertyService.BuildProperty | src/main/java/dev/ganeshpalankar/rentals_backend/property/service/PropertyService.java:23-29 | the entity takes the owner as owner and creator, copies name and address, and fails exactly as `valueOf` of the type fails |
| PropertyService.PropertyRepository.Save | src/main/java/dev/ganeshpalankar/rentals_backend/property/service/PropertyService.java:31 | saving assigns a fresh id and stamps created and updated with now |
| PropertyService.PropertyRepository.FindById | src/main/java/dev/ganeshpalankar/rentals_backend/property/service/PropertyService.java:35 | found iff stored, with the stored entity under that id |
| PropertyService.PropertyService.CreateProperty | src/main/java/dev/ganeshpalankar/rentals_backend/property/service/PropertyService.java:22-32 | a bad type fails and stores nothing; otherwise the built entity is saved under a fresh id |
| PropertyService.PropertyService.GetPropertyById | src/main/java/dev/ganeshpalankar/rentals_backend/property/service/PropertyService.java:34-36 | null exactly when no entity has that id; otherwise the stored entity with that id |
| PropertyMapper.ToResponse | src/main/java/dev/ganeshpalankar/rentals_backend/property/mapper/PropertyMapper.java:19-34 | null maps to null; otherwise id, name, address, owner and times are copied, and the type is its constant name (which parses back) |
| PropertyMapper.CreateThenMap | src/main/java/dev/ganeshpalankar/rentals_backend/property/mapper/PropertyMapper.java:28 | a request whose type passes the validator is created, and its response carries that type name verbatim |

## Left out

- JSON serialisation of bodies (Jackson, the JavaTimeModule), the servlet writer, and logging. A body is the datatype value that would be serialised.
- Spring's wiring: `@ControllerAdvice` routing of exceptions to the annotated handler methods, bean construction, and `@Transactional`.
- Concurrency. Each request is a sequential call. The registry is built in the constructor and never changed afterwards.
- RegisteredUserFilter.ShouldSkipRegistrationCheck: models `AntPathMatcher` only for the two patterns in use. `/public/**` is the path `/public` or anything under `/public/`. Matching of `.` suffixes, `{var}` and the other glob forms is not modelled.
- RegisteredUserFilter.ShouldSkipRegistrationCheck: compares paths character by character. `AntPathMatcher` ignores empty segments, so it also exempts paths with repeated separators such as `//public/x` or `//users//signup`, which the model does not exempt.
- RegisteredUserFilter.Decide: the SecurityContextHolder lookup is an explicit `Option<Authentication>` parameter. An "anonymousUser" principal is modelled as a named principal.
- UserContextService.GetCurrentUserExternalId: takes a non-null Authentication. Java's NullPointerException for a missing authentication is not modelled.
- Persistence: JPA repositories are maps with a counter for fresh ids. Database unique constraints, lazy loading and `@PreUpdate` (`onUpdate`) are not modelled.
- PropertyService.PropertyRepository.Save: stamps `createdAt` and `updatedAt` with the same instant `now`. `Property.onCreate` reads the clock twice, so the two can differ by the time between the reads.
- ErrorResponseBuilder.ErrorResponseBuilder.Build: the range check and its message follow Spring's `HttpStatusCode.valueOf`, which is not part of this model.
- UserStore.UserRepository.Save: requires that the external id is not yet stored. The source checks existence first, and the database's reaction to a duplicate is not part of this model.
- ErrorResponseBuilder.ErrorResponseBuilder.Error: the detail is a value. In Java the builder shares the caller's `ErrorDetail` object, so a later `errorCode` call would also change the caller's copy; that aliasing is not modelled.
- ErrorResponseBuilder.ErrorResponseBuilder.FieldErrors: the list is copied as a value. Java keeps the caller's list and later `addFieldError` calls append into it; that aliasing is not modelled, and neither is the exception an immutable list would raise.
- ErrorResponseBuilder.ErrorResponseBuilder.AddFieldError: the message is a non-null string. The NullPointerException of `List.of(null)` is not modelled.
- ResponseBuilder.ResponseBuilder.StatusCode: `HttpStatus.valueOf` is a parameter. Spring's table of status codes is not part of this model.
- ValidationExceptionHandler.GroupFieldErrors: a Spring field error's default message is a non-null string. Spring may report a null default message, which Java would put into the message list; that case is not modelled.
- UserContextService.GetCurrentUserExternalId: the JWT subject and the principal name are non-null strings. A token without a subject, which Java would return as null, is not modelled.
- ExceptionHandlers.HandleResourceNotFound: the resource id is a non-null integer. Java's rendering of a null Long as "null" is not modelled, and neither are null external ids in the user handlers.
- Exceptions: `Exceptions.ClassOf` stands for `ex.getClass()`, and dispatch keys on that exact runtime class. The rest of the Java class hierarchy is not modelled, nor are the message texts of the domain exceptions.
- EnumValidator.EnumValidator.IsValid: requires that `initialize` has run. Calling `isValid` first would throw a NullPointerException in Java, and Bean Validation never does that.
- The `message` attribute of `@ValidEnum`, and the ConstraintValidatorContext, are not used by the validator and are not modelled.
- ValidationExceptionHandler.ValidationDetails: renders the count with ASCII digits. Java's `String.format("%d", …)` uses the default locale's digits, so a locale with other digits would render the count differently; that case is not modelled.
- ValidationExceptionHandler.GroupConstraintViolations: the violation set is read in the order of a given sequence. The model does not fix the iteration order of a Java Set.
- Controllers: `PropertyController`, `signup` in `UserController` and `SecurityConfig` are plumbing around the modelled services and are not modelled. Only `getUserById` is, for the finding below.
- PropertyService.PropertyService.GetPropertyById: the id is a natural number. Spring Data's exception for a null id is not modelled.

## Findings

| source | as written | input that shows it | evidently intended | confidence | as-written member | corrected member |
|---|---|---|---|---|---|---|
| src/main/java/dev/ganeshpalankar/rentals_backend/users/controller/UserController.java:35-38 | The success branch builds the response without a message. `ResponseBuilder.build` then throws IllegalStateException("Message is required"), and the method's own `catch (RuntimeException)` turns that into the 404 "User not found" response. | any id whose decimal string is a stored external id, e.g. a user stored under "7" and GET /users/7 | 200 with the found user | high; not executed | UserController.GetUserByIdAsWritten | UserController.GetUserById |

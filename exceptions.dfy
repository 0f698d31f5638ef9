/**
 * The failures that the core raises or dispatches, as a closed datatype with one
 * constructor per exception class, and the exact runtime class of each.
 */
module Exceptions {

  datatype Exception =
      /** UserNotRegisteredException: authenticated, but no account with this external id. */
    | UserNotRegisteredException(externalId: string)
      /** UserAlreadyExistsException: signup of an external id that is already stored. */
    | UserAlreadyExistsException(externalId: string)
      /** ResourceNotFoundException: a resource of the named kind with this id does not exist. */
    | ResourceNotFoundException(resourceId: int, resourceName: string)
      /** A plain java.lang.RuntimeException with its message. */
    | RuntimeException(message: string)
      /** java.lang.IllegalStateException, thrown by the response builders. */
    | IllegalStateException(message: string)
      /** java.lang.IllegalArgumentException, thrown by `Enum.valueOf` and `HttpStatus.valueOf`. */
    | IllegalArgumentException(message: string)
      /** java.lang.NullPointerException, thrown by `Enum.valueOf(null)`. */
    | NullPointerException(message: string)

  /** Runtime class tokens, the keys of the handler registry. */
  datatype ExceptionClass =
    | UserNotRegisteredClass
    | UserAlreadyExistsClass
    | ResourceNotFoundClass
    | RuntimeClass
    | IllegalStateClass
    | IllegalArgumentClass
    | NullPointerClass

  /** `ex.getClass()`: the exact runtime class, never a superclass. */
  function ClassOf(ex: Exception): ExceptionClass
  {
    match ex
    case UserNotRegisteredException(_) => UserNotRegisteredClass
    case UserAlreadyExistsException(_) => UserAlreadyExistsClass
    case ResourceNotFoundException(_, _) => ResourceNotFoundClass
    case RuntimeException(_) => RuntimeClass
    case IllegalStateException(_) => IllegalStateClass
    case IllegalArgumentException(_) => IllegalArgumentClass
    case NullPointerException(_) => NullPointerClass
  }
}

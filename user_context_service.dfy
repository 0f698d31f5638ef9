/**
 * UserContextService: who the current caller is. The security context's Authentication is
 * passed in explicitly, and the user store is read as a map from external id to user.
 */
module UserContextService {
  import opened ErrorModel
  import opened Exceptions
  import opened UserStore

  /** The authentication principal: a decoded JWT, or any other principal object. */
  datatype Principal =
    | Jwt(subject: string)
      /** A principal that is not a JWT, such as the string "anonymousUser". */
    | NamedPrincipal(name: string)

  /** The parts of Spring Security's Authentication that the core reads. */
  datatype Authentication = Authentication(authenticated: bool, principal: Principal)

  /**
   * `getCurrentUserExternalId`: the JWT subject; any other kind of principal is refused with
   * a generic failure, never with UserNotRegistered.
   */
  function GetCurrentUserExternalId(auth: Authentication): (r: Result<string, Exception>)
    ensures r.Ok? <==> auth.principal.Jwt?
    ensures r.Ok? ==> r.value == auth.principal.subject
    ensures r.Err? ==> r.error == RuntimeException("Invalid authentication type")
  {
    match auth.principal
    case Jwt(subject) => Ok(subject)
    case NamedPrincipal(_) => Err(RuntimeException("Invalid authentication type"))
  }

  /**
   * `getCurrentUser`: the stored user filed under the JWT subject. A subject with no stored
   * user raises UserNotRegistered carrying that subject.
   */
  function GetCurrentUser(users: map<string, User>, auth: Authentication): (r: Result<User, Exception>)
    ensures r.Ok? <==> auth.principal.Jwt? && auth.principal.subject in users
    ensures r.Ok? ==> r.value == users[auth.principal.subject]
    ensures auth.principal.Jwt? && auth.principal.subject !in users ==>
      r == Err(UserNotRegisteredException(auth.principal.subject))
    ensures auth.principal.NamedPrincipal? ==> r == Err(RuntimeException("Invalid authentication type"))
  {
    match GetCurrentUserExternalId(auth)
    case Err(e) => Err(e)
    case Ok(externalId) =>
      if externalId in users then Ok(users[externalId])
      else Err(UserNotRegisteredException(externalId))
  }

  /** `getCurrentUserId`: the id of the stored user filed under the JWT subject. */
  function GetCurrentUserId(users: map<string, User>, auth: Authentication): (r: Result<nat, Exception>)
    ensures r.Ok? <==> auth.principal.Jwt? && auth.principal.subject in users
    ensures r.Ok? ==> r.value == users[auth.principal.subject].id
    ensures auth.principal.Jwt? && auth.principal.subject !in users ==>
      r == Err(UserNotRegisteredException(auth.principal.subject))
    ensures auth.principal.NamedPrincipal? ==> r == Err(RuntimeException("Invalid authentication type"))
  {
    match GetCurrentUserExternalId(auth)
    case Err(e) => Err(e)
    case Ok(externalId) =>
      if externalId in users then Ok(users[externalId].id)
      else Err(UserNotRegisteredException(externalId))
  }

  /**
   * The two lookups agree: they fail with the same exception, and on success the id is the
   * id of the user; in a keyed store that user's external id is the JWT subject.
   */
  lemma CurrentUserAgreement(users: map<string, User>, auth: Authentication)
    ensures GetCurrentUser(users, auth).Err? ==>
      GetCurrentUserId(users, auth) == Err(GetCurrentUser(users, auth).error)
    ensures GetCurrentUser(users, auth).Ok? ==>
      GetCurrentUserId(users, auth) == Ok(GetCurrentUser(users, auth).value.id)
    ensures Keyed(users) && GetCurrentUser(users, auth).Ok? ==>
      GetCurrentUser(users, auth).value.externalId == auth.principal.subject
  {
  }
}

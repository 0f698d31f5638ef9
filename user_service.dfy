/**
 * UserServiceImpl: signup of an authenticated subject, and the two lookups by external id,
 * over the user store.
 */
module UserService {
  import opened ErrorModel
  import opened Exceptions
  import opened UserStore

  /** `s.trim().isEmpty()`: `trim` removes every character up to U+0020 from both ends. */
  predicate IsBlank(s: string)
  {
    forall i :: 0 <= i < |s| ==> s[i] <= ' '
  }

  class UserServiceImpl {
    const userRepository: UserRepository

    constructor(repository: UserRepository)
      ensures userRepository == repository
    {
      userRepository := repository;
    }

    /**
     * `signup`: a null or blank id is refused before the store is consulted; an id that is
     * already stored raises UserAlreadyExists and saves nothing; otherwise exactly one new
     * user is saved and returned.
     */
    method Signup(externalId: Option<string>) returns (r: Result<User, Exception>)
      requires userRepository.Valid()
      modifies userRepository
      ensures userRepository.Valid()
      ensures externalId.None? || IsBlank(externalId.value) ==>
        r == Err(RuntimeException("External ID cannot be null or empty")) && unchanged(userRepository)
      ensures externalId.Some? && !IsBlank(externalId.value) && externalId.value in old(userRepository.users) ==>
        r == Err(UserAlreadyExistsException(externalId.value)) && unchanged(userRepository)
      ensures externalId.Some? && !IsBlank(externalId.value) && externalId.value !in old(userRepository.users) ==>
        && r.Ok? && r.value.externalId == externalId.value
        && userRepository.users == old(userRepository.users)[externalId.value := r.value]
        && (forall x :: x in old(userRepository.users) ==> old(userRepository.users)[x].id != r.value.id)
    {
      if externalId.None? || IsBlank(externalId.value) {
        return Err(RuntimeException("External ID cannot be null or empty"));
      }
      var x := externalId.value;
      if ExistsByExternalId(x) {
        return Err(UserAlreadyExistsException(x));
      }
      var u := userRepository.Save(x);
      return Ok(u);
    }

    /**
     * `findByExternalId`: the stored user filed under `x`, whose external id is `x`, or the
     * "User not found" failure exactly when there is none.
     */
    function FindByExternalId(x: string): (r: Result<User, Exception>)
      reads userRepository
      requires userRepository.Valid()
      ensures r.Ok? <==> x in userRepository.users
      ensures r.Ok? ==> r.value == userRepository.users[x] && r.value.externalId == x
      ensures r.Err? ==> r.error == RuntimeException("User not found with external ID: " + x)
    {
      if x in userRepository.users then Ok(userRepository.users[x])
      else Err(RuntimeException("User not found with external ID: " + x))
    }

    /**
     * `existsByExternalId`: store membership, read without changing anything; it agrees
     * with `findByExternalId`.
     */
    function ExistsByExternalId(x: string): (b: bool)
      reads userRepository
      requires userRepository.Valid()
      ensures b <==> FindByExternalId(x).Ok?
    {
      x in userRepository.users
    }

    /**
     * After a successful signup of `x`, `x` exists, and a second signup of `x` is refused as
     * a duplicate while leaving the store as the first one left it.
     */
    method SignupTwice(x: string) returns (first: Result<User, Exception>, second: Result<User, Exception>)
      requires userRepository.Valid()
      modifies userRepository
      ensures userRepository.Valid()
      ensures first.Ok? ==> ExistsByExternalId(x) && second == Err(UserAlreadyExistsException(x))
      ensures first.Ok? ==> userRepository.users == old(userRepository.users)[x := first.value]
      ensures !IsBlank(x) && x !in old(userRepository.users) ==> first.Ok?
    {
      first := Signup(Some(x));
      second := Signup(Some(x));
    }
  }
}

/**
 * `UserController.getUserById`, kept for one observation about how it uses
 * ResponseBuilder: its success branch never sets a message, so `build` throws, its own
 * `catch (RuntimeException)` takes over, and every lookup answers 404. `GetUserByIdAsWritten`
 * is the code as it stands; `GetUserById` sets a message and behaves as intended.
 */
module UserController {
  import opened ErrorModel
  import opened Exceptions
  import opened Formatting
  import opened UserStore
  import opened UserService
  import opened ResponseBuilder

  /** The catch branch: 404 "User not found" with no data. */
  method NotFound(now: Instant) returns (r: ApiEntity<User>)
    ensures r == ApiEntity(404, ApiResponse(404, Some("User not found"), None, now))
  {
    var b := new ResponseBuilder<User>.Create();
    b.Status(Some(HttpStatus(404)));
    b.Message(Some("User not found"));
    var built := b.Build(now);
    assert built.Ok?;
    r := built.value;
  }

  /**
   * `getUserById` as written: even when the user exists the success response has no
   * message, so `build` throws and the caller always gets 404.
   */
  method GetUserByIdAsWritten(service: UserServiceImpl, id: int, now: Instant) returns (r: ApiEntity<User>)
    requires service.userRepository.Valid()
    ensures r == ApiEntity(404, ApiResponse(404, Some("User not found"), None, now))
    ensures service.FindByExternalId(IntToString(id)).Ok? ==> r.status == 404
  {
    var attempt: Result<ApiEntity<User>, Exception>;
    var found := service.FindByExternalId(IntToString(id));
    if found.Err? {
      attempt := Err(found.error);
    } else {
      var b := new ResponseBuilder<User>.Create();
      b.Status(Some(HttpStatus(200)));
      b.Data(Some(found.value));
      attempt := b.Build(now);
    }
    match attempt
    case Ok(entity) => r := entity;
    case Err(_) => r := NotFound(now);
  }

  /**
   * `getUserById` with the message the success branch needs: a stored user is returned
   * with 200, and only a missing one gets 404.
   */
  method GetUserById(service: UserServiceImpl, id: int, now: Instant) returns (r: ApiEntity<User>)
    requires service.userRepository.Valid()
    ensures var found := service.FindByExternalId(IntToString(id));
      && (found.Ok? ==> r.status == r.body.status == 200 && r.body.data == Some(found.value))
      && (found.Err? ==> r == ApiEntity(404, ApiResponse(404, Some("User not found"), None, now)))
  {
    var attempt: Result<ApiEntity<User>, Exception>;
    var found := service.FindByExternalId(IntToString(id));
    if found.Err? {
      attempt := Err(found.error);
    } else {
      var b := new ResponseBuilder<User>.Create();
      b.Status(Some(HttpStatus(200)));
      b.Message(Some("User found"));
      b.Data(Some(found.value));
      attempt := b.Build(now);
    }
    match attempt
    case Ok(entity) => r := entity;
    case Err(_) => r := NotFound(now);
  }
}

/**
 * RegisteredUserFilter: the gate in front of the business handlers. Exempt paths and
 * callers that are not authenticated pass; an authenticated caller passes only when the
 * store knows them, and is otherwise answered with the UserNotRegistered 401 body without
 * reaching the rest of the chain.
 */
module RegisteredUserFilter {
  import opened ErrorModel
  import opened Exceptions
  import opened ExceptionHandlers
  import opened UserStore
  import opened UserContextService

  /**
   * The two Ant-style pattern shapes in use: a literal path, and a base path followed by
   * the multi-segment wildcard, which matches the base itself and every path below it.
   */
  datatype PathPattern = Exact(path: string) | Prefix(base: string)

  predicate Matches(pattern: PathPattern, uri: string)
  {
    match pattern
    case Exact(path) => uri == path
    case Prefix(base) => uri == base || base + "/" <= uri
  }

  /** `SKIP_REGISTRATION_CHECK_PATTERNS`: everything under /public, and /users/signup. */
  const SkipRegistrationCheckPatterns: seq<PathPattern> := [Prefix("/public"), Exact("/users/signup")]

  /** `stream().anyMatch(...)` over a pattern list: true exactly when some pattern matches. */
  function AnyMatch(patterns: seq<PathPattern>, uri: string): (b: bool)
    ensures b <==> exists i :: 0 <= i < |patterns| && Matches(patterns[i], uri)
  {
    if patterns == [] then false
    else
      var rest := AnyMatch(patterns[1..], uri);
      assert forall j :: 0 <= j < |patterns[1..]| ==> patterns[1..][j] == patterns[j + 1];
      Matches(patterns[0], uri) || rest
  }

  /** The order of the patterns does not matter: any reordering gives the same answer. */
  lemma AnyMatchOrderIndependent(ps: seq<PathPattern>, qs: seq<PathPattern>, uri: string)
    requires multiset(ps) == multiset(qs)
    ensures AnyMatch(ps, uri) == AnyMatch(qs, uri)
  {
    if AnyMatch(ps, uri) {
      var i :| 0 <= i < |ps| && Matches(ps[i], uri);
      assert ps[i] in multiset(qs);
      var j :| 0 <= j < |qs| && qs[j] == ps[i];
    }
    if AnyMatch(qs, uri) {
      var j :| 0 <= j < |qs| && Matches(qs[j], uri);
      assert qs[j] in multiset(ps);
      var i :| 0 <= i < |ps| && ps[i] == qs[j];
    }
  }

  /** `shouldSkipRegistrationCheck`: the paths under /public, and /users/signup. */
  function ShouldSkipRegistrationCheck(uri: string): (b: bool)
    ensures b <==> uri == "/public" || "/public/" <= uri || uri == "/users/signup"
  {
    var ps := SkipRegistrationCheckPatterns;
    assert ps[1..] == [Exact("/users/signup")] && ps[1..][1..] == [];
    assert "/public" + "/" == "/public/";
    assert !AnyMatch(ps[1..][1..], uri);
    assert AnyMatch(ps[1..], uri) == Matches(Exact("/users/signup"), uri);
    assert AnyMatch(ps, uri) == (Matches(Prefix("/public"), uri) || AnyMatch(ps[1..], uri));
    AnyMatch(ps, uri)
  }

  /** Whether the filter checks registration at all: an authenticated, non-anonymous caller. */
  predicate ChecksRegistration(auth: Option<Authentication>)
  {
    && auth.Some?
    && auth.value.authenticated
    && auth.value.principal != NamedPrincipal("anonymousUser")
  }

  /** What `doFilterInternal` does with one request. */
  datatype Outcome =
    | Continued
      /** `sendErrorResponse`: the status and body written; the chain is not called. */
    | Rejected(status: int, body: ErrorResponse)
      /** A failure other than UserNotRegistered, which propagates out of the filter. */
    | Propagated(failure: Exception)

  /**
   * The decision of the filter: exempt and unchecked requests continue; a checked caller
   * continues when registered, is answered with the UserNotRegistered handler's 401 body
   * when not, and any other lookup failure propagates.
   */
  function Decide(req: Request, auth: Option<Authentication>, users: map<string, User>, now: Instant): (o: Outcome)
    ensures ShouldSkipRegistrationCheck(req.uri) || !ChecksRegistration(auth) ==> o == Continued
    ensures o.Rejected? <==>
      && !ShouldSkipRegistrationCheck(req.uri) && ChecksRegistration(auth)
      && auth.value.principal.Jwt? && auth.value.principal.subject !in users
    ensures o.Rejected? ==>
      && o.status == o.body.status == 401
      && o.body == HandleUserNotRegistered(UserNotRegisteredException(auth.value.principal.subject), req, now)
    ensures o.Propagated? <==>
      !ShouldSkipRegistrationCheck(req.uri) && ChecksRegistration(auth) && auth.value.principal.NamedPrincipal?
    ensures o.Propagated? ==> o.failure == RuntimeException("Invalid authentication type")
  {
    if ShouldSkipRegistrationCheck(req.uri) then Continued
    else if !ChecksRegistration(auth) then Continued
    else
      match GetCurrentUserId(users, auth.value)
      case Ok(_) => Continued
      case Err(e) =>
        if e.UserNotRegisteredException? then
          var body := HandleUserNotRegistered(e, req, now);
          Rejected(body.status, body)
        else Propagated(e)
  }

  /** The rest of the filter chain; the model counts how often it is invoked. */
  class FilterChain {
    var invocations: nat

    constructor()
      ensures invocations == 0
    {
      invocations := 0;
    }

    /** `filterChain.doFilter(request, response)`. */
    method DoFilter()
      modifies this
      ensures invocations == old(invocations) + 1
    {
      invocations := invocations + 1;
    }
  }

  /** The parts of the servlet response the filter writes. */
  class HttpServletResponse {
    var status: int
    var contentType: Option<string>
    var characterEncoding: Option<string>
    /** The error body written to the response, before JSON serialisation. */
    var body: Option<ErrorResponse>

    constructor()
      ensures status == 200 && contentType.None? && characterEncoding.None? && body.None?
    {
      status := 200;
      contentType := None;
      characterEncoding := None;
      body := None;
    }
  }

  /** `sendErrorResponse`: the UserNotRegistered handler's body and its status, as JSON in UTF-8. */
  method SendErrorResponse(response: HttpServletResponse, req: Request, ex: Exception, now: Instant)
    requires ex.UserNotRegisteredException?
    modifies response
    ensures response.body == Some(HandleUserNotRegistered(ex, req, now))
    ensures response.status == response.body.value.status
    ensures response.contentType == Some("application/json") && response.characterEncoding == Some("UTF-8")
  {
    var errorResponse := HandleUserNotRegistered(ex, req, now);
    response.status := errorResponse.status;
    response.contentType := Some("application/json");
    response.characterEncoding := Some("UTF-8");
    response.body := Some(errorResponse);
  }

  /**
   * `doFilterInternal`. The chain is invoked exactly once when the request continues and
   * never otherwise; the response is written only on rejection; a propagated failure is
   * returned as `thrown`.
   */
  method DoFilterInternal(req: Request, response: HttpServletResponse, chain: FilterChain,
                          auth: Option<Authentication>, users: map<string, User>, now: Instant)
    returns (thrown: Option<Exception>)
    modifies response, chain
    ensures var o := Decide(req, auth, users, now);
      && (o.Continued? ==>
            chain.invocations == old(chain.invocations) + 1 && unchanged(response) && thrown.None?)
      && (o.Rejected? ==>
            && chain.invocations == old(chain.invocations)
            && response.status == o.status && response.body == Some(o.body)
            && response.contentType == Some("application/json")
            && response.characterEncoding == Some("UTF-8")
            && thrown.None?)
      && (o.Propagated? ==>
            chain.invocations == old(chain.invocations) && unchanged(response) && thrown == Some(o.failure))
    ensures chain.invocations <= old(chain.invocations) + 1
  {
    if ShouldSkipRegistrationCheck(req.uri) {
      chain.DoFilter();
      return None;
    }
    if auth.Some? && auth.value.authenticated && auth.value.principal != NamedPrincipal("anonymousUser") {
      var lookup := GetCurrentUserId(users, auth.value);
      if lookup.Err? {
        if lookup.error.UserNotRegisteredException? {
          SendErrorResponse(response, req, lookup.error, now);
          return None;
        }
        return Some(lookup.error);
      }
    }
    chain.DoFilter();
    return None;
  }
}

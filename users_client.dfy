/**
 * The browser side of logging in, from `frontend/static/js/users.js`: the
 * error handlers that turn a failed response into the message shown to the
 * user, the `Authorization` header built from a successful login, and the
 * client session state that `handleSuccess`, `UserService.setUser` and
 * `logout` update.
 */
module UsersClient {
  import opened Json
  import UserResource

  /** The statuses whose body is expected to carry a `reason`. */
  const ReasonErrorCodes: seq<int> := [400, 401, 403]

  const UnknownError := "An unknown error occurred"
  const AuthErrorDefault := "Sorry, we're unable to authenticate you"
  const RegErrorDefault := "An error occurred while registering"

  /**
   * The handler `handleError(defaultMessage)` returns: the value the promise
   * is rejected with for a failed response.
   */
  function HandleError(defaultMessage: string, response: HttpResponse): (rejection: Value)
    ensures response.status in ReasonErrorCodes && JsTruthy(Member(response.data, "reason")) ==>
              rejection == Member(response.data, "reason")
    ensures response.status in ReasonErrorCodes && !JsTruthy(Member(response.data, "reason")) ==>
              rejection == Str(defaultMessage)
    ensures response.status !in ReasonErrorCodes && JsTruthy(Member(response.data, "error_message")) ==>
              rejection == Member(response.data, "error_message")
    ensures response.status !in ReasonErrorCodes && !JsTruthy(Member(response.data, "error_message")) ==>
              rejection == Str(UnknownError)
  {
    if response.status in ReasonErrorCodes then
      if IsObject(response.data) && JsTruthy(Member(response.data, "reason")) then Member(response.data, "reason")
      else Str(defaultMessage)
    else
      if IsObject(response.data) && JsTruthy(Member(response.data, "error_message")) then Member(response.data, "error_message")
      else Str(UnknownError)
  }

  /** `handleAuthError`: the login page's handler. */
  function HandleAuthError(response: HttpResponse): (rejection: Value)
    ensures JsTruthy(rejection)
    ensures rejection != Str(RegErrorDefault) || Member(response.data, "reason") == Str(RegErrorDefault)
                                              || Member(response.data, "error_message") == Str(RegErrorDefault)
  {
    HandleError(AuthErrorDefault, response)
  }

  /** `handleRegError`: the registration page's handler. */
  function HandleRegError(response: HttpResponse): (rejection: Value)
    ensures JsTruthy(rejection)
    ensures rejection != Str(AuthErrorDefault) || Member(response.data, "reason") == Str(AuthErrorDefault)
                                               || Member(response.data, "error_message") == Str(AuthErrorDefault)
  {
    HandleError(RegErrorDefault, response)
  }

  /**
   * The two handlers agree on every response except where each falls back
   * to its own default message.
   */
  lemma AuthAndRegErrorsDifferOnlyInDefault(response: HttpResponse)
    ensures HandleAuthError(response) == HandleRegError(response) ||
            (HandleAuthError(response) == Str(AuthErrorDefault) && HandleRegError(response) == Str(RegErrorDefault))
    ensures HandleAuthError(response) != HandleRegError(response) <==>
            response.status in ReasonErrorCodes && !JsTruthy(Member(response.data, "reason"))
  {
    assert AuthErrorDefault != RegErrorDefault by {
      assert AuthErrorDefault[0] != RegErrorDefault[0];
    }
  }

  /** The user is always shown a non-empty message when the default is non-empty. */
  lemma RejectionIsTruthy(defaultMessage: string, response: HttpResponse)
    requires defaultMessage != ""
    ensures JsTruthy(HandleError(defaultMessage, response))
  {
  }

  /**
   * A refusal from the server (`{"success": false, "reason": m}` with status
   * 400, 401 or 403) reaches the user as `m` itself, or as the handler's
   * default when `m` is empty.
   */
  lemma RefusalReachesClient(defaultMessage: string, status: int, m: string)
    requires status in ReasonErrorCodes
    ensures HandleError(defaultMessage, UserResource.Refusal(status, Str(m))) == (if m != "" then Str(m) else Str(defaultMessage))
  {
  }

  /** A failed login shows the server's reason: wrong credentials or a disabled account. */
  lemma LoginFailureMessages(user: Option<UserResource.User>)
    ensures user.None? ==> HandleAuthError(UserResource.Authenticate(user)) == Str(UserResource.BadCredentials)
    ensures user.Some? && !user.value.isActive ==>
              HandleAuthError(UserResource.Authenticate(user)) == Str(UserResource.AccountDisabled)
  {
    if user.None? {
      RefusalReachesClient(AuthErrorDefault, UserResource.HttpUnauthorized, UserResource.BadCredentials);
    } else if !user.value.isActive {
      RefusalReachesClient(AuthErrorDefault, UserResource.HttpForbidden, UserResource.AccountDisabled);
    }
  }

  /** Each failed registration check reaches the user as its own message. */
  lemma RegistrationFailureMessages(username: Value, password: Value, existing: set<string>)
    requires UserResource.FirstFailure(UserResource.RegistrationChecks(username, password, existing)).Some?
    ensures var m := UserResource.FirstFailure(UserResource.RegistrationChecks(username, password, existing)).value;
            HandleRegError(UserResource.Refusal(UserResource.HttpBadRequest, Str(m))) == Str(m)
  {
    var checks := UserResource.RegistrationChecks(username, password, existing);
    UserResource.FirstFailureIsEarliest(checks);
    var m := UserResource.FirstFailure(checks).value;
    assert m != "" by {
      var i :| 0 <= i < |checks| && !checks[i].passed && checks[i].message == m;
      assert checks[i].message[0] in "AT";
    }
    RefusalReachesClient(RegErrorDefault, UserResource.HttpBadRequest, m);
  }

  // ---------------------------------------------------------------------------
  // The Authorization header

  /** The header value `"ApiKey " + username + ":" + api_key`. */
  function AuthHeader(username: string, apiKey: string): (h: string)
    ensures |h| == 8 + |username| + |apiKey|
    ensures h[..7] == "ApiKey " && h[7..7 + |username|] == username
    ensures h[7 + |username|] == ':' && h[8 + |username|..] == apiKey
  {
    "ApiKey " + username + ":" + apiKey
  }

  /** The header `handleSuccess` builds from a response body, with JavaScript's string conversion. */
  function HeaderFor(data: Value): (h: string)
    ensures Member(data, "username").Str? && Member(data, "api_key").Str? ==>
              h == AuthHeader(Member(data, "username").s, Member(data, "api_key").s)
    ensures !data.Obj? ==> h == AuthHeader("undefined", "undefined")
  {
    AuthHeader(ToJsString(Member(data, "username")), ToJsString(Member(data, "api_key")))
  }

  /** Index of the first `c` in `s`, or `|s|` when there is none. */
  function IndexOf(s: string, c: char): (i: nat)
    ensures i <= |s|
    ensures i < |s| ==> s[i] == c
    ensures forall j :: 0 <= j < i ==> s[j] != c
  {
    if s == [] then 0 else if s[0] == c then 0 else 1 + IndexOf(s[1..], c)
  }

  /**
   * Reads an `ApiKey` header back into its username and key, splitting at
   * the first colon after the scheme.
   */
  function ParseAuthHeader(h: string): Option<(string, string)> {
    if |h| < 7 || h[..7] != "ApiKey " then None
    else
      var rest := h[7..];
      var i := IndexOf(rest, ':');
      if i == |rest| then None else Some((rest[..i], rest[i + 1..]))
  }

  /** The header names the user and the key, for any username without a colon. */
  lemma AuthHeaderRoundTrip(username: string, apiKey: string)
    requires ':' !in username
    ensures ParseAuthHeader(AuthHeader(username, apiKey)) == Some((username, apiKey))
  {
    var h := AuthHeader(username, apiKey);
    var rest := username + ":" + apiKey;
    assert h[..7] == "ApiKey " && h[7..] == rest;
    assert IndexOf(rest, ':') == |username| by {
      assert forall j :: 0 <= j < |username| ==> rest[j] == username[j];
      assert rest[|username|] == ':';
    }
    assert rest[..|username|] == username && rest[|username| + 1..] == apiKey;
  }

  /** After a successful login the header carries that user's name and API key. */
  lemma LoginHeader(u: UserResource.User)
    requires u.isActive
    ensures HeaderFor(UserResource.Authenticate(Some(u)).data) == AuthHeader(u.username, u.apiKey)
    ensures ':' !in u.username ==>
              ParseAuthHeader(HeaderFor(UserResource.Authenticate(Some(u)).data)) == Some((u.username, u.apiKey))
  {
    if ':' !in u.username {
      AuthHeaderRoundTrip(u.username, u.apiKey);
    }
  }

  // ---------------------------------------------------------------------------
  // Client session state

  /** `UserDisplayController.getUserName`: the user's `username`, or `null` without a user. */
  function DisplayNameOf(user: Value): (name: Value)
    ensures user.Null? || user.Undefined? ==> name == Null
    ensures user.Obj? && "username" in user.fields ==> name == user.fields["username"]
  {
    if user.Null? || user.Undefined? then Null else Member(user, "username")
  }

  /**
   * The state the login code shares: the `Authorization` default header
   * (`None` when unset or `null`), `UserService.user`, `$rootScope.user`,
   * the display controller's `username` and the current route.
   */
  class Session {
    var authorization: Option<string>
    var user: Value
    var rootUser: Value
    var displayName: Value
    var path: string

    /**
     * The root scope mirrors the service's user (it is `undefined` until
     * the first `setUser`), the display shows that user's name, and a
     * header is set exactly when a user is, naming that user.
     */
    ghost predicate Valid()
      reads this
    {
      && (rootUser == user || (rootUser.Undefined? && user.Null?))
      && displayName == DisplayNameOf(user)
      && !user.Undefined?
      && authorization == (if user.Null? then None else Some(HeaderFor(user)))
    }

    /** The services as the page loads them: no user and no header yet. */
    constructor(path: string)
      ensures Valid()
      ensures authorization == None && user == Null && rootUser == Undefined && displayName == Null
      ensures this.path == path
    {
      authorization := None;
      user := Null;
      rootUser := Undefined;
      displayName := Null;
      this.path := path;
    }

    /**
     * `UserService.setUser`, with the `setUserEvent` broadcast that makes the
     * display controller re-read the name.
     */
    method SetUser(newUser: Value)
      modifies this
      ensures user == newUser && rootUser == newUser && displayName == DisplayNameOf(newUser)
      ensures authorization == old(authorization) && path == old(path)
    {
      user := newUser;
      rootUser := user;
      displayName := DisplayNameOf(user);
    }

    /**
     * `handleSuccess`: sets the header from the body, records the user and
     * goes to the home page. Reading `username` from a `null` or missing body
     * throws before anything changes; `ok` is false then.
     */
    method HandleSuccess(response: HttpResponse) returns (ok: bool)
      requires Valid()
      modifies this
      ensures ok <==> !(response.data.Null? || response.data.Undefined?)
      ensures ok ==> authorization == Some(HeaderFor(response.data)) && user == response.data
                     && rootUser == response.data && displayName == DisplayNameOf(response.data) && path == "/"
      ensures !ok ==> unchanged(this)
      ensures Valid()
    {
      if response.data.Null? || response.data.Undefined? {
        return false;
      }
      authorization := Some(HeaderFor(response.data));
      SetUser(response.data);
      path := "/";
      ok := true;
    }

    /** `logout`: forgets the user, clears the header and goes to the login page. */
    method Logout()
      requires Valid()
      modifies this
      ensures authorization == None && user == Null && rootUser == Null && displayName == Null
      ensures path == "/login/"
      ensures Valid()
    {
      SetUser(Null);
      displayName := Null;
      authorization := None;
      path := "/login/";
    }
  }
}

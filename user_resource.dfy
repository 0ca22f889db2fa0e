/**
 * The `UserResource` endpoints of `expense/resources.py`: logging in
 * (`authenticate`) and signing up (`register`). Django's credential check,
 * the user table and user creation are outside the model: the user the
 * credential check finds, the usernames already taken and the outcome of
 * creating the user are parameters.
 */
module UserResource {
  import opened Json

  /** The fields of a Django user that the endpoints read. */
  datatype User = User(username: string, firstName: string, lastName: string, apiKey: string, isActive: bool)

  const HttpOk := 200
  const HttpBadRequest := 400
  const HttpUnauthorized := 401
  const HttpForbidden := 403

  const UsernameRequired := "A username is required"
  const UsernameTaken := "That username has already been taken"
  const PasswordRequired := "A password is required"
  const AccountDisabled := "Your account has been disabled"
  const BadCredentials := "Username or password is incorrect"

  /** The body of a successful login: the user's names and API key. */
  function SuccessBody(u: User): Value {
    Obj(map["success" := Bool(true), "username" := Str(u.username), "first_name" := Str(u.firstName),
            "last_name" := Str(u.lastName), "api_key" := Str(u.apiKey)])
  }

  /** A refusal: `{"success": false, "reason": reason}` with the given status. */
  function Refusal(status: int, reason: Value): HttpResponse {
    HttpResponse(status, Obj(map["success" := Bool(false), "reason" := reason]))
  }

  /**
   * `authenticate` after the credential check: `user` is what Django's
   * `authenticate` returned for the posted username and password.
   */
  function Authenticate(user: Option<User>): (r: HttpResponse)
    ensures r.status == HttpOk <==> user.Some? && user.value.isActive
    ensures r.status == HttpForbidden <==> user.Some? && !user.value.isActive
    ensures r.status == HttpUnauthorized <==> user.None?
    ensures r.status == HttpOk ==>
              && Member(r.data, "success") == Bool(true)
              && Member(r.data, "username") == Str(user.value.username)
              && Member(r.data, "first_name") == Str(user.value.firstName)
              && Member(r.data, "last_name") == Str(user.value.lastName)
              && Member(r.data, "api_key") == Str(user.value.apiKey)
    ensures r.status == HttpForbidden ==> Member(r.data, "reason") == Str(AccountDisabled)
    ensures r.status == HttpUnauthorized ==> Member(r.data, "reason") == Str(BadCredentials)
    ensures r.status != HttpOk ==> Member(r.data, "success") == Bool(false) && Member(r.data, "api_key") == Undefined
  {
    match user
    case Some(u) =>
      if u.isActive then HttpResponse(HttpOk, SuccessBody(u))
      else Refusal(HttpForbidden, Str(AccountDisabled))
    case None => Refusal(HttpUnauthorized, Str(BadCredentials))
  }

  // ---------------------------------------------------------------------------
  // Registration checks

  /** One validation rule: whether it passed, and the message it reports if not. */
  datatype Check = Check(passed: bool, message: string)

  /** The message of the first check that did not pass, in order. */
  function FirstFailure(checks: seq<Check>): Option<string> {
    if checks == [] then None
    else if !checks[0].passed then Some(checks[0].message)
    else FirstFailure(checks[1..])
  }

  /** `FirstFailure` reports exactly the earliest failing check, and nothing when all pass. */
  lemma {:induction false} FirstFailureIsEarliest(checks: seq<Check>)
    ensures FirstFailure(checks) == None <==> forall i :: 0 <= i < |checks| ==> checks[i].passed
    ensures FirstFailure(checks).Some? ==>
              exists i :: 0 <= i < |checks| && !checks[i].passed && checks[i].message == FirstFailure(checks).value
                          && forall j :: 0 <= j < i ==> checks[j].passed
  {
    if checks != [] && checks[0].passed {
      FirstFailureIsEarliest(checks[1..]);
      if FirstFailure(checks).Some? {
        var i :| 0 <= i < |checks[1..]| && !checks[1..][i].passed && checks[1..][i].message == FirstFailure(checks).value
                 && forall j :: 0 <= j < i ==> checks[1..][j].passed;
        assert !checks[i + 1].passed && checks[i + 1].message == FirstFailure(checks).value;
        forall j | 0 <= j < i + 1
          ensures checks[j].passed
        {
          if j > 0 { assert checks[j] == checks[1..][j - 1]; }
        }
      } else {
        forall i | 0 <= i < |checks|
          ensures checks[i].passed
        {
          if i > 0 { assert checks[i] == checks[1..][i - 1]; }
        }
      }
    }
  }

  /** Whether the username is already in use. */
  predicate IsTaken(username: Value, existing: set<string>) {
    username.Str? && username.s in existing
  }

  /** The registration rules, in the order the endpoint applies them. */
  function RegistrationChecks(username: Value, password: Value, existing: set<string>): (checks: seq<Check>)
    ensures |checks| == 3
    ensures forall i :: 0 <= i < |checks| ==> checks[i].message != ""
    ensures checks[0].passed <==> PyTruthy(username)
    ensures checks[1].passed <==> !(username.Str? && username.s in existing)
    ensures checks[2].passed <==> PyTruthy(password)
  {
    [ Check(PyTruthy(username), UsernameRequired),
      Check(!IsTaken(username, existing), UsernameTaken),
      Check(PyTruthy(password), PasswordRequired) ]
  }

  /**
   * The validation chain of `register`: `valid` and `message` flags set by
   * the first rule that fails. `existing` is the set of usernames in use.
   */
  method ValidateRegistration(data: map<string, Value>, existing: set<string>) returns (valid: bool, message: string)
    ensures valid <==> FirstFailure(RegistrationChecks(Get(data, "username"), Get(data, "password"), existing)) == None
    ensures !valid ==> FirstFailure(RegistrationChecks(Get(data, "username"), Get(data, "password"), existing)) == Some(message)
    ensures valid ==> message == ""
  {
    var username := Get(data, "username");
    var password := Get(data, "password");
    RegistrationPriority(username, password, existing);
    valid := true;
    message := "";
    if !PyTruthy(username) {
      valid := false;
      message := UsernameRequired;
    } else if IsTaken(username, existing) {
      valid := false;
      message := UsernameTaken;
    } else if !PyTruthy(password) {
      valid := false;
      message := PasswordRequired;
    }
  }

  /**
   * The priority of the registration rules: a missing username is reported
   * before a taken one, which is reported before a missing password, and the
   * request passes only when all three rules hold.
   */
  lemma RegistrationPriority(username: Value, password: Value, existing: set<string>)
    ensures !PyTruthy(username) ==>
              FirstFailure(RegistrationChecks(username, password, existing)) == Some(UsernameRequired)
    ensures PyTruthy(username) && IsTaken(username, existing) ==>
              FirstFailure(RegistrationChecks(username, password, existing)) == Some(UsernameTaken)
    ensures PyTruthy(username) && !IsTaken(username, existing) && !PyTruthy(password) ==>
              FirstFailure(RegistrationChecks(username, password, existing)) == Some(PasswordRequired)
    ensures FirstFailure(RegistrationChecks(username, password, existing)) == None <==>
              PyTruthy(username) && !IsTaken(username, existing) && PyTruthy(password)
  {
    var checks := RegistrationChecks(username, password, existing);
    assert checks[1..] == [checks[1], checks[2]] && checks[1..][1..] == [checks[2]] && [checks[2]][1..] == [];
    FirstFailureIsEarliest(checks);
  }

  /**
   * `register`: validates the request, then creates the user and logs in as
   * `authenticate` does. `creationError` is the text of the exception user
   * creation raised, if any, and `login` what the credential check then
   * returns.
   */
  method Register(data: map<string, Value>, existing: set<string>, creationError: Option<string>, login: Option<User>)
    returns (r: HttpResponse)
    ensures var checks := RegistrationChecks(Get(data, "username"), Get(data, "password"), existing);
            && (FirstFailure(checks).Some? ==> r == Refusal(HttpBadRequest, Str(FirstFailure(checks).value)))
            && (FirstFailure(checks).None? && creationError.Some? ==> r == Refusal(HttpBadRequest, Str(creationError.value)))
            && (FirstFailure(checks).None? && creationError.None? ==> r == Authenticate(login))
  {
    var valid, message := ValidateRegistration(data, existing);
    if valid {
      if creationError.Some? {
        return Refusal(HttpBadRequest, Str(creationError.value));
      }
    } else {
      return Refusal(HttpBadRequest, Str(message));
    }
    r := Authenticate(login);
  }
}

/** `POST /api/auth/register`: required fields, the uniqueness check, the display-name default
    and the password-free response. */
module RegisterApi {
  import opened Wrappers
  import opened Json
  import opened CardSets

  /** The persistence and crypto the handler calls, as parameters: the stored users, the
      password hash, the id and timestamp the database assigns, and the token signer. */
  datatype Environment = Environment(
    users: seq<User>,
    hash: string -> string,
    nextId: int,
    now: int,
    sign: (int, string) -> string)

  datatype RegisterResult =
    | RegisterFailed(status: int, error: string)
    | Registered(stored: User, user: PublicUser, token: string)

  const FieldsRequired := "Username, email, and password are required"
  const AlreadyExists := "Username or email already exists"
  const RegisterFailure := "Failed to register user"

  /** A stored user already has this username or this email. */
  predicate Taken(users: seq<User>, username: string, email: string) {
    exists i :: 0 <= i < |users| && (users[i].username == username || users[i].email == email)
  }

  /** A truthy display name was sent; otherwise the username stands in for it. */
  predicate DisplayNameGiven(body: JsonObject) {
    FieldTruthy(body, "displayName")
  }

  /** The three required fields are truthy. */
  predicate RequiredGiven(body: JsonObject) {
    FieldTruthy(body, "username") && FieldTruthy(body, "email") && FieldTruthy(body, "password")
  }

  /** The username and email the uniqueness query can use: both are strings. */
  predicate LookupKeysAreStrings(body: JsonObject) {
    "username" in body && body["username"].JString? && "email" in body && body["email"].JString?
  }

  /** The handler, step by step: the truthiness check (400); the uniqueness query, which
      throws for a username or email that is not a string (500); the taken check (400); the
      hash, which throws for a password that is not a string (500); the insert, which throws
      for a display name that is truthy but not a string (500). */
  function Register(body: JsonObject, env: Environment): (r: RegisterResult)
    ensures r.RegisterFailed? && r.status == 400 && r.error == FieldsRequired <==> !RequiredGiven(body)
    ensures r == RegisterFailed(400, AlreadyExists) <==>
      && RequiredGiven(body)
      && LookupKeysAreStrings(body)
      && Taken(env.users, body["username"].s, body["email"].s)
    ensures r.RegisterFailed? && r.status == 500 <==>
      && RequiredGiven(body)
      && (!LookupKeysAreStrings(body)
          || (&& !Taken(env.users, body["username"].s, body["email"].s)
              && (!body["password"].JString? || (DisplayNameGiven(body) && !body["displayName"].JString?))))
    ensures r.RegisterFailed? ==> r.status == 400 || r == RegisterFailed(500, RegisterFailure)
    ensures r.Registered? <==>
      && RequiredGiven(body)
      && LookupKeysAreStrings(body)
      && !Taken(env.users, body["username"].s, body["email"].s)
      && body["password"].JString?
      && (DisplayNameGiven(body) ==> body["displayName"].JString?)
    ensures r.Registered? ==>
      && body["username"] == JString(r.stored.username)
      && body["email"] == JString(r.stored.email)
      && body["password"].JString?
      && r.stored.password == env.hash(body["password"].s)
      && !Taken(env.users, r.stored.username, r.stored.email)
      && r.user == WithoutPassword(r.stored)
      && r.token == env.sign(r.stored.id, r.stored.username)
  {
    if !RequiredGiven(body) then
      RegisterFailed(400, FieldsRequired)
    else if !body["username"].JString? || !body["email"].JString? then
      RegisterFailed(500, RegisterFailure)
    else
      var username := body["username"].s;
      var email := body["email"].s;
      if Taken(env.users, username, email) then RegisterFailed(400, AlreadyExists)
      else if !body["password"].JString? then RegisterFailed(500, RegisterFailure)
      else if DisplayNameGiven(body) && !body["displayName"].JString? then RegisterFailed(500, RegisterFailure)
      else
        var displayName := if DisplayNameGiven(body) then body["displayName"].s else username;
        var stored := User(env.nextId, username, email, env.hash(body["password"].s), Some(displayName),
                           None, None, env.now, env.now);
        Registered(stored, WithoutPassword(stored), env.sign(stored.id, stored.username))
  }

  /** A taken username is refused as taken even when the password is not a string: the
      uniqueness check comes before the hash. */
  lemma TakenBeforeHash(body: JsonObject, env: Environment)
    requires RequiredGiven(body) && LookupKeysAreStrings(body)
    requires Taken(env.users, body["username"].s, body["email"].s)
    requires !body["password"].JString?
    ensures Register(body, env) == RegisterFailed(400, AlreadyExists)
  {
  }

  /** The stored display name is the one given when it is a non-empty string, and the
      username when it is absent, `null` or empty. */
  lemma RegisterDisplayName(body: JsonObject, env: Environment)
    requires Register(body, env).Registered?
    ensures DisplayNameGiven(body) ==> Register(body, env).stored.displayName == Some(body["displayName"].s)
    ensures !DisplayNameGiven(body) ==> Register(body, env).stored.displayName == Some(body["username"].s)
  {
  }

  /** Registering the same username or email a second time is refused with 400. */
  lemma RegisterTwiceRejected(body: JsonObject, env: Environment, env2: Environment)
    requires Register(body, env).Registered?
    requires env2.users == env.users + [Register(body, env).stored]
    ensures Register(body, env2) == RegisterFailed(400, AlreadyExists)
  {
    var stored := Register(body, env).stored;
    assert env2.users[|env.users|] == stored;
    assert Taken(env2.users, stored.username, stored.email);
  }
}

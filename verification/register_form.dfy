/** `Register`: the sign-up form's password checks and the call it makes. */
module RegisterForm {
  import opened Wrappers
  import opened Json
  import opened CardSets
  import RegisterApi

  datatype RegisterFormData = RegisterFormData(
    username: string,
    email: string,
    password: string,
    confirmPassword: string,
    displayName: string)

  const PasswordsDiffer := "Passwords do not match"
  const PasswordTooShort := "Password must be at least 6 characters long"

  /** The `register` call: username, email, password and an optional display name. */
  datatype RegisterCall = RegisterCall(username: string, email: string, password: string, displayName: Option<string>)

  datatype SubmitOutcome = Refused(message: string) | Call(call: RegisterCall)

  /** `handleSubmit` up to the call: the mismatch check first, then the length check; an empty
      display name is passed as `undefined`. */
  function HandleSubmit(form: RegisterFormData): (r: SubmitOutcome)
    ensures r == Refused(PasswordsDiffer) <==> form.password != form.confirmPassword
    ensures r == Refused(PasswordTooShort) <==> form.password == form.confirmPassword && |form.password| < 6
    ensures r.Call? <==> form.password == form.confirmPassword && |form.password| >= 6
    ensures r.Call? ==>
      && r.call.username == form.username && r.call.email == form.email && r.call.password == form.password
      && (r.call.displayName.None? <==> form.displayName == "")
      && (r.call.displayName.Some? ==> r.call.displayName.value == form.displayName)
  {
    if form.password != form.confirmPassword then Refused(PasswordsDiffer)
    else if |form.password| < 6 then Refused(PasswordTooShort)
    else Call(RegisterCall(form.username, form.email, form.password,
                           if form.displayName == "" then None else Some(form.displayName)))
  }

  /** The serialised `register` arguments: an `undefined` display name is left out of the
      body. */
  function RegisterBody(call: RegisterCall): (r: JsonObject)
    ensures "displayName" in r <==> call.displayName.Some?
  {
    var body := map["username" := JString(call.username), "email" := JString(call.email),
                     "password" := JString(call.password)];
    match call.displayName
    case None => body
    case Some(d) => body["displayName" := JString(d)]
  }

  /** Each call field travels as a string under its own name. */
  lemma RegisterBodyFields(call: RegisterCall)
    ensures var body := RegisterBody(call);
      && "username" in body && body["username"] == JString(call.username)
      && "email" in body && body["email"] == JString(call.email)
      && "password" in body && body["password"] == JString(call.password)
      && (call.displayName.Some? ==> body["displayName"] == JString(call.displayName.value))
  {
  }

  /** A form that passes the page's checks, with a username and email not yet taken, creates
      the account; its display name is the one typed, or the username when none was. */
  lemma SubmittedFormRegisters(form: RegisterFormData, env: RegisterApi.Environment)
    requires HandleSubmit(form).Call?
    requires form.username != "" && form.email != ""
    requires !RegisterApi.Taken(env.users, form.username, form.email)
    ensures var r := RegisterApi.Register(RegisterBody(HandleSubmit(form).call), env);
      && r.Registered?
      && r.stored.username == form.username
      && r.stored.email == form.email
      && r.stored.password == env.hash(form.password)
      && r.stored.displayName == Some(if form.displayName == "" then form.username else form.displayName)
  {
    var call := HandleSubmit(form).call;
    RegisterBodyFields(call);
  }
}

/**
 * The sign-in page: a login form and a registration form, both resolved by
 * the shared user schema, and the routing of a failed request's error
 * message to a form field.
 */
module AuthPage {
  import opened Wrappers
  import opened Text
  import opened Schema
  import opened ApiRoutes
  import Server

  /** Where react-hook-form shows an error: under an input, or the form-level `root` banner. */
  datatype FormField = UsernameField | PasswordField | RootField

  datatype FieldError = FieldError(field: FormField, message: string)

  const InvalidCredentials := "Invalid credentials"
  const UsernameUnavailable := "Username already exists or is invalid"

  /** `onLogin`'s `onError`: a message naming the username stays verbatim under it, any other becomes "Invalid credentials" under the password. */
  function LoginErrorRoute(message: string): (e: FieldError)
    ensures e.field == UsernameField <==> Contains(message, "username")
    ensures e.field == UsernameField || e.field == PasswordField
    ensures e.field == UsernameField ==> e.message == message
    ensures e.field == PasswordField ==> e.message == InvalidCredentials
  {
    if Contains(message, "username") then FieldError(UsernameField, message)
    else FieldError(PasswordField, InvalidCredentials)
  }

  /** `onRegister`'s `onError`: a message naming the username becomes a fixed text under it, any other goes verbatim to the banner. */
  function RegisterErrorRoute(message: string): (e: FieldError)
    ensures e.field == UsernameField <==> Contains(message, "username")
    ensures e.field == UsernameField || e.field == RootField
    ensures e.field == UsernameField ==> e.message == UsernameUnavailable
    ensures e.field == RootField ==> e.message == message
  {
    if Contains(message, "username") then FieldError(UsernameField, UsernameUnavailable)
    else FieldError(RootField, message)
  }

  /** The shown login error is routed where it stands: routing it again changes nothing. */
  lemma LoginErrorRouteStable(message: string)
    ensures LoginErrorRoute(LoginErrorRoute(message).message) == LoginErrorRoute(message)
  {
    if !Contains(message, "username") {
      assert forall i :: 0 <= i < |InvalidCredentials| ==> InvalidCredentials[i] != 'u';
      ContainsFirstChar(InvalidCredentials, "username");
    }
  }

  /**
   * The fixed registration text does not itself contain "username" (the
   * match is case-sensitive), so were it routed again it would go to the banner.
   */
  lemma UsernameUnavailableNotRoutedToUsername()
    ensures RegisterErrorRoute(UsernameUnavailable) == FieldError(RootField, UsernameUnavailable)
  {
    assert forall i :: 0 <= i < |UsernameUnavailable| ==> UsernameUnavailable[i] != 'u';
    ContainsFirstChar(UsernameUnavailable, "username");
  }

  /** The server's answer to a sent form. */
  datatype Reply = Accepted | Refused(message: string)

  /**
   * A submit: `handleSubmit` first runs the schema; a refused form never
   * reaches the server. A sent form starts from cleared errors and ends with
   * at most the one routed error.
   */
  datatype Submission =
    | Blocked(issues: set<Issue>)
    | Sent(errors: map<FormField, string>)

  /** `loginForm.handleSubmit(onLogin)`. */
  function SubmitLogin(x: UserInput, reply: Reply): (r: Submission)
    ensures r.Blocked? <==> ValidateUser(x) != {}
    ensures r.Blocked? ==> r.issues == ValidateUser(x)
    ensures r.Sent? && reply.Accepted? ==> r.errors == map[]
    ensures r.Sent? && reply.Refused? ==>
      var e := LoginErrorRoute(reply.message);
      r.errors == map[e.field := e.message]
  {
    var issues := ValidateUser(x);
    if issues != {} then Blocked(issues)
    else
      var cleared: map<FormField, string> := map[];
      match reply
      case Accepted => Sent(cleared)
      case Refused(m) =>
        var e := LoginErrorRoute(m);
        Sent(cleared[e.field := e.message])
  }

  /** `registerForm.handleSubmit(onRegister)`. */
  function SubmitRegister(x: UserInput, reply: Reply): (r: Submission)
    ensures r.Blocked? <==> ValidateUser(x) != {}
    ensures r.Blocked? ==> r.issues == ValidateUser(x)
    ensures r.Sent? && reply.Accepted? ==> r.errors == map[]
    ensures r.Sent? && reply.Refused? ==>
      var e := RegisterErrorRoute(reply.message);
      r.errors == map[e.field := e.message]
  {
    var issues := ValidateUser(x);
    if issues != {} then Blocked(issues)
    else
      var cleared: map<FormField, string> := map[];
      match reply
      case Accepted => Sent(cleared)
      case Refused(m) =>
        var e := RegisterErrorRoute(m);
        Sent(cleared[e.field := e.message])
  }

  /**
   * Both forms use the registration schema: the login form lets through
   * exactly the inputs the registration form lets through, which are exactly
   * those the login input schema accepts.
   */
  lemma LoginBlockedIffRegisterBlocked(x: UserInput, a: Reply, b: Reply)
    ensures SubmitLogin(x, a).Blocked? <==> SubmitRegister(x, b).Blocked?
    ensures SubmitLogin(x, a).Blocked? <==> LoginIssues(x.username, x.password) != {}
    ensures SubmitLogin(x, a).Blocked? <==>
      !(x.username.Some? && ValidUsername(x.username.value) && x.password.Some? && ValidPassword(x.password.value))
  {
    UserAccepted(x);
  }

  /** A failed login never raises the banner; a failed registration never marks the password. */
  lemma ErrorPlacement(x: UserInput, m: string)
    ensures SubmitLogin(x, Refused(m)).Sent? ==> RootField !in SubmitLogin(x, Refused(m)).errors
    ensures SubmitRegister(x, Refused(m)).Sent? ==> PasswordField !in SubmitRegister(x, Refused(m)).errors
  {
  }

  /** The seeded account cannot sign in through the form: its password breaks the schema before any request. */
  lemma DemoLoginBlocked(reply: Reply)
    ensures SubmitLogin(UserInput(Some(Server.DemoUsername), Some(Server.DemoRawPassword)), reply)
      == Blocked({Issue(Password, PasswordNoUpper), Issue(Password, PasswordNoDigit)})
  {
    Server.SeedPasswordBreaksRules();
    assert ValidUsername(Server.DemoUsername);
    GoodUsernameLeavesPasswordIssues(Server.DemoUsername, Server.DemoRawPassword);
  }
}

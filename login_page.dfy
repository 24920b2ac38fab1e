/**
 * The sign-in page of the client (client/src/pages/LoginPage.jsx): its two
 * field rules, the request it sends, and the redirect of a signed-in user.
 */
module LoginPage {
  import opened Wrappers
  import opened Models
  import opened Text

  datatype LoginForm = LoginForm(email: string, password: string)

  /** The message shown under each field, None when the field passes. */
  datatype LoginErrors = LoginErrors(email: Option<string>, password: Option<string>)

  /** The e-mail rule shared with the sign-up form: required, then `^\S+@\S+$`. */
  function EmailError(email: string): (r: Option<string>)
    ensures r.None? <==> EmailMatches(email)
    ensures email == "" ==> r == Some("Email is required")
  {
    if email == "" then Some("Email is required")
    else if !EmailMatches(email) then Some("Invalid email address")
    else None
  }

  /** The field rules: a well-formed e-mail and any non-empty password (no minimum length). */
  function Validate(f: LoginForm): (r: LoginErrors)
    ensures r.email == EmailError(f.email)
    ensures r.password.None? <==> f.password != ""
  {
    LoginErrors(EmailError(f.email), if f.password == "" then Some("Password is required") else None)
  }

  /** The login request: sent only when both fields pass, with exactly the form's data. */
  function Submit(f: LoginForm): (r: Option<LoginForm>)
    ensures r.Some? <==> EmailMatches(f.email) && f.password != ""
    ensures r.Some? ==> r.value == f
  {
    var e := Validate(f);
    if e.email.None? && e.password.None? then Some(f) else None
  }

  /** A signed-in user is sent to the dashboard; nobody else is sent anywhere. */
  function Redirect(userInfo: Option<User>): (r: Option<string>)
    ensures r.Some? <==> userInfo.Some?
    ensures r.Some? ==> r.value == "/dashboard"
  {
    if userInfo.Some? then Some("/dashboard") else None
  }
}

/**
 * The sign-up page of the client (client/src/pages/RegisterPage.jsx): the
 * rules of its five fields, the roles it offers, and the redirect of a
 * signed-in user (the same as on the sign-in page).
 */
module RegisterPage {
  import opened Wrappers
  import opened Models
  import opened Text
  import LoginPage

  /** The roles offered by the select, the first being the default; there is no admin option. */
  const RoleOptions: seq<string> := ["adopter", "shelter"]

  /** Shortest password accepted. */
  const MinPasswordLength: nat := 6

  datatype RegisterForm = RegisterForm(name: string, email: string, role: string, password: string, confirmPassword: string)

  /** The message shown under each field, None when the field passes. */
  datatype RegisterErrors = RegisterErrors(
    name: Option<string>, email: Option<string>, password: Option<string>, confirmPassword: Option<string>)

  function Validate(f: RegisterForm): (r: RegisterErrors)
    ensures r.name.None? <==> f.name != ""
    ensures r.email == LoginPage.EmailError(f.email)
    ensures r.password.None? <==> |f.password| >= MinPasswordLength
    ensures r.confirmPassword.None? <==> f.confirmPassword != "" && f.confirmPassword == f.password
  {
    RegisterErrors(
      if f.name == "" then Some("Name is required") else None,
      LoginPage.EmailError(f.email),
      if f.password == "" then Some("Password is required")
      else if |f.password| < MinPasswordLength then Some("Password must be at least 6 characters")
      else None,
      if f.confirmPassword == "" then Some("Please confirm your password")
      else if f.confirmPassword != f.password then Some("Passwords do not match")
      else None)
  }

  /** The form is sent only when every field passes. */
  predicate Accepted(f: RegisterForm) {
    var e := Validate(f);
    e.name.None? && e.email.None? && e.password.None? && e.confirmPassword.None?
  }

  /**
   * The form is accepted exactly for a name, a well-formed e-mail, a password
   * of at least six characters and the same password typed again.
   */
  lemma AcceptedIff(f: RegisterForm)
    ensures Accepted(f) <==>
      f.name != "" && EmailMatches(f.email) && |f.password| >= 6 && f.confirmPassword == f.password
  {
  }

  /**
   * Every sign-up the form accepts can also sign in: its e-mail and password
   * pass the sign-in form's rules and are sent as typed. The converse fails,
   * since sign-in asks for no minimum password length.
   */
  lemma RegisteredCanSignIn(f: RegisterForm)
    requires Accepted(f)
    ensures LoginPage.Submit(LoginPage.LoginForm(f.email, f.password)) == Some(LoginPage.LoginForm(f.email, f.password))
    ensures LoginPage.Submit(LoginPage.LoginForm(f.email, "x")).Some?
    ensures !Accepted(f.(password := "x", confirmPassword := "x"))
  {
  }
}

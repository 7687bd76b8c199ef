/** The sign-in form: a two-field check, and a submit handler that calls the
    account store only when the check passes. */
module LoginPage {
  import opened Wrappers
  import Email
  import RegisterPage
  import opened Accounts

  /** The error record `validateForm` builds: one optional message per
      field. */
  datatype FormErrors = FormErrors(email: Option<string>, password: Option<string>)

  function EmailError(email: string): Option<string> {
    if email == "" then Some("Email is required")
    else if !Email.Test(email) then Some("Please enter a valid email")
    else None
  }

  function PasswordError(password: string): Option<string> {
    if password == "" then Some("Password is required")
    else if |password| < 6 then Some("Password must be at least 6 characters")
    else None
  }

  /** `validateForm()`: fills a fresh error record field by field and
      reports whether it stayed empty. */
  method ValidateForm(email: string, password: string) returns (ok: bool, errors: FormErrors)
    ensures errors == FormErrors(EmailError(email), PasswordError(password))
    ensures ok <==> errors.email.None? && errors.password.None?
  {
    errors := FormErrors(None, None);
    if email == "" {
      errors := errors.(email := Some("Email is required"));
    } else if !Email.Test(email) {
      errors := errors.(email := Some("Please enter a valid email"));
    }
    if password == "" {
      errors := errors.(password := Some("Password is required"));
    } else if |password| < 6 {
      errors := errors.(password := Some("Password must be at least 6 characters"));
    }
    ok := errors.email.None? && errors.password.None?;
  }

  /** The form passes exactly when the email is non-empty and contains a
      whitespace-free `x@y.z`, and the password has at least six
      characters; each message depends on its own field only. */
  lemma FormValid(email: string, password: string)
    ensures EmailError(email).None? && PasswordError(password).None? <==>
              email != "" && Email.Matches(email) && |password| >= 6
    ensures password != "" && |password| < 6 ==>
              PasswordError(password) == Some("Password must be at least 6 characters")
  {
    Email.TestSpec(email);
  }

  /** Sign-in and sign-up report the same email messages. */
  lemma SameEmailRule(email: string)
    ensures EmailError(email) == RegisterPage.EmailError(email)
  {
  }

  /** What a submit ends in. */
  datatype Submitted = Rejected(errors: FormErrors) | Failed(message: string) | SignedIn(user: User)

  /** `handleSubmit`: validate, and only then call `login`. */
  method HandleSubmit(auth: AuthStore, email: string, password: string, rememberMe: bool)
    returns (r: Submitted)
    modifies auth
    ensures r.Rejected? <==> EmailError(email).Some? || PasswordError(password).Some?
    ensures r.Rejected? ==> r.errors == FormErrors(EmailError(email), PasswordError(password))
    ensures r.Rejected? || r.Failed? ==> unchanged(auth)
    ensures r.Failed? ==> r.message == InvalidCredentials.Message()
    ensures !r.Rejected? ==> (r.SignedIn? <==> UserWithEmail(old(auth.users), email).Some?)
    ensures r.SignedIn? ==>
              && r.user == UserWithEmail(old(auth.users), email).value
              && auth.users == old(auth.users) && auth.user == Some(r.user)
              && (rememberMe ==> auth.durable == Some(r.user) && auth.session == old(auth.session))
              && (!rememberMe ==> auth.session == Some(r.user) && auth.durable == old(auth.durable))
  {
    var ok, errors := ValidateForm(email, password);
    if !ok {
      return Rejected(errors);
    }
    var outcome := auth.Login(email, password, rememberMe);
    match outcome
    case Success(u) => r := SignedIn(u);
    case Failure(e) => r := Failed(e.Message());
  }
}

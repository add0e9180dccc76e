/**
 * The logic of `client/src/pages/Login.jsx`: `validateForm`, the mapping of
 * a failed login's message to a field in `handleSubmit`, and the `onChange`
 * handlers that clear errors.
 */
module LoginPage {
  import opened Base
  import opened Js
  import opened FormRules
  import AuthController

  /** The `errors` object; a key set to `null` or never set is `None`. */
  datatype Errors = Errors(email: Option<string>, password: Option<string>, general: Option<string>)

  const NoErrors := Errors(None, None, None)

  /** `Object.keys(newErrors).length === 0` for an object that only ever receives messages. */
  predicate Clean(e: Errors) {
    e.email.None? && e.password.None? && e.general.None?
  }

  /** The `newErrors` object: the email's and the password's first failing rule, each independent of the other. */
  function ValidationErrors(email: string, password: string): Errors {
    Errors(EmailError(email), PasswordError(password), None)
  }

  /** The form is accepted exactly when the email matches the pattern and the password has at least six code units. */
  lemma AcceptedExactly(email: string, password: string)
    ensures Clean(ValidationErrors(email, password)) <==>
      email != "" && HasAtAndDot(email) && password != "" && Utf16Length(password) >= 6
  {
  }

  /** What happened to `login({ email, password })`. */
  datatype CallResult = Succeeded | Failed(message: Value)

  datatype Submission = Submission(email: string, password: string)

  /** `err.response?.data?.message || 'Login failed'` */
  function FailureMessage(message: Value): (m: string)
    ensures m != ""
    ensures Truthy(message) ==> m == message.s
    ensures !Truthy(message) ==> m == "Login failed"
  {
    if Truthy(message) then message.s else "Login failed"
  }

  const InvalidEmail := "Invalid email address"
  const IncorrectPassword := "Incorrect password"
  const NoAccount := "No account found with this email"

  /**
   * The catch block: "email" first, then "password", then "user not found"
   * or "not found", then the message as a general error; only one key is set.
   */
  function FailureErrors(message: Value): (e: Errors)
    ensures var m := ToLower(FailureMessage(message));
      && (Includes(m, "email") ==> e == NoErrors.(email := Some(InvalidEmail)))
      && (!Includes(m, "email") && Includes(m, "password") ==> e == NoErrors.(password := Some(IncorrectPassword)))
      && (!Includes(m, "email") && !Includes(m, "password") && Includes(m, "not found") ==> e == NoErrors.(email := Some(NoAccount)))
      && (!Includes(m, "email") && !Includes(m, "password") && !Includes(m, "not found") ==>
            e == NoErrors.(general := Some(FailureMessage(message))))
  {
    var errorMessage := FailureMessage(message);
    var lower := ToLower(errorMessage);
    NotFoundSubsumes(lower);
    if Includes(lower, "email") then NoErrors.(email := Some(InvalidEmail))
    else if Includes(lower, "password") then NoErrors.(password := Some(IncorrectPassword))
    else if Includes(lower, "user not found") || Includes(lower, "not found") then NoErrors.(email := Some(NoAccount))
    else NoErrors.(general := Some(errorMessage))
  }

  /** The "user not found" test adds nothing: whatever includes it includes "not found". */
  lemma NotFoundSubsumes(m: string)
    ensures Includes(m, "user not found") || Includes(m, "not found") <==> Includes(m, "not found")
  {
    if Includes(m, "user not found") {
      assert OccursAt("user not found", "not found", 5);
      IncludesTransitive(m, "user not found", "not found");
    }
  }

  /** A message lacking some character of each keyword is shown as a general error. */
  lemma NoKeyword(message: string, e: int, p: int, n: int)
    requires message != ""
    requires 0 <= e < |"email"| && Lacks(message, "email"[e])
    requires 0 <= p < |"password"| && Lacks(message, "password"[p])
    requires 0 <= n < |"not found"| && Lacks(message, "not found"[n])
    ensures FailureErrors(Str(message)) == NoErrors.(general := Some(message))
  {
    KeywordAbsent(message, "email", e);
    KeywordAbsent(message, "password", p);
    KeywordAbsent(message, "not found", n);
  }

  /** The server's "Invalid credentials" has no 'm', which "email" contains. */
  lemma InvalidCredentialsLacksM()
    ensures Lacks(AuthController.InvalidCredentials.body.message, 'm')
  {
  }

  /** The server's "Invalid credentials" has no 'p', which "password" contains. */
  lemma InvalidCredentialsLacksP()
    ensures Lacks(AuthController.InvalidCredentials.body.message, 'p')
  {
  }

  /** The server's "Invalid credentials" has no 'o', which "not found" contains. */
  lemma InvalidCredentialsLacksO()
    ensures Lacks(AuthController.InvalidCredentials.body.message, 'o')
  {
  }

  /** Both of the server's login refusals, unknown email and wrong password, land in `general`. */
  lemma InvalidCredentialsIsGeneral()
    ensures FailureErrors(Str(AuthController.InvalidCredentials.body.message)) ==
      NoErrors.(general := Some(AuthController.InvalidCredentials.body.message))
  {
    InvalidCredentialsLacksM();
    InvalidCredentialsLacksP();
    InvalidCredentialsLacksO();
    assert "email"[1] == 'm' && "password"[0] == 'p' && "not found"[1] == 'o';
    NoKeyword(AuthController.InvalidCredentials.body.message, 1, 0, 1);
  }

  /** The default "Login failed" has no 'm'. */
  lemma DefaultLacksM()
    ensures Lacks("Login failed", 'm')
  {
  }

  /** The default "Login failed" has no 'p'. */
  lemma DefaultLacksP()
    ensures Lacks("Login failed", 'p')
  {
  }

  /** The default "Login failed" has no 'u'. */
  lemma DefaultLacksU()
    ensures Lacks("Login failed", 'u')
  {
  }

  /** The default message "Login failed" is shown as a general error. */
  lemma DefaultIsGeneral()
    ensures FailureErrors(Str("Login failed")) == NoErrors.(general := Some("Login failed"))
  {
    DefaultLacksM();
    DefaultLacksP();
    DefaultLacksU();
    assert "email"[1] == 'm' && "password"[0] == 'p' && "not found"[6] == 'u';
    NoKeyword("Login failed", 1, 0, 6);
  }

  /** A failure without a message, or with an empty one, shows the general default. */
  lemma NoMessageMapped(message: Value)
    requires !Truthy(message)
    ensures FailureErrors(message) == NoErrors.(general := Some("Login failed"))
  {
    assert FailureMessage(message) == FailureMessage(Str("Login failed"));
    DefaultIsGeneral();
  }

  class LoginForm {
    var email: string
    var password: string
    var errors: Errors
    var isLoading: bool

    constructor ()
      ensures email == "" && password == "" && errors == NoErrors && !isLoading
    {
      email, password := "", "";
      errors := NoErrors;
      isLoading := false;
    }

    /** `validateForm`: `newErrors` is filled field by field, becomes `errors`, and the answer is whether it stayed empty. */
    method ValidateForm() returns (ok: bool)
      modifies this
      ensures errors == ValidationErrors(email, password)
      ensures ok <==> Clean(errors)
      ensures email == old(email) && password == old(password) && isLoading == old(isLoading)
    {
      var newErrors := NoErrors;
      if email == "" {
        newErrors := newErrors.(email := Some(EmailRequired));
      } else if !EmailPatternMatches(email) {
        newErrors := newErrors.(email := Some(EmailInvalid));
      }
      if password == "" {
        newErrors := newErrors.(password := Some(PasswordRequired));
      } else if Utf16Length(password) < 6 {
        newErrors := newErrors.(password := Some(PasswordTooShort));
      }
      EmailPatternIsLocal(email);
      errors := newErrors;
      ok := Clean(newErrors);
    }

    /**
     * `handleSubmit`, with the outcome of the `login` call as `result`: a form
     * that fails validation shows its errors and sends nothing; otherwise the
     * credentials are sent, a success navigates to `/` and a failure shows
     * the mapped error.
     */
    method HandleSubmit(result: CallResult) returns (sent: Option<Submission>, navigateTo: Option<string>)
      modifies this
      ensures var e := ValidationErrors(old(email), old(password));
        && (!Clean(e) ==> sent.None? && navigateTo.None? && errors == e)
        && (Clean(e) ==> sent == Some(Submission(old(email), old(password))))
        && (Clean(e) && result.Succeeded? ==> navigateTo == Some("/") && errors == NoErrors)
        && (Clean(e) && result.Failed? ==> navigateTo.None? && errors == FailureErrors(result.message))
      ensures email == old(email) && password == old(password)
      ensures Clean(ValidationErrors(old(email), old(password))) ==> !isLoading
      ensures !Clean(ValidationErrors(old(email), old(password))) ==> isLoading == old(isLoading)
    {
      errors := NoErrors;
      var ok := ValidateForm();
      if !ok {
        return None, None;
      }
      isLoading := true;
      sent := Some(Submission(email, password));
      navigateTo := None;
      match result {
        case Succeeded =>
          navigateTo := Some("/");
        case Failed(message) =>
          errors := FailureErrors(message);
      }
      isLoading := false;
    }

    /** Editing the email clears the email error and nothing else. */
    method OnEmailChange(value: string)
      modifies this
      ensures email == value && errors == old(errors).(email := None)
      ensures password == old(password) && isLoading == old(isLoading)
    {
      email := value;
      if errors.email.Some? {
        errors := errors.(email := None);
      }
    }

    /** Editing the password clears the password error and nothing else. */
    method OnPasswordChange(value: string)
      modifies this
      ensures password == value && errors == old(errors).(password := None)
      ensures email == old(email) && isLoading == old(isLoading)
    {
      password := value;
      if errors.password.Some? {
        errors := errors.(password := None);
      }
    }
  }
}

/**
 * The logic of `client/src/pages/Register.jsx`: `validateForm` with its
 * ordered rule chain per field, `handleSubmit` with the mapping of a server
 * error to a field, and the `onChange` handlers that clear errors.
 */
module RegisterPage {
  import opened Base
  import opened Js
  import opened FormRules
  import AuthController

  /** The `errors` object; a key set to `null` or never set is `None`. */
  datatype Errors = Errors(username: Option<string>, email: Option<string>, password: Option<string>,
                           password2: Option<string>, general: Option<string>)

  const NoErrors := Errors(None, None, None, None, None)

  /** `Object.keys(newErrors).length === 0` for an object that only ever receives messages. */
  predicate Clean(e: Errors) {
    e.username.None? && e.email.None? && e.password.None? && e.password2.None? && e.general.None?
  }

  const UsernameRequired := "Username is required"
  const UsernameTooShort := "Username must be at least 3 characters"
  const UsernameCharset := "Username can only contain letters, numbers, and underscores"
  const ConfirmRequired := "Please confirm your password"
  const ConfirmMismatch := "Passwords do not match"

  predicate AllWordChars(s: string) {
    forall i :: 0 <= i < |s| ==> IsWordChar(s[i])
  }

  /** Empty, then fewer than three UTF-16 code units, then a character outside `[a-zA-Z0-9_]`. */
  function UsernameError(username: string): (r: Option<string>)
    ensures r == Some(UsernameRequired) <==> username == ""
    ensures r == Some(UsernameTooShort) <==> username != "" && Utf16Length(username) < 3
    ensures r == Some(UsernameCharset) <==> Utf16Length(username) >= 3 && !AllWordChars(username)
    ensures r.None? <==> Utf16Length(username) >= 3 && AllWordChars(username)
  {
    if username == "" then Some(UsernameRequired)
    else if Utf16Length(username) < 3 then Some(UsernameTooShort)
    else if !AllWordChars(username) then Some(UsernameCharset)
    else None
  }

  /** Empty, then different from the password. */
  function ConfirmError(password: string, password2: string): (r: Option<string>)
    ensures r == Some(ConfirmRequired) <==> password2 == ""
    ensures r == Some(ConfirmMismatch) <==> password2 != "" && password2 != password
    ensures r.None? <==> password2 != "" && password2 == password
  {
    if password2 == "" then Some(ConfirmRequired)
    else if password != password2 then Some(ConfirmMismatch)
    else None
  }

  /** The `newErrors` object: each field's first failing rule, computed independently of the others. */
  function ValidationErrors(username: string, email: string, password: string, password2: string): Errors {
    Errors(UsernameError(username), EmailError(email), PasswordError(password), ConfirmError(password, password2), None)
  }

  /**
   * The form is accepted exactly when the username has at least three word
   * characters, the email matches the pattern, the password has at least six
   * code units and the confirmation repeats it.
   */
  lemma AcceptedExactly(username: string, email: string, password: string, password2: string)
    ensures Clean(ValidationErrors(username, email, password, password2)) <==>
      && Utf16Length(username) >= 3 && AllWordChars(username)
      && email != "" && HasAtAndDot(email)
      && password != "" && Utf16Length(password) >= 6
      && password2 == password
  {
  }

  /** What happened to `register({ username, email, password })`. */
  datatype CallResult = Succeeded | Failed(message: Value)

  /** The credentials sent; the confirmation is not among them. */
  datatype Submission = Submission(username: string, email: string, password: string)

  /** `err.response?.data?.message || 'Registration failed'` */
  function FailureMessage(message: Value): (m: string)
    ensures m != ""
    ensures Truthy(message) ==> m == message.s
    ensures !Truthy(message) ==> m == "Registration failed"
  {
    if Truthy(message) then message.s else "Registration failed"
  }

  /**
   * The catch block: a message mentioning "username" (in any case) blames the
   * username, otherwise one mentioning "email" blames the email, otherwise the
   * message is shown as a general error; only that one key is set.
   */
  function FailureErrors(message: Value): (e: Errors)
    ensures var m := ToLower(FailureMessage(message));
      && (Includes(m, "username") ==> e == NoErrors.(username := Some("Username is already taken")))
      && (!Includes(m, "username") && Includes(m, "email") ==> e == NoErrors.(email := Some("Email is already registered")))
      && (!Includes(m, "username") && !Includes(m, "email") ==> e == NoErrors.(general := Some(FailureMessage(message))))
  {
    var errorMessage := FailureMessage(message);
    if Includes(ToLower(errorMessage), "username") then NoErrors.(username := Some("Username is already taken"))
    else if Includes(ToLower(errorMessage), "email") then NoErrors.(email := Some("Email is already registered"))
    else NoErrors.(general := Some(errorMessage))
  }

  /** The message starts with "email" in some mix of cases. */
  predicate LeadsWithEmail(message: string) {
    && |message| >= 5
    && LowerChar(message[0]) == 'e' && LowerChar(message[1]) == 'm' && LowerChar(message[2]) == 'a'
    && LowerChar(message[3]) == 'i' && LowerChar(message[4]) == 'l'
  }

  /** A message lacking some character of each keyword is shown as a general error. */
  lemma NeitherKeyword(message: string, u: int, m: int)
    requires message != ""
    requires 0 <= u < |"username"| && Lacks(message, "username"[u])
    requires 0 <= m < |"email"| && Lacks(message, "email"[m])
    ensures FailureErrors(Str(message)) == NoErrors.(general := Some(message))
  {
    KeywordAbsent(message, "username", u);
    KeywordAbsent(message, "email", m);
  }

  /** A message that starts with "email" and has no 'u' is blamed on the email field. */
  lemma LeadingEmail(message: string)
    requires LeadsWithEmail(message) && Lacks(message, 'u')
    ensures FailureErrors(Str(message)) == NoErrors.(email := Some("Email is already registered"))
  {
    assert "username"[0] == 'u';
    KeywordAbsent(message, "username", 0);
    assert ToLower(message)[..5] == "email";
    KeywordLeads(message, "email");
  }

  /** The server's "Email already registered" leads with "email" and has no 'u', so it blames the email field. */
  lemma EmailTakenClassified()
    ensures LeadsWithEmail(AuthController.EmailTaken.body.message) && Lacks(AuthController.EmailTaken.body.message, 'u')
  {
  }

  /** The server's "All fields are required" has no 'n', which "username" contains. */
  lemma FieldsRequiredLacksN()
    ensures Lacks(AuthController.FieldsRequired.body.message, 'n')
  {
  }

  /** The server's "All fields are required" has no 'm', which "email" contains. */
  lemma FieldsRequiredLacksM()
    ensures Lacks(AuthController.FieldsRequired.body.message, 'm')
  {
  }

  /** The server's "Missing request body" has no 'a', which both keywords contain. */
  lemma MissingBodyClassified()
    ensures Lacks(AuthController.MissingBody.body.message, 'a')
  {
  }

  /** The server's "Email already registered" is shown on the email field. */
  lemma EmailTakenIsEmail()
    ensures FailureErrors(Str(AuthController.EmailTaken.body.message)) == NoErrors.(email := Some("Email is already registered"))
  {
    EmailTakenClassified();
    LeadingEmail(AuthController.EmailTaken.body.message);
  }

  /** The server's "All fields are required" is shown as a general error. */
  lemma FieldsRequiredIsGeneral()
    ensures var msg := AuthController.FieldsRequired.body.message;
      FailureErrors(Str(msg)) == NoErrors.(general := Some(msg))
  {
    FieldsRequiredLacksN();
    FieldsRequiredLacksM();
    NeitherKeyword(AuthController.FieldsRequired.body.message, 4, 1);
  }

  /** The server's "Missing request body" is shown as a general error. */
  lemma MissingBodyIsGeneral()
    ensures var msg := AuthController.MissingBody.body.message;
      FailureErrors(Str(msg)) == NoErrors.(general := Some(msg))
  {
    MissingBodyClassified();
    NeitherKeyword(AuthController.MissingBody.body.message, 5, 2);
  }

  /** The default "Registration failed" has no 'u'. */
  lemma DefaultLacksU()
    ensures Lacks("Registration failed", 'u')
  {
  }

  /** The default "Registration failed" has no 'm'. */
  lemma DefaultLacksM()
    ensures Lacks("Registration failed", 'm')
  {
  }

  /** A failure without a message, or with an empty one, shows the general default. */
  lemma NoMessageMapped(message: Value)
    requires !Truthy(message)
    ensures FailureErrors(message) == NoErrors.(general := Some("Registration failed"))
  {
    DefaultLacksU();
    DefaultLacksM();
    assert "username"[0] == 'u' && "email"[1] == 'm';
    NeitherKeyword("Registration failed", 0, 1);
  }

  class RegisterForm {
    var username: string
    var email: string
    var password: string
    var password2: string
    var errors: Errors
    var isLoading: bool

    constructor ()
      ensures username == "" && email == "" && password == "" && password2 == ""
      ensures errors == NoErrors && !isLoading
    {
      username, email, password, password2 := "", "", "", "";
      errors := NoErrors;
      isLoading := false;
    }

    /** `validateForm`: `newErrors` is filled field by field, becomes `errors`, and the answer is whether it stayed empty. */
    method ValidateForm() returns (ok: bool)
      modifies this
      ensures errors == ValidationErrors(username, email, password, password2)
      ensures ok <==> Clean(errors)
      ensures username == old(username) && email == old(email) && password == old(password) && password2 == old(password2)
      ensures isLoading == old(isLoading)
    {
      var newErrors := NoErrors;
      if username == "" {
        newErrors := newErrors.(username := Some(UsernameRequired));
      } else if Utf16Length(username) < 3 {
        newErrors := newErrors.(username := Some(UsernameTooShort));
      } else if !AllWordChars(username) {
        newErrors := newErrors.(username := Some(UsernameCharset));
      }
      if email == "" {
        newErrors := newErrors.(email := Some(EmailRequired));
      } else if !EmailPatternMatches(email) {
        newErrors := newErrors.(email := Some(EmailInvalid));
      }
      if password == "" {
        newErrors := newErrors.(password := Some(PasswordRequired));
      } else if Utf16Length(password) < 6 {
        newErrors := newErrors.(password := Some(PasswordTooShort));
      }
      if password2 == "" {
        newErrors := newErrors.(password2 := Some(ConfirmRequired));
      } else if password != password2 {
        newErrors := newErrors.(password2 := Some(ConfirmMismatch));
      }
      EmailPatternIsLocal(email);
      errors := newErrors;
      ok := Clean(newErrors);
    }

    /**
     * `handleSubmit`, with the outcome of the `register` call as `result`: a
     * form that fails validation shows its errors and sends nothing;
     * otherwise the credentials are sent, a success navigates to `/login`
     * and a failure shows the mapped error.
     */
    method HandleSubmit(result: CallResult) returns (sent: Option<Submission>, navigateTo: Option<string>)
      modifies this
      ensures var e := ValidationErrors(old(username), old(email), old(password), old(password2));
        && (!Clean(e) ==> sent.None? && navigateTo.None? && errors == e)
        && (Clean(e) ==> sent == Some(Submission(old(username), old(email), old(password))))
        && (Clean(e) && result.Succeeded? ==> navigateTo == Some("/login") && errors == NoErrors)
        && (Clean(e) && result.Failed? ==> navigateTo.None? && errors == FailureErrors(result.message))
      ensures username == old(username) && email == old(email) && password == old(password) && password2 == old(password2)
      ensures Clean(ValidationErrors(old(username), old(email), old(password), old(password2))) ==> !isLoading
      ensures !Clean(ValidationErrors(old(username), old(email), old(password), old(password2))) ==> isLoading == old(isLoading)
    {
      errors := NoErrors;
      var ok := ValidateForm();
      if !ok {
        return None, None;
      }
      isLoading := true;
      sent := Some(Submission(username, email, password));
      navigateTo := None;
      match result {
        case Succeeded =>
          navigateTo := Some("/login");
        case Failed(message) =>
          errors := FailureErrors(message);
      }
      isLoading := false;
    }

    /** Editing the username clears the username error and nothing else. */
    method OnUsernameChange(value: string)
      modifies this
      ensures username == value && errors == old(errors).(username := None)
      ensures email == old(email) && password == old(password) && password2 == old(password2) && isLoading == old(isLoading)
    {
      username := value;
      if errors.username.Some? {
        errors := errors.(username := None);
      }
    }

    /** Editing the email clears the email error and nothing else. */
    method OnEmailChange(value: string)
      modifies this
      ensures email == value && errors == old(errors).(email := None)
      ensures username == old(username) && password == old(password) && password2 == old(password2) && isLoading == old(isLoading)
    {
      email := value;
      if errors.email.Some? {
        errors := errors.(email := None);
      }
    }

    /** Editing the password clears the password error, and the confirmation error only when the new value equals the confirmation. */
    method OnPasswordChange(value: string)
      modifies this
      ensures password == value
      ensures errors == old(errors).(password := None, password2 := if value == password2 then None else old(errors).password2)
      ensures username == old(username) && email == old(email) && password2 == old(password2) && isLoading == old(isLoading)
    {
      password := value;
      if errors.password.Some? {
        errors := errors.(password := None);
      }
      if errors.password2.Some? && value == password2 {
        errors := errors.(password2 := None);
      }
    }

    /** Editing the confirmation clears the confirmation error and nothing else. */
    method OnConfirmChange(value: string)
      modifies this
      ensures password2 == value && errors == old(errors).(password2 := None)
      ensures username == old(username) && email == old(email) && password == old(password) && isLoading == old(isLoading)
    {
      password2 := value;
      if errors.password2.Some? {
        errors := errors.(password2 := None);
      }
    }
  }
}

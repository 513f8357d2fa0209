/**
 * The login form: email and password validation, and the credentials passed
 * on when the form is valid.
 */
module Login {
  import opened Wrappers
  import opened Text
  import opened Validation

  datatype LoginForm = LoginForm(email: string, password: string, rememberMe: bool)

  /** The keys of the error record. */
  datatype LoginField = Email | Password

  /** The arguments of `onLogin`. */
  datatype Credentials = Credentials(email: string, password: string, rememberMe: bool)

  /** What a valid form amounts to: a well-formed email and any non-empty password. */
  predicate Acceptable(f: LoginForm)
  {
    !IsBlank(f.email) && EmailPattern(f.email) && f.password != ""
  }

  /** `validateForm`: the error record, and whether it came out empty. */
  method Validate(f: LoginForm) returns (errors: map<LoginField, string>, valid: bool)
    ensures Lookup(errors, Email) == EmailError(f.email)
    ensures Lookup(errors, Password) == (if f.password == "" then Some(PasswordRequired) else None)
    ensures valid <==> errors == map[]
    ensures valid <==> Acceptable(f)
  {
    errors := map[];
    if IsBlank(f.email) {
      errors := errors[Email := EmailRequired];
    } else if !EmailPattern(f.email) {
      errors := errors[Email := InvalidEmailFormat];
    }
    if f.password == "" {
      errors := errors[Password := PasswordRequired];
    }
    valid := errors.Keys == {};
  }

  /** `handleSubmit`: the credentials, unchanged, only for a valid form. */
  method Submit(f: LoginForm) returns (errors: map<LoginField, string>, sent: Option<Credentials>)
    ensures sent.Some? <==> Acceptable(f)
    ensures sent.Some? <==> errors == map[]
    ensures sent.Some? ==> sent.value == Credentials(f.email, f.password, f.rememberMe)
  {
    var valid;
    errors, valid := Validate(f);
    if valid {
      sent := Some(Credentials(f.email, f.password, f.rememberMe));
    } else {
      sent := None;
    }
  }

  /** There is no length rule: a one-character password logs in with a good email. */
  lemma ShortPasswordAccepted(email: string, c: char)
    requires EmailError(email) == None
    ensures Acceptable(LoginForm(email, [c], false))
  {
  }
}

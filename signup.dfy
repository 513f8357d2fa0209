/**
 * The sign-up form: its validation, which fills an error record field by
 * field, and the data it passes on when the form is valid.
 */
module Signup {
  import opened Wrappers
  import opened Text
  import opened Entities
  import opened Validation

  /** The form's fields; the confirmation is not passed on. */
  datatype SignupForm = SignupForm(firstName: string, lastName: string, phoneNumber: string,
                                   email: string, password: string, confirmPassword: string)

  /** The keys of the error record: the fields that can carry a message. */
  datatype SignupField = FirstName | LastName | Email | Password | ConfirmPassword

  const NameRequired := "Name is required"
  const LastNameRequired := "Last name is required"
  const PasswordTooShort := "Password must be at least 6 characters"
  const PasswordsDoNotMatch := "Passwords do not match"

  /** The password rule: required (not trimmed), then at least six characters. */
  function PasswordError(password: string): (r: Option<string>)
    ensures r == Some(PasswordRequired) <==> password == ""
    ensures r == Some(PasswordTooShort) <==> 0 < |password| < 6
    ensures r == None <==> |password| >= 6
  {
    if password == "" then Some(PasswordRequired)
    else if |password| < 6 then Some(PasswordTooShort)
    else None
  }

  /** What a valid form amounts to, field by field; the phone number is never checked. */
  predicate Acceptable(f: SignupForm)
  {
    !IsBlank(f.firstName) && !IsBlank(f.lastName) && !IsBlank(f.email) && EmailPattern(f.email)
    && |f.password| >= 6 && f.password == f.confirmPassword
  }

  /** `validateForm`: the error record, and whether it came out empty. */
  method Validate(f: SignupForm) returns (errors: map<SignupField, string>, valid: bool)
    ensures Lookup(errors, FirstName) == (if IsBlank(f.firstName) then Some(NameRequired) else None)
    ensures Lookup(errors, LastName) == (if IsBlank(f.lastName) then Some(LastNameRequired) else None)
    ensures Lookup(errors, Email) == EmailError(f.email)
    ensures Lookup(errors, Password) == PasswordError(f.password)
    ensures Lookup(errors, ConfirmPassword) == (if f.password != f.confirmPassword then Some(PasswordsDoNotMatch) else None)
    ensures valid <==> errors == map[]
    ensures valid <==> Acceptable(f)
  {
    errors := map[];
    if IsBlank(f.firstName) {
      errors := errors[FirstName := NameRequired];
    }
    if IsBlank(f.lastName) {
      errors := errors[LastName := LastNameRequired];
    }
    if IsBlank(f.email) {
      errors := errors[Email := EmailRequired];
    } else if !EmailPattern(f.email) {
      errors := errors[Email := InvalidEmailFormat];
    }
    if f.password == "" {
      errors := errors[Password := PasswordRequired];
    } else if |f.password| < 6 {
      errors := errors[Password := PasswordTooShort];
    }
    if f.password != f.confirmPassword {
      errors := errors[ConfirmPassword := PasswordsDoNotMatch];
    }
    valid := errors.Keys == {};
  }

  /** `handleSubmit`: the sign-up data, without the confirmation, only for a valid form. */
  method Submit(f: SignupForm) returns (errors: map<SignupField, string>, sent: Option<SignupData>)
    ensures sent.Some? <==> Acceptable(f)
    ensures sent.Some? <==> errors == map[]
    ensures sent.Some? ==> sent.value == SignupData(f.firstName, f.lastName, f.phoneNumber, f.email, f.password)
  {
    var valid;
    errors, valid := Validate(f);
    if valid {
      sent := Some(SignupData(f.firstName, f.lastName, f.phoneNumber, f.email, f.password));
    } else {
      sent := None;
    }
  }

  /** A mismatched confirmation is reported whatever else is wrong, and alone blocks the form. */
  lemma MismatchBlocks(f: SignupForm)
    requires f.password != f.confirmPassword
    ensures !Acceptable(f)
    ensures Acceptable(f.(confirmPassword := f.password)) <==>
      !IsBlank(f.firstName) && !IsBlank(f.lastName) && EmailError(f.email) == None && PasswordError(f.password) == None
  {
  }

  /** The password is not trimmed: six spaces pass the password rule. */
  lemma SpacesPassword()
    ensures PasswordError("      ") == None
  {
  }
}

/**
 * The field rules the sign-up and login forms share: an email is required and
 * must match `\S+@\S+\.\S+`, and a password is required.
 */
module Validation {
  import opened Wrappers
  import opened Text

  const EmailRequired := "Email is required"
  const InvalidEmailFormat := "Invalid email format"
  const PasswordRequired := "Password is required"

  /**
   * The message the email field gets: required when blank once trimmed,
   * otherwise a format error when the untrimmed text does not match the pattern.
   */
  function EmailError(email: string): (r: Option<string>)
    ensures r == Some(EmailRequired) <==> IsBlank(email)
    ensures r == Some(InvalidEmailFormat) <==> !IsBlank(email) && !EmailPattern(email)
    ensures r == None <==> !IsBlank(email) && EmailPattern(email)
  {
    if IsBlank(email) then Some(EmailRequired)
    else if !EmailPattern(email) then Some(InvalidEmailFormat)
    else None
  }

  /** An accepted email holds an "@" and, after it, a ".". */
  lemma AcceptedEmailShape(email: string)
    requires EmailError(email) == None
    ensures exists at, dot :: 0 < at < dot < |email| - 1 && email[at] == '@' && email[dot] == '.'
  {
    var at, dot :| 1 <= at && at + 1 < dot && dot + 1 < |email| && EmailShapeAt(email, at, dot);
    assert email[at] == '@' && email[dot] == '.';
  }

  /** Text without an "@" is refused, as blank or as badly formed. */
  lemma NoAtRefused(email: string)
    requires '@' !in email
    ensures EmailError(email).Some?
  {
    forall at, dot | 1 <= at && at + 1 < dot && dot + 1 < |email| ensures !EmailShapeAt(email, at, dot) {
      assert email[at] in email;
    }
  }

  /** The pattern is unanchored: text around a matching address still matches. */
  lemma PatternUnanchored(pre: string, email: string, post: string)
    requires EmailPattern(email)
    ensures EmailPattern(pre + email + post)
  {
    var at, dot :| 1 <= at && at + 1 < dot && dot + 1 < |email| && EmailShapeAt(email, at, dot);
    var s := pre + email + post;
    forall k | |pre| + at < k < |pre| + dot ensures !IsSpace(s[k]) {
      assert s[k] == email[k - |pre|];
    }
    assert EmailShapeAt(s, |pre| + at, |pre| + dot);
  }
}

/** Request-body validation for sign-up and password reset: the password
    policy, the confirmation check and the username length bounds.  Each
    check yields the message the validation layer reports, and a body's
    messages come in field order: password, confirm_password, then (for
    sign-up) username and email. */
module Schemas {
  import opened Results

  const PasswordMinLength := 8
  const UsernameMinLength := 3
  const UsernameMaxLength := 50

  const PasswordTooShort := "String should have at least 8 characters"
  const PasswordNeedsLetter := "Value error, Password must contain at least one letter"
  const PasswordNeedsDigit := "Value error, Password must contain at least one number"
  const PasswordsDoNotMatch := "Value error, Passwords do not match"
  const UsernameTooShort := "String should have at least 3 characters"
  const UsernameTooLong := "String should have at most 50 characters"

  /** The class `[A-Za-z]`. */
  predicate IsAsciiLetter(c: char) {
    ('A' <= c <= 'Z') || ('a' <= c <= 'z')
  }

  /** The class `\d`, restricted to ASCII. */
  predicate IsAsciiDigit(c: char) {
    '0' <= c <= '9'
  }

  /** `re.search(r"[A-Za-z]", s)` found a match. */
  function HasLetter(s: string): (r: bool)
    ensures r <==> exists i :: 0 <= i < |s| && IsAsciiLetter(s[i])
  {
    if |s| == 0 then false
    else if IsAsciiLetter(s[0]) then true
    else
      var rest := HasLetter(s[1..]);
      assert forall i :: 1 <= i < |s| ==> s[i] == s[1..][i - 1];
      rest
  }

  /** `re.search(r"\d", s)` found a match. */
  function HasDigit(s: string): (r: bool)
    ensures r <==> exists i :: 0 <= i < |s| && IsAsciiDigit(s[i])
  {
    if |s| == 0 then false
    else if IsAsciiDigit(s[0]) then true
    else
      var rest := HasDigit(s[1..]);
      assert forall i :: 1 <= i < |s| ==> s[i] == s[1..][i - 1];
      rest
  }

  /** The password field: the length constraint first, then the validator,
      which looks for a letter before it looks for a digit.  `None` means
      the password is accepted. */
  function PasswordError(password: string): (r: Option<string>)
    ensures r.None? <==> |password| >= PasswordMinLength && HasLetter(password) && HasDigit(password)
    ensures |password| < PasswordMinLength ==> r == Some(PasswordTooShort)
    ensures |password| >= PasswordMinLength && !HasLetter(password) ==> r == Some(PasswordNeedsLetter)
    ensures |password| >= PasswordMinLength && HasLetter(password) && !HasDigit(password) ==> r == Some(PasswordNeedsDigit)
  {
    if |password| < PasswordMinLength then Some(PasswordTooShort)
    else if !HasLetter(password) then Some(PasswordNeedsLetter)
    else if !HasDigit(password) then Some(PasswordNeedsDigit)
    else None
  }

  /** The confirm_password field.  It is compared only with a password that
      passed its own validation (a rejected password is absent from the
      data the second validator sees) and is non-empty. */
  function ConfirmError(password: string, confirm: string): (r: Option<string>)
    ensures r.Some? <==> PasswordError(password).None? && confirm != password
    ensures r.Some? ==> r.value == PasswordsDoNotMatch
  {
    if PasswordError(password).None? && password != "" && confirm != password then Some(PasswordsDoNotMatch)
    else None
  }

  /** The username length bounds of the sign-up body, in characters. */
  function UsernameError(username: string): (r: Option<string>)
    ensures r.None? <==> UsernameMinLength <= |username| <= UsernameMaxLength
    ensures |username| < UsernameMinLength ==> r == Some(UsernameTooShort)
    ensures |username| > UsernameMaxLength ==> r == Some(UsernameTooLong)
  {
    if |username| < UsernameMinLength then Some(UsernameTooShort)
    else if |username| > UsernameMaxLength then Some(UsernameTooLong)
    else None
  }

  /** The messages of the present errors, in order. */
  function Present(errors: seq<Option<string>>): (r: seq<string>)
    ensures |r| <= |errors|
    ensures |r| == 0 <==> forall i :: 0 <= i < |errors| ==> errors[i].None?
    ensures forall m :: m in r <==> Some(m) in errors
  {
    if |errors| == 0 then []
    else
      var rest := Present(errors[1..]);
      assert forall i :: 1 <= i < |errors| ==> errors[i] == errors[1..][i - 1];
      assert forall o :: o in errors <==> o == errors[0] || o in errors[1..];
      if errors[0].Some? then [errors[0].value] + rest else rest
  }

  /** Every message a sign-up body draws.  The address check is the
      `EmailStr` type's, given here as its outcome. */
  function SignupErrors(username: string, emailError: Option<string>, password: string, confirm: string): (r: seq<string>)
    ensures |r| == 0 <==>
      PasswordError(password).None? && confirm == password && UsernameError(username).None? && emailError.None?
    ensures |r| <= 4
    ensures forall m :: m in r <==>
      Some(m) in [PasswordError(password), ConfirmError(password, confirm), UsernameError(username), emailError]
  {
    Present([PasswordError(password), ConfirmError(password, confirm), UsernameError(username), emailError])
  }

  /** Every message a password-reset body draws. */
  function ResetErrors(password: string, confirm: string): (r: seq<string>)
    ensures |r| == 0 <==> PasswordError(password).None? && confirm == password
    ensures |r| <= 2
    ensures forall m :: m in r <==> Some(m) in [PasswordError(password), ConfirmError(password, confirm)]
  {
    Present([PasswordError(password), ConfirmError(password, confirm)])
  }

  /** A password that fails its own validation draws exactly one message
      from the pair, however the confirmation reads. */
  lemma RejectedPasswordSkipsConfirm(password: string, confirm: string)
    requires PasswordError(password).Some?
    ensures ResetErrors(password, confirm) == [PasswordError(password).value]
  {
  }

  /** The example sign-up body of the schema is accepted. */
  lemma ExampleSignupAccepted()
    ensures SignupErrors("faiz", None, "StrongPass123", "StrongPass123") == []
  {
    assert IsAsciiLetter("StrongPass123"[0]);
    assert IsAsciiDigit("StrongPass123"[10]);
  }
}

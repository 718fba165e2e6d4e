/** The shared checks of the account routes: user lookup by address, the
    local-account guard and the two one-time-code validators.  Each is a
    pure function of the record it inspects, so none can modify it. */
module AuthUtils {
  import opened Results
  import opened Text
  import opened Models

  const UserNotFound := HttpError(404, "User not found")
  const GoogleAccountHasNoPassword := HttpError(400, "This account uses Google Sign-In and does not have a password.")
  const InvalidVerificationCode := HttpError(400, "Invalid or expired verification code")
  const InvalidResetCode := HttpError(400, "Invalid or expired reset code")

  /** Some user is registered under exactly this address. */
  predicate EmailInUse(users: map<UserId, User>, email: string) {
    exists id :: id in users && users[id].email == email
  }

  /** `get_user_by_email`: the user registered under the normalised form of
      `email`, or 404. */
  function GetUserByEmail(s: Store, email: string): (r: Result<UserId>)
    requires EmailsUnique(s.users)
    ensures r.Ok? <==> EmailInUse(s.users, NormalizeEmail(email))
    ensures r.Ok? ==> r.value in s.users && s.users[r.value].email == NormalizeEmail(email)
    ensures r.Err? ==> r.error == UserNotFound
  {
    match UserWithEmail(s.users, NormalizeEmail(email))
    case Some(id) => Ok(id)
    case None => Err(UserNotFound)
  }

  /** `ensure_local_account`: only password accounts pass. */
  function EnsureLocalAccount(u: User): (r: Outcome)
    ensures r.Pass? <==> u.provider == Local
    ensures r.Fail? ==> r.error == GoogleAccountHasNoPassword
  {
    if u.provider != Local then Fail(GoogleAccountHasNoPassword) else Pass
  }

  /** A submitted one-time code is accepted when a code is stored, it is the
      submitted one, an expiry is stored and the expiry has not passed.  The
      expiry instant itself still accepts. */
  predicate CodeAccepted(stored: Option<int>, expiresAt: Option<Instant>, code: int, now: Instant) {
    stored == Some(code) && expiresAt.Some? && now <= expiresAt.value
  }

  /** `validate_verification_code`. */
  function ValidateVerificationCode(u: User, code: int, now: Instant): (r: Outcome)
    ensures r.Pass? <==> u.verificationCode == Some(code) && u.verificationExpiresAt.Some? && now <= u.verificationExpiresAt.value
    ensures r.Fail? ==> r.error == InvalidVerificationCode
  {
    if u.verificationCode != Some(code) || u.verificationExpiresAt.None? || now > u.verificationExpiresAt.value then
      Fail(InvalidVerificationCode)
    else
      Pass
  }

  /** `validate_reset_code`. */
  function ValidateResetCode(u: User, code: int, now: Instant): (r: Outcome)
    ensures r.Pass? <==> u.resetCode == Some(code) && u.resetExpiresAt.Some? && now <= u.resetExpiresAt.value
    ensures r.Fail? ==> r.error == InvalidResetCode
  {
    if u.resetCode != Some(code) || u.resetExpiresAt.None? || now > u.resetExpiresAt.value then
      Fail(InvalidResetCode)
    else
      Pass
  }

  /** A code issued at `issuedAt` is accepted up to and including
      `issuedAt + CodeLifetime`, and rejected one second later. */
  lemma CodeWindow(code: int, issuedAt: Instant, now: Instant)
    ensures CodeAccepted(Some(code), Some(issuedAt + CodeLifetime), code, now) <==> now <= issuedAt + 900
  {
  }
}

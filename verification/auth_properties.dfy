/** Properties of the account routes that relate several calls: what one
    route leaves behind and how the next route answers. */
module AuthProperties {
  import opened Results
  import opened Text
  import opened Models
  import opened Hashing
  import opened AuthUtils
  import opened AuthRoutes
  import opened AuthInvariants

  /** After a successful registration the address belongs to the new user. */
  lemma RegisteredUserFound(s: Store, h: Hasher, username: string, email: string, password: string,
                            newId: UserId, code: int, now: Instant, picture: string)
    requires Valid(s)
    requires newId !in s.users
    requires IsSixDigitCode(code)
    requires Register(s, h, username, email, password, newId, code, now, picture).Ok?
    ensures var s' := Register(s, h, username, email, password, newId, code, now, picture).value.store;
      && Valid(s')
      && UserWithEmail(s'.users, NormalizeEmail(email)) == Some(newId)
  {
    RegisterKeepsValid(s, h, username, email, password, newId, code, now, picture);
  }

  /** A second registration under any spelling that normalises to the same
      address is refused with "Email already registered", whatever its
      username. */
  lemma DuplicateEmailRejected(s: Store, h: Hasher, username: string, email: string, password: string,
                               newId: UserId, code: int, now: Instant, picture: string,
                               username2: string, email2: string, password2: string,
                               newId2: UserId, code2: int, now2: Instant, picture2: string)
    requires Valid(s)
    requires newId !in s.users
    requires IsSixDigitCode(code) && IsSixDigitCode(code2)
    requires Register(s, h, username, email, password, newId, code, now, picture).Ok?
    requires NormalizeEmail(email2) == NormalizeEmail(email)
    ensures var s' := Register(s, h, username, email, password, newId, code, now, picture).value.store;
      newId2 !in s'.users ==>
        Valid(s') && Register(s', h, username2, email2, password2, newId2, code2, now2, picture2) == Err(EmailAlreadyRegistered)
  {
    RegisteredUserFound(s, h, username, email, password, newId, code, now, picture);
  }

  /** In particular the same address in other letter case is refused. */
  lemma DuplicateEmailOtherCaseRejected(s: Store, h: Hasher, username: string, email: string, password: string,
                                        newId: UserId, code: int, now: Instant, picture: string,
                                        username2: string, email2: string, password2: string,
                                        newId2: UserId, code2: int, now2: Instant, picture2: string)
    requires Valid(s)
    requires newId !in s.users
    requires IsSixDigitCode(code) && IsSixDigitCode(code2)
    requires Register(s, h, username, email, password, newId, code, now, picture).Ok?
    requires SameIgnoringCase(email2, email)
    ensures var s' := Register(s, h, username, email, password, newId, code, now, picture).value.store;
      newId2 !in s'.users ==>
        Register(s', h, username2, email2, password2, newId2, code2, now2, picture2) == Err(EmailAlreadyRegistered)
  {
    CaseVariantsNormalizeAlike(email2, email);
    DuplicateEmailRejected(s, h, username, email, password, newId, code, now, picture,
                           username2, email2, password2, newId2, code2, now2, picture2);
  }

  /** A second registration with the same (stripped) username and a fresh
      address is refused with "Username already taken". */
  lemma DuplicateUsernameRejected(s: Store, h: Hasher, username: string, email: string, password: string,
                                  newId: UserId, code: int, now: Instant, picture: string,
                                  username2: string, email2: string, password2: string,
                                  newId2: UserId, code2: int, now2: Instant, picture2: string)
    requires Valid(s)
    requires newId !in s.users
    requires IsSixDigitCode(code) && IsSixDigitCode(code2)
    requires Register(s, h, username, email, password, newId, code, now, picture).Ok?
    requires Strip(username2) == Strip(username)
    ensures var s' := Register(s, h, username, email, password, newId, code, now, picture).value.store;
      newId2 !in s'.users ==>
        Valid(s') && Register(s', h, username2, email2, password2, newId2, code2, now2, picture2).Err?
  {
    RegisteredUserFound(s, h, username, email, password, newId, code, now, picture);
    var s' := Register(s, h, username, email, password, newId, code, now, picture).value.store;
    assert s'.users[newId].username == Strip(username2);
  }

  /** The code sent at registration verifies the account up to and
      including fifteen minutes later, and not after. */
  lemma RegistrationCodeWindow(s: Store, h: Hasher, username: string, email: string, password: string,
                               newId: UserId, code: int, now: Instant, picture: string, later: Instant)
    requires Valid(s)
    requires newId !in s.users
    requires IsSixDigitCode(code)
    requires Register(s, h, username, email, password, newId, code, now, picture).Ok?
    ensures var s' := Register(s, h, username, email, password, newId, code, now, picture).value.store;
      && Valid(s')
      && (VerifyEmail(s', email, code, later).Ok? <==> later <= now + CodeLifetime)
  {
    RegisteredUserFound(s, h, username, email, password, newId, code, now, picture);
  }

  /** Verification is idempotent: once it succeeded, verifying again — with
      any code, at any time — answers "Email already verified" and changes
      nothing. */
  lemma VerifyIdempotent(s: Store, email: string, code: int, now: Instant, code2: int, now2: Instant)
    requires Valid(s)
    requires VerifyEmail(s, email, code, now).Ok?
    ensures var s' := VerifyEmail(s, email, code, now).value.store;
      && Valid(s')
      && VerifyEmail(s', email, code2, now2) == Ok(Reply(s', AlreadyVerifiedMessage))
  {
    VerifyEmailKeepsValid(s, email, code, now);
    var id := UserWithEmail(s.users, NormalizeEmail(email)).value;
    var s' := VerifyEmail(s, email, code, now).value.store;
    assert s'.users[id].email == NormalizeEmail(email);
  }

  /** A resend replaces the code: the previous code (when it differs from
      the new one) no longer verifies the account, even before it would
      have expired. */
  lemma ResendInvalidatesOldCode(s: Store, email: string, newCode: int, now: Instant, oldCode: int, later: Instant)
    requires Valid(s)
    requires IsSixDigitCode(newCode)
    requires EmailInUse(s.users, NormalizeEmail(email))
    requires !s.users[UserWithEmail(s.users, NormalizeEmail(email)).value].isVerified
    requires oldCode != newCode
    ensures var s' := ResendVerificationCode(s, email, newCode, now).value.store;
      && Valid(s')
      && VerifyEmail(s', email, oldCode, later) == Err(InvalidVerificationCode)
  {
    ResendKeepsValid(s, email, newCode, now);
    var id := UserWithEmail(s.users, NormalizeEmail(email)).value;
    var s' := ResendVerificationCode(s, email, newCode, now).value.store;
    assert s'.users[id].email == NormalizeEmail(email);
  }

  /** The resent code verifies an unverified account within its fifteen
      minutes. */
  lemma ResentCodeVerifies(s: Store, email: string, newCode: int, now: Instant, later: Instant)
    requires Valid(s)
    requires IsSixDigitCode(newCode)
    requires EmailInUse(s.users, NormalizeEmail(email))
    requires !s.users[UserWithEmail(s.users, NormalizeEmail(email)).value].isVerified
    requires later <= now + CodeLifetime
    ensures var s' := ResendVerificationCode(s, email, newCode, now).value.store;
      && Valid(s')
      && VerifyEmail(s', email, newCode, later).Ok?
      && VerifyEmail(s', email, newCode, later).value.message == VerifiedMessage
  {
    ResendKeepsValid(s, email, newCode, now);
    var id := UserWithEmail(s.users, NormalizeEmail(email)).value;
    var s' := ResendVerificationCode(s, email, newCode, now).value.store;
    assert s'.users[id].email == NormalizeEmail(email);
  }

  /** An account created by Google sign-in cannot log in with a password:
      it has no hash, so login stops at the first check with "Invalid
      email or password" and never reaches the provider check. */
  lemma GoogleAccountLoginFails(s: Store, h: Hasher, email: string, password: string, refreshValue: string, refreshExpiresAt: Instant)
    requires Valid(s)
    requires EmailInUse(s.users, NormalizeEmail(email))
    requires s.users[UserWithEmail(s.users, NormalizeEmail(email)).value].provider == Google
    ensures Login(s, h, email, password, refreshValue, refreshExpiresAt) == Err(InvalidCredentials)
  {
  }

  /** A Google account cannot ask for a reset code. */
  lemma GoogleAccountForgotFails(s: Store, email: string, resetCode: int, now: Instant)
    requires Valid(s)
    requires IsSixDigitCode(resetCode)
    requires EmailInUse(s.users, NormalizeEmail(email))
    requires s.users[UserWithEmail(s.users, NormalizeEmail(email)).value].provider == Google
    ensures ForgotPassword(s, email, resetCode, now) == Err(GoogleAccountHasNoPassword)
  {
  }

  /** Two logins by the same user leave that user exactly one refresh token,
      the second one; the first one is then refused as unknown. */
  lemma SecondLoginRevokesFirst(s: Store, h: Hasher, email: string, password: string,
                                v1: string, exp1: Instant, v2: string, exp2: Instant, now: Instant)
    requires Valid(s)
    requires Login(s, h, email, password, v1, exp1).Ok?
    requires v1 != v2
    ensures var s1 := Login(s, h, email, password, v1, exp1).value.store;
      && Valid(s1)
      && Login(s1, h, email, password, v2, exp2).Ok?
      && var s2 := Login(s1, h, email, password, v2, exp2).value.store;
        && Refresh(s2, v1, now) == Err(InvalidRefreshToken)
        && v2 in s2.refreshTokens
        && (forall t :: t in s2.refreshTokens && s2.refreshTokens[t].userId == s2.refreshTokens[v2].userId ==> t == v2)
  {
    LoginKeepsValid(s, h, email, password, v1, exp1);
    var id := UserWithEmail(s.users, NormalizeEmail(email)).value;
    var s1 := Login(s, h, email, password, v1, exp1).value.store;
    assert s1.refreshTokens[v1].userId == id;
    var s2 := Login(s1, h, email, password, v2, exp2).value.store;
    assert s2.refreshTokens[v2].userId == id;
  }

  /** A fresh login's refresh token refreshes until its expiry and is
      handed back unchanged each time. */
  lemma LoginThenRefresh(s: Store, h: Hasher, email: string, password: string, v: string, exp: Instant, now: Instant)
    requires Valid(s)
    requires Login(s, h, email, password, v, exp).Ok?
    ensures var s' := Login(s, h, email, password, v, exp).value.store;
      && (Refresh(s', v, now).Ok? <==> now <= exp)
      && (now > exp ==> Refresh(s', v, now) == Err(ExpiredRefreshToken))
      && (Refresh(s', v, now).Ok? ==> Refresh(s', v, now).value.refresh == v)
  {
    var id := UserWithEmail(s.users, NormalizeEmail(email)).value;
    var s' := Login(s, h, email, password, v, exp).value.store;
    assert s'.refreshTokens[v].userId == id && id in s'.users;
  }

  /** After sign-out the token is refused as unknown. */
  lemma LogoutThenRefreshFails(s: Store, token: string, now: Instant)
    ensures Refresh(Logout(s, token).store, token, now) == Err(InvalidRefreshToken)
  {
  }

  /** A reset code works once: after a successful reset the same code is
      refused, at any time. */
  lemma ResetCodeSingleUse(s: Store, h: Hasher, email: string, code: int, p1: string, now: Instant, p2: string, later: Instant)
    requires Valid(s)
    requires ResetPassword(s, h, email, code, p1, now).Ok?
    ensures var s' := ResetPassword(s, h, email, code, p1, now).value.store;
      && Valid(s')
      && ResetPassword(s', h, email, code, p2, later) == Err(InvalidResetCode)
  {
    ResetPasswordKeepsValid(s, h, email, code, p1, now);
    var id := UserWithEmail(s.users, NormalizeEmail(email)).value;
    var s' := ResetPassword(s, h, email, code, p1, now).value.store;
    assert s'.users[id].email == NormalizeEmail(email);
  }

  /** After a reset a verified account logs in with the new password. */
  lemma ResetThenLogin(s: Store, h: Hasher, email: string, code: int, newPassword: string, now: Instant,
                       v: string, exp: Instant)
    requires Valid(s)
    requires Sound(h)
    requires ResetPassword(s, h, email, code, newPassword, now).Ok?
    requires s.users[UserWithEmail(s.users, NormalizeEmail(email)).value].isVerified
    ensures var s' := ResetPassword(s, h, email, code, newPassword, now).value.store;
      && Valid(s')
      && Login(s', h, email, newPassword, v, exp).Ok?
  {
    ResetPasswordKeepsValid(s, h, email, code, newPassword, now);
    var id := UserWithEmail(s.users, NormalizeEmail(email)).value;
    var s' := ResetPassword(s, h, email, code, newPassword, now).value.store;
    assert s'.users[id].email == NormalizeEmail(email);
    VerifyOwnHash(h, newPassword);
  }
}

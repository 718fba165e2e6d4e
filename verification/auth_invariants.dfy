/** Every account route keeps the store valid: addresses and usernames stay
    unique, every record keeps the account rules, each user holds at most
    one refresh token and every token and wallpaper belongs to a user. */
module AuthInvariants {
  import opened Results
  import opened Text
  import opened Models
  import opened Hashing
  import opened AuthUtils
  import opened UsernameProbe
  import opened AuthRoutes

  lemma RegisterKeepsValid(s: Store, h: Hasher, username: string, email: string, password: string,
                           newId: UserId, code: int, now: Instant, picture: string)
    requires Valid(s)
    requires newId !in s.users
    requires IsSixDigitCode(code)
    ensures var r := Register(s, h, username, email, password, newId, code, now, picture);
      r.Ok? ==> Valid(r.value.store)
  {
    var r := Register(s, h, username, email, password, newId, code, now, picture);
    if r.Ok? {
      var e, n := NormalizeEmail(email), Strip(username);
      assert forall id :: id in s.users ==> s.users[id].email != e;
      assert forall id :: id in s.users ==> s.users[id].username != n;
      AddUserKeepsValid(s, r.value.store, newId);
    }
  }

  lemma VerifyEmailKeepsValid(s: Store, email: string, code: int, now: Instant)
    requires Valid(s)
    ensures var r := VerifyEmail(s, email, code, now);
      r.Ok? ==> Valid(r.value.store)
  {
    var r := VerifyEmail(s, email, code, now);
    var found := UserWithEmail(s.users, NormalizeEmail(email));
    if r.Ok? && !s.users[found.value].isVerified {
      OnlyUserChangedKeepsValid(s, r.value.store, found.value);
    }
  }

  lemma ResendKeepsValid(s: Store, email: string, newCode: int, now: Instant)
    requires Valid(s)
    requires IsSixDigitCode(newCode)
    ensures var r := ResendVerificationCode(s, email, newCode, now);
      r.Ok? ==> Valid(r.value.store)
  {
    var r := ResendVerificationCode(s, email, newCode, now);
    var found := UserWithEmail(s.users, NormalizeEmail(email));
    if r.Ok? && !s.users[found.value].isVerified {
      OnlyUserChangedKeepsValid(s, r.value.store, found.value);
    }
  }

  lemma LoginKeepsValid(s: Store, h: Hasher, email: string, password: string, refreshValue: string, refreshExpiresAt: Instant)
    requires Valid(s)
    ensures var r := Login(s, h, email, password, refreshValue, refreshExpiresAt);
      r.Ok? ==> Valid(r.value.store)
  {
    var r := Login(s, h, email, password, refreshValue, refreshExpiresAt);
    if r.Ok? {
      var id := UserWithEmail(s.users, NormalizeEmail(email)).value;
      var tokens := r.value.store.refreshTokens;
      assert tokens == ReplaceRefreshToken(s.refreshTokens, id, refreshValue, refreshExpiresAt);
      assert OneTokenPerUser(tokens);
    }
  }

  lemma ForgotPasswordKeepsValid(s: Store, email: string, resetCode: int, now: Instant)
    requires Valid(s)
    requires IsSixDigitCode(resetCode)
    ensures var r := ForgotPassword(s, email, resetCode, now);
      r.Ok? ==> Valid(r.value.store)
  {
    var r := ForgotPassword(s, email, resetCode, now);
    if r.Ok? {
      OnlyUserChangedKeepsValid(s, r.value.store, UserWithEmail(s.users, NormalizeEmail(email)).value);
    }
  }

  lemma ResetPasswordKeepsValid(s: Store, h: Hasher, email: string, code: int, newPassword: string, now: Instant)
    requires Valid(s)
    ensures var r := ResetPassword(s, h, email, code, newPassword, now);
      r.Ok? ==> Valid(r.value.store)
  {
    var r := ResetPassword(s, h, email, code, newPassword, now);
    if r.Ok? {
      OnlyUserChangedKeepsValid(s, r.value.store, UserWithEmail(s.users, NormalizeEmail(email)).value);
    }
  }

  lemma GoogleAccountKeepsValid(s: Store, e: string, name: Option<string>, picture: Option<string>, newId: UserId)
    requires Valid(s)
    requires newId !in s.users
    requires IsNormalizedEmail(e)
    ensures var r := GoogleAccount(s, e, name, picture, newId);
      r.Ok? ==> Valid(r.value.store)
  {
    var r := GoogleAccount(s, e, name, picture, newId);
    if r.Ok? && !EmailInUse(s.users, e) {
      var taken := Usernames(s.users);
      assert forall id :: id in s.users ==> s.users[id].username in taken;
      AddUserKeepsValid(s, r.value.store, newId);
    }
  }

  /** Replacing a user's refresh token keeps a valid store valid. */
  lemma ReplaceRefreshTokenKeepsValid(s: Store, id: UserId, value: string, expiresAt: Instant)
    requires Valid(s)
    requires id in s.users
    ensures Valid(s.(refreshTokens := ReplaceRefreshToken(s.refreshTokens, id, value, expiresAt)))
  {
  }

  lemma GoogleSessionKeepsValid(s: Store, e: string, name: Option<string>, picture: Option<string>, newId: UserId,
                                refreshValue: string, expiresAt: Instant)
    requires Valid(s)
    requires newId !in s.users
    requires IsNormalizedEmail(e)
    ensures var r := GoogleSession(s, e, name, picture, newId, refreshValue, expiresAt);
      r.Ok? ==> Valid(r.value.store)
  {
    var r := GoogleSession(s, e, name, picture, newId, refreshValue, expiresAt);
    if r.Ok? {
      GoogleAccountKeepsValid(s, e, name, picture, newId);
      var a := GoogleAccount(s, e, name, picture, newId).value;
      ReplaceRefreshTokenKeepsValid(a.store, a.id, refreshValue, expiresAt);
    }
  }

  lemma GoogleSignInKeepsValid(s: Store, verification: GoogleVerification, name: Option<string>, picture: Option<string>,
                               newId: UserId, refreshValue: string, now: Instant, refreshDays: nat)
    requires Valid(s)
    requires newId !in s.users
    ensures var r := GoogleSignIn(s, verification, name, picture, newId, refreshValue, now, refreshDays);
      r.Ok? ==> Valid(r.value.store)
  {
    if verification.Verified? {
      GoogleSessionKeepsValid(s, ClaimedEmail(verification.claims), name, picture, newId, refreshValue, now + refreshDays * SecondsPerDay);
    }
  }

  lemma LogoutKeepsValid(s: Store, token: string)
    requires Valid(s)
    ensures Valid(Logout(s, token).store)
  {
  }
}

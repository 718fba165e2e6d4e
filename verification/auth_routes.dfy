/** The account routes under `/auth`: registration, e-mail verification,
    code resend, password login, refresh, forgot/reset password, Google
    sign-in and sign-out.  Each route is a pure transition of the store;
    the clock, the random code, the fresh ids and token values, bcrypt and
    the Google verifier are inputs. */
module AuthRoutes {
  import opened Results
  import opened Text
  import opened Models
  import opened Hashing
  import opened AuthUtils
  import opened UsernameProbe

  const EmailAlreadyRegistered := HttpError(400, "Email already registered")
  const UsernameAlreadyTaken := HttpError(400, "Username already taken")
  const InvalidCredentials := HttpError(400, "Invalid email or password")
  const UseGoogleSignIn := HttpError(400, "This email uses Google Sign-In. Please sign in with Google.")
  const EmailNotVerified := HttpError(403, "Email not verified")
  const InvalidRefreshToken := HttpError(401, "Invalid refresh token")
  const ExpiredRefreshToken := HttpError(401, "Expired refresh token")
  const InvalidIssuer := HttpError(400, "Invalid issuer")
  const GoogleTokenMissingEmail := HttpError(400, "Google token missing email")
  const UseStandardLogin := HttpError(400, "This email is registered with password. Please use standard login.")
  const InvalidGoogleToken := HttpError(400, "Invalid Google token")

  const RegisteredMessage := "User registered successfully. Please check your email for the 6-digit code."
  const AlreadyVerifiedMessage := "Email already verified"
  const VerifiedMessage := "Email verified successfully"
  const ResendAlreadyVerifiedMessage := "Email is already verified"
  const CodeResentMessage := "A new verification code has been sent to your email"
  const ResetCodeSentMessage := "Password reset code sent to your email"
  const PasswordResetMessage := "Password reset successful. You can now log in."
  const SignedOutMessage := "Signed out successfully"

  const SecondsPerDay: int := 24 * 60 * 60

  /** The issuers section 3.1.3.7 of OpenID Connect Core 1.0 allows for
      Google ID tokens; nothing else is accepted. */
  const GoogleIssuers: set<string> := {"accounts.google.com", "https://accounts.google.com"}

  /** A route that answers with a message, and the store it leaves. */
  datatype Reply = Reply(store: Store, message: string)

  /** A signed access token; only its subject claim matters here. */
  datatype AccessToken = AccessToken(subject: string)

  datatype TokenPair = TokenPair(access: AccessToken, refresh: string)

  /** A route that signs a user in, and the store it leaves. */
  datatype Session = Session(store: Store, tokens: TokenPair)

  /** The claims of a Google ID token. */
  datatype GoogleClaims = GoogleClaims(iss: string, email: Option<string>)

  /** What `id_token.verify_oauth2_token` does with the submitted token:
      return its claims once signature, audience and expiry check out, or
      raise `ValueError`. */
  datatype GoogleVerification = Verified(claims: GoogleClaims) | Rejected

  /** The record `register_user` creates. */
  function NewLocalUser(username: string, email: string, hashed: string, code: int, now: Instant, picture: string): (u: User)
    ensures u.provider == Local && !u.isVerified && u.hashedPassword == Some(hashed)
    ensures u.verificationCode == Some(code) && u.verificationExpiresAt == Some(now + CodeLifetime)
    ensures IsNormalizedEmail(email) && IsSixDigitCode(code) ==> WellFormedUser(u)
  {
    User(username, email, Some(hashed), false, Local, Some(code), Some(now + CodeLifetime),
         None, None, Some(picture), None, None, None)
  }

  /** `POST /auth/register`.  The address is lower-cased and stripped and
      the username stripped before the uniqueness checks; the address is
      checked first.  The upload of the profile picture is stored under
      `picture`. */
  function Register(s: Store, h: Hasher, username: string, email: string, password: string,
                    newId: UserId, code: int, now: Instant, picture: string): (r: Result<Reply>)
    requires EmailsUnique(s.users)
    requires newId !in s.users
    requires IsSixDigitCode(code)
    ensures var e, n := NormalizeEmail(email), Strip(username);
      && (EmailInUse(s.users, e) ==> r == Err(EmailAlreadyRegistered))
      && (!EmailInUse(s.users, e) && UsernameTaken(s.users, n) ==> r == Err(UsernameAlreadyTaken))
      && (r.Ok? <==> !EmailInUse(s.users, e) && !UsernameTaken(s.users, n))
    ensures r.Ok? ==>
      var s' := r.value.store;
      && r.value.message == RegisteredMessage
      && s'.users.Keys == s.users.Keys + {newId}
      && (forall id :: id in s.users ==> s'.users[id] == s.users[id])
      && s'.refreshTokens == s.refreshTokens && s'.wallpapers == s.wallpapers && s'.files == s.files
      && var u := s'.users[newId];
        && u.email == NormalizeEmail(email) && u.username == Strip(username)
        && u.hashedPassword == Some(h.hash(password))
        && !u.isVerified && u.provider == Local
        && u.verificationCode == Some(code) && u.verificationExpiresAt == Some(now + CodeLifetime)
        && u.resetCode.None? && u.resetExpiresAt.None?
        && u.profileImageUrl == Some(picture)
  {
    var n := Strip(username);
    var e := NormalizeEmail(email);
    if UserWithEmail(s.users, e).Some? then Err(EmailAlreadyRegistered)
    else if n in Usernames(s.users) then Err(UsernameAlreadyTaken)
    else
      var u := NewLocalUser(n, e, h.hash(password), code, now, picture);
      var s' := s.(users := s.users[newId := u]);
      Ok(Reply(s', RegisteredMessage))
  }

  /** `POST /auth/verify`.  An account already verified is answered with
      success and left alone; otherwise the code must be accepted, and
      then the account is verified and the code and its expiry cleared. */
  function VerifyEmail(s: Store, email: string, code: int, now: Instant): (r: Result<Reply>)
    requires EmailsUnique(s.users)
    ensures var found := UserWithEmail(s.users, NormalizeEmail(email));
      && (found.None? ==> r == Err(UserNotFound))
      && (found.Some? ==>
        var id := found.value;
        var u := s.users[id];
        && (u.isVerified ==> r == Ok(Reply(s, AlreadyVerifiedMessage)))
        && (!u.isVerified ==>
          && (r.Ok? <==> CodeAccepted(u.verificationCode, u.verificationExpiresAt, code, now))
          && (r.Err? ==> r.error == InvalidVerificationCode)
          && (r.Ok? ==>
            && r.value.message == VerifiedMessage
            && OnlyUserChanged(s, r.value.store, id)
            && r.value.store.users[id] == u.(isVerified := true, verificationCode := None, verificationExpiresAt := None))))
  {
    match UserWithEmail(s.users, NormalizeEmail(email))
    case None => Err(UserNotFound)
    case Some(id) =>
      var u := s.users[id];
      if u.isVerified then Ok(Reply(s, AlreadyVerifiedMessage))
      else if ValidateVerificationCode(u, code, now).Fail? then Err(InvalidVerificationCode)
      else
        var u' := u.(isVerified := true, verificationCode := None, verificationExpiresAt := None);
        Ok(Reply(s.(users := s.users[id := u']), VerifiedMessage))
  }

  /** `POST /auth/resend-code`.  An unverified account gets a fresh code
      and expiry in place of the old ones; a verified one is left alone. */
  function ResendVerificationCode(s: Store, email: string, newCode: int, now: Instant): (r: Result<Reply>)
    requires EmailsUnique(s.users)
    requires IsSixDigitCode(newCode)
    ensures var found := UserWithEmail(s.users, NormalizeEmail(email));
      && (found.None? ==> r == Err(UserNotFound))
      && (found.Some? ==>
        var id := found.value;
        var u := s.users[id];
        && r.Ok?
        && (u.isVerified ==> r.value == Reply(s, ResendAlreadyVerifiedMessage))
        && (!u.isVerified ==>
          && r.value.message == CodeResentMessage
          && OnlyUserChanged(s, r.value.store, id)
          && r.value.store.users[id] == u.(verificationCode := Some(newCode), verificationExpiresAt := Some(now + CodeLifetime))))
  {
    match UserWithEmail(s.users, NormalizeEmail(email))
    case None => Err(UserNotFound)
    case Some(id) =>
      var u := s.users[id];
      if u.isVerified then Ok(Reply(s, ResendAlreadyVerifiedMessage))
      else
        var u' := u.(verificationCode := Some(newCode), verificationExpiresAt := Some(now + CodeLifetime));
        Ok(Reply(s.(users := s.users[id := u']), CodeResentMessage))
  }

  /** The upsert that keeps one refresh token per user: the user's old
      token, if any, is gone, and `value` now belongs to the user. */
  function ReplaceRefreshToken(tokens: map<string, RefreshRow>, id: UserId, value: string, expiresAt: Instant): (r: map<string, RefreshRow>)
    ensures value in r && r[value] == RefreshRow(id, expiresAt)
    ensures forall t :: t in r && r[t].userId == id ==> t == value
    ensures forall t :: t in tokens && tokens[t].userId != id && t != value ==> t in r && r[t] == tokens[t]
    ensures forall t :: t in r ==> t == value || (t in tokens && tokens[t].userId != id)
    ensures OneTokenPerUser(tokens) ==> OneTokenPerUser(r)
  {
    (map t | t in tokens && tokens[t].userId != id :: tokens[t])[value := RefreshRow(id, expiresAt)]
  }

  /** `POST /auth/login`.  The checks run in a fixed order: unknown
      address, missing hash and wrong password all give the same answer;
      then the provider; then verification.  Success replaces the user's
      refresh token by `refreshValue` and changes nothing else. */
  function Login(s: Store, h: Hasher, email: string, password: string,
                 refreshValue: string, refreshExpiresAt: Instant): (r: Result<Session>)
    requires EmailsUnique(s.users)
    ensures var found := UserWithEmail(s.users, NormalizeEmail(email));
      && (found.None? ==> r == Err(InvalidCredentials))
      && (found.Some? ==>
        var id := found.value;
        var u := s.users[id];
        && (!VerifyPassword(h, password, u.hashedPassword) ==> r == Err(InvalidCredentials))
        && (VerifyPassword(h, password, u.hashedPassword) && u.provider != Local ==> r == Err(UseGoogleSignIn))
        && (VerifyPassword(h, password, u.hashedPassword) && u.provider == Local && !u.isVerified ==> r == Err(EmailNotVerified))
        && (r.Ok? <==> VerifyPassword(h, password, u.hashedPassword) && u.provider == Local && u.isVerified)
        && (r.Ok? ==>
          var s' := r.value.store;
          && r.value.tokens == TokenPair(AccessToken(u.email), refreshValue)
          && s'.users == s.users && s'.wallpapers == s.wallpapers && s'.files == s.files
          && refreshValue in s'.refreshTokens
          && s'.refreshTokens[refreshValue] == RefreshRow(id, refreshExpiresAt)
          && (forall t :: t in s'.refreshTokens && s'.refreshTokens[t].userId == id ==> t == refreshValue)
          && (forall t :: t in s'.refreshTokens && t != refreshValue ==> t in s.refreshTokens && s'.refreshTokens[t] == s.refreshTokens[t])
          && (forall t :: t in s.refreshTokens && s.refreshTokens[t].userId != id ==> t in s'.refreshTokens)))
  {
    match UserWithEmail(s.users, NormalizeEmail(email))
    case None => Err(InvalidCredentials)
    case Some(id) =>
      var u := s.users[id];
      // `not user.hashed_password` is subsumed by the hash check
      if !VerifyPassword(h, password, u.hashedPassword) then Err(InvalidCredentials)
      else if u.provider != Local then Err(UseGoogleSignIn)
      else if !u.isVerified then Err(EmailNotVerified)
      else
        var tokens := ReplaceRefreshToken(s.refreshTokens, id, refreshValue, refreshExpiresAt);
        Ok(Session(s.(refreshTokens := tokens), TokenPair(AccessToken(u.email), refreshValue)))
  }

  /** `POST /auth/refresh`.  A known, unexpired token yields a new access
      token and is handed back unchanged; the route writes nothing, which
      the result type records (there is no store in it). */
  function Refresh(s: Store, token: string, now: Instant): (r: Result<TokenPair>)
    ensures token !in s.refreshTokens ==> r == Err(InvalidRefreshToken)
    ensures token in s.refreshTokens && s.refreshTokens[token].expiresAt < now ==> r == Err(ExpiredRefreshToken)
    ensures token in s.refreshTokens && now <= s.refreshTokens[token].expiresAt ==>
      var holder := s.refreshTokens[token].userId;
      && (holder !in s.users ==> r == Err(UserNotFound))
      && (holder in s.users ==> r == Ok(TokenPair(AccessToken(s.users[holder].email), token)))
    ensures r.Ok? ==> r.value.refresh == token
  {
    match TokenHolder(s, token)
    case None => Err(InvalidRefreshToken)
    case Some(holder) =>
      if s.refreshTokens[token].expiresAt < now then Err(ExpiredRefreshToken)
      else if holder !in s.users then Err(UserNotFound)
      else Ok(TokenPair(AccessToken(s.users[holder].email), token))
  }

  /** `POST /auth/forgot-password`.  Password accounts only; the account
      need not be verified.  A fresh reset code and expiry replace any
      earlier ones. */
  function ForgotPassword(s: Store, email: string, resetCode: int, now: Instant): (r: Result<Reply>)
    requires EmailsUnique(s.users)
    requires IsSixDigitCode(resetCode)
    ensures var found := UserWithEmail(s.users, NormalizeEmail(email));
      && (found.None? ==> r == Err(UserNotFound))
      && (found.Some? ==>
        var id := found.value;
        var u := s.users[id];
        && (u.provider != Local ==> r == Err(GoogleAccountHasNoPassword))
        && (u.provider == Local ==>
          && r.Ok?
          && r.value.message == ResetCodeSentMessage
          && OnlyUserChanged(s, r.value.store, id)
          && r.value.store.users[id] == u.(resetCode := Some(resetCode), resetExpiresAt := Some(now + CodeLifetime))))
  {
    match UserWithEmail(s.users, NormalizeEmail(email))
    case None => Err(UserNotFound)
    case Some(id) =>
      var u := s.users[id];
      if EnsureLocalAccount(u).Fail? then Err(GoogleAccountHasNoPassword)
      else
        var u' := u.(resetCode := Some(resetCode), resetExpiresAt := Some(now + CodeLifetime));
        Ok(Reply(s.(users := s.users[id := u']), ResetCodeSentMessage))
  }

  /** `POST /auth/reset-password`.  Password accounts only, and only with
      an accepted reset code; the new hash replaces the old one and the
      code and its expiry are cleared, so the code cannot be used twice. */
  function ResetPassword(s: Store, h: Hasher, email: string, code: int, newPassword: string, now: Instant): (r: Result<Reply>)
    requires EmailsUnique(s.users)
    ensures var found := UserWithEmail(s.users, NormalizeEmail(email));
      && (found.None? ==> r == Err(UserNotFound))
      && (found.Some? ==>
        var id := found.value;
        var u := s.users[id];
        && (u.provider != Local ==> r == Err(GoogleAccountHasNoPassword))
        && (u.provider == Local ==>
          && (r.Ok? <==> CodeAccepted(u.resetCode, u.resetExpiresAt, code, now))
          && (r.Err? ==> r.error == InvalidResetCode))
        && (r.Ok? ==>
          && r.value.message == PasswordResetMessage
          && OnlyUserChanged(s, r.value.store, id)
          && r.value.store.users[id] == u.(hashedPassword := Some(h.hash(newPassword)), resetCode := None, resetExpiresAt := None)))
  {
    match UserWithEmail(s.users, NormalizeEmail(email))
    case None => Err(UserNotFound)
    case Some(id) =>
      var u := s.users[id];
      if EnsureLocalAccount(u).Fail? then Err(GoogleAccountHasNoPassword)
      else if ValidateResetCode(u, code, now).Fail? then Err(InvalidResetCode)
      else
        var u' := u.(hashedPassword := Some(h.hash(newPassword)), resetCode := None, resetExpiresAt := None);
        Ok(Reply(s.(users := s.users[id := u']), PasswordResetMessage))
  }

  /** The address a Google token asserts: `(idinfo.get("email") or "")`,
      normalised. */
  function ClaimedEmail(claims: GoogleClaims): (e: string)
    ensures IsNormalizedEmail(e)
    ensures claims.email.Some? ==> e == NormalizeEmail(claims.email.value)
    ensures claims.email.None? ==> e == ""
  {
    NormalizeEmail(if claims.email.Some? then claims.email.value else "")
  }

  /** The record a first Google sign-in creates: verified, no password. */
  function NewGoogleUser(username: string, email: string, picture: Option<string>): (u: User)
    ensures u.provider == Google && u.isVerified && u.hashedPassword.None?
    ensures u.verificationCode.None? && u.resetCode.None?
    ensures IsNormalizedEmail(email) ==> WellFormedUser(u)
  {
    User(username, email, None, true, Google, None, None, None, None, picture, None, None, None)
  }

  /** A store together with the user an operation settled on. */
  datatype Account = Account(store: Store, id: UserId)

  /** The account a Google-asserted address `e` signs into: the Google
      account already registered under it, or else a new verified,
      passwordless account whose username is the first free candidate.  An
      address registered with a password is refused. */
  function GoogleAccount(s: Store, e: string, name: Option<string>, picture: Option<string>, newId: UserId): (r: Result<Account>)
    requires EmailsUnique(s.users)
    requires newId !in s.users
    ensures r.Ok? <==> forall id :: id in s.users && s.users[id].email == e ==> s.users[id].provider == Google
    ensures r.Err? ==> r.error == UseStandardLogin
    ensures r.Ok? ==>
      var s' := r.value.store;
      && r.value.id in s'.users && s'.users[r.value.id].email == e
      && s'.refreshTokens == s.refreshTokens && s'.wallpapers == s.wallpapers && s'.files == s.files
      && (EmailInUse(s.users, e) ==> s'.users == s.users)
      && (!EmailInUse(s.users, e) ==>
        && r.value.id == newId
        && s'.users.Keys == s.users.Keys + {newId}
        && (forall id :: id in s.users ==> s'.users[id] == s.users[id])
        && s'.users[newId] == NewGoogleUser(FirstFreeUsername(BaseUsername(name, e), Usernames(s.users)), e, picture))
  {
    match UserWithEmail(s.users, e)
    case Some(id) =>
      if s.users[id].provider != Google then Err(UseStandardLogin) else Ok(Account(s, id))
    case None =>
      var username := FirstFreeUsername(BaseUsername(name, e), Usernames(s.users));
      var users := s.users[newId := NewGoogleUser(username, e, picture)];
      Ok(Account(s.(users := users), newId))
  }

  /** The session a Google-asserted address `e` opens: the account
      `GoogleAccount` settles on gets one refresh token, `refreshValue`,
      expiring at `expiresAt`; every other user's token is kept. */
  function GoogleSession(s: Store, e: string, name: Option<string>, picture: Option<string>, newId: UserId,
                         refreshValue: string, expiresAt: Instant): (r: Result<Session>)
    requires EmailsUnique(s.users)
    requires newId !in s.users
    ensures var account := GoogleAccount(s, e, name, picture, newId);
      && (account.Err? ==> r == Err(account.error))
      && (account.Ok? ==>
        var a := account.value;
        && r.Ok?
        && r.value.tokens == TokenPair(AccessToken(e), refreshValue)
        && r.value.store.users == a.store.users
        && r.value.store.wallpapers == s.wallpapers && r.value.store.files == s.files
        && refreshValue in r.value.store.refreshTokens
        && r.value.store.refreshTokens[refreshValue] == RefreshRow(a.id, expiresAt)
        && (forall t :: t in r.value.store.refreshTokens && r.value.store.refreshTokens[t].userId == a.id ==> t == refreshValue)
        && (forall t :: t in r.value.store.refreshTokens && t != refreshValue ==>
              t in s.refreshTokens && r.value.store.refreshTokens[t] == s.refreshTokens[t]))
  {
    match GoogleAccount(s, e, name, picture, newId)
    case Err(error) => Err(error)
    case Ok(a) =>
      var tokens := ReplaceRefreshToken(a.store.refreshTokens, a.id, refreshValue, expiresAt);
      Ok(Session(a.store.(refreshTokens := tokens), TokenPair(AccessToken(e), refreshValue)))
  }

  /** `POST /auth/google`.  The token must verify, come from one of the two
      Google issuers and carry an address; the address then opens its
      account's session (see `GoogleSession`), with an expiry `refreshDays`
      days ahead. */
  function GoogleSignIn(s: Store, verification: GoogleVerification, name: Option<string>, picture: Option<string>,
                        newId: UserId, refreshValue: string, now: Instant, refreshDays: nat): (r: Result<Session>)
    requires EmailsUnique(s.users)
    requires newId !in s.users
    ensures verification.Rejected? ==> r == Err(InvalidGoogleToken)
    ensures verification.Verified? && verification.claims.iss !in GoogleIssuers ==> r == Err(InvalidIssuer)
    ensures verification.Verified? && verification.claims.iss in GoogleIssuers && ClaimedEmail(verification.claims) == "" ==>
      r == Err(GoogleTokenMissingEmail)
    ensures r.Ok? <==>
      && verification.Verified? && verification.claims.iss in GoogleIssuers && ClaimedEmail(verification.claims) != ""
      && GoogleAccount(s, ClaimedEmail(verification.claims), name, picture, newId).Ok?
    ensures verification.Verified? && verification.claims.iss in GoogleIssuers && ClaimedEmail(verification.claims) != "" ==>
      r == GoogleSession(s, ClaimedEmail(verification.claims), name, picture, newId, refreshValue, now + refreshDays * SecondsPerDay)
  {
    match verification
    case Rejected => Err(InvalidGoogleToken)
    case Verified(claims) =>
      if claims.iss !in GoogleIssuers then Err(InvalidIssuer)
      else
        var e := ClaimedEmail(claims);
        if e == "" then Err(GoogleTokenMissingEmail)
        else GoogleSession(s, e, name, picture, newId, refreshValue, now + refreshDays * SecondsPerDay)
  }

  /** `POST /auth/Sign-out`.  Deletes the token if it is stored; the answer
      is the same whether it was or not. */
  function Logout(s: Store, token: string): (r: Reply)
    ensures r.message == SignedOutMessage
    ensures r.store.refreshTokens.Keys == s.refreshTokens.Keys - {token}
    ensures forall t :: t in r.store.refreshTokens ==> r.store.refreshTokens[t] == s.refreshTokens[t]
    ensures r.store.users == s.users && r.store.wallpapers == s.wallpapers && r.store.files == s.files
    ensures Valid(s) ==> Valid(r.store)
  {
    if token !in s.refreshTokens then Reply(s, SignedOutMessage)
    else Reply(s.(refreshTokens := s.refreshTokens - {token}), SignedOutMessage)
  }
}

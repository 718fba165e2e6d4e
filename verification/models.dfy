/** The persisted records — users, refresh tokens, wallpaper jobs — and the
    wallpaper image directory, as one immutable store.  The fields are the
    ones the routes read and write (the ORM module of the repository lags
    behind them). */
module Models {
  import opened Results
  import opened Text

  /** A UUID primary key. */
  type UserId = string
  type WallpaperId = string

  /** A point in time, in seconds. */
  type Instant = int

  /** Lifetime of a verification or reset code: 15 minutes. */
  const CodeLifetime: int := 15 * 60

  /** `random.randint(100000, 999999)` draws from this range. */
  predicate IsSixDigitCode(code: int) {
    100000 <= code <= 999999
  }

  datatype Provider = Local | Google

  datatype User = User(
    username: string,
    email: string,
    hashedPassword: Option<string>,
    isVerified: bool,
    provider: Provider,
    verificationCode: Option<int>,
    verificationExpiresAt: Option<Instant>,
    resetCode: Option<int>,
    resetExpiresAt: Option<Instant>,
    profileImageUrl: Option<string>,
    firstName: Option<string>,
    lastName: Option<string>,
    phoneNumber: Option<string>)

  /** The row of a refresh token; the store keys it by its opaque value. */
  datatype RefreshRow = RefreshRow(userId: UserId, expiresAt: Instant)

  datatype WallpaperStatus = Pending | Completed | Failed

  datatype Wallpaper = Wallpaper(
    userId: UserId,
    prompt: string,
    size: string,
    style: string,
    status: WallpaperStatus,
    imageUrl: Option<string>,
    createdAt: Instant)

  datatype Store = Store(
    users: map<UserId, User>,
    refreshTokens: map<string, RefreshRow>,
    wallpapers: map<WallpaperId, Wallpaper>,
    files: map<string, seq<bv8>>)

  predicate EmailsUnique(users: map<UserId, User>) {
    forall a, b :: a in users && b in users && users[a].email == users[b].email ==> a == b
  }

  predicate UsernamesUnique(users: map<UserId, User>) {
    forall a, b :: a in users && b in users && users[a].username == users[b].username ==> a == b
  }

  /** No user holds two refresh tokens. */
  predicate OneTokenPerUser(tokens: map<string, RefreshRow>) {
    forall t, t' :: t in tokens && t' in tokens && tokens[t].userId == tokens[t'].userId ==> t == t'
  }

  /** The account rules every record keeps: the address is stored
      normalised, a Google account has no password and is verified, and a
      pending code is a six-digit number stored together with its expiry. */
  predicate WellFormedUser(u: User) {
    && IsNormalizedEmail(u.email)
    && (u.provider == Google ==> u.hashedPassword.None? && u.isVerified)
    && (u.verificationCode.Some? ==> IsSixDigitCode(u.verificationCode.value))
    && (u.verificationCode.Some? <==> u.verificationExpiresAt.Some?)
    && (u.resetCode.Some? ==> IsSixDigitCode(u.resetCode.value))
    && (u.resetCode.Some? <==> u.resetExpiresAt.Some?)
  }

  /** What the database constraints and the routes together maintain. */
  predicate Valid(s: Store) {
    && EmailsUnique(s.users)
    && UsernamesUnique(s.users)
    && (forall id :: id in s.users ==> WellFormedUser(s.users[id]))
    && OneTokenPerUser(s.refreshTokens)
    && (forall t :: t in s.refreshTokens ==> s.refreshTokens[t].userId in s.users)
    && (forall w :: w in s.wallpapers ==> s.wallpapers[w].userId in s.users)
  }

  const EmptyStore: Store := Store(map[], map[], map[], map[])

  lemma EmptyStoreValid()
    ensures Valid(EmptyStore)
  {
  }

  /** `db.query(User).filter(User.email == email).first()`. */
  function UserWithEmail(users: map<UserId, User>, email: string): (r: Option<UserId>)
    requires EmailsUnique(users)
    ensures r.Some? ==> r.value in users && users[r.value].email == email
    ensures r.None? ==> forall id :: id in users ==> users[id].email != email
  {
    if exists id :: id in users && users[id].email == email then
      var id :| id in users && users[id].email == email;
      Some(id)
    else
      None
  }

  /** `db.query(User).filter(User.username == name).first()` is not None. */
  predicate UsernameTaken(users: map<UserId, User>, name: string) {
    exists id :: id in users && users[id].username == name
  }

  /** Every username in use. */
  function Usernames(users: map<UserId, User>): (names: set<string>)
    ensures forall name :: name in names <==> UsernameTaken(users, name)
  {
    set id | id in users :: users[id].username
  }

  /** The id of the user who holds refresh token `token`, if any. */
  function TokenHolder(s: Store, token: string): (r: Option<UserId>)
    ensures r.Some? <==> token in s.refreshTokens
    ensures r.Some? ==> r.value == s.refreshTokens[token].userId
  {
    if token in s.refreshTokens then Some(s.refreshTokens[token].userId) else None
  }

  /** Only user `id`'s record may differ between `s` and `s'`. */
  predicate OnlyUserChanged(s: Store, s': Store, id: UserId) {
    && s'.users.Keys == s.users.Keys
    && (forall other :: other in s.users && other != id ==> s'.users[other] == s.users[other])
    && s'.refreshTokens == s.refreshTokens
    && s'.wallpapers == s.wallpapers
    && s'.files == s.files
  }

  /** A wallpaper row as the ORM creates it: the status column defaults to
      pending and the image column is empty until generation succeeds. */
  function NewWallpaper(owner: UserId, prompt: string, size: string, style: string, now: Instant): (w: Wallpaper)
    ensures w.status == Pending && w.imageUrl.None?
    ensures w.userId == owner && w.createdAt == now
    ensures w.prompt == prompt && w.size == size && w.style == style
  {
    Wallpaper(owner, prompt, size, style, Pending, None, now)
  }

  /** Deleting a user deletes the wallpapers it owns (the relationship
      declares a delete cascade).  Its refresh token is removed as well: the
      store keeps no token whose holder is gone.  The refresh-token table's
      definition is not part of this model, so that part is the model's
      choice, not a declared cascade. */
  function DeleteUser(s: Store, id: UserId): (r: Store)
    requires Valid(s)
    ensures Valid(r)
    ensures r.users.Keys == s.users.Keys - {id}
    ensures forall other :: other in r.users ==> r.users[other] == s.users[other]
    ensures forall w :: w in r.wallpapers <==> w in s.wallpapers && s.wallpapers[w].userId != id
    ensures forall w :: w in r.wallpapers ==> r.wallpapers[w] == s.wallpapers[w]
    ensures forall t :: t in r.refreshTokens <==> t in s.refreshTokens && s.refreshTokens[t].userId != id
    ensures forall t :: t in r.refreshTokens ==> r.refreshTokens[t] == s.refreshTokens[t]
    ensures r.files == s.files
  {
    var users := map other | other in s.users && other != id :: s.users[other];
    var tokens := map t | t in s.refreshTokens && s.refreshTokens[t].userId != id :: s.refreshTokens[t];
    var jobs := map w | w in s.wallpapers && s.wallpapers[w].userId != id :: s.wallpapers[w];
    assert EmailsUnique(users) && UsernamesUnique(users);
    assert forall u :: u in users ==> WellFormedUser(users[u]);
    assert OneTokenPerUser(tokens);
    Store(users, tokens, jobs, s.files)
  }

  /** Rewriting one user's record keeps the store valid when the new record
      is well formed and keeps the address and username. */
  lemma OnlyUserChangedKeepsValid(s: Store, s': Store, id: UserId)
    requires Valid(s)
    requires id in s.users
    requires OnlyUserChanged(s, s', id)
    requires s'.users[id].email == s.users[id].email
    requires s'.users[id].username == s.users[id].username
    requires WellFormedUser(s'.users[id])
    ensures Valid(s')
  {
    assert forall other :: other in s'.users ==> s'.users[other].email == s.users[other].email;
    assert forall other :: other in s'.users ==> s'.users[other].username == s.users[other].username;
  }

  /** The same, when the user's username changes to one no other user
      holds. */
  lemma RenamedUserKeepsValid(s: Store, s': Store, id: UserId)
    requires Valid(s)
    requires id in s.users
    requires OnlyUserChanged(s, s', id)
    requires s'.users[id].email == s.users[id].email
    requires forall other :: other in s.users && other != id ==> s.users[other].username != s'.users[id].username
    requires WellFormedUser(s'.users[id])
    ensures Valid(s')
  {
    assert forall other :: other in s'.users ==> s'.users[other].email == s.users[other].email;
  }

  /** Adding a well-formed user whose address and username are free keeps
      the store valid. */
  lemma AddUserKeepsValid(s: Store, s': Store, newId: UserId)
    requires Valid(s)
    requires newId !in s.users
    requires s'.users.Keys == s.users.Keys + {newId}
    requires forall id :: id in s.users ==> s'.users[id] == s.users[id]
    requires s'.refreshTokens == s.refreshTokens && s'.wallpapers == s.wallpapers
    requires forall id :: id in s.users ==> s.users[id].email != s'.users[newId].email
    requires forall id :: id in s.users ==> s.users[id].username != s'.users[newId].username
    requires WellFormedUser(s'.users[newId])
    ensures Valid(s')
  {
  }
}

/** The profile routes under `/users/me`.  Each finds the caller by the
    subject of the access token (the stored address, compared exactly) and
    answers 404 when no user has it. */
module UserRoutes {
  import opened Results
  import opened Text
  import opened Models
  import opened Hashing
  import opened AuthUtils
  import opened AuthRoutes

  const OldPasswordIncorrect := HttpError(400, "Old password is incorrect")
  const ProfileUpdatedMessage := "Profile updated successfully"
  const PictureUpdatedMessage := "Profile picture updated successfully"
  const PasswordUpdatedMessage := "Password updated successfully"

  /** `GET /users/me`: the caller's record. */
  function GetProfile(s: Store, subject: string): (r: Result<User>)
    requires EmailsUnique(s.users)
    ensures r.Ok? <==> EmailInUse(s.users, subject)
    ensures r.Err? ==> r.error == UserNotFound
    ensures r.Ok? ==> r.value.email == subject && r.value in s.users.Values
  {
    match UserWithEmail(s.users, subject)
    case None => Err(UserNotFound)
    case Some(id) => Ok(s.users[id])
  }

  /** The body of `PATCH /users/me`: every field is optional. */
  datatype ProfilePatch = ProfilePatch(
    firstName: Option<string>,
    lastName: Option<string>,
    phoneNumber: Option<string>,
    username: Option<string>)

  /** A field given in the patch is stored stripped; an absent one keeps
      its value. */
  function Patched(current: Option<string>, given: Option<string>): (r: Option<string>)
    ensures given.None? ==> r == current
    ensures given.Some? ==> r.Some? && IsStripped(r.value) && r.value == Strip(given.value)
  {
    if given.Some? then Some(Strip(given.value)) else current
  }

  /** Some user other than `me` has username `name`. */
  predicate UsernameHeldByOther(users: map<UserId, User>, name: string, me: UserId) {
    exists other :: other in users && other != me && users[other].username == name
  }

  /** `PATCH /users/me`.  Changes exactly the fields the patch gives, each
      stripped.  A username held by another user is refused and then nothing
      is stored; keeping one's own username is allowed. */
  function UpdateProfile(s: Store, subject: string, patch: ProfilePatch): (r: Result<Reply>)
    requires EmailsUnique(s.users)
    ensures var found := UserWithEmail(s.users, subject);
      && (found.None? ==> r == Err(UserNotFound))
      && (found.Some? ==>
        var id := found.value;
        var u := s.users[id];
        && (patch.username.Some? && UsernameHeldByOther(s.users, Strip(patch.username.value), id) ==> r == Err(UsernameAlreadyTaken))
        && (r.Ok? <==> patch.username.None? || !UsernameHeldByOther(s.users, Strip(patch.username.value), id))
        && (r.Ok? ==>
          && r.value.message == ProfileUpdatedMessage
          && OnlyUserChanged(s, r.value.store, id)
          && var u' := r.value.store.users[id];
            && u'.firstName == Patched(u.firstName, patch.firstName)
            && u'.lastName == Patched(u.lastName, patch.lastName)
            && u'.phoneNumber == Patched(u.phoneNumber, patch.phoneNumber)
            && (patch.username.None? ==> u'.username == u.username)
            && (patch.username.Some? ==> u'.username == Strip(patch.username.value))
            && u'.(firstName := u.firstName, lastName := u.lastName, phoneNumber := u.phoneNumber, username := u.username) == u))
  {
    match UserWithEmail(s.users, subject)
    case None => Err(UserNotFound)
    case Some(id) =>
      var u := s.users[id];
      var u1 := u.(firstName := Patched(u.firstName, patch.firstName),
                   lastName := Patched(u.lastName, patch.lastName),
                   phoneNumber := Patched(u.phoneNumber, patch.phoneNumber));
      if patch.username.None? then
        Ok(Reply(s.(users := s.users[id := u1]), ProfileUpdatedMessage))
      else
        var name := Strip(patch.username.value);
        if UsernameHeldByOther(s.users, name, id) then Err(UsernameAlreadyTaken)
        else Ok(Reply(s.(users := s.users[id := u1.(username := name)]), ProfileUpdatedMessage))
  }

  /** `PUT /users/me/profile-pic`.  The saved upload's name replaces the
      picture reference; nothing else in the record changes. */
  function UpdateProfilePicture(s: Store, subject: string, filename: string): (r: Result<Reply>)
    requires EmailsUnique(s.users)
    ensures var found := UserWithEmail(s.users, subject);
      && (found.None? ==> r == Err(UserNotFound))
      && (found.Some? ==>
        var id := found.value;
        && r.Ok?
        && r.value.message == PictureUpdatedMessage
        && OnlyUserChanged(s, r.value.store, id)
        && r.value.store.users[id].profileImageUrl == Some(filename)
        && r.value.store.users[id].(profileImageUrl := s.users[id].profileImageUrl) == s.users[id])
  {
    match UserWithEmail(s.users, subject)
    case None => Err(UserNotFound)
    case Some(id) =>
      var u := s.users[id].(profileImageUrl := Some(filename));
      Ok(Reply(s.(users := s.users[id := u]), PictureUpdatedMessage))
  }

  /** `PUT /users/me/password`.  The old password must verify against the
      stored hash (an account without one never passes); then only the
      hash is replaced. */
  function UpdatePassword(s: Store, h: Hasher, subject: string, oldPassword: string, newPassword: string): (r: Result<Reply>)
    requires EmailsUnique(s.users)
    ensures var found := UserWithEmail(s.users, subject);
      && (found.None? ==> r == Err(UserNotFound))
      && (found.Some? ==>
        var id := found.value;
        var u := s.users[id];
        && (r.Ok? <==> VerifyPassword(h, oldPassword, u.hashedPassword))
        && (r.Err? ==> r.error == OldPasswordIncorrect)
        && (r.Ok? ==>
          && r.value.message == PasswordUpdatedMessage
          && OnlyUserChanged(s, r.value.store, id)
          && r.value.store.users[id] == u.(hashedPassword := Some(h.hash(newPassword)))))
  {
    match UserWithEmail(s.users, subject)
    case None => Err(UserNotFound)
    case Some(id) =>
      var u := s.users[id];
      if !VerifyPassword(h, oldPassword, u.hashedPassword) then Err(OldPasswordIncorrect)
      else Ok(Reply(s.(users := s.users[id := u.(hashedPassword := Some(h.hash(newPassword)))]), PasswordUpdatedMessage))
  }

  lemma UpdateProfileKeepsValid(s: Store, subject: string, patch: ProfilePatch)
    requires Valid(s)
    ensures var r := UpdateProfile(s, subject, patch);
      r.Ok? ==> Valid(r.value.store)
  {
    var r := UpdateProfile(s, subject, patch);
    if r.Ok? {
      var id := UserWithEmail(s.users, subject).value;
      assert WellFormedUser(r.value.store.users[id]);
      RenamedUserKeepsValid(s, r.value.store, id);
    }
  }

  lemma UpdateProfilePictureKeepsValid(s: Store, subject: string, filename: string)
    requires Valid(s)
    ensures var r := UpdateProfilePicture(s, subject, filename);
      r.Ok? ==> Valid(r.value.store)
  {
    var r := UpdateProfilePicture(s, subject, filename);
    if r.Ok? {
      OnlyUserChangedKeepsValid(s, r.value.store, UserWithEmail(s.users, subject).value);
    }
  }

  /** Only an account that already has a password can change it, so a
      Google account never acquires one and the store stays valid. */
  lemma UpdatePasswordKeepsValid(s: Store, h: Hasher, subject: string, oldPassword: string, newPassword: string)
    requires Valid(s)
    ensures var r := UpdatePassword(s, h, subject, oldPassword, newPassword);
      r.Ok? ==> Valid(r.value.store)
  {
    var r := UpdatePassword(s, h, subject, oldPassword, newPassword);
    if r.Ok? {
      OnlyUserChangedKeepsValid(s, r.value.store, UserWithEmail(s.users, subject).value);
    }
  }

  /** Keeping one's own username is not a conflict: a patch that repeats
      the caller's username succeeds. */
  lemma KeepOwnUsername(s: Store, subject: string, patch: ProfilePatch)
    requires Valid(s)
    requires EmailInUse(s.users, subject)
    requires patch.username.Some?
    requires Strip(patch.username.value) == s.users[UserWithEmail(s.users, subject).value].username
    ensures UpdateProfile(s, subject, patch).Ok?
  {
  }
}

# AI-Wallpaper backend, modelled in Dafny

This project models the server side of the AI-Wallpaper application, a
FastAPI service with three parts:

- **Accounts.** Users register with a password or sign in with Google. They
  confirm their address with a six-digit code, log in for an access token plus
  a refresh token, and reset a forgotten password with a second six-digit code.
- **Profiles.** Users edit their profile, picture and password.
- **Wallpaper jobs.** Users create AI-generated wallpaper jobs, which a
  background task fills in by calling an image model. Users can recreate,
  list, delete and download their jobs.

Every route is a pure function from a `Store` to a result:

- **The store** (`Models.Store`) holds:
  - users, keyed by id;
  - refresh-token rows, keyed by their opaque value;
  - wallpaper jobs, keyed by id;
  - the wallpaper image directory, as a map from file name to bytes.
- **Results.** Each route returns either the new store with its reply, or an
  `HttpError` carrying the exact status code and `detail` text the route
  raises.
- **Inputs.** Things the service takes from its environment arrive as
  arguments:
  - the clock, as an integer number of seconds;
  - the random six-digit codes;
  - UUIDs and refresh-token values;
  - the bcrypt hasher;
  - the result of Google ID-token verification;
  - the image model, as a function from the request it is sent to its
    answer.

`Models.Valid` collects the invariants the database constraints and the
routes maintain together:

- addresses are unique, and so are usernames;
- every address is stored lower-cased and stripped;
- a Google account has no password and is verified;
- a pending code is a six-digit number stored together with its expiry;
- each user holds at most one refresh token;
- every token and every job belongs to an existing user.

Each state-changing route has a lemma showing that it keeps `Valid`.

Modules follow the source files:

| module | covers |
|---|---|
| `Results` | outcome types |
| `Text` | `strip`, `lower`, `split("@")`, `str(n)` |
| `Models` | records, invariants, cascade delete |
| `Hashing` | password hashing and checking |
| `AuthUtils` | shared account checks |
| `UsernameProbe` | the username search of Google sign-in |
| `AuthRoutes`, `AuthInvariants`, `AuthProperties` | `/auth` |
| `UserRoutes` | `/users/me` |
| `WallpaperRoutes`, `WallpaperProperties` | `/wallpapers` |
| `Schemas` | request-body validation |
| `ErrorHandlers` | the 422 response |

Notes on the model:

- **Record shapes come from the routes.** The ORM module describes an older
  schema. The model takes its fields from what the routes read and write:
  `provider`, the code and expiry columns, `profile_image_url`,
  `first_name`, `last_name` and `phone_number`, the `RefreshToken` table,
  and the wallpaper `size` and `style`.
- **A Google account's password login stops at the first check.** A Google
  account has no password hash, so its password login is refused with
  "Invalid email or password" (`auth_routes.py:182-185`). The provider check
  at `auth_routes.py:187` is never reached for it.
  `AuthProperties.GoogleAccountLoginFails` proves this.
- **Lookup uses the first match.** A lookup by address uses `.first()`. The
  routes require only `EmailsUnique`, which is what makes that lookup
  deterministic.
- **The username probe terminates.** The probe of Google sign-in is shown to
  stop: the names it has already tried are distinct and all taken, so at most
  `|taken|` attempts fail.

## Model

| member | source | states |
|---|---|---|
| Text.StripSpec | backend/app/api/routes/auth_routes.py:62 | `strip()` keeps exactly the infix left after removing a whitespace run from each end, and only whitespace is removed |
| Text.Strip | backend/app/api/routes/auth_routes.py:62 | the result is never longer than the input and has no whitespace at either end |
| Text.Lower | backend/app/api/routes/auth_routes.py:63 | lower-casing keeps the length, turns each upper-case ASCII letter into its own lower-case letter, and keeps every other character in place |
| Text.NormalizeEmail | backend/app/api/routes/auth_routes.py:63 | `email.lower().strip()` is the stripped lower-case spelling, and it is always in normal form (stripped, no upper case) |
| Text.CaseVariantsNormalizeAlike | backend/app/api/routes/auth_routes.py:63-67 | two spellings that differ only in the case of ASCII letters normalise to the same address |
| Text.NormalizedFixedPoint | backend/app/api/routes/utils/auth_utils.py:11 | an address already in normal form is left unchanged by normalisation |
| Text.NormalizeIdempotent | backend/app/api/routes/utils/auth_utils.py:11 | normalising twice gives the same address as normalising once |
| Text.BeforeAt | backend/app/api/routes/auth_routes.py:334 | `split("@")[0]` is the longest prefix without '@', and the character after it is the first '@' |
| Text.NatToDecimal | backend/app/api/routes/auth_routes.py:339 | `str(k)` is a non-empty string of decimal digits with no leading zero |
| Text.DecimalRoundTrip | backend/app/api/routes/auth_routes.py:339 | reading back the decimal digits `str(k)` writes gives `k` again |
| Text.DecimalInjective | backend/app/api/routes/auth_routes.py:339 | distinct suffix numbers have distinct spellings |
| Models.Valid | backend/app/models.py:19-20 | the invariant: unique username and email columns, addresses stored normalised, well-formed records, one refresh token per user, every token and job owned by an existing user |
| Models.UserWithEmail | backend/app/api/routes/auth_routes.py:66 | `.first()` on a unique column finds the one user with that address, or reports that none has it |
| Models.Usernames | backend/app/api/routes/auth_routes.py:68 | a name is in the set exactly when some user holds it |
| Models.TokenHolder | backend/app/api/routes/auth_routes.py:221 | a token has a holder exactly when its row exists, and the holder is the row's user |
| Models.NewWallpaper | backend/app/models.py:41-46 | a new job is pending, has no image, and carries the owner, prompt, size, style and creation time it was given |
| Models.DeleteUser | backend/app/models.py:28-32 | deleting a user removes exactly that user's jobs and refresh token, keeps everything else, and keeps the store valid |
| Models.EmptyStoreValid | backend/app/models.py:21-22 | the empty database satisfies every invariant |
| Models.OnlyUserChangedKeepsValid | backend/app/models.py:21-22 | rewriting one user's record keeps the store valid when it keeps address and username and is well formed |
| Models.RenamedUserKeepsValid | backend/app/models.py:21-22 | rewriting one user's record keeps the store valid when it keeps the address, takes a username no other user holds and is well formed |
| Models.AddUserKeepsValid | backend/app/models.py:21-22 | inserting a well-formed user with a free address and a free username keeps the store valid |
| Hashing.VerifyPassword | backend/app/api/routes/utils/hash_utils.py:13-20 | a missing or empty stored hash never matches; otherwise the answer is bcrypt's check |
| Hashing.VerifyOwnHash | backend/app/api/routes/utils/hash_utils.py:6-20 | with a correct bcrypt, a password verifies against its own hash |
| AuthUtils.GetUserByEmail | backend/app/api/routes/utils/auth_utils.py:10-15 | finds the user under the normalised address exactly when one exists; otherwise 404 "User not found" |
| AuthUtils.EnsureLocalAccount | backend/app/api/routes/utils/auth_utils.py:18-23 | passes exactly the password accounts; every other provider gets the 400 Google-account error |
| AuthUtils.ValidateVerificationCode | backend/app/api/routes/utils/auth_utils.py:29-35 | accepts if and only if the stored code equals the submitted one, an expiry is stored and `now <= expiry`; a rejection is the 400 verification error |
| AuthUtils.ValidateResetCode | backend/app/api/routes/utils/auth_utils.py:41-47 | accepts if and only if the stored reset code equals the submitted one, a reset expiry is stored and `now <= expiry` |
| AuthUtils.CodeWindow | backend/app/api/routes/auth_routes.py:91 | a code issued at t is accepted exactly up to and including t + 900 seconds |
| UsernameProbe.BaseUsername | backend/app/api/routes/auth_routes.py:334 | the base is the stripped display name when one is given and non-empty, else the stripped local part of the address |
| UsernameProbe.Candidate | backend/app/api/routes/auth_routes.py:334-339 | attempt 0 is the base, or "user" for an empty base; attempt k >= 1 is the base, then "_", then the digits of k |
| UsernameProbe.SuffixedInjective | backend/app/api/routes/auth_routes.py:339 | two suffixed candidates `base_j` and `base_k` are equal only when j = k |
| UsernameProbe.ProbedSize | backend/app/api/routes/auth_routes.py:336-340 | attempts 1 .. k-1 propose k-1 distinct names |
| UsernameProbe.ProbeFrom | backend/app/api/routes/auth_routes.py:336-340 | the `while` loop stops, at a free candidate, with every candidate tried before it taken |
| UsernameProbe.FirstFreeAttempt | backend/app/api/routes/auth_routes.py:335-340 | the probe stops at the first attempt whose candidate is free |
| UsernameProbe.FirstFreeUsername | backend/app/api/routes/auth_routes.py:335-340 | the chosen username is not held by anyone and is the first free candidate |
| UsernameProbe.AliceExample | backend/app/api/routes/auth_routes.py:335-340 | with "alice" and "alice_1" taken, a new "alice" becomes "alice_2" |
| UsernameProbe.EmptyBaseExample | backend/app/api/routes/auth_routes.py:334-340 | the "user" fallback applies to the first candidate only: with an empty base and "user" taken, the next name is "_1" |
| AuthRoutes.NewLocalUser | backend/app/api/routes/auth_routes.py:84-93 | the registered record is local, unverified, holds the hash and the code expiring 15 minutes later, and is well formed for a normalised address and a six-digit code |
| AuthRoutes.Register | backend/app/api/routes/auth_routes.py:62-105 | a duplicate normalised address is refused first, then a duplicate stripped username. Otherwise exactly one user is added: unverified, local, hashed password, the six-digit code expiring 15 minutes later, and nothing else changes |
| AuthRoutes.VerifyEmail | backend/app/api/routes/auth_routes.py:113-134 | unknown address gives 404. A verified account succeeds with the store untouched. Otherwise it succeeds if and only if the code is accepted, and then only that record changes: verified, code and expiry cleared |
| AuthRoutes.ResendVerificationCode | backend/app/api/routes/auth_routes.py:150-171 | an unverified account gets the new code and a fresh 15-minute expiry and nothing else changes; a verified account leaves the store as it was |
| AuthRoutes.ReplaceRefreshToken | backend/app/api/routes/auth_routes.py:203-208 | after the upsert the user holds exactly one token, the new one with its expiry; other users' tokens stay; at most one token per user is preserved |
| AuthRoutes.Login | backend/app/api/routes/auth_routes.py:179-212 | check order: unknown address / no hash / wrong password give the same 400, then the provider check, then 403 unverified. Success succeeds exactly when all pass, leaves the user one refresh token (the new one) and changes nothing else |
| AuthRoutes.Refresh | backend/app/api/routes/auth_routes.py:221-238 | unknown token 401 "Invalid", then `expires_at < now` 401 "Expired", then missing user 404. Success returns the same refresh token, and the route writes nothing |
| AuthRoutes.ForgotPassword | backend/app/api/routes/auth_routes.py:249-271 | a non-local account is refused before any code is issued; a local one, verified or not, gets the new reset code expiring in 15 minutes and nothing else changes |
| AuthRoutes.ResetPassword | backend/app/api/routes/auth_routes.py:279-303 | non-local refused first. Success exactly when the reset code is accepted; then the hash is replaced, the reset code and expiry are cleared, and nothing else changes |
| AuthRoutes.ClaimedEmail | backend/app/api/routes/auth_routes.py:321 | the address used is the token's claimed address, lower-cased and stripped, and the empty string when the token carries none |
| AuthRoutes.NewGoogleUser | backend/app/api/routes/auth_routes.py:342-349 | the provisioned record is a verified Google account with no password and no pending code, well formed for a normalised address |
| AuthRoutes.GoogleAccount | backend/app/api/routes/auth_routes.py:325-352 | an address held by a password account is refused. An existing Google account is reused unchanged. Otherwise exactly one verified, passwordless Google user is added under the first free username |
| AuthRoutes.GoogleSession | backend/app/api/routes/auth_routes.py:324-370 | a refused address is refused unchanged. Otherwise the selected account ends with exactly one refresh token, `refreshValue`, with the given expiry; every other token is kept, the users are the selected account's store and the access token names the address |
| AuthRoutes.GoogleSignIn | backend/app/api/routes/auth_routes.py:311-373 | a rejected token, then a wrong issuer (one of exactly two allowed), then a missing address are refused in that order. It succeeds exactly when all three pass and the address is not held by a password account; the session then expires `REFRESH_TOKEN_EXPIRE_DAYS` days after now |
| AuthRoutes.Logout | backend/app/api/routes/auth_routes.py:385-392 | the token is gone afterwards, nothing else changes, and the message is the same whether or not it existed |
| AuthInvariants.RegisterKeepsValid | backend/app/api/routes/auth_routes.py:62-96 | registration keeps the store valid |
| AuthInvariants.VerifyEmailKeepsValid | backend/app/api/routes/auth_routes.py:113-134 | verification keeps the store valid |
| AuthInvariants.ResendKeepsValid | backend/app/api/routes/auth_routes.py:150-163 | a resend keeps the store valid |
| AuthInvariants.LoginKeepsValid | backend/app/api/routes/auth_routes.py:179-210 | login keeps the store valid, including one refresh token per user |
| AuthInvariants.ForgotPasswordKeepsValid | backend/app/api/routes/auth_routes.py:249-264 | a reset request keeps the store valid |
| AuthInvariants.ResetPasswordKeepsValid | backend/app/api/routes/auth_routes.py:279-301 | a reset keeps the store valid |
| AuthInvariants.GoogleAccountKeepsValid | backend/app/api/routes/auth_routes.py:325-352 | provisioning a Google account keeps the store valid: its username is free and it has no password |
| AuthInvariants.ReplaceRefreshTokenKeepsValid | backend/app/api/routes/auth_routes.py:361-368 | replacing a user's refresh token keeps the store valid |
| AuthInvariants.GoogleSessionKeepsValid | backend/app/api/routes/auth_routes.py:324-368 | opening a Google session keeps the store valid |
| AuthInvariants.GoogleSignInKeepsValid | backend/app/api/routes/auth_routes.py:311-370 | Google sign-in keeps the store valid |
| AuthInvariants.LogoutKeepsValid | backend/app/api/routes/auth_routes.py:385-392 | sign-out keeps the store valid |
| AuthProperties.RegisteredUserFound | backend/app/api/routes/auth_routes.py:62-96 | after registration the normalised address belongs to the new user |
| AuthProperties.DuplicateEmailRejected | backend/app/api/routes/auth_routes.py:63-67 | registering again under any spelling that normalises to the same address is refused with "Email already registered" |
| AuthProperties.DuplicateEmailOtherCaseRejected | backend/app/api/routes/auth_routes.py:63-67 | registering again with the same address in other letter case is refused with "Email already registered" |
| AuthProperties.DuplicateUsernameRejected | backend/app/api/routes/auth_routes.py:62-69 | registering again with the same stripped username is refused |
| AuthProperties.RegistrationCodeWindow | backend/app/api/routes/auth_routes.py:82-127 | the registration code verifies the account exactly while `now <= registered + 15 min` |
| AuthProperties.VerifyIdempotent | backend/app/api/routes/auth_routes.py:119-120 | once verified, verifying again with any code at any time succeeds and changes nothing |
| AuthProperties.ResendInvalidatesOldCode | backend/app/api/routes/auth_routes.py:160-162 | after a resend, a different earlier code is refused even before it would have expired |
| AuthProperties.ResentCodeVerifies | backend/app/api/routes/auth_routes.py:160-162 | the resent code verifies within its 15 minutes |
| AuthProperties.GoogleAccountLoginFails | backend/app/api/routes/auth_routes.py:182-185 | a Google account's password login fails at the first check with "Invalid email or password" |
| AuthProperties.GoogleAccountForgotFails | backend/app/api/routes/auth_routes.py:255-259 | a Google account cannot request a reset code |
| AuthProperties.SecondLoginRevokesFirst | backend/app/api/routes/auth_routes.py:203-208 | after two logins the user holds only the second token, and the first is refused as unknown |
| AuthProperties.LoginThenRefresh | backend/app/api/routes/auth_routes.py:221-238 | a fresh login's token refreshes exactly until its expiry and is returned unchanged |
| AuthProperties.LogoutThenRefreshFails | backend/app/api/routes/auth_routes.py:385-392 | after sign-out the token is refused as invalid |
| AuthProperties.ResetCodeSingleUse | backend/app/api/routes/auth_routes.py:298-300 | a reset code works once: afterwards the same code is refused at any time |
| AuthProperties.ResetThenLogin | backend/app/api/routes/auth_routes.py:298-300 | after a reset a verified account logs in with the new password |
| UserRoutes.GetProfile | backend/app/api/routes/user_routes.py:29-44 | returns the record under the token's subject exactly when it exists, else 404 |
| UserRoutes.Patched | backend/app/api/routes/user_routes.py:61-68 | a given field is stored stripped; an absent field keeps its value |
| UserRoutes.UpdateProfile | backend/app/api/routes/user_routes.py:56-80 | only the given fields change, each stripped. A username held by a different user is refused with nothing stored. Success exactly when there is no such conflict |
| UserRoutes.UpdateProfilePicture | backend/app/api/routes/user_routes.py:92-110 | only `profile_image_url` changes, to the saved file's name; 404 for an unknown caller |
| UserRoutes.UpdatePassword | backend/app/api/routes/user_routes.py:122-135 | succeeds exactly when the old password verifies (400 otherwise, hash unchanged); then only the hash is replaced |
| UserRoutes.UpdateProfileKeepsValid | backend/app/api/routes/user_routes.py:70-77 | a profile update keeps usernames unique and the store valid |
| UserRoutes.UpdateProfilePictureKeepsValid | backend/app/api/routes/user_routes.py:106-107 | a picture update keeps the store valid |
| UserRoutes.UpdatePasswordKeepsValid | backend/app/api/routes/user_routes.py:127-132 | a password update keeps the store valid, so a Google account never gains a password |
| UserRoutes.KeepOwnUsername | backend/app/api/routes/user_routes.py:70-75 | repeating one's own username is not a conflict |
| Schemas.HasLetter | backend/app/schemas.py:13 | the scan finds a letter exactly when some character is in `[A-Za-z]` |
| Schemas.HasDigit | backend/app/schemas.py:15 | the scan finds a digit exactly when some character is an ASCII digit |
| Schemas.PasswordError | backend/app/schemas.py:8-17 | a password is accepted exactly when it has at least 8 characters, a letter and a digit; otherwise the first failing rule's message, in the order length, letter, digit |
| Schemas.ConfirmError | backend/app/schemas.py:19-24 | the confirmation is refused exactly when the password itself was accepted and differs from it |
| Schemas.UsernameError | backend/app/schemas.py:31 | a username is accepted exactly when it has 3 to 50 characters |
| Schemas.SignupErrors | backend/app/schemas.py:7-32 | a sign-up body draws no message exactly when all four fields are valid, and draws precisely the failing fields' messages |
| Schemas.ResetErrors | backend/app/schemas.py:48-55 | a reset body draws no message exactly when the password is valid and confirmed, and the messages drawn are exactly those of the failing checks |
| Schemas.RejectedPasswordSkipsConfirm | backend/app/schemas.py:19-23 | a rejected password draws its own message only, never the mismatch |
| Schemas.ExampleSignupAccepted | backend/app/schemas.py:35-41 | the schema's example body is valid |
| ErrorHandlers.Messages | backend/app/core/error_handlers.py:9 | one message per error, in order |
| ErrorHandlers.ValidationResponse | backend/app/core/error_handlers.py:7-14 | the status is always 422; the single-message shape is used exactly when there is one error, and carries that error's message |
| ErrorHandlers.ResponseKeepsMessages | backend/app/core/error_handlers.py:9-14 | the body carries every error's message once, in the original order, for zero, one or many errors |
| ErrorHandlers.ShortPasswordSignupResponse | backend/app/core/error_handlers.py:11-12 | a sign-up whose only fault is a short password is answered `{"msg": …}` with the length message |
| WallpaperRoutes.StyleDescriptors | backend/app/api/routes/wallpaper_routes.py:35-55 | the table has descriptors for exactly the nineteen known style names |
| WallpaperRoutes.StyleSuffix | backend/app/api/routes/wallpaper_routes.py:35-55 | a known style's suffix is a clause starting ", " followed by its descriptors; an unknown style has none |
| WallpaperRoutes.DimensionsFor | backend/app/api/routes/wallpaper_routes.py:29-33 | always one of 1024×1024, 832×1216, 1216×832; portrait and landscape exactly for their labels, the square for "1:1" and for every unknown label (the default at line 67) |
| WallpaperRoutes.FinalPrompt | backend/app/api/routes/wallpaper_routes.py:68-69 | the prompt is a prefix of the final prompt; an unknown style leaves it unchanged; a known style appends its suffix, which starts with ", " |
| WallpaperRoutes.RequestFor | backend/app/api/routes/wallpaper_routes.py:67-81 | the request names the flux-schnell model, one output, four steps, the size's dimensions and the final prompt |
| WallpaperRoutes.DeliveredImage | backend/app/api/routes/wallpaper_routes.py:83-95 | an image is stored exactly when the output is a non-empty list whose first element reads and whose write completes |
| WallpaperRoutes.ImageFileName | backend/app/api/routes/wallpaper_routes.py:91 | the stored name is the UUID followed by ".webp" |
| WallpaperRoutes.GenerationStep | backend/app/api/routes/wallpaper_routes.py:61-103 | a missing job: no-op, and the image model is not asked. Otherwise the image model is asked for exactly the job's request; the job leaves pending, completed with the new file exactly when that answer delivered an image, else failed with its image reference untouched; no other record changes |
| WallpaperRoutes.Caller | backend/app/api/routes/wallpaper_routes.py:143-145 | the caller is the user whose address equals the token's subject, else 404 |
| WallpaperRoutes.CreateWallpaper | backend/app/api/routes/wallpaper_routes.py:143-167 | adds exactly one pending job without image, owned by the caller, with the request's prompt, size and style, and schedules its generation |
| WallpaperRoutes.RecreateWallpaper | backend/app/api/routes/wallpaper_routes.py:180-208 | 404 unless the original exists and is the caller's; then a new pending job copies its prompt, size and style and the original is untouched |
| WallpaperRoutes.Owned | backend/app/api/routes/wallpaper_routes.py:224-226 | the set holds exactly the caller's jobs |
| WallpaperRoutes.InsertNewestFirst | backend/app/api/routes/wallpaper_routes.py:227 | inserting a job adds exactly that one job to the list and nothing else |
| WallpaperRoutes.InsertKeepsNewestFirst | backend/app/api/routes/wallpaper_routes.py:227 | inserting into a newest-first list keeps it newest first |
| WallpaperRoutes.InsertKeepsDistinct | backend/app/api/routes/wallpaper_routes.py:227 | inserting a job not yet listed keeps the list free of repeats |
| WallpaperRoutes.FullImageUrl | backend/app/api/routes/wallpaper_routes.py:231-233 | a full address exists exactly for a non-empty image name, and is the base URL, the static path and the name |
| WallpaperRoutes.ListWallpapers | backend/app/api/routes/wallpaper_routes.py:220-235 | lists exactly the caller's jobs, each once, with creation times non-increasing, each with its record and full image address |
| WallpaperRoutes.ImageName | backend/app/api/routes/wallpaper_routes.py:264 | a job refers to a file exactly when its image reference is set and non-empty |
| WallpaperRoutes.DeleteWallpaper | backend/app/api/routes/wallpaper_routes.py:248-275 | 404 for an unknown caller or a job not the caller's. Otherwise the row is removed, its image file too when it has one (a missing file does not stop it), and the reply echoes the record |
| WallpaperRoutes.DownloadWallpaper | backend/app/api/routes/wallpaper_routes.py:286-306 | checks in order: caller 404, job or owner 404, no image 400, missing file 404; otherwise the file's bytes as image/webp |
| WallpaperProperties.CreateKeepsValid | backend/app/api/routes/wallpaper_routes.py:147-156 | creating a job keeps the store valid |
| WallpaperProperties.RecreateKeepsValid | backend/app/api/routes/wallpaper_routes.py:188-197 | recreating a job keeps the store valid |
| WallpaperProperties.GenerationStepKeepsValid | backend/app/api/routes/wallpaper_routes.py:61-103 | the generation step keeps the store valid |
| WallpaperProperties.DeleteKeepsValid | backend/app/api/routes/wallpaper_routes.py:264-270 | deleting a job keeps the store valid |
| WallpaperProperties.CreatedJobIsPending | backend/app/api/routes/wallpaper_routes.py:147-156 | a new job is listed among the caller's, is pending, and cannot be downloaded yet |
| WallpaperProperties.GeneratedImageDownloads | backend/app/api/routes/wallpaper_routes.py:67-99 | create, then an image model whose answer to the job's prompt-with-style and size request reads: the job is completed and downloads exactly those bytes |
| WallpaperProperties.FailedGenerationHasNoImage | backend/app/api/routes/wallpaper_routes.py:67-103 | every failure of the job's own request leaves the new job failed with no image and not downloadable |
| WallpaperProperties.DeletedJobStaysDeleted | backend/app/api/routes/wallpaper_routes.py:62-64 | a deleted job is not found afterwards, and a generation step that runs after the deletion changes nothing |
| WallpaperProperties.OthersJobsHidden | backend/app/api/routes/wallpaper_routes.py:253-254 | another user's job gets "Wallpaper not found" from recreate, delete and download alike |
| WallpaperProperties.RecreateCopiesOriginal | backend/app/api/routes/wallpaper_routes.py:188-194 | the recreated job is pending with no image, copies the original's prompt, size, style and owner, and the original is unchanged |

## Left out

- **JWT.** Access-token signing, decoding and expiry are left out: the token is a wrapper over a JWT library. An access token is modelled by its subject alone.
- **Refresh-token value and expiry.** These are arguments of `AuthRoutes.Login`. The helpers that compute them are called at `auth_routes.py:200-201`, but the token module does not define them.
- **Undefined settings.** `settings.GOOGLE_CLIENT_ID` (`auth_routes.py:315`) and `settings.REFRESH_TOKEN_EXPIRE_DAYS` (`auth_routes.py:359`) are not defined by the settings class, and `jwt_utils.get_current_user`, which every `/users` and `/wallpapers` route depends on, is not defined by the token module. The model takes their values as arguments: the audience check is inside the Google verification result, the day count is the `refreshDays` argument, and the caller is the token subject.
- **bcrypt.** Hashing is left out: it is a library. The hasher is an argument, with `Hashing.Sound` as the property a correct bcrypt has.
- **E-mail.** Sending mail and its templates are I/O, so they are left out. The code a mail would carry is an argument of the route.
- **Google token verification.** The cryptographic check is left out: it is an external service. Its result, claims or a rejection, is an argument.
- **The image model.** The Replicate call and the prompt-suggestion route `suggest_prompt` are left out: they are external services. The answer of the image model is the `ProviderOutcome` argument. The guidance scale (a float) is not modelled.
- **Background tasks.** Scheduling is not modelled, being concurrency. The generation step is its own transition, and `CreateWallpaper` returns the task it would schedule.
- **Profile-picture storage.** The picture file is written outside the store. Only the name recorded on the user is modelled.
- **Configuration and plumbing.** The database session, Alembic migrations and app wiring are configuration, not logic.
- **`id`, `created_at` and `updated_at` in the profile.** `GET /users/me` returns these three fields (`user_routes.py:34,42-43`), but `UserRoutes.GetProfile` replies with the `User` record, which has none of them: ids are map keys and the clock-filled columns are not modelled.
- **Column lengths.** String column lengths are not enforced: prompt 255, username 50, email 100. A probed username longer than 50 characters would be refused by the database, and that is not modelled.
- **`EmailStr` validation.** Address syntax checking belongs to a library. Its outcome is the `emailError` argument of `Schemas.SignupErrors`.
- **Simultaneous requests.** Two concurrent requests are not modelled: each route is one atomic transition.
- Text.Lower: lower-cases ASCII letters only, whereas Python's `str.lower` also maps non-ASCII letters.
- Text.Strip: removes ASCII whitespace only, whereas Python's `str.strip` also removes Unicode spaces.
- Schemas.HasDigit: recognises ASCII digits only, whereas Python's `\d` also matches other Unicode decimal digits.
- AuthRoutes.Register: requires the fresh user id to be unused. A UUID collision is not modelled.
- AuthRoutes.GoogleAccount: requires the fresh user id to be unused. A UUID collision is not modelled.
- AuthRoutes.GoogleSession: requires the fresh user id to be unused, as `GoogleAccount` does.
- AuthRoutes.GoogleSignIn: requires the fresh user id to be unused, as `GoogleAccount` does.
- Hashing.Hasher: `hash` is a function, so hashing the same password twice gives the same string, whereas bcrypt salts each hash. No property here depends on two hashes of one password differing or agreeing.
- AuthRoutes.ReplaceRefreshToken: a new value equal to another user's token overwrites that user's row in the model. The `RefreshToken` table definition is not part of this model, so what the database would do then is not modelled.
- WallpaperRoutes.CreateWallpaper: requires the fresh job id to be unused. The same holds for `RecreateWallpaper`.
- WallpaperRoutes.GenerationStep: a failed write leaves no file in the model. A partially written file on disk is not modelled.
- WallpaperRoutes.ListWallpapers: jobs with equal creation times come in an unspecified order, as with SQL `ORDER BY`. The model promises only the non-increasing order.

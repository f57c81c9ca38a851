# drf-api-practice in Dafny

A model of the repo-written logic of a small Django REST backend: user accounts with e-mail
verification, a JWT session kept in HttpOnly cookies, and a post/comment board. The token
library (SimpleJWT), password hashing, Django's token generator and the ORM are not modelled
inside; they appear as parameters with the contracts the code relies on.

What is modelled, module by module:

- `Wrappers`, `Http`: Option/Result, the request methods, the API errors with their status
  codes, responses carrying cookie directives, and a client cookie jar that applies them.
- `Bytes`, `Decimal`, `Base64Url`, `Uid`: `encode_uid`/`decode_uid`. The encoder gives the
  URL-safe base64 alphabet of section 5 of RFC 4648, without padding, of the UTF-8 bytes of
  the decimal text of the id. The decoder answers None on failure.
- `CharFields`: the text-field behaviour every input goes through: surrounding whitespace is
  trimmed, a value left empty is refused as blank (400), and a value whose trimmed text holds
  a NUL character is refused as well (400).
- `CookieMixin`: the cookie helpers shared by the login, refresh and logout views.
- `CookieAuthentication`: the access cookie comes first; the header is used only when there is
  no such cookie.
- `AccountPermissions`, `BoardPermissions`: `IsPostOrIsAuthenticated` and `IsOwnerOrReadOnly`.
- `Users`: the user record, its limits and defaults, `create_user`/`create_superuser`.
- `UserSerializers`: the user representation, the verification link and its route back, the
  mail queue, validation, the password hashing on update, and the verification check.
- `Posts`, `PostSerializers`, `BoardViews`: the post model and its newest-first order, the
  representation, the partial update that never changes the owner, the owner override on
  create, the owner-only writes, and the ten-per-page cursor pages.
- `AccountViews`: a `Session` class holding the client's cookie jar, the outstanding refresh
  tokens and the blacklisted ones. Its methods are login, refresh (with rotation and
  blacklist-after-rotation on, as in `config/settings.py`), logout, and profile
  retrieve/update/delete/registration. E-mail verification sits beside the class.
- `TokenCleanup`: the periodic sweep of expired outstanding tokens over the two token tables.
  `Session.outstanding`/`Session.blacklisted` (token strings) and `TokenCleanup.TokenTables`
  (rows keyed by id) are two separate views of the same two library tables. The model does
  not relate them: the session never sweeps, and the sweep never sees a request.

Library behaviour the model takes as given:

- `AccountViews.Jwt` bundles three things for one request:
  - `verify`, the signature and expiry check of a refresh token;
  - `validate`, the access-token validation;
  - `header`, the outcome of header authentication.
- `RefreshToken(t)` raises "Token is invalid or expired" when `verify(t)` fails. Otherwise it
  raises "Token is blacklisted" when `t` is blacklisted.
- `blacklist()` records the token as outstanding and as blacklisted.
- A freshly minted pair holds two distinct tokens. Neither is outstanding or already in the
  client's jar (`Session.Fresh`).
- Header authentication yields only active, existing users (`HeaderSound`).
- The login and refresh views inherit no authentication or permission classes from the token
  library's base view, so they never authenticate the request. Logout authenticates by
  `JWTCookieAuthentication` only, which falls back to the header when there is no access
  cookie; the profile views use the project's default authentication.
- Password hashing, `normalize_email` and the token generator's `make`/`check` are parameters.

## Model

| member | source | states |
|---|---|---|
| Bytes.DecodeAscii | accounts/utils.py:18 | text exactly when every byte is ASCII, and that text encodes back to the bytes |
| Bytes.DecodeAsciiEncode | accounts/utils.py:10-18 | decoding the bytes of ASCII text gives that text back |
| Decimal.ParseInt | accounts/utils.py:19-22 | `int()` succeeds exactly on an optional sign followed by one or more ASCII digits; a leading '-' gives a non-positive value |
| Decimal.ParseIntText | accounts/utils.py:10-19 | the decimal text of every integer parses back to that integer |
| Base64Url.Encode | accounts/utils.py:10 | the output has only URL-safe characters and ceil(4n/3) of them for n bytes |
| Base64Url.Decode | accounts/utils.py:18 | None exactly for a character outside the URL-safe alphabet or a length of 1 mod 4 |
| Base64Url.DecodeEncode | accounts/utils.py:10-18 | decoding an encoding gives back the bytes |
| Uid.EncodeUid | accounts/utils.py:5-10 | the encoded uid is URL-safe and at least two characters long |
| Uid.DecodeUid | accounts/utils.py:12-22 | None (never an exception) for a non-URL-safe string, a length of 1 mod 4, or fewer than two characters |
| Uid.DecodeEncodeUid | accounts/utils.py:5-22 | `decode_uid(encode_uid(n)) == n` for every integer n |
| Uid.EncodeUidInjective | accounts/utils.py:5-10 | distinct ids get distinct encodings |
| CookieMixin.GetRefreshCookie | accounts/mixin.py:15-25 | the cookie value unchanged when present; InvalidToken (401) exactly when it is absent |
| CookieMixin.PerformSerializer | accounts/mixin.py:27-35 | a TokenError becomes InvalidToken with the same message; other errors pass through; validated data is returned unchanged |
| CookieMixin.SetCookieResponse | accounts/mixin.py:37-42 | 200 `{"detail": "success"}`, one HttpOnly cookie per keyword argument with its value, and no other cookie |
| CookieMixin.DeleteCookieResponse | accounts/mixin.py:44-49 | 200 `{"detail": "success"}` deleting exactly `access` and `refresh` |
| CookieMixin.DeleteCookieResponseClearsJar | accounts/mixin.py:44-49 | a client applying it loses both tokens and keeps every other cookie |
| CookieAuthentication.GetAccessCookie | accounts/authentication.py:14-20 | the encoded cookie when present, None exactly when absent |
| CookieAuthentication.GetUser | accounts/authentication.py:32 | succeeds exactly for a token naming an existing active user; otherwise a 401 error |
| CookieAuthentication.Authenticate | accounts/authentication.py:22-32 | no cookie: the header's outcome; an invalid cookie: anonymous without error; a valid one: `(user, token)` exactly when get_user finds an existing active user, and get_user's 401 otherwise |
| CookieAuthentication.CookieShadowsHeader | accounts/authentication.py:23-30 | with an access cookie present the header never changes the outcome |
| CookieAuthentication.RequestUser | accounts/authentication.py:32 | signed in exactly when authentication returned a user |
| AccountPermissions.HasPermission | accounts/permissions.py:5-9 | POST always; any other method exactly for a signed-in user |
| AccountPermissions.AnonymousReadsAndWritesRefused | accounts/permissions.py:5-9 | anonymous non-POST requests are refused with 401 |
| BoardPermissions.HasPermission | boards/permissions.py:5-9 | safe methods always; others exactly for a signed-in user |
| BoardPermissions.HasObjectPermission | boards/permissions.py:12-16 | safe methods always; others exactly for the object's owner |
| BoardPermissions.CheckObjectAccess | boards/permissions.py:5-16 | the view-level then object-level decision and the error the framework answers with |
| BoardPermissions.WriteOnlyByOwner | boards/permissions.py:5-16 | a write passes only for the owner; anonymous callers get 401 and other users 403 |
| Users.SetDefault | accounts/models.py:23-25 | a supplied flag is kept; a missing one gets the default |
| Users.NewUser | accounts/models.py:11-18 | the normalized email, the given names, the supplied flags or the model defaults, and the hashed (or unusable) password |
| Users.NewUserDefaults | accounts/models.py:33-34 | a user created without flags is inactive, not staff and not superuser |
| Users.SuperuserFlags | accounts/models.py:20-26 | `setdefault` on the three flags: a superuser's flag is true unless the caller supplied it, in which case it is as supplied |
| Users.UserTable.CreateUser | accounts/models.py:11-18 | fails exactly when the username is taken; otherwise adds exactly one new row under a new id |
| Users.UserTable.CreateSuperuser | accounts/models.py:20-26 | create_user with the superuser defaults |
| UserSerializers.Representation | accounts/serializers.py:12-16 | id, email, username and fullname, never the password |
| UserSerializers.VerificationUrl | accounts/serializers.py:25-29 | the fixed prefix, the encoded uid, '/', the token |
| UserSerializers.ActivationRoute | accounts/urls.py:16 | a parsed route recomposes to the URL, with two non-empty parts free of '/' |
| UserSerializers.VerificationLinkRoundTrip | accounts/serializers.py:25-29 | the mailed link routes back to the encoded uid and the token, and the uid decodes to the user's id |
| UserSerializers.MailQueue.SendVerificationEmail | accounts/serializers.py:24-30 | exactly one mail with the username, email and verification link is queued |
| UserSerializers.ValidateUser | accounts/models.py:30-32 | accepted exactly when no writable field is blank or holds a NUL, every field is present unless partial, the trimmed text keeps the length limits, and no other user holds the username; the validated data are the trimmed writable fields |
| UserSerializers.HashPassword | accounts/serializers.py:33-35 | a supplied password is replaced by its hash; other fields pass through |
| UserSerializers.ApplyUpdate | accounts/serializers.py:37 | the update never changes the id or the account flags |
| UserSerializers.UpdateStoresHash | accounts/serializers.py:33-37 | the stored password is the hash of the supplied one, or unchanged; the other fields are as supplied or unchanged |
| UserSerializers.ValidateVerification | accounts/serializers.py:40-52 | a blank field or one holding a NUL: 400; undecodable uid or missing user: 404; for an existing user, success exactly when the token checks out, and 400 "잘못된 토큰입니다." otherwise; success carries the input plus the user whose pk is the decoded uid |
| Posts.Post.Save | boards/models.py:12-13 | saving refreshes only the updated date |
| Posts.DescendingBelow | boards/models.py:18-20 | exactly the ids below the bound, strictly decreasing |
| Posts.Board.List | boards/models.py:18-20 | the posts in strictly descending id order, each stored post exactly once |
| Posts.Board.Insert | boards/models.py:8-13 | a new row under a new id with both dates set to now |
| Posts.Board.DeleteOwnerPosts | boards/models.py:8 | deleting a user deletes exactly the posts they own |
| PostSerializers.ToRepresentation | boards/serializers.py:14-17 | every field of the post, with the owner shown by username |
| PostSerializers.Patched | boards/serializers.py:31-36 | the record with each supplied field other than `owner` set |
| PostSerializers.Update | boards/serializers.py:31-39 | the same instance is returned, updated with each supplied field except `owner` and then saved |
| PostSerializers.PatchedProperties | boards/serializers.py:33-36 | the owner never changes; supplied fields take the supplied value; others keep theirs; applying twice equals applying once |
| BoardViews.OverrideOwner | boards/views.py:30-31 | the owner is the requester whatever was supplied; every other field is kept |
| BoardViews.ValidatePost | boards/models.py:10-11 | keys other than `owner`, `title` and `contents` are ignored; accepted exactly when neither title nor contents is blank or holds a NUL, both are present unless partial, and the trimmed title has at most 255 characters; the validated data are the writable fields supplied, text trimmed |
| BoardViews.CreatePost | boards/views.py:27-31 | anonymous: 401; invalid: 400 with nothing stored; a signed-in user with valid input always succeeds, and the one new post, under the next id, is owned by the requester, with the trimmed title and contents |
| BoardViews.SaveWithOwner | boards/views.py:30-31 | the new row holds the validated title and contents under the requester's ownership and the next id |
| BoardViews.CreateCommentData | boards/views.py:54-57 | anonymous: 401; otherwise the comment data with the owner forced to the requester |
| BoardViews.UpdatePost | boards/views.py:41-43 | anonymous 401, missing 404, non-owner 403; for the owner, invalid input 400 and valid input success; on success only that post changes, as the serializer's update; no id is consumed |
| BoardViews.SaveUpdate | boards/serializers.py:31-39 | the stored row becomes the serializer's update of the loaded instance; no other row changes |
| BoardViews.DeletePost | boards/views.py:41-43 | the same guards; the delete succeeds exactly for the owner and removes exactly that post; no id is consumed |
| BoardViews.CursorPage | boards/paginations.py:6-7 | at most ten posts, all from the list and below the cursor |
| BoardViews.CursorPageIsPrefix | boards/views.py:28 | on the newest-first list a page is exactly the first ten posts below the cursor, in order |
| AccountViews.AsWrittenStep | accounts/views.py:42-46 | an absent or empty cookie is skipped; a refused token raises; otherwise it is blacklisted |
| AccountViews.IntendedStep | accounts/views.py:42-51 | never raises; a usable refresh cookie is blacklisted |
| AccountViews.StaleRefreshCookieCrashes | accounts/views.py:44-46 | an already blacklisted refresh cookie makes the code as written raise, where the intended reset goes through |
| AccountViews.IntendedStepRevokes | accounts/views.py:42-51 | after the reset, the refresh token sent can no longer be used |
| AccountViews.Session.Login | accounts/views.py:54-66 | no request authentication; success exactly when the serializer validates; then exactly the issued tokens land in the jar as HttpOnly cookies, 200 `{"detail": "success"}`, and the refresh token becomes outstanding |
| AccountViews.Session.SendPairCookies | accounts/mixin.py:37-42 | the client holds exactly the issued access and refresh tokens afterwards, with every other cookie kept |
| AccountViews.Session.SendDeleteCookies | accounts/mixin.py:44-49 | the client holds neither token afterwards, with every other cookie kept |
| AccountViews.CookieRefreshToken | accounts/mixin.py:15-35 | a missing cookie: InvalidToken (401); a blank one, or one holding a NUL: 400; a refused token: InvalidToken with the library's message; otherwise the trimmed cookie, not blacklisted |
| AccountViews.Session.Refresh | accounts/views.py:69-82 | no request authentication; the token comes from the cookie only and every refusal of CookieRefreshToken is the answer, with nothing changed; success blacklists the old token and replaces both cookies with different values |
| AccountViews.Session.Rotate | config/settings.py:124-125 | with rotation and blacklist-after-rotation on, the used token is blacklisted and both cookies take the new pair, different from the old values |
| AccountViews.Session.Logout | accounts/views.py:85-101 | `JWTCookieAuthentication` only; anonymous: 401; then CookieRefreshToken's refusals; success blacklists the refresh token and removes both cookies |
| AccountViews.Session.BlacklistedToken | accounts/views.py:42-51 | as written: a refused refresh cookie gives a server error with no cookie deleted; otherwise both cookies are deleted |
| AccountViews.Session.ResetTokens | accounts/views.py:42-51 | both cookies are always deleted, and the refresh token sent is unusable afterwards |
| AccountViews.Session.ResetAndClear | accounts/views.py:42-51 | the token tables move exactly as the corrected reset step says, and the client's jar loses exactly the two token cookies |
| AccountViews.Session.Requester | accounts/views.py:28-32 | the profile views act on the authenticated requester's own row, or answer 401 |
| AccountViews.Session.Retrieve | accounts/views.py:23-32 | the requester's own representation, or 401 |
| AccountViews.Session.UpdateProfile | accounts/views.py:38-40 | only the requester's row changes, with the password hashed; afterwards the jar is the old jar without the two token cookies, a usable refresh cookie is blacklisted (and recorded outstanding) and nothing else enters the token tables, and the refresh token is unusable |
| AccountViews.Session.DeleteProfile | accounts/views.py:34-36 | exactly the requester's row and posts are deleted; afterwards the jar is the old jar without the two token cookies, a usable refresh cookie is blacklisted (and recorded outstanding) and nothing else enters the token tables, and the refresh token is unusable |
| UserSerializers.Create | accounts/serializers.py:18-21 | exactly one new inactive user with the hashed password, under the next id, and exactly one verification mail carrying its link |
| AccountViews.Session.Register | accounts/views.py:21-29 | open to anonymous callers; a valid body adds one inactive user under the next id and queues one verification mail, answering 201; an invalid body gets its 400 and changes nothing |
| AccountViews.VerifyEmail | accounts/views.py:116-128 | a verified link activates exactly that user and answers with a message naming them; otherwise nothing changes |
| AccountViews.VerificationLinkActivates | accounts/serializers.py:25-52 | the link mailed at registration passes verification when the generator accepts its token |
| TokenCleanup.ExpiredIds | accounts/tasks.py:14 | exactly the rows with `expires_at < now` |
| TokenCleanup.SweepRemovesExactlyExpired | accounts/tasks.py:14-26 | afterwards no expired row remains and every unexpired row is untouched |
| TokenCleanup.SweepIdempotent | accounts/tasks.py:14-26 | a second sweep at the same time changes nothing |
| TokenCleanup.SweepAsWrittenUnrevokes | accounts/tasks.py:19-22 | the lookup by the blacklist row's own id un-revokes a live token |
| TokenCleanup.SweepKeepsRevocations | accounts/tasks.py:18-26 | the intended sweep keeps every surviving token's revocation as it was |
| TokenCleanup.TokenTables.DeleteBlacklistRow | accounts/tasks.py:20-24 | deletes the blacklist row with that id, and skips silently when there is none |
| TokenCleanup.TokenTables.CleanExpiryToken | accounts/tasks.py:10-26 | removes exactly the expired outstanding rows, plus blacklist rows by id and by reference; accounts/scheduler.py:13-30 holds the same loop, so this one method models both |
| TokenCleanup.TokenTables.CleanExpiryTokenByReference | accounts/tasks.py:18-26 | removes exactly the expired outstanding rows and the blacklist rows referring to them |

## Left out

- Library internals are parameters: JWT signing and claim validation, token minting and
  blacklist storage, `make_password`, `default_token_generator` and `normalize_email`.
- Request values are typed: a user field is text, a post field text or a user reference.
  So the JSON `null` ("This field may not be null.") and a boolean or other non-text value
  ("Not a valid string.") cannot be sent to either serializer, and those 400 answers are not
  modelled. A post body's other keys are still ignored.
- When several fields are invalid, the framework reports them all; the model answers with one
  error, a blank field before a NUL.
- E-mail format validation (`EmailField`) is not modelled. `UserSerializers.ValidateUser` checks
  presence, blanks, lengths and username uniqueness only.
- Base64Url.Decode: decoding is strict. Python's `urlsafe_b64decode` maps '-' and '_' to '+'
  and '/' and then decodes non-strictly: it also reads '+' and '/' as 62 and 63, accepts '='
  padding, and discards other characters outside the alphabet. The model refuses all of these.
- Uid.DecodeUid: inherits that strictness. `decode_uid("M+")` is 3 and `decode_uid("MQ==")` is 1
  in the program; the model answers None, so `AccountViews.VerifyEmail` gives 404 for such links.
  Links the program itself mails never contain these characters.
- Bytes.DecodeAscii: `force_str` also decodes non-ASCII UTF-8, which the model refuses. Such
  text can still parse as an integer in the program: `int()` strips Unicode whitespace and
  reads non-ASCII digits, so the bytes of "\u00a01" decode to 1 there, while the model
  answers None. Links the program mails never contain such bytes.
- Decimal.ParseInt: `int()` also accepts surrounding whitespace, underscores between digits and
  non-ASCII digits. The model accepts only a sign and ASCII digits. Encoded uids never
  contain the others.
- The mail itself (`send_verification_mail.delay`) is not sent. The model queues it on `MailQueue`.
- The Celery and APScheduler plumbing is not modelled: `start()`, the beat schedule and the
  worker setup. Only the sweep itself is modelled.
- TokenCleanup.TokenTables.CleanExpiryToken: the `print` of the expired count is not modelled.
- The guard `expired_tokens != 0` compares a query set with a number and is always true.
  The model loops unconditionally; an empty set of expired rows simply does nothing.
- Atomicity is not modelled: `transaction.atomic` and the absence of database errors are
  taken as given. Each sweep is one method with no failure path.
- The cascade that deletes blacklist rows along with their outstanding row is included.
  So is `user.delete()` cascading to the user's posts. Comments are not part of this model,
  because their model is not part of the shown source.
- `CommentModel`, `PostListSerializer`, `PostDetailSerializer` and `CommentSerializer` are not
  part of this model. Post validation is the one `PostModel` implies: title and contents
  required and not blank, trimmed as CharFields, title at most 255.
  `BoardViews.CreateCommentData` stops at the owner override.
- BoardViews.CursorPage: the cursor is the id below which the page starts. Cursor encoding
  and the invalid-cursor `NotFound` wrapper are not modelled.
- The post and comment views' GET paths are not modelled separately; reads are always
  allowed (`BoardPermissions.HasPermission`).
- `accounts/custom_middleware.py` is not registered in the middleware list and is not modelled.
  Routing beyond the activation route, OpenAPI schemas and the admin site are also left out.
- Wall-clock time is a parameter `now`. The token lifetimes (15 minutes, 3 days) live inside
  `verify`.
- Response bodies of errors are reduced to the error value and its status code.
- AccountViews.Session.UpdateProfile and AccountViews.Session.DeleteProfile use the corrected
  reset, `ResetTokens`, not the one as written (see Findings). Under the code as written, a
  refused refresh cookie ends these requests with a server error after the change is saved.

## Findings

| source | as written | input that shows it | evidently intended | confidence | as-written member | corrected member |
|---|---|---|---|---|---|---|
| accounts/tasks.py:19-22 | the blacklist row is fetched by `id=token_id`, its own primary key, not by its reference to the outstanding row | outstanding rows 1 (expired) and 2 (live); blacklist row 1 revoking token 2; `now` between the two expiries: row 1 is deleted and token 2 is usable again | delete the blacklist row whose token reference is the expired row | not executed | TokenCleanup.SweepAsWrittenUnrevokes | TokenCleanup.TokenTables.CleanExpiryTokenByReference |
| accounts/scheduler.py:21-28 | the same lookup by the blacklist row's own id | the same tables and `now` | the same correction | not executed | TokenCleanup.TokenTables.CleanExpiryToken | TokenCleanup.SweepKeepsRevocations |
| accounts/views.py:44-46 | `RefreshToken(refresh).blacklist()` runs unguarded on any non-empty refresh cookie | a profile update with a valid access cookie and a refresh cookie already blacklisted (or expired): the TokenError escapes as a server error after the update is saved, and neither cookie is deleted | blacklist the token only when it is usable, and always delete both cookies | not executed | AccountViews.StaleRefreshCookieCrashes | AccountViews.Session.ResetTokens |

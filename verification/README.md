# Identity and session tokens of nest-admin-dashboard, in Dafny

This project models the identity and session-token core of a NestJS blogging
back end. It covers the following parts:

- **Refresh-token store.** Every user record keeps the list of its live
  refresh tokens, one per signed-in device. Sign-in appends a token. Rotation
  (`POST /auth/refresh`) checks that the presented token is in the list,
  signs a new pair, appends the new token and then removes the presented one.
  Sign-out removes the token.
- **Passport strategies.** These turn a verified JWT payload into the
  request's `user`.
- **Roles.** The role catalog, `RolesService`, and `RolesGuard`, which
  allows a route when one of its required role names is among the names the
  user's role ids resolve to. The refresh route is guarded by it and requires
  the "user" role.
- **Password reset.** A token `<uuid>|<expiry ms>` is stored on the user.
  It is looked up by exact match, its embedded expiry is checked, and a
  successful password change consumes it.
- **Credential check and sign-up.**
- **Upload whitelist pipe.** It uses Node's posix `path.extname`.
- **Posts.** Creating, moving and deleting posts maintains each blog's list
  of post ids. `addPostMedia` dispatches an uploaded medium.

How the model is built:

- Mongo collections are classes with one mutable field (`map` or `seq`).
- Services are classes holding their collaborators as `const` fields. Their
  methods state the collection's whole new state in terms of specification
  functions (`Pushed`, `Filtered`, `Appended`, `Removed`, `CheckExpiry`,
  `CanActivate`, `ExtName`). Lemmas then prove what those functions
  guarantee.
- The environment is passed in as parameters:
  - `jwtService.sign` is a `Signer` value per call;
  - bcrypt is a `hash`/`compare` function value;
  - `Date.now()`, `uuidv4()` and new document ids are plain parameters.
- JavaScript behaviour is written out where the code depends on it:
  - truthiness of `find`'s result, so `""` is falsy;
  - `String.prototype.split`;
  - `parseInt` (JS whitespace, sign, longest digit prefix, NaN);
  - decimal printing of a number;
  - `path.extname`;
  - ASCII `toLowerCase`.
- Writes apply to the stored document, in the order the code issues them.
  Mongoose sends a `push` as an atomic `$push` and a reassigned array as a
  `$set`.

Where the code and its design description disagree, the model follows the
code:

- **Removal.** `remove` drops *every* copy of a token, not the first one
  (`Without`).
- **Empty required-roles list.** An empty required-roles array is present,
  so it *denies* every user with a roles claim (`EmptyRequirementDenies`).
  It does not mean "any authenticated user".
- **Sign-up roles.** Sign-up stores no default role (`NewUser` has
  `roles == []`). Its roles claim is then present and empty, so the refresh
  route's guard refuses a new account until the "user" role is assigned
  and the account signs in again (`Lifecycle.RefreshWithoutRoleForbidden`).
- **Duplicate email.** A duplicate email is an `HttpException` with status
  500 rather than a conflict.
- **Invalid refresh token.** The rotation's invalid-token failure is a plain
  `Error('Invalid refresh token')`. The older service rewrites every failure
  to `Error('Refresh token updated failed')`.
- **Unknown email in `validateUser`.** Reading the digest from `null` fails
  (`TypeError`). This is not an "invalid credentials" answer.
- **Ownership check.** `create` and `update` of a post check ownership by
  comparing the *blog's id* with the caller's user id. They never look at the
  blog's `author`, so the author is refused unless the two ids coincide
  (`Posts.AuthorIsRefused`).
- **Media deletion in `update`.** `update` deletes the media of the post
  *after* the update, which is the newly attached medium. Media deletion
  itself is not modelled (see below).

## Model

| member | source | states |
|---|---|---|
| Users.UserCollection.FindByEmail | src/users/users.service.ts:29-33 | the result is a record with that email, and `null` exactly when no record has it |
| TokenLists.Without | src/auth/jwt-tokens/refresh-token/refresh-token.service.ts:63-65 | the filtered list lacks the token, keeps every other token with its multiplicity, and shrinks by the token's count |
| TokenLists.FirstMatch | src/auth/jwt-tokens/refresh-token/refresh-token.service.ts:88 | `find(t => t === token)` yields a value exactly when the token is in the list, and that value is the token |
| TokenLists.WithoutConcat | src/auth/tokens/refresh-token/refresh-token.service.ts:43-45 | filtering distributes over concatenation |
| TokenLists.WithoutAbsent | src/auth/tokens/refresh-token/refresh-token.service.ts:43-45 | filtering out an absent token leaves the list as it was |
| TokenLists.WithoutIdempotent | src/auth/tokens/refresh-token/refresh-token.service.ts:43-45 | filtering twice equals filtering once |
| TokenLists.WithoutAfterAppend | src/auth/tokens/refresh-token/refresh-token.service.ts:31-45 | append-then-filter equals filter-then-append, and the appended token survives unless it is the filtered one |
| Jwt.ValidateAccess | src/auth/strategies/jwt-access.strategy.ts:25-32 | the request user copies `sub`, `email` and `roles` verbatim and is of kind access |
| Jwt.ValidateRefresh | src/auth/strategies/jwt-refresh.strategy.ts:27-34 | the request user copies `sub`, `email` and `roles` verbatim and is of kind refresh |
| Jwt.StrategiesAreSeparated | src/auth/strategies/jwt-refresh.strategy.ts:18-24 | both strategies enforce expiry; they read their secret under different configuration keys (`JWT_ACCESS_KEY`, `JWT_REFRESH_KEY`); access reads the bearer header and refresh reads the `refreshToken` cookie |
| Jwt.RefreshCarriesClaims | src/auth/update-tokens/update-tokens.service.ts:35-45 | the claims a rotation signs are exactly the claims of the presented refresh token, so the roles snapshot is carried forward without being resolved again |
| Sessions.Pushed | src/auth/jwt-tokens/refresh-token/refresh-token.service.ts:44-46 | saving a token touches only that user's record and keeps the set of users |
| Sessions.Filtered | src/auth/jwt-tokens/refresh-token/refresh-token.service.ts:63-67 | removing a token touches only that user's record and keeps the set of users |
| Sessions.PushedKeepsSessions | src/auth/tokens/refresh-token/refresh-token.service.ts:31-33 | after a save the token is live; every earlier session stays live in the same order; the token's count grows by one |
| Sessions.FilteredRevokesOnly | src/auth/tokens/refresh-token/refresh-token.service.ts:43-47 | after a removal the token is dead, and every other token keeps its liveness and multiplicity |
| Sessions.FilteredIdempotent | src/auth/sign-out/sign-out.service.ts:16-19 | signing out twice with the same token equals signing out once |
| Sessions.FilteredAbsent | src/auth/jwt-tokens/refresh-token/refresh-token.service.ts:56-68 | removing a token that is not live changes nothing |
| Sessions.RotationResult | src/auth/update-tokens/update-tokens.controller.ts:45-56 | after append-then-remove, the list is the old list without the presented token, followed by the new token unless they are equal |
| Sessions.RotationRevokesPresented | src/auth/update-tokens/update-tokens.controller.ts:45-56 | rotating to a different token kills the presented token and makes the new one live |
| Sessions.RotationToSameTokenRevokesSession | src/auth/update-tokens/update-tokens.controller.ts:56 | when the re-signed string equals the presented one, the rotation leaves no copy of it |
| Sessions.RotationKeepsOtherSessions | src/auth/update-tokens/update-tokens.controller.ts:56 | the other devices' tokens keep their multiplicity through a rotation |
| RefreshTokens.RefreshTokenService.Save | src/auth/jwt-tokens/refresh-token/refresh-token.service.ts:37-47 | an unknown user is NotFound('User not found') and nothing changes; otherwise the token is appended to that user's list |
| RefreshTokens.RefreshTokenService.Remove | src/auth/jwt-tokens/refresh-token/refresh-token.service.ts:56-68 | an unknown user is NotFound and nothing changes; otherwise every copy of the token leaves that user's list |
| RefreshTokens.RefreshTokenService.Find | src/auth/jwt-tokens/refresh-token/refresh-token.service.ts:78-91 | an unknown user is NotFound; otherwise the token is returned exactly when it is live, and `undefined` otherwise |
| SignIn.SignInPayload | src/auth/sign-in/sign-in.service.ts:24-34 | the sign-in claims are `{email, roles, sub = user id}` |
| SignIn.LoginPayload | src/auth/login/login.service.ts:18-26 | the older login's claims are `{email, sub}` with no roles claim |
| SignIn.SignInService.SignIn | src/auth/sign-in/sign-in.service.ts:22-41 | both tokens are signed from the same claims; only the refresh token is appended; the returned refresh token is the stored one; an unknown user fails with no change |
| SignIn.LoginService.Login | src/auth/login/login.service.ts:16-35 | the same as sign-in with role-less claims, and the email is echoed back |
| SignOut.SignOutService.SignOut | src/auth/sign-out/sign-out.service.ts:16-19 | every copy of the token is removed from the user's list and the token is echoed back; an unknown user is NotFound with no change |
| UpdateTokens.Truthy | src/auth/update-tokens/update-tokens.service.ts:31 | `!tokenInDb` passes exactly for a found, non-empty string |
| UpdateTokens.UpdateTokensService.Update | src/auth/update-tokens/update-tokens.service.ts:24-52 | an unknown user is NotFound and a token that is not live (or is empty) is 'Invalid refresh token', both with no change; otherwise the pair is signed from the caller's claims and the new refresh token is appended |
| UpdateTokens.UpdateTokensService.RemoveOld | src/auth/update-tokens/update-tokens.service.ts:61-63 | exactly the store's removal |
| UpdateTokens.UpdateTokensController.Update | src/auth/update-tokens/update-tokens.controller.ts:28-59 | the route's `RolesGuard` with `@Roles('user')` answers Forbidden, with no change, when the caller's roles claim resolves to no "user" role; otherwise it succeeds exactly when the presented token is accepted; a failure changes nothing; a success sets the http-only secure cookie with lifespan×24×60×60×1000 ms, applies append-then-remove, kills the presented token and leaves the new one live |
| UpdateTokens.LegacyUpdateTokensService.Update | src/auth/refresh-tokens/update-tokens.service.ts:14-46 | every failure becomes 'Refresh token updated failed' with no change; a success signs role-less claims, appends the new token, never removes the old one, and echoes the email |
| Roles.RoleNames | src/roles/roles.service.ts:45-48 | a name is returned exactly when a catalog role with a listed id carries it |
| Roles.UnknownIdsGrantNothing | src/roles/roles.service.ts:46-47 | ids that match no catalog entry add no names |
| Roles.RoleNamesMonotone | src/roles/roles.service.ts:45-48 | more ids never resolve to fewer names |
| Roles.FindRoleByName | src/roles/roles.service.ts:26-28 | the result is a catalog entry with that name, and none exactly when no entry has it |
| Roles.IndexOfId | src/roles/roles.service.ts:108 | `findById` finds the entry with that id, and none exactly when no entry has it |
| Roles.RolesService.FindOne | src/roles/roles.service.ts:25-35 | returns the role with that name, else NotFound('<name> role  not found') |
| Roles.RolesService.FindByIds | src/roles/roles.service.ts:45-48 | returns the names of the catalog roles whose id is listed; unknown ids are dropped |
| Roles.RolesService.Create | src/roles/roles.service.ts:55-61 | a name already in use violates the unique index and nothing changes; otherwise the role is appended |
| Roles.RolesService.Update | src/roles/roles.service.ts:69-79 | an unknown id is NotFound; a name held by another role violates the unique index; it succeeds exactly when the id is known and the name is free, and then the entry is renamed in place; a failure changes nothing |
| Roles.RolesService.Delete | src/roles/roles.service.ts:86-92 | an unknown id is NotFound('The role was not found.'); otherwise exactly that entry is removed |
| Roles.RolesService.AssignRole | src/roles/roles.service.ts:101-127 | the user is checked before the role (each NotFound); a role already held is BadRequest naming it; otherwise the role id is appended; a failure changes nothing |
| Roles.AssignKeepsRolesDistinct | src/roles/roles.service.ts:114-124 | a successful assignment grows the list by one and introduces no duplicate |
| RolesGuard.SomeIncluded | src/roles/guards/roles.guard.ts:31 | `some(includes)` holds exactly when some required name is among the names |
| RolesGuard.CanActivate | src/roles/guards/roles.guard.ts:15-32 | no metadata allows; no roles claim allows; otherwise allows exactly when a catalog role of the user carries a required name |
| RolesGuard.EmptyRequirementDenies | src/roles/guards/roles.guard.ts:20-31 | a present but empty required list denies every user with a roles claim |
| RolesGuard.GuardMonotone | src/roles/guards/roles.guard.ts:29-31 | adding role ids to a user never turns allow into deny |
| RolesGuard.UnknownIdsDoNotChangeDecision | src/roles/guards/roles.guard.ts:29 | role ids with no catalog entry never change the decision |
| RolesGuard.OrSemantics | src/roles/guards/roles.guard.ts:31 | with the seeded catalog, "user" is denied where "admin" is required, and a holder of both is allowed where either is required |
| Auth.WithoutPassword | src/auth/auth.service.ts:22-23 | on a plain user record, the rest-spread keeps every field but the password (see "## Left out" for the hydrated document the code actually spreads) |
| Auth.AuthService.ValidateUser | src/auth/auth.service.ts:12-27 | an unknown email fails; otherwise the result is the record seen through `Auth.WithoutPassword` when `compare` accepts, and `null` when it does not |
| Auth.NewUser | src/auth/sign-up/sign-up.service.ts:23-28 | the created record has the given email, the digest as password, no sessions, no roles and no reset token |
| Auth.SignUpService.SignUp | src/auth/sign-up/sign-up.service.ts:13-29 | a registered email is HttpException 500 with no change; otherwise exactly one record is added; email uniqueness is preserved |
| JsText.Split | src/auth/reset-password/reset-password.service.ts:36 | `split` yields at least one piece and no piece holds the separator |
| JsText.JoinSplit | src/auth/reset-password/reset-password.service.ts:36 | joining the pieces of `split` gives back the string |
| JsText.SplitJoin | src/auth/reset-password/reset-password.controller.ts:121-122 | splitting the join of separator-free pieces gives back the pieces |
| JsText.SplitAtFirst | src/auth/reset-password/reset-password.service.ts:36 | the first piece ends at the first separator |
| JsText.SplitNoSeparator | src/auth/reset-password/reset-password.service.ts:36 | a string without the separator is one piece |
| JsText.SplitHasSecond | src/auth/reset-password/reset-password.service.ts:36-38 | `split(...)[1]` exists exactly when the separator occurs |
| JsText.TrimStart | src/auth/reset-password/reset-password.service.ts:44 | `parseInt` skips exactly the leading JS whitespace |
| JsText.DigitRun | src/auth/reset-password/reset-password.service.ts:44 | `parseInt` reads the longest run of decimal digits |
| JsText.SignStripped | src/auth/reset-password/reset-password.service.ts:44 | `parseInt` accepts at most one leading sign |
| JsText.ParseInt | src/auth/reset-password/reset-password.service.ts:44-50 | the result is NaN exactly when no digit follows the blanks and the sign |
| JsText.DecimalString | src/auth/reset-password/reset-password.controller.ts:122 | a number prints as a non-empty run of digits |
| JsText.DigitsValueOfDecimal | src/auth/reset-password/reset-password.controller.ts:121-122 | the digits of a printed number read back as that number |
| JsText.ParseIntDecimal | src/auth/reset-password/reset-password.service.ts:44 | `parseInt` of a printed number, followed by anything that does not start with a digit, is that number |
| JsText.ParseIntNaN | src/auth/reset-password/reset-password.service.ts:46-50 | a string that does not start with a digit (after blanks and sign) parses to NaN |
| JsText.ParseIntDigitPrefix | src/auth/reset-password/reset-password.service.ts:44 | `parseInt('123abc')` is 123 |
| ResetPassword.ExpirySegment | src/auth/reset-password/reset-password.service.ts:36 | the second piece exists exactly when the token holds the separator |
| ResetPassword.CheckExpiry | src/auth/reset-password/reset-password.service.ts:36-58 | an absent or empty expiry, a non-number and a past expiry are each their own BadRequest, in that order; success returns an expiry that is not before now |
| ResetPassword.MintedTokenValidUntilExpiry | src/auth/reset-password/reset-password.controller.ts:121-122 | a minted token passes the checks exactly until now + 180000 ms, inclusive, and is 'expired' after that |
| ResetPassword.LaterSegmentsIgnored | src/auth/reset-password/reset-password.service.ts:36 | pieces after a second separator are ignored |
| ResetPassword.EmptyExpiryRejected | src/auth/reset-password/reset-password.service.ts:38-42 | a token ending at its first separator has no expiry |
| ResetPassword.NonNumericExpiryRejected | src/auth/reset-password/reset-password.service.ts:44-50 | a non-numeric expiry is 'not a valid number' |
| ResetPassword.OverwrittenTokenIsDead | src/auth/reset-password/reset-password.controller.ts:124-126 | requesting a new link leaves no user holding the earlier token |
| ResetPassword.ResetPasswordService.ValidateToken | src/auth/reset-password/reset-password.service.ts:25-59 | no user holding exactly the token is NotFound, checked before the format; then the expiry checks; success names a user holding the token |
| ResetPassword.ResetPasswordService.SetNewPassword | src/auth/reset-password/reset-password.service.ts:70-82 | succeeds exactly when validation does; the password becomes the new digest and the token is cleared; a failure changes nothing; with unique tokens no user holds the token afterwards |
| ResetPassword.ResetPasswordController.ResetPassword | src/auth/reset-password/reset-password.controller.ts:76-95 | the http-only secure cookie holding the token for 180000 ms is set exactly when validation succeeds |
| ResetPassword.ResetPasswordController.SendPasswordResetLink | src/auth/reset-password/reset-password.controller.ts:112-138 | an unknown email is NotFound with no change; otherwise the user's token becomes the nonce, the separator and now + 180000 and the success message is returned |
| FileType.StripTrailingSlashes | src/pipes/file-type-validation.pipe.ts:24 | `extname` ignores trailing slashes: the result is the prefix left after dropping only `/` characters from the end, and it does not end in `/` |
| FileType.LastComponent | src/pipes/file-type-validation.pipe.ts:24 | `extname` reads the whole part after the last `/`: a suffix without `/`, preceded by a `/` whenever it is not the whole path |
| FileType.LastDot | src/pipes/file-type-validation.pipe.ts:24 | finds the position of the last `.`, and none exactly when there is no `.` |
| FileType.ExtName | src/pipes/file-type-validation.pipe.ts:24 | the extension is empty or a single leading `.` followed by no further `.` and no `/`; it is non-empty exactly when the last component has a `.` after its first character and is not `..` |
| FileType.ExtNameOfStemAndExt | src/pipes/file-type-validation.pipe.ts:24 | `stem.ext` has extension `.ext` |
| FileType.NoDotNoExtension | src/pipes/file-type-validation.pipe.ts:24 | a name without `.` has an empty extension |
| FileType.DotFileNoExtension | src/pipes/file-type-validation.pipe.ts:24 | a dot-file such as `.png` has an empty extension |
| FileType.LowerChar | src/pipes/file-type-validation.pipe.ts:24 | lower-casing maps exactly the upper-case letters and yields no upper-case letter |
| FileType.ToLower | src/pipes/file-type-validation.pipe.ts:24 | lower-casing works character by character and keeps the length |
| FileType.UpperCaseEntryNeverMatches | src/pipes/file-type-validation.pipe.ts:24-26 | a whitelist entry with an upper-case letter never matches, because only the name is lower-cased |
| FileType.FileTypeValidationPipe.Transform | src/pipes/file-type-validation.pipe.ts:19-37 | a missing file is 'No file provided'; otherwise it is accepted exactly when its lower-cased extension is listed, and passed through unchanged; a rejection names the comma-joined list |
| FileType.FileTypeValidationPipe.NoExtensionRejected | src/pipes/file-type-validation.pipe.ts:24-34 | a name without an extension passes exactly when `''` is listed |
| Posts.AuthorIsRefused | src/posts/posts.service.ts:68-70 | the blog's author, when the author's id is not the blog's id, may not post to it |
| Posts.Appended | src/posts/posts.service.ts:77 | the push changes only that blog, and its list gains the id at the end |
| Posts.Removed | src/posts/posts.service.ts:147 | the filter changes only that blog; its list loses the id and keeps every other id |
| Posts.WithoutKeepsDistinct | src/posts/posts.service.ts:147 | filtering keeps a list free of repeats |
| Posts.AppendFreshKeepsListedOnce | src/posts/posts.service.ts:77-79 | appending a post id no blog lists keeps every id listed at most once, and by that blog only |
| Posts.RemoveKeepsListedOnce | src/posts/posts.service.ts:145-149 | removal from the listing blog leaves the id listed nowhere and changes no other membership |
| Posts.MoveKeepsListedOnce | src/posts/posts.service.ts:107-116 | after pull-then-push exactly the target blog lists the post, and other memberships are unchanged |
| Posts.Patched | src/posts/posts.service.ts:119-124 | a field absent from the update request keeps its value |
| Posts.PostsService.Create | src/posts/posts.service.ts:62-81 | a missing blog is NotFound before the ownership test (Forbidden); a success stores the post and appends its id; a failure changes nothing; ids stay listed once |
| Posts.PostsService.Update | src/posts/posts.service.ts:90-130 | with a blog id: NotFound, then Forbidden, then the TypeError of an unlisted post, each with no change; otherwise the post moves to exactly the target; a post that some blog lists but that does not exist is a TypeError after the pull was saved, so the listing blog has lost the id and no blog gained it; without a blog id no blog changes; the given fields are written |
| Posts.PostsService.Delete | src/posts/posts.service.ts:137-150 | a missing post is a TypeError with no change; otherwise the post is deleted and then pulled from the blog listing it (TypeError if none); afterwards no blog lists it |
| Posts.ImageBranchUnreachable | src/posts/posts.service.ts:161-168 | as written, no file name takes the resize branch |
| Posts.ImagesAreResized | src/posts/posts.service.ts:161-164 | with the dotted list, `stem.ext` is resized exactly when its lower-cased ext is jpg, png or svg |
| Posts.AcceptedImagesRouted | src/posts/posts.controller.ts:200-208 | every image the upload whitelist accepts is resized by the corrected test and by none as written |
| Posts.PhotoJpgAsWritten | src/posts/posts.service.ts:161-164 | `photo.jpg` is uploaded unresized as written |
| Posts.PhotoJpgResized | src/posts/posts.service.ts:161-164 | `photo.jpg` is resized with the dotted list |
| Lifecycle.RotationReplayRefused | src/auth/update-tokens/update-tokens.service.ts:29-33 | after sign-up, assignment of the "user" role and sign-in, one rotation succeeds, and replaying the rotated-out refresh token is 'Invalid refresh token' |
| Lifecycle.RefreshWithoutRoleForbidden | src/auth/update-tokens/update-tokens.controller.ts:28-29 | a freshly signed-up user, whose roles list is empty, is refused the refresh route as Forbidden whatever the role catalog holds, and its session stays live |
| Lifecycle.ResetTokenSingleUse | src/auth/reset-password/reset-password.service.ts:70-82 | a link used within three minutes changes the password, and using it again finds no user |

## Left out

- Concurrency. Each request runs start to finish with no interleaving. The
  lost update between two concurrent rotations of the same user is not
  modelled.
- Mongoose internals:
  - Validation and strict-mode handling of paths. The user schema as written
    declares no `resetPasswordToken` path and the post schema no `media`
    path; the model assumes both are stored.
  - `populate`, and the `.save()` return values.
  - Whether a `required` array accepts `[]`.
- JWT signature and expiry verification inside `passport-jwt`. A verified
  token is represented by its payload, and signing is a function value.
  Token lifetimes and REFRESH_TOKEN_LIFESPAN are parameters: src/constants
  is not part of this model.
- bcrypt hashing and comparison (function values), the mail service, S3 and
  content upload/delete, sharp resizing, and the facebook strategy.
- `deletePostPhoto` (called by post `update` and `delete`) deletes content
  through the content service. That I/O is not modelled, nor are its
  failures: when the post's medium has no content record, `ContentService.delete`
  reads `key` from `null` and throws a TypeError. In `delete` that happens
  before anything changes, yet `Posts.PostsService.Delete` removes the post;
  in `update` it happens after the writes.
- The redirects in the reset controller (CLIENT_ORIGIN) and the link URL
  (API_URL), and the controllers that only forward to a service.
  - Among those forwarding controllers are the password-change controller
    (reset-password.controller.ts:158-173) and the older refresh
    controller, which turns every error into a returned `Error` value.
  - The post and role routes sit behind `RolesGuard` too; their services are
    modelled without it, and the guard's decision is `RolesGuard.CanActivate`.
- `RefreshTokens.RefreshTokenService.Generate` has no contract. It is only
  the signer applied to the payload.
- `users.service.ts` defines no `findUserByEmail`, which `signup` calls.
  Sign-up is modelled with a lookup by email.
- A missing `token` query or cookie (`undefined`) is not modelled. Tokens
  are strings.
- `JsText.DecimalString` prints every natural number as its plain digits.
  JavaScript prints numbers from 10^21 on in exponent form (`1e+21`), which
  `parseInt` would read back as 1; the reset-token lemmas therefore hold
  only for expiry times below 10^21 ms, far beyond any clock value.
- `JsText.ParseInt` uses unbounded integers. It does not model the
  floating-point rounding of very long digit runs.
- `FileType.ToLower` lower-cases only ASCII letters. JavaScript's
  `toLowerCase` also maps other Unicode letters.
- `Auth.WithoutPassword`: the model applies the rest-spread to a plain
  record. In the code `findOne` returns a hydrated Mongoose document, whose
  own properties are `_doc`, `$__` and `$isNew`; the spread therefore keeps
  the stored digest under `_doc` and has no schema field as an own property
  (the login controller reads `req.user._doc`). The model does not capture
  that the digest still travels with `validateUser`'s result.
- `Jwt.StrategiesAreSeparated`: proves that the two strategies read their
  secret under different configuration keys, not that the configured
  secrets differ; configuration values are not modelled.
- `Posts.Patched`: assumes Mongoose 6 or later, which always leaves out keys
  whose value is `undefined` from `findByIdAndUpdate`. Mongoose 5 writes
  `$set` with `undefined`, which stores `null` in the absent field.
- Ids are compared as strings (`toString()`). No ObjectId parsing or
  validity check is modelled.
- `Posts.PostsService.Create` takes the new post's id as a parameter that
  no existing post has.

## Findings

| source | as written | input that shows it | evidently intended | confidence | as-written member | corrected member |
|---|---|---|---|---|---|---|
| src/posts/posts.service.ts:161-162 | the image test compares `path.extname(filename).toLowerCase()` with `['jpg', 'png', 'svg']`; `extname` always includes the leading dot, so the resize branch is never taken | `photo.jpg`: its extension is `.jpg`, which is not in the list, so the image is uploaded without resizing | compare with `['.jpg', '.png', '.svg']`, the dotted form the upload whitelist uses (src/posts/posts.controller.ts:201) | high (proved on the model, not executed) | Posts.ImageBranchUnreachable | Posts.ImagesAreResized |

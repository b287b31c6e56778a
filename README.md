# Movies and reviews platform: a Dafny model of its server core and two form helpers

The system is an ASP.NET minimal-API server for movies, the reviews written
about them and the comments written about reviews, plus a React client. This
project models:

- **The refresh-session store** (`sessions.dfy`, module `Sessions`). There is
  one record per login, keyed by a Guid. It holds the user, the start and expiry
  times, the hash of the last refresh token issued for the session, and a
  revoked flag. Four operations act on it: create, extend (rotate), invalidate
  and the validity check. The store is a class over a `map` from session id to
  record. A history of refreshes and logouts on one session is also modelled,
  with the lemmas "revocation is terminal" and "only the last rotated token is
  usable".
- **The account protocol** (`auth.dfy`, module `Auth`). It covers register,
  login, refresh (`api/accessToken`) and logout. Each is a method over an
  abstract user/role table (`UserManager`), an abstract token codec
  (`TokenCodec`) and the session store. Refresh and logout are modelled with
  their parse guard as written. Corrected versions are given beside them; see
  Findings.
- **The request validators** (`validators.dfy`, module `Validators`). These are
  the FluentValidation rule chains for movies, reviews and comments, run by a
  small rule engine. Closed-form acceptance lemmas are proved for each resource.
  `TimeSpan` is integer ticks, with truncating division written out.
- **The resource handlers** (`resources.dfy`, module `Resources`). These are the
  movie, review and comment endpoints as methods of a `ForumDb` class with three
  tables. They cover:
  - nested route scoping;
  - authorization and the owner-or-Admin edit check;
  - field overwrite on update;
  - create with identity ids;
  - delete, with the cascade that required relationships get.
- **Two client functions.**
  - The registration form's `validateInputs` (`register_form.dfy`, module
    `RegisterForm`). It is a method filling an errors map. Its e-mail pattern
    test is proved equal to the pattern's meaning, and its password chain is
    proved to report the first failing rule.
  - The movie form's `formatDuration` (`movie_form.dfy`, module `MovieForm`),
    over a JavaScript-style `split` with its join round-trip.

Shared vocabulary lives in `common.dfy` (module `Common`): `Option`, the result
statuses, tick constants, C#'s truncating `/` and `%`, the two white-space
classes and `IndexOf`.

Where the code and its comments disagree, the model follows the code:
- FluentValidation's `NotEmpty` also refuses white-space-only strings, so a text
  rule is stricter than its length bounds say.
- The refresh and logout guards reject tokens that parse, opposite to their
  comments. This is modelled as written.

The calls the core makes into code outside the model become parameters:
- the hash (`Hasher`);
- the token codec (`TokenCodec`);
- `Guid.Parse` (`GuidParser`);
- Identity's name normaliser, password hasher, password check and create
  validators (function fields of `UserManager`);
- the generated Guids and user ids (method parameters);
- the clock (`now`, `currentYear`).

Source paths below are relative to the repository root.

## Model

| member | source | states |
|---|---|---|
| Sessions.SessionService.CreateSession | MoviesReviewsPlatform/MoviesReviewsPlatform/Auth/SessionService.cs:12-24 | The new table is the old one plus exactly one record under the fresh id, with the given user and expiry, start time `now`, the hash of the token, and not revoked. The table stays keyed. |
| Sessions.SessionService.ExtendSession | MoviesReviewsPlatform/MoviesReviewsPlatform/Auth/SessionService.cs:26-33 | Requires the session to exist, since the fetched record is dereferenced unchecked. Only that record's expiry and token hash are replaced. |
| Sessions.SessionService.InvalidateSession | MoviesReviewsPlatform/MoviesReviewsPlatform/Auth/SessionService.cs:35-44 | The record, if present, gets its revoked flag set. A missing id leaves the table as it was. |
| Sessions.SessionService.IsSessionValid | MoviesReviewsPlatform/MoviesReviewsPlatform/Auth/SessionService.cs:46-50 | The answer is true iff the session exists, its expiry is strictly after `now`, it is not revoked, and its stored hash equals the hash of the presented token. A session found valid is the one asked for: its record carries that id, by the store's primary-key invariant. |
| Sessions.SessionValid | MoviesReviewsPlatform/MoviesReviewsPlatform/Auth/SessionService.cs:46-50 | Definition of the validity test; IsSessionValid is proved to return it. |
| Sessions.Inserted | MoviesReviewsPlatform/MoviesReviewsPlatform/Auth/SessionService.cs:12-24 | Definition of the table after a create; CreatedSessionIsValid and InsertedKeepsKeys state its properties. |
| Sessions.Extended | MoviesReviewsPlatform/MoviesReviewsPlatform/Auth/SessionService.cs:26-33 | Definition of the table after an extension; ExtendChangesOnlyExpiryAndToken, RotationRejectsOldToken, RotationAcceptsNewToken and ExtendKeepsRevoked state its properties. |
| Sessions.Invalidated | MoviesReviewsPlatform/MoviesReviewsPlatform/Auth/SessionService.cs:35-44 | Definition of the table after an invalidation; InvalidatedRejectsEveryToken and InvalidateProperties state its properties. |
| Sessions.CreatedSessionIsValid | MoviesReviewsPlatform/MoviesReviewsPlatform/Auth/SessionService.cs:14-49 | A just-created session whose expiry lies ahead accepts its token at every time before that expiry. It is not revoked, its start is `now`, and other sessions are unchanged. |
| Sessions.InsertedKeepsKeys | MoviesReviewsPlatform/MoviesReviewsPlatform/Auth/SessionService.cs:14-21 | Creating keeps every record stored under its own id. |
| Sessions.ExtendChangesOnlyExpiryAndToken | MoviesReviewsPlatform/MoviesReviewsPlatform/Auth/SessionService.cs:28-32 | Extending keeps the keys, the user, the start time and the revoked flag; other records are untouched. |
| Sessions.RotationRejectsOldToken | MoviesReviewsPlatform/MoviesReviewsPlatform/Auth/SessionService.cs:30-49 | After extending with a new token, a token whose hash differs from the new one is refused. |
| Sessions.RotationAcceptsNewToken | MoviesReviewsPlatform/MoviesReviewsPlatform/Auth/SessionService.cs:29-49 | After extending a non-revoked session, the new token is accepted before the new expiry. |
| Sessions.ExtendKeepsRevoked | MoviesReviewsPlatform/MoviesReviewsPlatform/Auth/SessionService.cs:26-49 | Extending a revoked session does not revive it: every token is refused. |
| Sessions.InvalidatedRejectsEveryToken | MoviesReviewsPlatform/MoviesReviewsPlatform/Auth/SessionService.cs:41-49 | After invalidation, no token is accepted at any time. |
| Sessions.InvalidateProperties | MoviesReviewsPlatform/MoviesReviewsPlatform/Auth/SessionService.cs:37-43 | Invalidation is a no-op on a missing id. Otherwise it sets only that record's flag, keeps the keys and other records, and is idempotent. |
| Sessions.ExpiryIsFinal | MoviesReviewsPlatform/MoviesReviewsPlatform/Auth/SessionService.cs:49 | A session valid at some time is valid at every earlier time; once expired, it stays expired. |
| Sessions.Run | MoviesReviewsPlatform/MoviesReviewsPlatform/Auth/SessionService.cs:26-44 | A history of rotations and revocations on one session keeps the table's key set and keeps it keyed. The session keeps its id, user and start time; RevocationIsTerminal adds that a revoked session stays revoked. |
| Sessions.RevocationIsTerminal | MoviesReviewsPlatform/MoviesReviewsPlatform/Auth/SessionService.cs:29-49 | Once revoked, a session stays revoked through any later history and accepts no token. |
| Sessions.OnlyLastRotationIsUsable | MoviesReviewsPlatform/MoviesReviewsPlatform/Auth/SessionService.cs:30-49 | After a history with at least one rotation, only a token hashing like the last rotated one can be accepted. |
| Sessions.NoRotationKeepsToken | MoviesReviewsPlatform/MoviesReviewsPlatform/Auth/SessionService.cs:41 | A history of revocations only leaves the stored token hash unchanged. |
| Sessions.RunTouchesOnlyItsSession | MoviesReviewsPlatform/MoviesReviewsPlatform/Auth/SessionService.cs:26-44 | A session's history keeps the table's keys and every other record. |
| Auth.UserManager.UserNamed | MoviesReviewsPlatform/MoviesReviewsPlatform/Auth/AuthEndpoints.cs:20-50 | The user found for a name is stored under its own id, its name normalises as the asked name does, and no other stored user's name does. |
| Auth.UserManager.FindByName | MoviesReviewsPlatform/MoviesReviewsPlatform/Auth/AuthEndpoints.cs:20-50 | Returns null iff no stored name normalises as the asked name does (so a case variant of a stored name is found); otherwise it returns that one user. |
| Auth.UserManager.NormalizedNameFindsUser | MoviesReviewsPlatform/MoviesReviewsPlatform/Auth/AuthEndpoints.cs:20-50 | A name that normalises like a stored user's name finds exactly that user, so a case variant of a taken name counts as taken and logs in as that user. |
| Auth.UserManager.Create | MoviesReviewsPlatform/MoviesReviewsPlatform/Auth/AuthEndpoints.cs:26-37 | Succeeds iff Identity's validators accept. On success it stores the user with the hash of the password; on failure nothing changes. Roles are unchanged. |
| Auth.UserManager.RolesOf | MoviesReviewsPlatform/MoviesReviewsPlatform/Auth/AuthEndpoints.cs:62 | `GetRolesAsync`: the user's roles, none for a user without an entry. Login and refresh pass them to the access token. |
| Auth.UserManager.AddToRole | MoviesReviewsPlatform/MoviesReviewsPlatform/Auth/AuthEndpoints.cs:39 | Adds the role to that user's roles and changes nothing else. |
| Auth.Register | MoviesReviewsPlatform/MoviesReviewsPlatform/Auth/AuthEndpoints.cs:17-43 | The cases, in source order:<br>- a null name makes `FindByNameAsync` throw: 500, no change;<br>- a taken name (one whose normalised form a stored user has, case variants included) gives 422 "User name already taken." with no change, whatever the password;<br>- a null password makes `CreateAsync` throw: 500, no change;<br>- a refused create gives 422 with no change;<br>- otherwise the user is created with exactly the PlatformUser role and the e-mail as given (null included), and the reply is Created with the user's id, name and e-mail. |
| Auth.Login | MoviesReviewsPlatform/MoviesReviewsPlatform/Auth/AuthEndpoints.cs:46-81 | A null name makes `FindByNameAsync` throw (500, no session). A name matching no stored user's normalised name, and a wrong password, give the same 422 message and create no session. A null password for an existing user makes `CheckPasswordAsync` throw (500, no session). On success, exactly one session is added under the fresh Guid, for the user, expiring `now` + 3 days. The refresh token is minted for that same session, user and expiry, and the cookie carries that token with that expiry. |
| Auth.RefreshWithClaims | MoviesReviewsPlatform/MoviesReviewsPlatform/Auth/AuthEndpoints.cs:98-134 | Null claims, and a SessionId claim that `Guid.Parse` refuses, give an unhandled exception (500) with no change. A blank SessionId claim, an invalid session or an unknown user give 422 with no change. Otherwise there is exactly one extension of that session, with the newly minted token and `now` + 3 days. That token goes into the cookie and a fresh access token into the body. |
| Auth.RejectedAsWritten | MoviesReviewsPlatform/MoviesReviewsPlatform/Auth/AuthEndpoints.cs:93 | The parse guard as written: it rejects exactly the tokens that parse. IssuedTokenPassesOnlyIntendedGuard shows what that does to an issued token. |
| Auth.RejectedAsIntended | MoviesReviewsPlatform/MoviesReviewsPlatform/Auth/AuthEndpoints.cs:93 | The guard its comment describes: it rejects exactly the tokens that do not parse. |
| Auth.IssuedTokenPassesOnlyIntendedGuard | MoviesReviewsPlatform/MoviesReviewsPlatform/Auth/AuthEndpoints.cs:63-96 | For a codec that round-trips, a refresh token issued before its expiry parses with the claims it was issued with. So the guard as written rejects it and the intended guard lets it through. |
| Auth.Refresh | MoviesReviewsPlatform/MoviesReviewsPlatform/Auth/AuthEndpoints.cs:84-135 | This is the handler as written. With no cookie, or a token that parses, it returns 422 with no change; otherwise it continues as RefreshWithClaims. Every refusal leaves the store alone. A success needs a token whose parse failed yet yielded claims, so with null-on-failure claims no refresh ever succeeds. |
| Auth.RefreshIntended | MoviesReviewsPlatform/MoviesReviewsPlatform/Auth/AuthEndpoints.cs:84-135 | This is the handler with the guard its comment describes. A success implies the presented token named a session that was valid for it. |
| Auth.LogoutWithClaims | MoviesReviewsPlatform/MoviesReviewsPlatform/Auth/AuthEndpoints.cs:153-162 | It revokes the session the claim parses to, without checking its validity, deletes the cookie and answers Ok. A blank claim gives 422 with no change. Null claims, and a claim `Guid.Parse` refuses, give 500 with nothing revoked and the cookie kept. |
| Auth.Logout | MoviesReviewsPlatform/MoviesReviewsPlatform/Auth/AuthEndpoints.cs:138-163 | This is the handler as written. With no cookie, or a token that parses, it returns 422 with no change; otherwise it continues as LogoutWithClaims. A success needs a token whose parse failed. |
| Auth.LogoutIntended | MoviesReviewsPlatform/MoviesReviewsPlatform/Auth/AuthEndpoints.cs:138-163 | This is the handler with the intended guard: a token that does not parse gets 422, one that parses continues as LogoutWithClaims. Any non-Ok reply leaves the store unchanged. |
| Auth.LoginAccepted | MoviesReviewsPlatform/MoviesReviewsPlatform/Auth/AuthEndpoints.cs:50-60 | Definition: the name finds a user and the password checks against that user's stored hash. Login's contract is stated in its terms. |
| Auth.RefreshGranted | MoviesReviewsPlatform/MoviesReviewsPlatform/Auth/AuthEndpoints.cs:105-115 | Definition: the session the claim parses to is valid for the presented token, and the sub claim names a stored user. |
| Auth.RefreshFromClaims | MoviesReviewsPlatform/MoviesReviewsPlatform/Auth/AuthEndpoints.cs:98-134 | Definition of the refresh handler after the guard, branch by branch in source order: null claims 500, blank claim 422, unparsable Guid 500, refused check 422, otherwise rotation. RefreshWithClaims is proved to meet it. |
| Auth.LogoutFromClaims | MoviesReviewsPlatform/MoviesReviewsPlatform/Auth/AuthEndpoints.cs:153-162 | Definition of the logout handler after the guard: null claims 500, blank claim 422, unparsable Guid 500, otherwise revocation with Ok and the cookie deleted. LogoutWithClaims is proved to meet it. |
| Auth.AsWrittenScenario | MoviesReviewsPlatform/MoviesReviewsPlatform/Auth/AuthEndpoints.cs:63-151 | The token a successful login issues is refused by refresh and by logout as written. The session stays valid and can be neither renewed nor ended. |
| Auth.RotationScenario | MoviesReviewsPlatform/MoviesReviewsPlatform/Auth/AuthEndpoints.cs:105-132 | With the intended guard, the login token refreshes once. The session then accepts the new token and refuses the old one, and a replay of the old token is refused. |
| Auth.LogoutScenario | MoviesReviewsPlatform/MoviesReviewsPlatform/Auth/AuthEndpoints.cs:159-162 | With the intended guard, logout revokes the session. A later refresh with the still-unexpired token is refused. |
| Validators.Passes | MoviesReviewsPlatform/MoviesReviewsPlatform/Program.cs:89-96 | What each check accepts. NotEmpty: a non-null string that is not blank. NotNull: a non-null string. Length: null, or a length within the bounds. GreaterThan and LessThan: a strict comparison of an int or a span. The Must check: BeValidDurationFormat. |
| Validators.ChainFailures | MoviesReviewsPlatform/MoviesReviewsPlatform/Program.cs:89-96 | Every reported failure names the rule's property and a check of the chain that refuses the value. There are none iff every check accepts. |
| Validators.NoFailuresIffAllPass | MoviesReviewsPlatform/MoviesReviewsPlatform/Program.cs:85-167 | A validator reports nothing iff every check of every rule accepts its property's value. |
| Validators.FailuresAreRefusals | MoviesReviewsPlatform/MoviesReviewsPlatform/Program.cs:85-167 | Every reported failure names a rule's property and a check of that rule that refuses the property's value. |
| Validators.DurationRuleIsPositivity | MoviesReviewsPlatform/MoviesReviewsPlatform/Program.cs:94-103 | The duration rule accepts exactly the positive spans. The format check holds for every positive span. |
| Validators.DurationFormatAcceptsNegativeSpan | MoviesReviewsPlatform/MoviesReviewsPlatform/Program.cs:99-103 | The format check accepts minus one minute; only the positivity check refuses it. |
| Validators.MovieAccepted | MoviesReviewsPlatform/MoviesReviewsPlatform/Program.cs:85-104 | A movie passes iff all of these hold: its name has 1..100 characters, its description and actors 2..300, and its director 2..100; none is null or blank; its year y has 1900 < y < currentYear + 1; and its duration is positive. |
| Validators.TextChainIsTextWithin | MoviesReviewsPlatform/MoviesReviewsPlatform/Program.cs:89-135 | `NotEmpty().NotNull().Length(min, max)` accepts exactly the non-null, non-blank strings whose length is in min..max. |
| Validators.CreateAndUpdateRulesAgree | MoviesReviewsPlatform/MoviesReviewsPlatform/Program.cs:85-167 | The create and update validators of each resource have identical rules and report identical failures. |
| Validators.ReviewAccepted | MoviesReviewsPlatform/MoviesReviewsPlatform/Program.cs:131-147 | A review passes iff its text is non-null, non-blank, 2..500 characters long, and its evaluation is in 1..10. |
| Validators.CommentAccepted | MoviesReviewsPlatform/MoviesReviewsPlatform/Program.cs:154-167 | A comment passes iff its text is non-null, non-blank and 2..500 characters long. |
| Validators.SpanMinutes | MoviesReviewsPlatform/MoviesReviewsPlatform/Program.cs:102 | `TimeSpan.Minutes`: whole minutes truncated toward zero, then C#'s `%` 60. DurationFormatAcceptsNegativeSpan and DurationRuleIsPositivity use it. |
| Validators.SpanHours | MoviesReviewsPlatform/MoviesReviewsPlatform/Program.cs:102 | `TimeSpan.Hours`: whole hours truncated toward zero, then C#'s `%` 24. |
| Validators.BeValidDurationFormat | MoviesReviewsPlatform/MoviesReviewsPlatform/Program.cs:99-103 | Definition of the Must check; DurationRuleIsPositivity proves it holds of every positive span. |
| Validators.Failures | MoviesReviewsPlatform/MoviesReviewsPlatform/Program.cs:85-167 | Definition of a validator run: each rule's failures, in rule order. NoFailuresIffAllPass and FailuresAreRefusals state its properties. |
| Validators.CreateMovieRules | MoviesReviewsPlatform/MoviesReviewsPlatform/Program.cs:85-97 | The six rules of CreateMovieDtoValidator, with their bounds. MovieAccepted gives their closed form. |
| Validators.UpdateMovieRules | MoviesReviewsPlatform/MoviesReviewsPlatform/Program.cs:106-118 | The six rules of UpdateMovieDtoValidator. CreateAndUpdateRulesAgree proves them equal to the create rules. |
| Validators.MovieFailures | MoviesReviewsPlatform/MoviesReviewsPlatform/Program.cs:85-97 | The create validator run on a movie body. MovieAccepted states when it is empty. |
| Validators.MovieUpdateFailures | MoviesReviewsPlatform/MoviesReviewsPlatform/Program.cs:106-118 | The update validator run on a movie body. CreateAndUpdateRulesAgree proves it equal to MovieFailures. |
| Validators.CreateReviewRules | MoviesReviewsPlatform/MoviesReviewsPlatform/Program.cs:131-138 | The two rules of CreateReviewDtoValidator. ReviewAccepted gives their closed form. |
| Validators.UpdateReviewRules | MoviesReviewsPlatform/MoviesReviewsPlatform/Program.cs:140-147 | The two rules of UpdateReviewDtoValidator, equal to the create rules by CreateAndUpdateRulesAgree. |
| Validators.ReviewFailures | MoviesReviewsPlatform/MoviesReviewsPlatform/Program.cs:131-138 | The create validator run on a review body. ReviewAccepted states when it is empty. |
| Validators.ReviewUpdateFailures | MoviesReviewsPlatform/MoviesReviewsPlatform/Program.cs:140-147 | The update validator run on a review body. CreateAndUpdateRulesAgree proves it equal to ReviewFailures. |
| Validators.CreateCommentRules | MoviesReviewsPlatform/MoviesReviewsPlatform/Program.cs:154-160 | The one rule of CreateCommentDtoValidator. CommentAccepted gives its closed form. |
| Validators.UpdateCommentRules | MoviesReviewsPlatform/MoviesReviewsPlatform/Program.cs:162-168 | The one rule of UpdateCommentDtoValidator, equal to the create rule by CreateAndUpdateRulesAgree. |
| Validators.CommentFailures | MoviesReviewsPlatform/MoviesReviewsPlatform/Program.cs:154-160 | The create validator run on a comment body. CommentAccepted states when it is empty. |
| Validators.CommentUpdateFailures | MoviesReviewsPlatform/MoviesReviewsPlatform/Program.cs:162-168 | The update validator run on a comment body. CreateAndUpdateRulesAgree proves it equal to CommentFailures. |
| Validators.BlankTextRefused | MoviesReviewsPlatform/MoviesReviewsPlatform/Program.cs:158 | Two spaces satisfy the length bounds but are refused as blank. |
| Validators.ValidationProblem | MoviesReviewsPlatform/MoviesReviewsPlatform/Program.cs:170-182 | There is a problem result iff there is a failure. It has status 422 and lists the failures. |
| Resources.Authorization | MoviesReviewsPlatform/MoviesReviewsPlatform/Endpoints.cs:64-91 | The PlatformUser role requirement lets a caller through iff it is authenticated and holds that role. |
| Resources.MayEdit | MoviesReviewsPlatform/MoviesReviewsPlatform/Endpoints.cs:98 | Definition of the edit check: the caller is Admin or the movie's owner. EditMovie's contract is stated in its terms. |
| Resources.ReviewInScope | MoviesReviewsPlatform/MoviesReviewsPlatform/Endpoints.cs:180 | Definition of the review route filter: the review exists and belongs to the route's movie. ScopeIsUnique and ScopeNamesExistingParents state its properties. |
| Resources.CommentInScope | MoviesReviewsPlatform/MoviesReviewsPlatform/Endpoints.cs:292 | Definition of the comment route filter: the comment exists, belongs to the route's review, and that review to the route's movie. CommentScopeNestsInReviewScope states its nesting. |
| Resources.ScopeIsUnique | MoviesReviewsPlatform/MoviesReviewsPlatform/Endpoints.cs:179-292 | A review is reachable under one movie only; a comment under one review and movie only. |
| Resources.CommentScopeNestsInReviewScope | MoviesReviewsPlatform/MoviesReviewsPlatform/Endpoints.cs:291-308 | A comment in scope hangs off a review that is in scope for the same movie. |
| Resources.UpdatesKeepScope | MoviesReviewsPlatform/MoviesReviewsPlatform/Endpoints.cs:223-337 | The updates move no review to another movie and no comment to another review. |
| Resources.DeleteMovieCascades | MoviesReviewsPlatform/MoviesReviewsPlatform/Endpoints.cs:119-129 | Deleting a movie removes exactly its reviews and the comments on them, and the tables stay linked. |
| Resources.DeleteReviewCascades | MoviesReviewsPlatform/MoviesReviewsPlatform/Endpoints.cs:234-244 | Deleting a review removes exactly its comments, and the tables stay linked. |
| Resources.ScopeNamesExistingParents | MoviesReviewsPlatform/MoviesReviewsPlatform/Endpoints.cs:179-293 | In linked tables, a routed review's movie exists, and a routed comment's review and movie exist. |
| Resources.ForumDb.GetMovie | MoviesReviewsPlatform/MoviesReviewsPlatform/Endpoints.cs:53-61 | Ok with the stored movie iff it exists, otherwise NotFound. |
| Resources.ForumDb.CreateMovie | MoviesReviewsPlatform/MoviesReviewsPlatform/Endpoints.cs:64-88 | An anonymous caller gets 401 and a caller without the role 403; an invalid body gets 422. A valid body with a null genre, or a caller with no sub, fails on save (NOT NULL columns) with 500 and nothing stored. Otherwise one movie is added under a fresh id, with the DTO's fields and the caller's sub as owner. Nothing else changes. |
| Resources.ForumDb.EditMovie | MoviesReviewsPlatform/MoviesReviewsPlatform/Endpoints.cs:91-116 | A missing movie, and a caller who is neither Admin nor the owner, both get NotFound and leave the table unchanged. A null genre fails on save (NOT NULL column) with 500 and no change. Otherwise exactly the seven content fields are overwritten, with id and owner kept. |
| Resources.ForumDb.DeleteMovie | MoviesReviewsPlatform/MoviesReviewsPlatform/Endpoints.cs:119-129 | With no ownership check, it removes that movie (with its reviews and their comments) if present, otherwise NotFound with nothing changed. |
| Resources.ForumDb.GetReview | MoviesReviewsPlatform/MoviesReviewsPlatform/Endpoints.cs:176-188 | Ok with the review iff it exists and belongs to the route's movie, otherwise NotFound. |
| Resources.ForumDb.CreateReview | MoviesReviewsPlatform/MoviesReviewsPlatform/Endpoints.cs:191-213 | An invalid body gets 422 and a missing movie NotFound, neither inserting anything. Otherwise one review is added under a fresh id, attached to that movie, dated `now`, owned by the caller's sub. |
| Resources.ForumDb.UpdateReview | MoviesReviewsPlatform/MoviesReviewsPlatform/Endpoints.cs:216-231 | Out of scope gives NotFound with no change. Otherwise text and evaluation are replaced and the date set to `now`, with the movie, owner and id kept. |
| Resources.ForumDb.DeleteReview | MoviesReviewsPlatform/MoviesReviewsPlatform/Endpoints.cs:234-244 | Out of scope gives NotFound with no change. Otherwise exactly that review and its comments are removed. |
| Resources.ForumDb.GetComment | MoviesReviewsPlatform/MoviesReviewsPlatform/Endpoints.cs:288-300 | Ok with the comment iff the comment, its review and the review's movie all match the route, otherwise NotFound. |
| Resources.ForumDb.CreateComment | MoviesReviewsPlatform/MoviesReviewsPlatform/Endpoints.cs:303-326 | A review not in scope gives NotFound with no insert. Otherwise one comment is added under a fresh id, on that review, dated `now`, owned by the caller's sub. |
| Resources.ForumDb.UpdateComment | MoviesReviewsPlatform/MoviesReviewsPlatform/Endpoints.cs:329-343 | Out of scope gives NotFound with no change. Otherwise the text is replaced and the date set to `now`, with the rest kept. |
| Resources.ForumDb.DeleteComment | MoviesReviewsPlatform/MoviesReviewsPlatform/Endpoints.cs:346-356 | Out of scope gives NotFound with no change. Otherwise exactly that comment is removed. |
| RegisterForm.ContainsClass | MoviesReviewsPlatform/MoviesReviewsPlatform/UI/app/src/components/Register.js:33-39 | `/[…]/.test(s)` is true iff some character of s is in the class. |
| RegisterForm.FirstFailing | MoviesReviewsPlatform/MoviesReviewsPlatform/UI/app/src/components/Register.js:31-41 | Returns none iff every rule holds. Otherwise it returns a rule that fails, with every earlier rule holding. |
| RegisterForm.PasswordError | MoviesReviewsPlatform/MoviesReviewsPlatform/UI/app/src/components/Register.js:31-41 | No password message iff the length is at least 8 and the password has an uppercase letter, a lowercase letter, a digit and one of `!@#$%^&*`. |
| RegisterForm.EarlierRuleWins | MoviesReviewsPlatform/MoviesReviewsPlatform/UI/app/src/components/Register.js:31-41 | The message is the one of the first failing rule, in the order length, uppercase, lowercase, digit, special. |
| RegisterForm.EmailTest | MoviesReviewsPlatform/MoviesReviewsPlatform/UI/app/src/components/Register.js:25-26 | The test holds iff the text is A@B.C, where A, B and C are non-empty and contain neither white space nor `@`. |
| RegisterForm.MatchesEmailPattern | MoviesReviewsPlatform/MoviesReviewsPlatform/UI/app/src/components/Register.js:25 | The meaning of the e-mail pattern: A@B.C with A, B and C non-empty runs of characters that are neither white space nor `@`. EmailTest is proved to decide it. |
| RegisterForm.ShapeAtFirstAt | MoviesReviewsPlatform/MoviesReviewsPlatform/UI/app/src/components/Register.js:25 | With i the first `@`, the pattern holds iff there is a non-empty run before i, and after i a run holding a `.` that is neither its first nor its last character. |
| RegisterForm.AcceptedEmailHasOneAt | MoviesReviewsPlatform/MoviesReviewsPlatform/UI/app/src/components/Register.js:25 | An accepted e-mail has exactly one `@`. |
| RegisterForm.ValidateInputs | MoviesReviewsPlatform/MoviesReviewsPlatform/UI/app/src/components/Register.js:16-51 | These hold, each independently of the others:<br>- the username key is recorded iff the name is shorter than 3;<br>- the email key iff the pattern fails;<br>- the password key iff a password rule fails, with the first failing rule's message;<br>- the confirmPassword key iff the two passwords differ;<br>- each key gets its message.<br>The result is true iff nothing was recorded, iff all the rules hold. |
| MovieForm.Split | MoviesReviewsPlatform/MoviesReviewsPlatform/UI/app/src/components/Movies.js:118 | `split(':')` gives one more piece than there are colons, and no piece holds a colon. |
| MovieForm.JoinSplit | MoviesReviewsPlatform/MoviesReviewsPlatform/UI/app/src/components/Movies.js:118 | Joining the pieces with the separator gives back the text. |
| MovieForm.SplitJoin | MoviesReviewsPlatform/MoviesReviewsPlatform/UI/app/src/components/Movies.js:118 | Splitting the join of separator-free pieces gives back the pieces. |
| MovieForm.FormatDuration | MoviesReviewsPlatform/MoviesReviewsPlatform/UI/app/src/components/Movies.js:116-125 | Definition of formatDuration over Split. OneColonGetsSeconds, TwoColonsKept, OtherwiseDefault, AlwaysThreePieces and FormatIsIdempotent state its behaviour. |
| MovieForm.OneColonGetsSeconds | MoviesReviewsPlatform/MoviesReviewsPlatform/UI/app/src/components/Movies.js:119-120 | An input with exactly two pieces `a:b` becomes `a:b:00`. |
| MovieForm.TwoColonsKept | MoviesReviewsPlatform/MoviesReviewsPlatform/UI/app/src/components/Movies.js:121-122 | An input with exactly three pieces is returned unchanged. |
| MovieForm.OtherwiseDefault | MoviesReviewsPlatform/MoviesReviewsPlatform/UI/app/src/components/Movies.js:118-124 | Any other piece count gives `00:00:00`. This includes text with no colon, such as the empty text, which splits into one piece. |
| MovieForm.AlwaysThreePieces | MoviesReviewsPlatform/MoviesReviewsPlatform/UI/app/src/components/Movies.js:116-125 | The result always splits into exactly three pieces. |
| MovieForm.FormatIsIdempotent | MoviesReviewsPlatform/MoviesReviewsPlatform/UI/app/src/components/Movies.js:116-125 | Formatting twice is formatting once. |

## Left out

- JWT creation and parsing (`JwtTokenService`) are not part of this model. The codec is three uninterpreted functions. `RoundTrips` states the one promise the scenarios use: a token the codec issued parses, before its expiry, with the claims it was issued with.
- `ToSHA256` is not part of this model. The hash is an arbitrary function, so "the old token is dead" needs distinct hashes as a hypothesis.
- ASP.NET Identity (`UserManager`, password hashing and validation, id generation) is abstracted. Its decisions are function fields, and generated ids are parameters required to be fresh. The lookup normaliser (upper case, invariant culture, by default) is the uninterpreted field `normalize`.
- Entity Framework persistence, `SaveChangesAsync`, transactions and async execution are not modelled: each request is one atomic step on in-memory maps. Concurrent requests are out of scope. The NOT NULL failures on save are modelled for the movie handlers: a null genre, and a null owner. A foreign-key failure, such as a sub that names no stored user, is not modelled.
- `ForumDbContext` declares no `Sessions` set; the session table is modelled on its own.
- The clock is a parameter. Each request reads one `now`; the validators read one `currentYear`.
- Pagination, ordering, link generation and response DTOs are left out, and so are the three list endpoints (movies, reviews of a movie, comments of a review). Their filters are the same conditions as `ReviewInScope` and `CommentInScope` without the row id.
- Response bodies of the resource handlers collapse to a status plus the row read. Cookie options (HttpOnly, SameSite, the missing Secure) are left out; only the cookie's value and expiry are kept.
- The refresh handler appends the cookie before extending the session. Nothing can fail between the two in the model, so the reply and the store change are stated together.
- `Guid.Parse` is not part of this model: it is an uninterpreted `GuidParser`, which gives None where .NET would throw. The Guid formats it accepts are left out.
- Auth.Register, Auth.Login: a request whose body is missing altogether gets ASP.NET's 400 before the handler runs; that binding step is not modelled. Fields left out of a body that is present are modelled as null.
- Auth.RefreshWithClaims: a missing sub claim is modelled as an unknown user (422). What `FindByIdAsync(null)` does is Identity's behaviour, not part of this model.
- Resources.ForumDb.DeleteMovie: the cascade to reviews and comments follows Entity Framework's convention for required relationships. No delete behaviour is configured in the code.
- Resources.ForumDb.CreateMovie: authorization (401/403) is modelled as running before the validation filter (422), as ASP.NET's middleware order does.
- Resources.ForumDb.EditMovie: authorization (401/403) runs before the validation filter (422) here too, for the same reason.
- `Review.cs` and `Comment.cs` declare no `UserId`, although the handlers set one; the model keeps the field.
- Lengths count Dafny characters (code points). .NET's `string.Length` and JavaScript's `length` count UTF-16 code units, so they differ on characters outside the Basic Multilingual Plane.
- `setValidationErrors` (React state) and everything else in the UI components apart from `validateInputs` and `formatDuration` are left out.
- Service registration, dependency injection and JWT bearer configuration in `Program.cs` are left out.
- Validators.ValidationProblem: `ProblemDetailsResultFactory` is registered for SharpGrip's auto-validation (`Program.cs`, lines 28-30), but the three route groups attach `.WithValidationFilter()` (`Endpoints.cs`, lines 23, 145 and 257). Which problem body a failing request actually receives depends on how those libraries are wired. The model assumes the factory's 422 shape and leaves that wiring out.

## Findings

| source | as written | input that shows it | evidently intended | confidence | as-written member | corrected member |
|---|---|---|---|---|---|---|
| MoviesReviewsPlatform/MoviesReviewsPlatform/Auth/AuthEndpoints.cs:93 | `if (TryParseRefreshToken(...)) return UnprocessableEntity` rejects every token that parses | the refresh token the login response set, presented before it expires | reject only tokens that fail to parse ("token no longer valid") | high; not executed | Auth.Refresh, Auth.AsWrittenScenario | Auth.RefreshIntended, Auth.RotationScenario |
| MoviesReviewsPlatform/MoviesReviewsPlatform/Auth/AuthEndpoints.cs:148 | the same inverted guard in logout, so an issued token can never end its session | the refresh token the login response set, presented before it expires | reject only tokens that fail to parse, then revoke the session | high; not executed | Auth.Logout, Auth.AsWrittenScenario | Auth.LogoutIntended, Auth.LogoutScenario |

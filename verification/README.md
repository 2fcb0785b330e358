# Vaulton: a verified model

Vaulton is a password manager whose server never sees a key. This project models its session
machine, its lockout policy, its key ladder, its byte codecs, its vault cache and its worker request
table in Dafny, and proves what they promise over every input and every run.

`dafny verify dfyconfig.toml` checks the whole project.

## What is modelled

- **Sessions.** `TokenTable` is the table of refresh-token rows with the store's calls as steps;
  `RefreshTokenStore` is the class that performs them in place, over the rows its request has read.
  `SessionMap` is the plain picture (a map of live sessions and a log of retired tokens) that the
  tombstoned table refines, the access check included; `SessionRefresh` makes a whole refresh, reply
  and reuse response, one operation on that map. `Lineage` follows each login's chain of rows and
  counts un-revoked ones. `Presentations` reads what one token's holder is told over a whole run, with
  the sliding grace window. `RefreshTokenText` and `Base64` cover the token's text form,
  and `SessionUse` what a client can do with the texts it holds.
- **Server.** `AuthService` gives each endpoint as a function of the database and the class whose
  methods do it statement by statement. `AuthRuns` proves what holds over runs of all endpoints:
  permanent cut-off, the attempt rate, the lock, stored shapes, look-alike refusals, the reuse
  response. There a refresh's rotation follows its lookup directly. `LockoutPolicy` is the shared
  counter and `LockHistory` tells it from the attempts, in numbers. `AccountSecrets` says for each
  endpoint which secrets it accepts, how it refuses the others, and which secrets an account answers to
  after each change.
- **Overlap.** `RefreshInterleaving` lets anything happen between a refresh's lookup and its rotation,
  which then decides on the row as the lookup returned it and writes over whatever is stored. What
  becomes of the promises of the session machine is said for one live row per login
  (`OverlapLineage`), the end of an account's sessions (`OverlapCutOff`, `OverlapOrigins`), the number
  of sessions (`OverlapCount`), the plain picture (`OverlapSessions`) and a holder's answers
  (`OverlapPresentations`); `SampleRuns` has runs from the empty server in which they fail.
  `AttemptInterleaving` takes attempts on one account apart in the same way, and
  `CredentialInterleaving` password changes and recoveries, with a run in `SampleChanges`.
- **Keys.** `Crypto` is a free term algebra, so that inverse and injectivity laws are proved, not
  assumed; `CryptoWorker` is the worker with its two held keys. `KeyLadder` runs honest clients
  against the server: every wrap ever stored opens to the master key drawn at registration, and
  credentials and wraps belong together while changes do not overlap. `KeyFlows`, `HonestWorlds`,
  `SessionWorlds` and the class `SessionService` carry that through the flows of the browser.
- **Bytes.** `Base64` and `AesGcmSplit` work on mutable arrays: the chunked conversion, copying
  slices, zeroing, joining.
- **Vault.** `VaultService` is the entry table; `VaultData` the plaintext cache beside it.
- **Worker requests.** `PendingRequests` is the table of requests with the browser's timers,
  promises and clock around it.

## Assumptions

- One store method, one `SaveChanges` and one worker message are atomic steps. A save that breaks the
  unique index on the token hash has the outcome `Threw` (an endpoint's `SaveFailed`) and changes
  nothing. The two saves of a password change or a recovery are one event; the second of them is also
  an event of its own (`DoEndSessions`).
- A request has one context (backend/Api/Program.cs:37, 84-86). A query returns a row the context
  already holds with the values it read before, and a save writes only the columns that changed, over
  the stored row; no column is a concurrency token.
- A `Rotate` of the token table is a lookup and its rotation with nothing in between. All results over
  store runs (`TokenTable`, `SessionMap`, `SessionRefresh`, `Lineage`, `Presentations`) and over server
  runs (`AuthRuns`) take the two together; `RefreshInterleaving` and the modules on overlap take them
  apart.
- In `AuthRuns` the guarded endpoints (login, wraps, password change, both recovery endpoints) are one
  event each, from loading the account to saving it, and so they are in `KeyLadder`. Nothing in the
  code enforces that; `AttemptInterleaving` takes loading and saving apart for the columns of the lock,
  `CredentialInterleaving` for accepted changes and recoveries. A wrap is one column there: a replaced
  one is written as a whole.
- Time is a parameter. Lemmas that need a clock that does not go back say so (`Ordered`); the
  permanent cut-off and the refused-refresh lemma need none.
- Access-token identifiers, requests, accounts, salts and wraps drawn at random are new when drawn.
  SHA-256 is a free constructor, so equal digests come from equal bytes.
- A loaded entity is an object of its own until it is saved; `SaveChanges` writes it back.
- Cryptography is symbolic except in `AesGcmSplit`, whose cipher is any pair of functions that meets
  `Lawful`; `LawIsSatisfiable` shows that there is one.
- The browser runs a timer when it is due; a promise keeps its first settlement. A request that fails
  leaves the server's vault entries as they were. JSON parsing undoes JSON printing.

## Findings

- The documentation says a revoked refresh token that is presented again ends all sessions of its
  account (docs/auth.md:317). The code does so if and only if the token is unexpired, was rotated
  (reason Regular) and was last touched at least five seconds ago
  (`RevokedTokenEndsSessionsExactlyOnReuse`; a run in which it does not:
  `RevokedTokenLeavesTheOtherSession`). The model follows the code.
- A refresh rotates the row as its lookup found it. When the row is revoked in between, the rotation
  goes through all the same:
  - the end of an account's sessions is final if and only if no refresh of the account is under way
    with a live, unexpired row (`CutOffExactlyWithNoneUnderWay`, `RefreshOutlivesLogoutAll`);
  - two overlapping refreshes of one token both rotate it and give one login two live rows, exactly
    under the condition of `FinishKeepsOneLiveExactly`, and over whole runs of
    `OneLiveThroughoutExactly` (`OverlapDoublesTheSession`, `OverlapBreaksOneLive`);
  - an account can have more sessions than logins. A rotation adds one exactly when its row was revoked
    since the lookup (`FinishCountsExactly`), so the bound is the logins and those rotations together
    (`NeverMoreThanLoginsAndLate`); the count goes from one to two in `OverlapDoublesTheSession` and
    from zero to one in `RefreshOutlivesLogoutAll`;
  - the table no longer is a session map whose refresh is one operation. It is one whose refreshes in
    flight remember what they saw (`OverlappingServerIsPlain`). For a live lookup the two agree if and
    only if the token is still live, or has expired (`LateRotationIsPlainExactly`), for a revoked one
    exactly under the condition of `LateHitIsPlainExactly`;
  - a token can be answered Rotated twice in a run, exactly when a refresh that looked it up live and in
    time ends with an unused new token when it is already rotated (`RotatedOnceExactly`);
  - a revocation reason is rewritten exactly under the condition of `FinishKeepsReasonsExactly`.
- Attempts on one account that overlap can save over each other's counter and lock. A mismatch loaded
  unlocked comes out as if loaded only at its save exactly under the condition of
  `FailureIsCurrentExactly`, other attempts under those of `SuccessIsCurrentExactly` and
  `LockedIsCurrentExactly`. The attempt rate holds when all do (`RateWhenCurrent`), as they do without
  overlap (`RateOneAtATime`); any number of mismatches loaded at one instant count as one
  (`BurstCountsOnce`).
- A password change or recovery that keeps the KDF mode it loaded does not write the mode. If
  another one has stored a different mode since, the new password side stands beside that mode and
  the new password no longer signs in. A save leaves the account in order if and only if its mode
  differs from the one loaded or equals the one stored (`LateSaveIsCoherentExactly`; over runs
  `AlwaysInOrderExactly`; a run: `OverlappingChangesMixModes`). The wraps stay sound all the same
  (`MasterKeySurvivesOverlap`).
- A revocation date does not always move forward, because the clock is read before the lookup
  (`RewindsExactlyWhenClockIsBehind`, `FinishRewindsExactly`, `OverlapDoublesTheSession`).
- Updating an own entry that did not decrypt makes the row readable while the cache goes on without
  it (`EditAgreesExactlyWhenCached`, `UpdateOfUnreadableRowIsNotShown`).
- With more than 200 entries a load leaves out the rest; the cache then agrees only if the rest is
  unreadable (`LoadAgreesExactlyWhenTheRestIsUnreadable`; a vault of 201 readable rows:
  `TheRowAfterTheFirstPageIsMissing`).
- A request whose message cannot be posted is rejected but stays in the table with its timer
  (`OnlyFailedPostsLinger`).

## Model

| member | source | states |
|---|---|---|
| `TokenTable.ApplyKeepsTable` | backend/Infrastructure/Services/Auth/RefreshTokenStore.cs:16-129 | every store call keeps token hashes unique and a revocation date present exactly when a reason is, keeps every row's identity and expiry, and never revives a row or rewrites a revoked row's reason |
| `TokenTable.RunKeepsTable` | backend/Infrastructure/Services/Auth/RefreshTokenStore.cs:16-129 | the same over every run of store calls |
| `TokenTable.ApplyMovesForward` | backend/Infrastructure/Services/Auth/RefreshTokenStore.cs:58-70 | no save moves a revocation date back while its clock reading is not behind the table |
| `TokenTable.RewindsExactlyWhenClockIsBehind` | backend/Infrastructure/Services/Auth/RefreshTokenStore.cs:56-70 | a presentation moves the tombstone back if and only if the row is known, unexpired, revoked, and the clock reading is older than the tombstone |
| `TokenTable.RunMovesForward` | backend/Infrastructure/Services/Auth/RefreshTokenStore.cs:53-129 | over every run with a non-decreasing clock revocation dates only move forward |
| `TokenTable.OtherAccountsUntouched` | backend/Infrastructure/Services/Auth/RefreshTokenStore.cs:96-129 | a store call leaves every row of every account but the one it works for exactly as it was |
| `TokenTable.CurrentRowRotates` | backend/Infrastructure/Services/Auth/RefreshTokenStore.cs:45-88 | a rotation that decides on a row nothing has changed since it was read is the rotation of the stored row |
| `SessionMap.SameAnswer` | backend/Infrastructure/Services/Auth/RefreshTokenStore.cs:37-94 | a table that shows a session map gives a presented token the status the map gives it: live, retired within the grace window, retired, or unknown (owner, reason and reply: SessionRefresh.SameReply) |
| `SessionMap.SameAdmission` | backend/Api/Program.cs:137-141 | the access check over tombstoned rows accepts exactly the (subject, jti) pairs of the live-session map |
| `SessionMap.StepRefines` | backend/Infrastructure/Services/Auth/RefreshTokenStore.cs:16-129 | each store call on the table is the matching map operation: login adds, refresh replaces, logout removes, revoke-all clears the account, a grace hit slides the log entry |
| `SessionMap.RunRefines` | backend/Infrastructure/Services/Auth/RefreshTokenStore.cs:16-129 | data refinement over every run of store calls (for refreshes that overlap: OverlapSessions) |
| `SessionMap.TableIsSessionMap` | backend/Infrastructure/Services/Auth/RefreshTokenStore.cs:16-129 | over runs of store calls from the empty table, the status of every later answer and every later access check are those of the plain map (for refreshes that overlap: OverlapSessions) |
| `AuthRuns.ServerIsSessionMap` | backend/Infrastructure/Services/Auth/AuthService.cs:78-185 | the same over every run of the endpoints in which no refresh is interrupted; OverlappingServerIsPlain covers the others |
| `SessionRefresh.SameReply` | backend/Infrastructure/Services/Auth/AuthService.cs:142-174 | a refresh is answered from the map alone: owner, new token, expiry and every refusal, that of the grace window included |
| `SessionRefresh.RefreshRefines` | backend/Infrastructure/Services/Auth/AuthService.cs:142-174 | a whole uninterrupted refresh, reuse response included, is one map operation: same reply, and the new rows show the new sessions |
| `SessionRefresh.ServerRefreshIsMapRefresh` | backend/Infrastructure/Services/Auth/AuthService.cs:78-185 | the same after every run of the endpoints from the empty database in which no refresh is interrupted |
| `SessionUse.OnlyBlankIsMissing` | backend/Infrastructure/Services/Auth/AuthService.cs:137-138 | empty texts and texts of spaces, tabs and line ends are answered MissingRefreshToken and change nothing; a text with a base64url letter never is |
| `SessionUse.TextRefreshIsMapRefresh` | backend/Infrastructure/Services/Auth/AuthService.cs:135-175 | the text of a token is answered from the session map, and the new rows show the new sessions |
| `SessionUse.TextIsExchangedExactly` | backend/Infrastructure/Services/Auth/AuthService.cs:135-175 | the text of a token is exchanged if and only if its row is live and unexpired and the new token is unused |
| `SessionUse.ExchangeHandsTheSessionOn` | backend/Infrastructure/Services/Auth/RefreshTokenStore.cs:69-88 | then its row ends as Regular, and the reply's two tokens lead to one new live row of the same account for seven days |
| `SessionUse.HandedOutTextIsExchangedExactly` | backend/Infrastructure/Services/Auth/AuthService.cs:135-175 | over every run of overlapping refreshes, the text of a token handed out is exchanged if and only if its row is live, seven days have not passed since, and the new token is unused |
| `SessionUse.PresentedAgain` | backend/Infrastructure/Services/Auth/RefreshTokenStore.cs:56-67 | an exchanged token presented again is answered RecentlyRevoked for five seconds; from then on, until it expires, it is refused and every session of its account ends |
| `SessionUse.AccessLastsExactly` | backend/Api/Program.cs:137-141 | an access token that one row carries is accepted if and only if it is asked for that row's account while the row is live and unexpired |
| `SessionUse.SignInOpensASession` | backend/Infrastructure/Services/Auth/AuthService.cs:121-128 | an accepted sign-in dates the account, clears its counter, adds one row usable for seven days by the tokens in its reply, and replies with the account's own two wraps |
| `SessionUse.SignOutEndsTheSession` | backend/Infrastructure/Services/Auth/RefreshTokenStore.cs:96-120 | a logout with the text of a live token ends that row as Security and no other, and the text is never exchanged afterwards |
| `SessionUse.SignOutOfNothing` | backend/Infrastructure/Services/Auth/RefreshTokenStore.cs:98-111 | a logout with a text that leads to no row changes nothing |
| `Lineage.OneLiveDescendant` | backend/Infrastructure/Services/Auth/RefreshTokenStore.cs:69-88 | over runs of store calls, at most one row along each login's chain is un-revoked and it is the newest (for refreshes that overlap: OverlapLineage) |
| `Lineage.RotationConserves` | backend/Infrastructure/Services/Auth/RefreshTokenStore.cs:69-88 | a rotation that decides on its row as stored, whatever its outcome, conserves every account's number of un-revoked rows (for one that decides on an earlier read: OverlapCount) |
| `Lineage.CountAfter` | backend/Infrastructure/Services/Auth/RefreshTokenStore.cs:16-129 | a mint adds one un-revoked row, a rotation none, a revocation takes at most one, a revoke-all leaves none |
| `Lineage.NeverMoreThanLogins` | backend/Infrastructure/Services/Auth/RefreshTokenStore.cs:16-129 | over runs of store calls an account has at most as many un-revoked rows as mints that were not refused since its last revoke-all (for refreshes that overlap: OverlapCount) |
| `Lineage.OnlyLaterLoginsLive` | backend/Infrastructure/Services/Auth/RefreshTokenStore.cs:122-129 | over runs of store calls, every un-revoked row after a revoke-all descends from a login made later (for refreshes that overlap: OverlapOrigins) |
| `Lineage.CountZero` | backend/Infrastructure/Services/Auth/RefreshTokenStore.cs:122-129 | a zero count says the same as no un-revoked row, in both directions |
| `Presentations.AnswersReadInOrder` | backend/Infrastructure/Services/Auth/RefreshTokenStore.cs:53-88 | over runs of store calls a token's answers read Rotated at most once, then RecentlyRevoked, then Revoked, then Invalid (for refreshes that overlap: OverlapPresentations) |
| `Presentations.BuriedRowTellsStory` | backend/Infrastructure/Services/Auth/RefreshTokenStore.cs:56-67 | over runs of store calls a revoked token's answers depend on the presentation times alone and follow a reference reading of the sliding window, whatever other calls come between |
| `Presentations.GraceWindowSlides` | backend/Infrastructure/Services/Auth/RefreshTokenStore.cs:58-64 | over runs of store calls an answer is RecentlyRevoked if and only if the token is unexpired and every consecutive gap since its revocation is under five seconds |
| `RefreshTokenStore.RefreshTokenStore.MintAsync` | backend/Infrastructure/Services/Auth/RefreshTokenStore.cs:16-35 | one new row for the digest of the fresh token, or no change when the unique index refuses it |
| `RefreshTokenStore.RefreshTokenStore.RotateAsync` | backend/Infrastructure/Services/Auth/RefreshTokenStore.cs:37-94 | table and result are those of a rotation that decides on the row as the request first read it and writes its changes over the stored one; undecodable text is Invalid |
| `RefreshTokenStore.RefreshTokenStore.RotateHash` | backend/Infrastructure/Services/Auth/RefreshTokenStore.cs:45-93 | the branches of a rotation, in order, on the row the context returns |
| `RefreshTokenStore.RefreshTokenStore.RevokeAsync` | backend/Infrastructure/Services/Auth/RefreshTokenStore.cs:96-120 | a row that is stored live is revoked as Security, anything else stays |
| `RefreshTokenStore.RefreshTokenStore.RevokeAllAsync` | backend/Infrastructure/Services/Auth/RefreshTokenStore.cs:122-129 | the bulk update revokes exactly the account's stored live rows, past anything the context holds |
| `RefreshTokenStore.RefreshTokenStore.GetUserIdByTokenAsync` | backend/Infrastructure/Services/Auth/RefreshTokenStore.cs:131-147 | the owner of the row the token decodes to, which the context holds from then on |
| `RefreshTokenStore.RefreshTokenStore.BeginRequest` | backend/Api/Program.cs:84-86 | each request has a store and a context of its own |
| `RefreshTokenStore.RefreshTokenStore.SingleOrDefault` | backend/Infrastructure/Services/Auth/RefreshTokenStore.cs:47-48 | a query returns the row the context already holds, with the values it read before, else the stored row |
| `RefreshTokenStore.RefreshTokenStore.Update` | backend/Infrastructure/Services/Auth/RefreshTokenStore.cs:61-62 | a save writes the columns that changed since the row was read over the stored row, whatever it has become |
| `RefreshTokenStore.CurrentReadRotates` | backend/Infrastructure/Services/Auth/AuthService.cs:142-150 | without anything in between, lookup and rotation of one request act on the stored row |
| `RefreshTokenStore.MintedTokenFindsItsRow` | backend/Infrastructure/Services/Auth/RefreshTokenStore.cs:18-48 | over runs of store calls, the text of a token minted at a sign-in selects exactly its own row, for its own account (for rotations and refreshes that overlap: RefreshInterleaving) |
| `RefreshTokenText.UrlRoundTrip` | backend/Infrastructure/Services/Auth/AuthCryptoHelpers.cs:93-125 | unpadded base64url (section 5 of RFC 4648) decodes back for every byte string |
| `RefreshTokenText.MintedTokenHashesBack` | backend/Infrastructure/Services/Auth/AuthCryptoHelpers.cs:78-125 | every minted token has 86 characters, passes the length gate and hashes to the stored digest |
| `RefreshTokenText.MintedTokensDiffer` | backend/Infrastructure/Services/Auth/AuthCryptoHelpers.cs:78-91 | tokens from different bytes differ as text and as digest |
| `RefreshTokenText.PaddedTokenHashesBack` | backend/Infrastructure/Services/Auth/AuthCryptoHelpers.cs:93-125 | a token with its padding written out hashes to the same digest |
| `RefreshTokenText.OnlySixtyFourBytesHash` | backend/Infrastructure/Services/Auth/AuthCryptoHelpers.cs:93-125 | exactly texts of 86 to 88 characters that decode to 64 bytes hash |
| `RefreshTokenText.BlankNeverHashes` | backend/Infrastructure/Services/Auth/RefreshTokenStore.cs:39-43 | text without a base64 letter never reaches a row, so the separate blank test changes nothing |
| `AuthService.AuthService.RegisterAsync` | backend/Infrastructure/Services/Auth/AuthService.cs:35-77 | the step-by-step registration is the specified state change and reply, errors included |
| `AuthService.AuthService.PreLoginAsync` | backend/Infrastructure/Services/Auth/AuthService.cs:187-205 | stored salt and mode for a known account, deterministic made-up ones otherwise |
| `AuthService.AuthService.LoginAsync` | backend/Infrastructure/Services/Auth/AuthService.cs:78-134 | a locked account is refused untouched, a mismatch is counted, a match clears the counter and mints a session in one save |
| `AuthService.AuthService.OpenSession` | backend/Infrastructure/Services/Auth/AuthService.cs:121-128 | clears the counter, dates the login and mints, all in one save or not at all |
| `AuthService.AuthService.RefreshAsync` | backend/Infrastructure/Services/Auth/AuthService.cs:135-175 | lookup, rotation and reuse response together are the specified refresh |
| `AuthService.AuthService.LogoutAsync` | backend/Infrastructure/Services/Auth/AuthService.cs:176-180 | ends the presented token's session only |
| `AuthService.AuthService.LogoutAllAsync` | backend/Infrastructure/Services/Auth/AuthService.cs:181-185 | ends all sessions of the account |
| `AuthService.AuthService.GetWrapsAsync` | backend/Infrastructure/Services/Auth/AuthService.cs:224-274 | wraps leave only for an unlocked account and a matching administrative proof |
| `AuthService.AuthService.ChangePasswordAsync` | backend/Infrastructure/Services/Auth/AuthService.cs:276-365 | replaces the password side, the recovery side only when both halves are sent, and ends all sessions |
| `AuthService.AuthService.GetRecoveryWrapsAsync` | backend/Infrastructure/Services/Auth/AuthService.cs:367-408 | real wraps for an accepted proof, made-up ones otherwise; a locked account's attempt still counts |
| `AuthService.AuthService.RecoverAsync` | backend/Infrastructure/Services/Auth/AuthService.cs:410-488 | replaces every credential and ends all sessions, or counts the attempt |
| `AuthService.LockedLeavesNoTrace` | backend/Infrastructure/Services/Auth/AuthService.cs:95-98 | at the three strict endpoints an attempt on a locked account changes nothing |
| `AccountSecrets.LoginAcceptedExactly` | backend/Infrastructure/Services/Auth/AuthService.cs:95-133 | a sign-in is accepted if and only if the account is unlocked, the proof is of its own base key and the drawn token is unused; the refusals by name |
| `AccountSecrets.WrapsReleasedExactly` | backend/Infrastructure/Services/Auth/AuthService.cs:224-274 | the wraps are released if and only if the account is unlocked and the proof is of its own base key, in either KDF mode; then they are the stored ones and the counter is clear |
| `AccountSecrets.ChangeAcceptedExactly` | backend/Infrastructure/Services/Auth/AuthService.cs:276-365 | a well-formed password change is accepted if and only if the account is unlocked and the proof is of its own base key |
| `AccountSecrets.RecoveryWrapsShownExactly` | backend/Infrastructure/Services/Auth/AuthService.cs:367-408 | the real recovery wraps are shown if and only if the account is unlocked and the proof is of its own recovery key, made-up ones otherwise |
| `AccountSecrets.RecoveryAcceptedExactly` | backend/Infrastructure/Services/Auth/AuthService.cs:410-488 | a well-formed recovery is accepted under the same condition |
| `AccountSecrets.WrongSecretCounts` | backend/Infrastructure/Services/Auth/AuthService.cs:107-118 | a wrong secret at any of the five endpoints adds exactly one failure, the seventh locks for 600 seconds; while locked the two recovery endpoints count any attempt and the other three leave no trace |
| `AccountSecrets.RegistrationSets` | backend/Infrastructure/Services/Auth/AuthService.cs:35-77 | a registration is accepted if and only if it is well-formed and the account new; then the account answers to exactly the sent proofs, salt, mode and wraps, with a clear counter |
| `AccountSecrets.ChangeSets` | backend/Infrastructure/Services/Auth/AuthService.cs:319-353 | after a change the account answers to exactly the sent proofs, salt, mode and wrap; its recovery side changes if and only if both halves were sent; its sessions have ended and other accounts stay |
| `AccountSecrets.RecoverySets` | backend/Infrastructure/Services/Auth/AuthService.cs:455-479 | after a recovery it answers to exactly the sent material on both sides, and its sessions have ended |
| `AccountSecrets.UnknownLooksKnown` | backend/Infrastructure/Services/Auth/AuthService.cs:195-205 | an unknown account is told a salt of its own of 16 bytes and the default mode, the same at any time, and its sign-ins are refused like a wrong password |
| `AccountSecrets.UnknownIsRefused` | backend/Infrastructure/Services/Auth/AuthService.cs:233-238 | at the other guarded endpoints it is said to be unknown, but for the recovery wraps, which are made up; nothing is stored |
| `AccountSecrets.MadeUpWraps` | backend/Infrastructure/Services/Auth/AuthCryptoHelpers.cs:36-76 | made-up wraps have real lengths, their halves differ in every part, they differ between proofs and accounts, and nothing opens them |
| `AccountSecrets.MalformedIsRefused` | backend/Infrastructure/Services/Auth/AuthCommandValidator.cs:27-80 | proofs of the wrong length, wrong shapes and schemas are refused by name before the account is looked at |
| `AccountSecrets.ShapesInNumbers` | backend/Infrastructure/Services/Auth/AuthCommandValidator.cs:71-112 | the shape check in bytes, both directions |
| `AuthRuns.RefreshIsItsStoreCalls` | backend/Infrastructure/Services/Auth/AuthService.cs:142-166 | an uninterrupted refresh of a known token is its rotation, followed exactly on reuse by the end of the sessions of the token's own account; any other token changes nothing |
| `AuthRuns.RunActs` | backend/Infrastructure/Services/Auth/AuthService.cs:78-185 | every server run with uninterrupted refreshes drives the table through a run of store calls in clock order |
| `AuthRuns.CutOffIsPermanent` | backend/Infrastructure/Services/Auth/AuthService.cs:349-353 | with no refresh interrupted: after a password change, recovery or logout-all no token with a row of the account is ever rotated or accepted again (for refreshes under way see OverlapCutOff) |
| `AuthRuns.OnlyLaterLoginsSurvive` | backend/Infrastructure/Services/Auth/AuthService.cs:475-479 | with no refresh interrupted, what the account can still use afterwards descends from later logins (for the others: OverlapOrigins) |
| `AuthRuns.NeverMoreSessionsThanLogins` | backend/Infrastructure/Services/Auth/AuthService.cs:121-128 | over every run in which no refresh is interrupted, an account has at most as many un-revoked rows as successful logins since its sessions were last ended (for the others: OverlapCount) |
| `AuthRuns.StepCounts` | backend/Infrastructure/Services/Auth/AuthService.cs:95-119 | each endpoint moves an account's counter, lock and credentials only by its own evaluated attempt, and a refused attempt releases and replaces nothing |
| `AuthRuns.RunCounts` | backend/Infrastructure/Services/Auth/AuthService.cs:78-488 | over every server run the lock state is the fold of the account's own attempts |
| `AuthRuns.CountersStaySane` | backend/Infrastructure/Services/Auth/LockoutPolicy.cs:14-25 | in every run the stored counter stays in 0..6 and no lock reaches further than ten minutes ahead |
| `AuthRuns.ServerAttemptRate` | backend/Infrastructure/Services/Auth/AuthService.cs:381-392 | on one account, across all five endpoints, with each loading and saving the account in one step, N open failures without a success take at least ten minutes for every seven after the first (for attempts that overlap: AttemptInterleaving) |
| `AttemptInterleaving.FailureIsCurrentExactly` | backend/Infrastructure/Services/Auth/LockoutPolicy.cs:14-25 | a mismatch on an account loaded unlocked is evaluated and saved as if loaded only now if and only if the account is still unlocked, the counter is the one loaded, and a date of the same clock reading, which is not written, is still there |
| `AttemptInterleaving.SuccessIsCurrentExactly` | backend/Infrastructure/Services/Auth/LockoutPolicy.cs:27-33 | a match is if and only if the account is still unlocked and what it found clear already is still clear |
| `AttemptInterleaving.LockedIsCurrentExactly` | backend/Infrastructure/Services/Auth/AuthService.cs:95-98 | an attempt on an account loaded locked is if and only if the lock lasts and, where the attempt still counts, the counter, its own date and its own lock are as loaded |
| `AttemptInterleaving.CurrentRun` | backend/Infrastructure/Services/Auth/AuthService.cs:86-119 | when every save comes out as if its account were loaded only then, overlapping attempts are the same attempts one after the other: same lock state, same open failures |
| `AttemptInterleaving.RateWhenCurrent` | backend/Infrastructure/Services/Auth/AuthService.cs:86-119 | then the attempt rate holds: ten minutes for every full seven open failures after the first |
| `AttemptInterleaving.RateOneAtATime` | backend/Infrastructure/Services/Auth/AuthService.cs:86-119 | it holds in particular when no attempt is loaded between another's load and save |
| `AttemptInterleaving.BurstCountsOnce` | backend/Infrastructure/Services/Auth/AuthService.cs:86-119 | it fails otherwise: any number of mismatches loaded together at one instant are all evaluated unlocked and count as one |
| `AuthRuns.NothingReleasedUnderLock` | backend/Infrastructure/Services/Auth/AuthService.cs:429-454 | while an account is locked no guarded endpoint releases wraps, opens a session or changes credentials, and the lock only moves later |
| `AuthRuns.ShapesHold` | backend/Infrastructure/Services/Auth/AuthCommandValidator.cs:71-112 | every stored account keeps the validated lengths, KDF mode and schema over every run |
| `AuthRuns.RefusedRecoveriesLookAlike` | backend/Infrastructure/Services/Auth/AuthService.cs:367-408 | any two databases, at any two times, that refuse a recovery proof answer it with equal replies |
| `AuthRuns.RealWrapsHaveFakeLengths` | backend/Infrastructure/Services/Auth/AuthCryptoHelpers.cs:31-76 | in every reachable state an accepted recovery reply has the field lengths of a refused one |
| `AuthRuns.ReuseEndsTheAccountsSessions` | backend/Infrastructure/Services/Auth/AuthService.cs:151-166 | an unexpired token rotated at least five seconds ago leaves its account without an un-revoked row and other accounts untouched |
| `AuthRuns.RevokedTokenEndsSessionsExactlyOnReuse` | backend/Infrastructure/Services/Auth/AuthService.cs:151-166 | presenting a revoked token leaves its account without an un-revoked row if and only if it had none before or the token is unexpired, was rotated, and was last touched at least five seconds ago |
| `AuthRuns.UnreusedTokenKeepsTheCount` | backend/Infrastructure/Services/Auth/AuthService.cs:151-174 | any other known token leaves every account's number of un-revoked rows as it was |
| `SampleRuns.RevokedTokenLeavesTheOtherSession` | docs/auth.md:317 | a run from the empty server in which a known revoked token is presented and its account's other session stays |
| `AuthRuns.EndedTokenChangesNoOtherRow` | backend/Infrastructure/Services/Auth/AuthService.cs:151-166 | a token ended as Security changes no other row and is refused |
| `RefreshInterleaving.NextKeepsInv` | backend/Infrastructure/Services/Auth/AuthService.cs:142-150 | with any calls between lookup and rotation, and a rotation that acts on the row of its lookup, every row holds the identifier of an access token issued for the row's account, and no revoked row is revived |
| `RefreshInterleaving.RunKeepsInv` | backend/Infrastructure/Services/Auth/AuthService.cs:135-175 | the same over every run of overlapping refreshes |
| `RefreshInterleaving.SubjectsAgree` | backend/Infrastructure/Services/Auth/RefreshTokenStore.cs:75-84 | the account an access token was issued for is the account of the row created for it |
| `RefreshInterleaving.RefusedRefreshIsNeverAccepted` | backend/Infrastructure/Services/Auth/AuthService.cs:147-174 | an access token made by a refresh that ends in refusal is never accepted, in any continuation |
| `RefreshInterleaving.FinishShape` | backend/Infrastructure/Services/Auth/RefreshTokenStore.cs:69-88 | a late rotation keeps the table in order, adds a row exactly when it rotates, and adds it for the account of the row it looked up |
| `RefreshInterleaving.RowStaysFound` | backend/Infrastructure/Services/Auth/RefreshTokenStore.cs:45-48 | over every run of overlapping refreshes a row stays where its digest leads, with its identity |
| `RefreshInterleaving.HandedOutTokenFindsItsRow` | backend/Infrastructure/Services/Auth/RefreshTokenStore.cs:75-88 | the text of every token handed out, at a sign-in or by a rotation, leads in every continuation to its own row, for its own account and beside its own access token |
| `RefreshInterleaving.TimelyFinishIsRotate` | backend/Infrastructure/Services/Auth/RefreshTokenStore.cs:45-88 | a late rotation that still finds its row live is the uninterrupted one |
| `RefreshInterleaving.FinishKeepsReasonsExactly` | backend/Infrastructure/Services/Auth/RefreshTokenStore.cs:69-70 | a reason is rewritten if and only if a rotation goes through whose row was revoked as Security since the lookup |
| `RefreshInterleaving.FinishRewindsExactly` | backend/Infrastructure/Services/Auth/RefreshTokenStore.cs:58-70 | a late rotation dates the tombstone back if and only if it writes a date older than the one stored since its lookup |
| `OverlapLineage.FinishKeepsOneLiveExactly` | backend/Infrastructure/Services/Auth/RefreshTokenStore.cs:69-88 | a login gets a second live row if and only if a rotation goes through although its row was revoked since the lookup and the login has a live row by then |
| `OverlapLineage.OneLiveThroughoutExactly` | backend/Infrastructure/Services/Auth/RefreshTokenStore.cs:69-88 | over every run of overlapping refreshes, each login has at most one live row at all times if and only if no rotation comes too late for a login that has a live row |
| `OverlapLineage.TimelyRunsKeepChains` | backend/Infrastructure/Services/Auth/RefreshTokenStore.cs:69-88 | as long as every rotation that goes through still finds its row live, overlapping refreshes keep one live descendant per login, and no reason is rewritten |
| `OverlapCount.FinishCountsExactly` | backend/Infrastructure/Services/Auth/RefreshTokenStore.cs:69-88 | the end of a refresh keeps its account's number of un-revoked rows if and only if it does not go through on a row revoked since the lookup; then it adds one; other accounts keep theirs |
| `OverlapCount.NeverMoreThanLoginsAndLate` | backend/Infrastructure/Services/Auth/RefreshTokenStore.cs:69-88 | over every run of overlapping refreshes an account has at most as many un-revoked rows as successful logins and such late rotations since its sessions were last ended |
| `OverlapCount.NeverMoreThanLoginsWhenTimely` | backend/Infrastructure/Services/Auth/AuthService.cs:121-128 | while every rotation that goes through still finds its row live, the successful logins alone bound the number |
| `OverlapSessions.LateRefines` | backend/Infrastructure/Services/Auth/RefreshTokenStore.cs:45-88 | a rotation that decides on its earlier read is one operation on the session map: it answers from what it saw, retires that token whatever has become of it and adds the new session, or slides the window |
| `OverlapSessions.SameLateReply` | backend/Infrastructure/Services/Auth/AuthService.cs:147-174 | the reply to it, and whether it goes on to end the account's sessions, are told from what it saw and whether the new token is taken |
| `OverlapSessions.RunPictures` | backend/Infrastructure/Services/Auth/AuthService.cs:135-175 | data refinement over every run of overlapping refreshes, with what each refresh in flight saw as part of the plain state |
| `OverlapSessions.OverlappingServerIsPlain` | backend/Infrastructure/Services/Auth/AuthService.cs:142-174 | however refreshes overlap from the empty server on, every access check, the answer to any presented token and the answer to every refresh in flight are those of the plain state |
| `OverlapSessions.LateAnswerIsCurrentExactly` | backend/Infrastructure/Services/Auth/RefreshTokenStore.cs:53-70 | a refresh is answered as if it looked its token up only now if and only if the token has expired, is still live, or was revoked at the lookup with a date on the same side of the grace window |
| `OverlapSessions.LateRotationIsPlainExactly` | backend/Infrastructure/Services/Auth/RefreshTokenStore.cs:69-88 | for a token looked up live, answer and effect are those of the uninterrupted map operation if and only if the token is still live or has expired |
| `OverlapSessions.LateHitIsPlainExactly` | backend/Infrastructure/Services/Auth/RefreshTokenStore.cs:53-67 | for a token looked up revoked, answer and effect are those of the uninterrupted map operation if and only if the token has expired, or its date is on the same side of the grace window as then and, when it was the clock reading itself, still is |
| `OverlapPresentations.RotatedOnceExactly` | backend/Infrastructure/Services/Auth/RefreshTokenStore.cs:69-88 | over every run of overlapping refreshes a token is rotated at most once if and only if no refresh that looked it up live and in time, with an unused new token, ends when it is already rotated |
| `OverlapPresentations.RegularMeansRotated` | backend/Infrastructure/Services/Auth/RefreshTokenStore.cs:69-70 | over every run of overlapping refreshes a token's row has the reason Regular if and only if it had it before or some refresh of the token was answered Rotated |
| `OverlapPresentations.LateAnswersReadInOrder` | backend/Infrastructure/Services/Auth/RefreshTokenStore.cs:53-88 | however refreshes overlap and whatever clocks other calls read, while the refreshes of a token end in the order in which they started and each is answered as if it looked the token up only now, its answers read Rotated at most once, then RecentlyRevoked, then Revoked, then Invalid |
| `OverlapPresentations.LateStory` | backend/Infrastructure/Services/Auth/RefreshTokenStore.cs:56-67 | while each refresh of a revoked token finds the row as it looked it up, its answers depend on the presentation times alone |
| `OverlapPresentations.LateGraceWindowSlides` | backend/Infrastructure/Services/Auth/RefreshTokenStore.cs:58-64 | while the refreshes of a revoked token end in the order in which they started and each finds the row as it looked it up, an answer is RecentlyRevoked if and only if the token is unexpired and every consecutive gap since its revocation is under five seconds, whatever clocks other calls read |
| `OverlapPresentations.UndisturbedRunsAreStoreRuns` | backend/Infrastructure/Services/Auth/AuthService.cs:142-150 | a run in which every refresh finds its row as it looked it up drives the table through a run of store calls, so whatever holds over those holds of it |
| `OverlapCutOff.CutOffWithNoneUnderWay` | backend/Infrastructure/Services/Auth/AuthService.cs:349-353 | when the end of an account's sessions finds no refresh of the account under way, no access token ever issued to it, with a row or without, is accepted again and no token it held is rotated again, in any continuation |
| `OverlapCutOff.RefreshUnderWaySurvives` | backend/Infrastructure/Services/Auth/AuthService.cs:142-150 | a refresh that looked its row up live and in time is accepted after the end of its account's sessions |
| `OverlapCutOff.CutOffExactlyWithNoneUnderWay` | backend/Infrastructure/Services/Auth/AuthService.cs:181-185 | the cut-off lasts in every continuation if and only if no refresh of the account was under way |
| `OverlapOrigins.OnlyLaterLoginsSurviveOverlap` | backend/Infrastructure/Services/Auth/AuthService.cs:475-479 | when the end of an account's sessions finds no refresh of it under way, every un-revoked row it has in any continuation, overlaps included, descends from a login made later |
| `SampleRuns.OverlapDoublesTheSession` | backend/Infrastructure/Services/Auth/AuthService.cs:142-150 | a run from the empty server: one sign-in, two overlapping refreshes, and the number of un-revoked rows goes from one to two, with two accepted access tokens and a tombstone dated back |
| `SampleRuns.OverlapBreaksOneLive` | backend/Infrastructure/Services/Auth/AuthService.cs:142-150 | in that run both live rows descend from the one login |
| `SampleRuns.RefreshOutlivesLogoutAll` | backend/Infrastructure/Services/Auth/AuthService.cs:142-150 | a run from the empty server: a refresh around a logout-all ends with an accepted session, the number of un-revoked rows goes from zero to one, and the ended row's reason turns from Security to Regular |
| `LockoutPolicy.RegisterFailedLogin` | backend/Infrastructure/Services/Auth/LockoutPolicy.cs:14-25 | counts to seven, then locks for ten minutes and restarts at zero |
| `LockoutPolicy.RegisterSuccessfulLogin` | backend/Infrastructure/Services/Auth/LockoutPolicy.cs:27-33 | clears counter, date and lock |
| `LockoutPolicy.LockHolds` | backend/Infrastructure/Services/Auth/LockoutPolicy.cs:11-25 | until the lock's end no attempt is accepted and the lock never gets earlier |
| `LockoutPolicy.EightSpanTenMinutes` | backend/Infrastructure/Services/Auth/LockoutPolicy.cs:14-25 | any eight open failures without a success between them span at least ten minutes, although recovery attempts during a lock also count |
| `LockoutPolicy.AttemptRate` | backend/Infrastructure/Services/Auth/LockoutPolicy.cs:8-25 | n+1 open failures take at least ten minutes for every full seven of n |
| `LockHistory.LockIsItsHistory` | backend/Infrastructure/Services/Auth/LockoutPolicy.cs:8-33 | over every run of attempts the stored counter is the number of counted failures since the last success modulo seven, and an attempt is accepted if and only if it matches outside the 600 seconds after a seventh failure |
| `LockHistory.SixFailuresLeaveItOpen` | backend/Infrastructure/Services/Auth/LockoutPolicy.cs:14-25 | any run of at most six attempts on a clear account leaves it open, and a matching attempt is then accepted and clears it |
| `LockHistory.SeventhFailureLocks` | backend/Infrastructure/Services/Auth/LockoutPolicy.cs:20-24 | the seventh mismatch locks for 600 seconds and restarts the counter; a match is refused before the end and accepted from it on |
| `LockHistory.LocksExactlyAtTheSeventh` | backend/Infrastructure/Services/Auth/LockoutPolicy.cs:14-25 | over runs an attempt sets the lock if and only if it counts as a failure and six have counted since the last success or lock |
| `LockHistory.ServerLockIsItsHistory` | backend/Infrastructure/Services/Auth/AuthService.cs:78-488 | the same over server runs, for each account's own attempts at all five endpoints |
| `Base64.UnpackPack` | frontend/vaulton-web/src/app/core/crypto/b64.ts:7-11 | regrouping bytes into 6-bit groups and back is the identity |
| `Base64.DecodeEncode` | frontend/vaulton-web/src/app/core/crypto/b64.ts:1-15 | section 4 of RFC 4648 decoding undoes encoding, padding included, for every byte sequence |
| `Base64.StandardTexts` | frontend/vaulton-web/src/app/core/crypto/b64.ts:1-8 | the texts of section 10 of RFC 4648 |
| `Base64.VariantLetters` | backend/Infrastructure/Services/Auth/AuthCryptoHelpers.cs:83 | both alphabets at the ends of their runs |
| `Base64.ForeignIsRefused` | frontend/vaulton-web/src/app/core/crypto/b64.ts:10-15 | a character that is no letter, padding or white space makes a text malformed |
| `Base64.BytesToB64` | frontend/vaulton-web/src/app/core/crypto/b64.ts:1-8 | the 8192-byte chunk loop gives the encoding of the whole array |
| `Base64.B64ToBytes` | frontend/vaulton-web/src/app/core/crypto/b64.ts:10-15 | the decoded bytes, or a failure exactly for malformed text |
| `Base64.Transport` | frontend/vaulton-web/src/app/core/crypto/b64.ts:1-15 | b64ToBytes(bytesToB64(x)) has the contents of x |
| `AesGcmSplit.Zeroize` | frontend/vaulton-web/src/app/core/crypto/zeroize.ts:1-4 | every byte is zero afterwards |
| `AesGcmSplit.EncryptSplit` | frontend/vaulton-web/src/app/core/crypto/aesgcm-split.ts:5-25 | nonce, cipher text and tag of 12, |plain text| and 16 bytes that stay intact when the joined buffer is zeroed |
| `AesGcmSplit.DecryptSplit` | frontend/vaulton-web/src/app/core/crypto/worker/crypto.worker.ts:421-450 | joining the received parts and opening them gives the cipher's answer; malformed text is refused |
| `AesGcmSplit.SealAndOpen` | frontend/vaulton-web/src/app/core/crypto/worker/crypto.worker.ts:381-450 | seal, split, clear, send, join, open is the identity for every key, plain text and AAD (section 7 of NIST SP 800-38D) |
| `Crypto.OpenInvertsSeal` | frontend/vaulton-web/src/app/core/crypto/worker/crypto.worker.ts:588-650 | a value opens to a text exactly when it is the seal of that text under that key and AAD |
| `Crypto.OpenIsUnique` | frontend/vaulton-web/src/app/core/crypto/worker/crypto.worker.ts:588-650 | two openings of one value agree on key, AAD and text |
| `Crypto.InfoTextInjective` | frontend/vaulton-web/src/app/core/crypto/worker/crypto.worker.ts:208-330 | the seven HKDF info strings are pairwise different |
| `Crypto.AadTextInjective` | frontend/vaulton-web/src/app/core/crypto/worker/crypto.worker.ts:208-221 | the AAD texts determine purpose, schema, account and entry |
| `CryptoWorker.CryptoWorker.HandleRegister` | frontend/vaulton-web/src/app/core/crypto/worker/crypto.worker.ts:208-292 | password and recovery material around one fresh master key |
| `CryptoWorker.CryptoWorker.HandleLogin` | frontend/vaulton-web/src/app/core/crypto/worker/crypto.worker.ts:294-322 | remembers the base key and returns its login proof |
| `CryptoWorker.CryptoWorker.HandleFinalizeLogin` | frontend/vaulton-web/src/app/core/crypto/worker/crypto.worker.ts:324-355 | holds the vault key of the opened master key, or drops both keys |
| `CryptoWorker.CryptoWorker.HandleClearKeys` | frontend/vaulton-web/src/app/core/crypto/worker/crypto.worker.ts:357-360 | drops both keys |
| `CryptoWorker.CryptoWorker.HandleActivatePasscode` | frontend/vaulton-web/src/app/core/crypto/worker/crypto.worker.ts:452-499 | the local wrap opens under the passcode to what the password opened |
| `CryptoWorker.CryptoWorker.HandleUnlockViaPasscode` | frontend/vaulton-web/src/app/core/crypto/worker/crypto.worker.ts:501-529 | holds the vault key exactly when the passcode opens the wrap |
| `CryptoWorker.CryptoWorker.HandleExecuteRekey` | frontend/vaulton-web/src/app/core/crypto/worker/crypto.worker.ts:531-586 | new password material around the same master key, or nothing |
| `CryptoWorker.CryptoWorker.HandleRecover` | frontend/vaulton-web/src/app/core/crypto/worker/crypto.worker.ts:652-743 | new password and recovery material around the same master key, or nothing |
| `CryptoWorker.CryptoWorker.HandleEncryptEntry` | frontend/vaulton-web/src/app/core/crypto/worker/crypto.worker.ts:381-419 | only with a held key, and the result opens to the plain text under it |
| `CryptoWorker.CryptoWorker.HandleDecryptEntry` | frontend/vaulton-web/src/app/core/crypto/worker/crypto.worker.ts:421-450 | opens under the held key only |
| `CryptoWorker.HonestMaterialIsValid` | backend/Core/Crypto/CryptoValidators.cs:5-17 | everything an honest client builds around a 32-byte key passes the server's shape check, for registrations, recoveries and changes with or without the recovery halves |
| `CryptoWorker.KeysAreNoProofs` | frontend/vaulton-web/src/app/core/crypto/worker/crypto.worker.ts:208-292 | the keys behind wraps and entries differ from each other, from every proof sent and from what a server stores of one |
| `KeyLadder.NextKeepsInv` | frontend/vaulton-web/src/app/core/crypto/worker/crypto.worker.ts:208-292 | every move of honest clients, each change or recovery loading and saving the account in one step, and any call of others that leaves honest accounts' credentials alone, keeps: stored wraps open to the registration key, credentials and wraps come from one password and one recovery key (for changes that overlap: CredentialInterleaving) |
| `KeyLadder.MasterKeyPreserved` | frontend/vaulton-web/src/app/core/crypto/worker/crypto.worker.ts:531-586 | over any honest run every wrap ever stored, current or outdated, opens under its own credential to the master key drawn at registration |
| `KeyLadder.EveryUnlockGivesTheVaultKey` | docs/crypto.md:76 | whatever credential opens a stored wrap yields the account's one vault key |
| `KeyLadder.AcceptedLoginUnlocks` | frontend/vaulton-web/src/app/core/auth/session.service.ts:76-93 | a login the server accepts comes from the base key that opens the wrap it returns |
| `KeyLadder.AcceptedAdminProofUnlocks` | frontend/vaulton-web/src/app/features/settings/components/rekey-vault/rekey-vault.component.ts:158-174 | an accepted administrative proof comes from the base key that opens the returned wrap |
| `KeyLadder.RecoveryWrapOpensExactlyWhenAccepted` | backend/Infrastructure/Services/Auth/AuthService.cs:367-408 | the shown recovery wrap opens under the recovery key if and only if the server accepted its proof |
| `KeyLadder.EntriesSurviveKeyChanges` | docs/crypto.md:76 | an entry sealed before a password change or recovery opens under the key every later wrap yields |
| `CredentialInterleaving.UndisturbedSave` | backend/Infrastructure/Services/Auth/AuthService.cs:276-353 | a save that finds the account as it was loaded is the change or recovery done at once |
| `CredentialInterleaving.NextKeepsInv` | backend/Infrastructure/Services/Auth/AuthService.cs:276-488 | with anything between the load and the save of a change or recovery, every account stays as if all its columns were always written, but for the mode |
| `CredentialInterleaving.MasterKeySurvivesOverlap` | frontend/vaulton-web/src/app/core/crypto/worker/crypto.worker.ts:531-586 | however changes and recoveries overlap, every wrap ever stored opens under its own credential to the master key drawn at registration |
| `CredentialInterleaving.MatchingProofOpensInOverlap` | backend/Infrastructure/Services/Auth/AuthService.cs:276-488 | however changes and recoveries overlap, a proof that matches an account comes from the secret that opens the wrap stored beside its verifier |
| `CredentialInterleaving.LateSaveIsCoherentExactly` | backend/Infrastructure/Services/Auth/AuthService.cs:333 | a late save leaves credentials that belong together if and only if the new mode differs from the one loaded, and so is written, or equals the one stored |
| `CredentialInterleaving.PasswordMatchesExactlyInOrder` | backend/Infrastructure/Services/Auth/AuthService.cs:187-205 | the password behind the login verifier, with the salt and mode the server tells, matches if and only if the credentials belong together |
| `CredentialInterleaving.AlwaysInOrderExactly` | backend/Infrastructure/Services/Auth/AuthService.cs:333 | over every run of overlapping changes and recoveries, the credentials of all honest accounts belong together at all times if and only if every save meets that condition |
| `SampleChanges.ClashMixesModes` | backend/Infrastructure/Services/Auth/AuthService.cs:322-345 | of two accepted changes of one account loaded together, one to another mode saved first and one that keeps the mode saved second leave credentials that do not belong together |
| `SampleChanges.OverlappingChangesMixModes` | backend/Infrastructure/Services/Auth/AuthService.cs:322-345 | a run from the empty server in which the password of the second change does not match afterwards |
| `KeyFlows.MasterKeyHasItsLength` | frontend/vaulton-web/src/app/core/crypto/worker/crypto.worker.ts:588-650 | master keys behind stored wraps have 32 bytes |
| `KeyFlows.RekeyGoesThrough` | frontend/vaulton-web/src/app/features/settings/components/rekey-vault/rekey-vault.component.ts:158-190 | once the current password's proof is accepted the worker opens the wrap and the server accepts the change |
| `KeyFlows.RecoveryGoesThrough` | frontend/vaulton-web/src/app/core/auth/session.service.ts:248-272 | a client gets past the recovery wraps exactly when its proof was accepted, and then the recovery is accepted |
| `HonestWorlds.ReachableIsSound` | backend/Infrastructure/Services/Auth/AuthService.cs:319-349 | every world an honest run reaches has coherent credentials, sound wraps and validated shapes |
| `HonestWorlds.OpensToMasterKey` | frontend/vaulton-web/src/app/core/auth/session.service.ts:133-158 | in every world an honest run reaches, a password, recovery key or passcode that opens any wrap a client can hold, outdated ones included, gives that account's master key |
| `SessionWorlds.OnlyThatPasswordMatches` | backend/Infrastructure/Services/Auth/AuthService.cs:322-334 | stored verifiers match the proofs of their own base key and of no other |
| `SessionWorlds.OnlyThatRecoveryKeyMatches` | backend/Infrastructure/Services/Auth/AuthService.cs:459-464 | the stored recovery verifier matches its own recovery key and no other |
| `SessionWorlds.LoginFlow` | frontend/vaulton-web/src/app/core/auth/session.service.ts:76-93 | an accepted login's wrap opens and is a stored one |
| `SessionWorlds.RekeyFlow` | frontend/vaulton-web/src/app/features/settings/components/rekey-vault/rekey-vault.component.ts:158-190 | the returned wrap opens exactly for the bundle's own account, and the change is then accepted and leaves only the new password matching |
| `SessionWorlds.RecoverFlow` | frontend/vaulton-web/src/app/core/auth/session.service.ts:248-272 | the same for a recovery, with the new recovery key |
| `SessionWorlds.LogsInExactlyWithThePassword` | backend/Infrastructure/Services/Auth/AuthService.cs:95-133 | with the account unlocked a login is accepted exactly for the account's password |
| `SessionWorlds.SignsInExactlyWithThePassword` | frontend/vaulton-web/src/app/core/auth/session.service.ts:76-106 | the condition the sign-in flow states holds if and only if the password is the account's, the account is unlocked and the drawn token is unused |
| `SessionWorlds.OpensForGood` | frontend/vaulton-web/src/app/core/auth/session.service.ts:133-140 | what opens a bundle opens it in every later world, to the same master key |
| `SessionWorlds.RegisterFlow` | frontend/vaulton-web/src/app/core/auth/session.service.ts:114-120 | a registration is accepted exactly for a supported schema and a new account, and leaves the drawn key, the password and the recovery key |
| `SessionService.SessionService.Register` | frontend/vaulton-web/src/app/core/auth/session.service.ts:108-131 | registers and signs in; the client gets the recovery key the account was given, and with a successful sign-in the vault key and a bundle its password opens |
| `SessionService.SessionService.Login` | frontend/vaulton-web/src/app/core/auth/session.service.ts:76-106 | succeeds if and only if the account is unlocked and known, the password proves itself and the drawn token is unused; then the worker holds the vault key, the cookie is the new token, and the saved bundle has the account's salt, mode, schema and wraps and opens with the password |
| `SessionService.SessionService.Unlock` | frontend/vaulton-web/src/app/core/auth/session.service.ts:133-147 | from a bundle, however outdated, succeeds exactly when the password opens it, and keeps it; without one it is a sign-in of the saved account; either way the worker holds that account's vault key |
| `SessionService.SessionService.Lock` | frontend/vaulton-web/src/app/core/auth/session.service.ts:160-169 | forgets both keys; bundle, passcodes and sign-in stay |
| `SessionService.SessionService.UnlockViaPasscode` | frontend/vaulton-web/src/app/core/auth/session.service.ts:149-158 | succeeds exactly when the passcode opens the saved wrap, and gives the same vault key; a wrong passcode drops the held key |
| `SessionService.SessionService.FinishPasscodeSetup` | frontend/vaulton-web/src/app/features/settings/components/passcode-setup/passcode-setup.component.ts:74-99 | succeeds exactly when the current password proves itself to the unlocked account of the bundle; the saved wrap opens under the passcode to the registration master key; other passcodes, credentials and sessions stay |
| `SessionService.SessionService.UpdateMasterKey` | frontend/vaulton-web/src/app/features/settings/components/rekey-vault/rekey-vault.component.ts:135-198 | goes through exactly when the current password proves itself to the unlocked account of the bundle; then only the new password matches, the recovery side and other accounts stay, every session of the account has ended, and the device has forgotten the vault; otherwise nothing changes but the counter |
| `SessionService.SessionService.Recover` | frontend/vaulton-web/src/app/core/auth/session.service.ts:242-277 | goes through exactly when the recovery key proves itself to the unlocked account; then only the new secrets match and every session of the account has ended; otherwise nothing changes but the counter |
| `PendingRequests.StepKeepsInv` | frontend/vaulton-web/src/app/core/auth/auth-crypto.service.ts:26-67 | every post, reply, timeout, crash and termination keeps each waiting request with its own armed timer |
| `PendingRequests.EveryRequestSettlesWithinAMinute` | frontend/vaulton-web/src/app/core/auth/auth-crypto.service.ts:468-488 | in every run a request is waiting with its timer armed or settled, and it settles within sixty seconds of its post |
| `PendingRequests.SettledNeverChanges` | frontend/vaulton-web/src/app/core/auth/auth-crypto.service.ts:31-39 | a settled result never changes |
| `PendingRequests.ReplySettlesOnlyItsOwn` | frontend/vaulton-web/src/app/core/auth/auth-crypto.service.ts:26-40 | a reply, also late or with an unknown id, settles its own waiting request and nothing else |
| `PendingRequests.NothingWaitsAfterwards` | frontend/vaulton-web/src/app/core/auth/auth-crypto.service.ts:42-67 | a crash, unreadable message or termination settles everything posted and leaves no timer |
| `PendingRequests.OnlyFailedPostsLinger` | frontend/vaulton-web/src/app/core/auth/auth-crypto.service.ts:481-486 | a settled request stays in the table exactly when its message could not be posted |
| `PendingRequests.SettledWithWhatItIsTold` | frontend/vaulton-web/src/app/core/auth/auth-crypto.service.ts:26-67 | an unsettled request is settled by an event if and only if the event is its own reply, timer or failing post, or a crash, unreadable message or termination after its post, and then with what that says |
| `PendingRequests.SettledWithTheFirst` | frontend/vaulton-web/src/app/core/auth/auth-crypto.service.ts:26-67 | over every run a request is settled with the first of these, and not before |
| `PendingRequests.ResolvedExactlyByItsReply` | frontend/vaulton-web/src/app/core/auth/auth-crypto.service.ts:26-40 | over every run a request is resolved with a result if and only if a reply with that result came while it was waiting |
| `PendingRequests.DueTimerTimesOut` | frontend/vaulton-web/src/app/core/auth/auth-crypto.service.ts:474-479 | the timer of a waiting request, due sixty seconds after its post, rejects it as timed out |
| `PendingRequests.RejectedByName` | frontend/vaulton-web/src/app/core/auth/auth-crypto.service.ts:42-67 | a crash, an unreadable message and a termination reject by their own names; the worker is kept after an unreadable message only |
| `PendingRequests.PostArmsATimer` | frontend/vaulton-web/src/app/core/auth/auth-crypto.service.ts:468-488 | a post starts a worker when there is none and arms a timer of its own for sixty seconds later |
| `PendingRequests.AuthCryptoService.PostToWorker` | frontend/vaulton-web/src/app/core/auth/auth-crypto.service.ts:468-488 | table, timer and promise after a post, a failing worker start or a failing post |
| `PendingRequests.AuthCryptoService.OnMessage` | frontend/vaulton-web/src/app/core/auth/auth-crypto.service.ts:26-40 | clears the timer, settles and forgets the request |
| `PendingRequests.AuthCryptoService.RejectAllPending` | frontend/vaulton-web/src/app/core/auth/auth-crypto.service.ts:52-59 | rejects everything waiting and clears its timers |
| `PendingRequests.AuthCryptoService.OnTimeout` | frontend/vaulton-web/src/app/core/auth/auth-crypto.service.ts:474-479 | rejects the request of the timer if it still waits |
| `VaultService.CommandsStayInTheirAccount` | backend/Infrastructure/Services/Vault/VaultService.cs:27-120 | a command changes at most the named entry of its own account, and a refused one nothing |
| `VaultService.CreatedExactly` | backend/Infrastructure/Services/Vault/VaultService.cs:27-51 | an entry is created if and only if both identifiers are set, the payload has the right shape and the identifier is unused; the refusals by name |
| `VaultService.UpdatedExactly` | backend/Infrastructure/Services/Vault/VaultService.cs:103-120 | an entry is updated if and only if it is an own one and the payload has the right shape; it keeps its date of creation |
| `VaultService.DeletedExactly` | backend/Infrastructure/Services/Vault/VaultService.cs:88-101 | an entry is deleted if and only if it is an own one |
| `VaultService.PayloadInNumbers` | backend/Infrastructure/Services/Vault/VaultCommandValidator.cs:60-61 | the payload check in bytes, both directions |
| `VaultService.PageShows` | backend/Infrastructure/Services/Vault/VaultService.cs:63-64 | a page skips and takes exactly as many entries as asked for, or as there are |
| `VaultService.VaultService.CreateEntryAsync` | backend/Infrastructure/Services/Vault/VaultService.cs:27-51 | refused for bad shapes and ids in use, else one new row |
| `VaultService.VaultService.UpdateEntryAsync` | backend/Infrastructure/Services/Vault/VaultService.cs:103-120 | replaces the payload of an own entry only |
| `VaultService.VaultService.DeleteEntryAsync` | backend/Infrastructure/Services/Vault/VaultService.cs:88-101 | deletes an own entry only |
| `VaultService.VaultService.ListEntriesAsync` | backend/Infrastructure/Services/Vault/VaultService.cs:53-70 | a page of exactly the account's entries, newest first |
| `VaultService.VaultService.OrderByDescending` | backend/Infrastructure/Services/Vault/VaultService.cs:59-62 | a permutation of the account's entries in non-increasing date order |
| `VaultData.PayloadIsBoundToItsEntry` | frontend/vaulton-web/src/app/core/vault/vault-crypto.service.ts:19-37 | a payload opens only as the entry and for the account it was sealed for |
| `VaultData.LoadAgreesExactlyWhenTheRestIsUnreadable` | frontend/vaulton-web/src/app/features/vault/vault-data.service.ts:31-67 | after a load the cache is the decryption of the account's rows if and only if all own rows after the 200 newest are unreadable |
| `VaultData.LoadShowsTheNewest` | frontend/vaulton-web/src/app/features/vault/vault-data.service.ts:31-67 | after a load exactly the readable ones of the 200 newest own entries are shown |
| `VaultData.LoadIsInOrder` | frontend/vaulton-web/src/app/features/vault/vault-data.service.ts:31-67 | they are shown newest first |
| `VaultData.TheRowAfterTheFirstPageIsMissing` | frontend/vaulton-web/src/app/features/vault/vault-data.service.ts:34 | a vault of 201 readable rows: after a load the cache leaves one of them out |
| `VaultData.AddKeepsAgreement` | frontend/vaulton-web/src/app/features/vault/vault-data.service.ts:69-96 | adding keeps the agreement, whichever request fails |
| `VaultData.AddSucceedsExactlyWhenItGoesThrough` | frontend/vaulton-web/src/app/features/vault/vault-data.service.ts:69-96 | when an addition is stored, told from the state before it; then it is the session account's, readable, and shown first; otherwise nothing changes |
| `VaultData.EditAgreesExactlyWhenCached` | frontend/vaulton-web/src/app/features/vault/vault-data.service.ts:98-118 | an update keeps the agreement if and only if it will not go through (no account or key, no request, a bad size, not an own entry) or its entry is in the cache |
| `VaultData.EditSucceedsExactlyWhenItGoesThrough` | frontend/vaulton-web/src/app/features/vault/vault-data.service.ts:98-118 | when an update succeeds, told from the state before it; one that does not changes nothing |
| `VaultData.EditReplaces` | frontend/vaulton-web/src/app/features/vault/vault-data.service.ts:98-118 | an update that goes through makes the row read as the new content and shows it in the same place; all else stays |
| `VaultData.UpdateOfUnreadableRowIsNotShown` | frontend/vaulton-web/src/app/features/vault/vault-data.service.ts:111 | a vault of one row that does not decrypt: after a successful update the row decrypts and the cache stays empty |
| `VaultData.RemoveKeepsAgreement` | frontend/vaulton-web/src/app/features/vault/vault-data.service.ts:120-134 | deleting keeps the agreement, rollback included |
| `VaultData.RemoveSucceedsExactly` | frontend/vaulton-web/src/app/features/vault/vault-data.service.ts:120-134 | a deletion takes exactly an own entry from server and cache if its request arrives; otherwise nothing changes |
| `VaultData.CacheAgreesOverRuns` | frontend/vaulton-web/src/app/features/vault/vault-data.service.ts:31-134 | over any run of loads, additions, updates of shown entries, deletions and other accounts' commands the cache is the decryption of the account's rows |
| `VaultData.VaultDataService.LoadRecords` | frontend/vaulton-web/src/app/features/vault/vault-data.service.ts:31-67 | the records are the readable rows of the first page in the server's order |
| `VaultData.VaultDataService.AddRecord` | frontend/vaulton-web/src/app/features/vault/vault-data.service.ts:69-96 | the row is created and the record put in front, or nothing changes |
| `VaultData.VaultDataService.UpdateRecord` | frontend/vaulton-web/src/app/features/vault/vault-data.service.ts:98-118 | row and record are replaced together, or nothing changes |
| `VaultData.VaultDataService.DeleteRecord` | frontend/vaulton-web/src/app/features/vault/vault-data.service.ts:120-134 | row and record go together, or the earlier list comes back |
| `CryptoWorker.CryptoWorker.HandleUnlock` | frontend/vaulton-web/src/app/core/crypto/worker/crypto.worker.ts:63-74 | a login and its finalisation in one message |
| `CryptoWorker.CryptoWorker.HandleDeriveAdminVerifier` | frontend/vaulton-web/src/app/core/crypto/worker/crypto.worker.ts:362-379 | the proof of a password: a server that stored the administrative proof of a base key matches it exactly for this password's base key |
| `CryptoWorker.CryptoWorker.HandleDeriveRkVerifier` | frontend/vaulton-web/src/app/core/crypto/worker/crypto.worker.ts:745-755 | the proof of a recovery key: a server that stored the proof of a recovery key matches it exactly for this one |
| `PendingRequests.AuthCryptoService.TerminateWorker` | frontend/vaulton-web/src/app/core/auth/auth-crypto.service.ts:61-67 | drops the worker and rejects everything waiting |
| `PendingRequests.AuthCryptoService.OnError` | frontend/vaulton-web/src/app/core/auth/auth-crypto.service.ts:42-45 | rejects everything as crashed, then terminates |
| `PendingRequests.AuthCryptoService.OnMessageError` | frontend/vaulton-web/src/app/core/auth/auth-crypto.service.ts:47-49 | rejects everything but keeps the worker |
| `VaultService.VaultService.PreCreateEntryAsync` | backend/Infrastructure/Services/Vault/VaultService.cs:16-25 | an identifier is handed out exactly when a valid creation under it succeeds right away |
| `VaultService.VaultService.GetEntryAsync` | backend/Infrastructure/Services/Vault/VaultService.cs:72-86 | an own entry's payload, or NotFound |
| `AuthService.AssignChanged` | backend/Infrastructure/Services/Auth/AuthService.cs:319-345 | the field assignments of a password change replace the credentials as specified and nothing else |
| `AuthService.AssignRecovered` | backend/Infrastructure/Services/Auth/AuthService.cs:457-471 | the field assignments of a recovery replace all credentials and nothing else |
| `AesGcmSplit.Slice` | frontend/vaulton-web/src/app/core/crypto/aesgcm-split.ts:18-19 | a slice is a copy |
| `AesGcmSplit.CopyInto` | frontend/vaulton-web/src/app/core/crypto/worker/crypto.worker.ts:429-431 | copying a whole buffer into another from an offset leaves the rest as it was |
| `AesGcmSplit.Join` | frontend/vaulton-web/src/app/core/crypto/worker/crypto.worker.ts:429-431 | cipher text and tag back to back in a new buffer |
| `AesGcmSplit.ToDto` | frontend/vaulton-web/src/app/core/crypto/worker/crypto.worker.ts:396-410 | the texts of the parts as they were before the buffers are cleared |
| `VaultData.VaultDataService.EncryptEntry` | frontend/vaulton-web/src/app/core/vault/vault-crypto.service.ts:19-31 | the entry sealed under the held key and its own AAD |
| `VaultData.VaultDataService.DecryptEntry` | frontend/vaulton-web/src/app/core/vault/vault-crypto.service.ts:33-37 | what the entry's own AAD opens it to |
| `VaultData.VaultDataService.DecryptAll` | frontend/vaulton-web/src/app/features/vault/vault-data.service.ts:38-57 | the readable entries in order; the others are skipped |
| `SessionService.SessionService.SignOut` | frontend/vaulton-web/src/app/core/auth/session.service.ts:101-105 | drops the client's sign-in and ends the cookie's session |
| `SessionService.SessionService.FetchWraps` | frontend/vaulton-web/src/app/features/settings/components/rekey-vault/rekey-vault.component.ts:152-159 | the answer to the current password's proof |
| `SessionService.SessionService.ForgetVault` | frontend/vaulton-web/src/app/features/settings/components/rekey-vault/rekey-vault.component.ts:194-198 | bundle, passcode wrap, keys and sign-in are gone |

## Left out

- Entity Framework, PostgreSQL, migrations and concurrency inside one store call or one save.
- HTTP controllers, cookies beyond the one string a client holds, DTO attributes, rate limiting.
- JWT signing, lifetime and claim parsing; the access check is its database query.
- The internals of PBKDF2, HKDF, Argon2id, AES-GCM, HMAC and SHA-256; the truncation of the HMAC to
  make up salts and wraps.
- Timing: dummy verifier work, constant-time comparison, rotating credentials for a refused recovery.
- `CreatedAt` and `UpdatedAt` of accounts, overflow of dates, zeroing of command buffers.
- Interleaving of worker handlers at their awaits, the `isWorking` flag and KDF benchmarks.
- Base64 transport inside the worker handlers; it is covered on bytes by `Base64` and `AesGcmSplit`.
- UTF-8 lengths: an entry's size is counted in characters.
- The order of entries with equal dates, and paging across them; entries' cached `lastUsed`.
- Network failures inside the sign-in, password-change, passcode and recovery flows; the vault's
  requests may fail at each point.
- Cross-tab refresh locks, heartbeat, session timers, guards, components, templates and toasts. Of the
  password-change component only the order of client and server steps is modelled; its checks of the
  new password's strength are not.
- TokenTable.RunMovesForward: needs a clock that does not go back, because the claim fails without one
  (see Findings).
- AuthRuns.CutOffIsPermanent: covers runs in which a refresh rotates directly after its lookup, because
  it fails otherwise; `OverlapCutOff` has the exact condition. It says "never rotated" and "never
  accepted"; a row rotated before the cut-off is answered by the reuse rules.
- AuthRuns.OnlyLaterLoginsSurvive: covers the same runs, for the same reason; with no refresh under way
  it holds for all (`OverlapOrigins.OnlyLaterLoginsSurviveOverlap`).
- AuthRuns.NeverMoreSessionsThanLogins: covers the same runs, because it fails otherwise; `OverlapCount`
  has the exact condition and the bound without it.
- AuthRuns.ServerIsSessionMap: covers the same runs; `OverlapSessions` has the refinement for all of
  them and says exactly when the two agree.
- SessionRefresh.ServerRefreshIsMapRefresh: the same.
- AuthRuns.ServerAttemptRate: covers attempts that do not overlap, because it fails otherwise;
  `AttemptInterleaving` has the exact condition for each save, the rate under it, and a run.
- Lineage.OneLiveDescendant: covers runs of store calls, whose rotations decide on the row as stored;
  `OverlapLineage.OneLiveThroughoutExactly` has the exact condition.
- Lineage.RotationConserves: the same; the exact condition is `OverlapCount.FinishCountsExactly`.
- Lineage.NeverMoreThanLogins: the same; see `OverlapCount.NeverMoreThanLoginsAndLate`.
- Lineage.OnlyLaterLoginsLive: the same; see `OverlapOrigins.OnlyLaterLoginsSurviveOverlap`.
- SessionMap.RunRefines: the same; see `OverlapSessions.RunPictures`.
- SessionMap.TableIsSessionMap: the same; see `OverlapSessions.OverlappingServerIsPlain`.
- Presentations.AnswersReadInOrder: the same; with overlap it fails (`OverlapDoublesTheSession`), and
  `OverlapPresentations.LateAnswersReadInOrder` has the condition under which it holds.
- RefreshTokenStore.MintedTokenFindsItsRow: the same, for tokens minted at a sign-in; for all tokens and
  all runs see `RefreshInterleaving.HandedOutTokenFindsItsRow`.
- Presentations.BuriedRowTellsStory: the same; see `OverlapPresentations.LateStory`.
- Presentations.GraceWindowSlides: the same; see `OverlapPresentations.LateGraceWindowSlides`.
- CredentialInterleaving.NextKeepsInv: takes accepted changes and recoveries apart; a refused one and
  every other endpoint are one step there.
- KeyLadder.NextKeepsInv: a change or recovery is one event, because credentials can come apart
  otherwise; `CredentialInterleaving` has the exact condition. Calls that replace the credentials of
  an account registered by an honest client come from clients that built them with the worker.
- SessionService.SessionService.Login: is for accounts an honest client registered and accounts the
  server does not know; what signing in to an account with someone else's wraps does is not stated.
  The same holds for the other flows that name an account.
- SessionService.SessionService.UpdateMasterKey: the clean-up that a two-second timer runs comes right
  after the change.

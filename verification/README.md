# Verified model of the Nusantara service

Dafny models of the parts of the service whose correctness rests on more than one function, with
proofs over all inputs, runs and interleavings.  `dafny verify dfyconfig.toml` checks everything.

Each component is split the same way.  `*Model` holds the state and its steps as functions,
`*Service` the imperative code as classes whose methods are proved to move the state exactly as
those functions say, and `*Theorems` what follows for whole runs.  `SessionLifetimes`,
`*Requests`, `KeySetDocuments`, `MigrationReleases`, `AccountVerification` and `ReportScope` say,
in terms of what callers send and see, what each request must ask for and what it comes to.  A
database or Redis table is a map or sequence, a transaction or pipeline is one step, and clocks,
fresh identifiers and the outcome of every call that can fail are parameters.

- **Sessions** (`Session*`).  Redis records, per-user index and blacklist under an advancing
  clock, driven by sign-in, refresh, logout, password change, block and unblock.  `now < deadline`
  is the liveness test throughout and the acceptance test of `exp` (section 4.1.4 of RFC 7519).
  The access lifetime is shorter than the refresh lifetime, as the configuration demands.
- **Orders** (`Order*`).  Operators who read, validate and write with a guarded update,
  interleaved freely.
- **Points** (`Point*`).  Adjustments whose check and commit are separate steps.
- **Limiters** (`Limiter`).  The fixed-window counter of the request and login limiters, and the
  wait they advertise; how the server rounds it is a parameter.
- **JWKS cache** (`KeySet*`).  Goroutines with every lock operation and field access a step of its
  own; the document format is that of section 4 of RFC 7517, its numbers those of section 6.3.1 of
  RFC 7518.
- **Migrations** (`Migration*`).  Runs cut short anywhere, also after a commit whose
  acknowledgement was lost, by releases whose lists differ; and several runs at once.
- **Images** (`Asset*`).  Products and shops against the storage provider; a call may be
  suspended between its uploads and its write.
- **Accounts** (`Account*`, `Phone`).  Social, phone and back-office sign-ups, one repository call
  at a time, with only the unique indexes between concurrent calls; phone numbers in the form of
  ITU-T E.164, clause 6.1.
- **Addresses** (`Address*`), **reports** (`Report*`) and **permissions** (`Permission*`).

`Faults` names how a call can end (`Lost` takes effect but reports an error); `Options` and `Text`
hold what several modules share.

## Where the code and what it says differ

The model follows the code.

- `internal/modules/customer/service.go:132-147` says that a block whose revocation failed can be
  retried.  The retry is refused as "already blocked" before it reaches the sessions
  (`RetriedBlockNeverRevokes`, `FailedRevocationLeavesAccess`); only an unblock followed by a new
  block revokes them.
- A logout may carry the refresh token of another session of the same account; that session's
  access token then has no record left to revoke it by.  `LogoutCoverage` and `SessionLostIff` say
  exactly when, `CrossedLogoutEscapesBlock` gives a run, and the block and password theorems hold
  of every other token.
- `internal/platform/oidc/jwks.go:37-39` describes the refetch throttle as a bound on requests to
  the provider.  Only successes are throttled (`FailuresAreNotThrottled`); the bound holds with one
  fetch more for each that failed (`FetchesAreThrottledButForFailures`).
- `internal/modules/product/service.go:151-155` and its shop counterpart treat every repository
  error as "nothing changed", but the repositories read the row back after the commit, and that
  read can fail (`FinishDanglesIff`, `LostConservesIff`, `LostCreateDangles`).
- Edits of one row that overlap leak images, because each discards what it read before the other
  wrote (`OverlappingUpdatesLeak`; `LandedConservesIff` is the exact condition).  They never leave
  a row pointing at a missing image (`NothingDangles`).
- A fixed window admits 2 * limit - 1 attempts in some intervals of its own length, and that many
  are reached (`SlidingBound`, `SlidingBoundIsTight`).
- A `user_points` row that is soft-deleted or holds NULL is not seen by the balance, yet the
  upsert updates it, so the drift moves (`WriteKeepsDriftIff`, `DriftUnchangedIff`).
- The wait a refused client is told is rounded to whole seconds, so it can end before the window
  does, and a key that lapses in between is answered with the whole window (`AdvertisedWait`).
- A first sign-up whose insert takes effect and whose link does not leaves its account behind
  (`LeavesBehindIff`).  A retry recovers it only with a proven address (`RetryRecoversIff`): with an
  unverified email the profile can never sign in again (`StrandedForever`), and with none, every
  such attempt makes another account that nobody can reach (`OrphansPileUp`, `OrphanForever`).
- Two migration files under one version, and a migration merged below one already applied, are
  not refused (`DuplicateVersion`, `LateMigrationRunsLast`).
- The financial report ignores the status filter that the summary beside it applies
  (`StatusFilterAgreesIff`).

## Model

| member | source | states |
|---|---|---|
| `SessionService.SessionStore.Create` | internal/auth/session.go:53-73 | the record, and the account's index with the new refresh token, both expire at now + ttl; an index that has lapsed starts empty |
| `SessionService.SessionStore.Get` | internal/auth/session.go:76-90 | a record is found exactly while it has not expired |
| `SessionService.SessionStore.Delete` | internal/auth/session.go:93-104 | the record goes and, if the index is live, so does its entry |
| `SessionService.SessionStore.Revoke` | internal/auth/session.go:108-117 | a blacklist entry until now + ttl; nothing at all for a ttl that is not positive |
| `SessionService.SessionStore.ReadTokenIDs` | internal/auth/session.go:126-146 | the read pipeline answers the jti of every live record among the keys and of no other |
| `SessionService.SessionStore.WriteRevocations` | internal/auth/session.go:147-162 | the write pipeline deletes every listed record and blacklists exactly the jtis that were read |
| `SessionService.SessionStore.RevokeAllForUser` | internal/auth/session.go:126-162 | the two pipelines together leave the account with no record and no index, and every jti its live records carried on the blacklist |
| `SessionService.SessionStore.IsRevoked` | internal/auth/session.go:169-179 | a jti is revoked exactly while its entry lasts |
| `SessionService.Accounts.Authenticate` | internal/middleware/auth.go:30-66 | a caller is let in exactly when the token was issued, is unexpired and is not blacklisted |
| `SessionService.Accounts.IssueSession` | internal/modules/user/service.go:349-365 | a fresh pair: the next jti, the access expiry, and the record for its refresh token |
| `SessionService.Accounts.SignIn` | internal/modules/user/service.go:189-235 | after its credentials are verified, an account gets a pair exactly when it exists and is active |
| `SessionService.Accounts.Refresh` | internal/modules/user/service.go:238-257 | the presented token is consumed, its access token revoked and one new pair of the same chain returned; anything but a live token is refused and changes nothing |
| `SessionService.Accounts.Logout` | internal/modules/user/service.go:260-287 | the access token is revoked whatever becomes of the refresh token; a session of another account is refused, not dropped |
| `SessionService.Accounts.ChangePassword` | internal/modules/user/service.go:308-346 | a matching password ends every session and the calling token; any refusal changes nothing |
| `SessionService.Accounts.ApplyStatus` | internal/modules/customer/repository_gorm.go:263-289 | the status is written, with one audit row, exactly when it differs; otherwise nothing |
| `SessionService.Accounts.SetStatus` | internal/modules/customer/service.go:77-158 | every refusal in the service's order, then status and audit row, then, for a block only, the revocation, whose failure is reported after the status has changed |
| `SessionTheorems.SessionLostIff` | internal/modules/user/service.go:260-287 | in every run an accepted access token has lost its session record if and only if some logout crossed it: dropped its session while carrying another token of the account |
| `SessionTheorems.AcceptedTokenHasSession` | internal/modules/user/service.go:349-365 | in every reachable state an accepted access token that no logout crossed has a live record with its jti that outlives it, in its user's index, which expires no earlier than the record; where logouts are paired none is crossed |
| `SessionTheorems.RefusedForever` | internal/auth/session.go:108-119 | a token once refused is never accepted again in any later run: its blacklist entry lasts at least until its exp |
| `SessionTheorems.UsedRefreshNeverMints` | internal/modules/user/service.go:238-257 | a refresh token that has been exchanged is refused after any later run |
| `SessionTheorems.OnePairPerChain` | internal/modules/user/service.go:238-257 | of the pairs one sign-in led to, every one but the newest has neither a live record nor an accepted access token |
| `SessionTheorems.ChainStarts` | internal/modules/user/service.go:349-365 | what a chain is: a refresh continues the chain of the token it consumed and every other way in starts a new one |
| `SessionTheorems.BlockLocksOut` | internal/modules/customer/service.go:77-158 | from a successful block until the next unblock, after any run, no step returns a pair for the account and the only tokens of it still accepted are those a logout had crossed before the block; none, if logouts were paired |
| `SessionTheorems.BlockedTokensStayRefused` | internal/modules/customer/service.go:77-158 | the refresh tokens issued before a successful block stay refused in every later run, unblocks included, and so do the access tokens that no logout had crossed |
| `SessionTheorems.BlockEndsExactlyTheCovered` | internal/auth/session.go:126-162 | a block leaves accepted exactly the tokens whose session record was already gone |
| `SessionTheorems.LogoutCoverage` | internal/modules/user/service.go:260-287 | a logout costs an accepted token its session if and only if it crosses it, a condition on the presented tokens that can be read before the call |
| `SessionTheorems.StepCovers` | internal/modules/user/service.go:238-365 | no other operation, and no lapse of time, ever costs an accepted token its session |
| `SessionTheorems.CrossedLogoutEscapesBlock` | internal/modules/user/service.go:260-287 | a concrete run: two devices, one signs out with the other's refresh token, and a block then succeeds while that other device keeps its access |
| `SessionTheorems.RetriedBlockNeverRevokes` | internal/modules/customer/service.go:112-150 | after a block whose revocation failed, every further block is refused and changes nothing, so retrying never revokes |
| `SessionTheorems.FailedRevocationLeavesAccess` | internal/modules/customer/service.go:132-147 | after such a block and any retry, every pair that was live still authenticates and still refreshes |
| `SessionTheorems.ChangePasswordEndsEverySession` | internal/modules/user/service.go:308-346 | a password change leaves no record of the account and every other account's alone; of the account's tokens it leaves accepted exactly those a logout had crossed, other than the caller's |
| `SessionTheorems.AuditExplainsStatus` | internal/modules/customer/repository_gorm.go:263-289 | in every reachable state each account's status is what its last audit row says, active when there is none |
| `SessionLifetimes.TokensSayTheAccountsRole` | internal/modules/user/service.go:238-257 | in every run each access token, through any number of refreshes, says the role its account was registered with |
| `SessionLifetimes.MintedPair` | internal/modules/user/service.go:349-365 | a pair comes only of a sign-in, for that account, or of a refresh, for the account its token was minted for; it is fresh, carries that account's role, and both lifetimes begin when it is minted |
| `SessionLifetimes.AccessLifetime` | internal/middleware/auth.go:30-66 | after any run an access token is accepted if and only if less than the access lifetime has passed since it was minted and it was neither exchanged, signed out, used to change the password nor ended with its session by a password change or block |
| `SessionLifetimes.RefreshLifetime` | internal/modules/user/service.go:238-257 | after any run a refresh token can be exchanged if and only if less than the refresh lifetime has passed since it was minted and it was neither exchanged, signed out by its account nor ended by a password change or block |
| `SessionLifetimes.SignInAnswers` | internal/modules/user/service.go:189-235 | a pair if and only if the account exists, is active and its credentials are verified; forbidden if and only if it is blocked; a refusal changes nothing |
| `SessionLifetimes.RevocationsAnswer` | internal/modules/user/service.go:260-346 | in every run, what a sign-out and a password change answer, refusals included, from the caller's token, the account the named session was minted for, and the password |
| `SessionLifetimes.StatusFlipsIff` | internal/modules/customer/service.go:77-158 | a step changes an account's status if and only if an administrator other than the account asks for the other status, with a reason when blocking; a request that may not is refused and changes nothing |
| `SessionLifetimes.AuditRowsWereRequested` | internal/modules/customer/repository_gorm.go:263-289 | every audit row of a run records one of its requests: by the actor it names, about another account, with the trimmed reason |
| `OrderService.NextStatuses` | internal/modules/order/order.go:126-136 | the offered statuses are the graph's successors allowed for the order type, in graph order |
| `OrderService.CanTransition` | internal/modules/order/order.go:139-146 | true exactly for a legal transition |
| `OrderService.ReasonRequiredFor` | internal/modules/order/service.go:54-84 | the offered statuses that demand a reason, in order |
| `OrderService.Orders.Prepare` | internal/modules/order/service.go:108-160 | the verdict on what was read, with every refusal in the service's order |
| `OrderService.Orders.ApplyStatus` | internal/modules/order/repository_gorm.go:319-347 | the order moves and one history row is appended exactly when its status is still the one that was read; otherwise no row changes |
| `OrderService.Orders.ChangeStatus` | internal/modules/order/service.go:108-180 | with nobody in between, a valid request writes the new status and its row, and a refusal changes nothing |
| `OrderTheorems.HistoryIsAPath` | internal/modules/order/repository_gorm.go:319-347 | under any interleaving of operators an order's history rows form an unbroken legal path from its first status to its current one |
| `OrderTheorems.EachStatusLeftOnce` | internal/modules/order/order.go:53-77 | no status is left twice in a whole run |
| `OrderTheorems.OneWinnerPerStatus` | internal/modules/order/repository_gorm.go:319-347 | of two operators holding the same read, once one has written, the other is refused whenever it writes and changes no row |
| `OrderTheorems.WriteLandsIffUnmoved` | internal/modules/order/repository_gorm.go:319-347 | a write lands if and only if the order gained no history row since it was read |
| `OrderTheorems.LifeIsBounded` | internal/modules/order/order.go:148-171 | from a draft at most 9 transitions for a delivery and 5 for a take-away, which never enters a courier state |
| `OrderTheorems.LongestLifeIsReached` | internal/modules/order/order.go:53-77 | both bounds are reached |
| `OrderTheorems.CompletedDeliveryWasDelivered` | internal/modules/order/order.go:53-77 | a completed delivery passed through ON_THE_WAY and DELIVERED |
| `OrderTheorems.RevenueIffPaidAndKept` | internal/modules/report/report.go:55-64 | an order counts as revenue if and only if it has visited PAID and is neither canceled nor rejected now |
| `OrderTheorems.ScreenMatchesValidator` | internal/modules/order/order.go:120-146 | with a reason given, the validator accepts exactly the statuses the screen offers |
| `OrderRequests.LegalIff` | internal/modules/order/order.go:53-77 | an order is canceled only before a driver is assigned, rejected only while the store decides, and otherwise goes one stop further, which for an accepted take-away is the last |
| `OrderRequests.OfferedInOrder` | internal/modules/order/order.go:126-136 | the offered statuses are the legal ones, each once, in the order in which statuses are listed |
| `OrderRequests.ReadIsTakenUpIff` | internal/modules/order/service.go:108-150 | a request is taken up if and only if its caller works in the order's shop or in all shops, the move is legal, and a cancelation or rejection has a reason of at most 500 characters |
| `OrderRequests.UnseenIsNotFound` | internal/modules/order/service.go:282-300 | not-found if and only if there is no such order or it is another shop's, and then no row changes |
| `OrderRequests.RefusalsAnswer` | internal/modules/order/service.go:108-150 | the remaining refusals, each with its exact condition |
| `OrderRequests.EveryRowWasAskedFor` | internal/modules/order/service.go:108-160 | under any interleaving each history row was asked for by the operator it names, who worked in the order's shop, for that status and with that reason |
| `OrderRequests.OperatorsKeepToTheirShops` | internal/modules/order/service.go:264-300 | an operator whose requests carry a set of shops never moves an order of any other, in any interleaving |
| `OrderRequests.OperatorsMoveTheirOrders` | internal/modules/order/service.go:108-180 | and in those shops makes any legal move: the order changes status only, with one history row |
| `PointService.Points.ReadBalance` | internal/modules/point/repository_gorm.go:35-83 | inflow minus outflow over the rows that are not soft-deleted is the ledger sum; the cached total, the drift, the number of rows and the expired inflow beside it |
| `PointService.Points.Prepare` | internal/modules/point/service.go:76-146 | the verdict, with all field problems collected and a deduction judged against the ledger |
| `PointService.Points.Record` | internal/modules/point/repository_gorm.go:134-163 | one ledger row and the relative update of the total, including a missing row and one holding NULL |
| `PointService.Points.Adjust` | internal/modules/point/service.go:76-162 | with no call in between, a ledger that was not negative stays so |
| `PointTheorems.OverlapBound` | internal/modules/point/service.go:129-153 | under any interleaving, if at most k deductions of an account are between check and commit at once, its ledger stays at or above -(k-1) * MAX_ADJUSTMENT |
| `PointTheorems.OverlapBoundIsReached` | internal/modules/point/service.go:129-153 | for every k a run with k overlapping deductions ends exactly on that bound |
| `PointTheorems.DriftUnchangedIff` | internal/modules/point/repository_gorm.go:134-163 | an interleaving of adjustments, on any accounts, leaves an account's drift as it was if and only if its total's row is absent or live with a number, or its ledger balance ends where it began |
| `PointTheorems.WriteKeepsDriftIff` | internal/modules/point/repository_gorm.go:134-163 | one adjustment keeps the drift if and only if the total's row is absent or live with a number |
| `PointTheorems.LedgerIsAppendOnly` | internal/modules/point/repository_gorm.go:134-163 | the ledger at any moment is a prefix of every later one |
| `PointTheorems.AdjustmentsNeverExpire` | internal/modules/point/repository_gorm.go:48-49 | no adjustment changes the expired inflow, so a deduction does not settle it |
| `PointRequests.TakenUpIff` | internal/modules/point/service.go:76-146 | an adjustment is taken up if and only if the account exists, 1 to 1000000 points go in a known direction with a trimmed reason of 1 to 500 characters, and the ledger covers a deduction |
| `PointRequests.RefusalsAnswer` | internal/modules/point/service.go:76-146 | what is refused and why: a missing account first, then all faults of the form at once, then an overdraft |
| `PointRequests.BalancesAreSums` | internal/modules/point/repository_gorm.go:36-52 | the ledger balance and the expired inflow are sums over the rows, to which a soft-deleted row adds nothing |
| `PointRequests.EveryRowWasAskedFor` | internal/modules/point/service.go:76-160 | under any interleaving each row a run adds was asked for, well formed, for an account that exists, and it never expires |
| `Limiter.FixedWindow.Allow` | internal/middleware/ratelimit.go:29-51 | the attempt is counted in the window its first attempt opened, allowed exactly within the limit, refused with the whole seconds the server answers, or the whole window when the key has lapsed or the question fails; no other key is touched |
| `Limiter.FixedWindow.Clear` | internal/modules/user/login_limiter.go:46-51 | the key has no counter afterwards, and no other key's changes |
| `Limiter.SlidingBound` | internal/middleware/ratelimit.go:29-51 | over any interval as long as the window, wherever it starts, at most 2 * limit - 1 attempts pass, and limit more for each reset in it |
| `Limiter.SlidingBoundIsTight` | internal/middleware/ratelimit.go:29-51 | that many do pass, for every limit and every window of at least two ticks |
| `Limiter.WindowBudget` | internal/modules/user/login_limiter.go:26-43 | inside one window exactly the first limit attempts pass |
| `Limiter.ResetRestoresTheBudget` | internal/modules/user/login_limiter.go:46-51 | after a reset, whatever the counter stood at, exactly the first limit attempts pass of those in the window that the next one opens |
| `Limiter.WindowIsFixed` | internal/middleware/ratelimit.go:36-39 | attempts never move the window's end |
| `Limiter.RefusedUntilTheDeadline` | internal/middleware/ratelimit.go:44-50 | after a refusal, whatever is attempted meanwhile, an attempt passes if and only if the window has ended |
| `Limiter.AdvertisedWait` | internal/middleware/ratelimit.go:46-50 | the advertised wait ends less than a second before the window's end or at most the rounding after it, exactly at it for whole seconds only; a client that comes back then is let in if and only if the wait was not rounded down; a lapsed key or a failed question costs a whole window |
| `KeySetService.ReadKeys` | internal/platform/oidc/jwks.go:113-126 | the keys of a document |
| `KeySetService.KeysAreTheLastUsable` | internal/platform/oidc/jwks.go:113-126 | a kid is published if and only if some usable RSA signing entry carries it, with the key of the last one |
| `KeySetService.KeySet.Cached` | internal/platform/oidc/jwks.go:76-85 | a key is answered if and only if a set was published no longer than the ttl ago and holds the kid, and it is that set's key |
| `KeySetService.AnswersUntilStale` | internal/platform/oidc/jwks.go:46-84 | a key once answered goes on being answered, from the same set and with no fetch, until that set is older than the ttl |
| `KeySetService.KeySet.Fetch` | internal/platform/oidc/jwks.go:87-136 | success replaces keys and time together; a failure or a document with no usable key changes nothing |
| `KeySetService.KeySet.Key` | internal/platform/oidc/jwks.go:46-74 | cache, throttle, fetch, cache again |
| `KeySetService.AloneIsSequential` | internal/platform/oidc/jwks.go:46-84 | a goroutine that runs alone through all the lock steps reaches the end the sequential method describes |
| `KeySetDocuments.EntryIsReadAsSpelled` | internal/platform/oidc/jwks.go:139-167 | an entry is used if and only if it is an RSA signing key whose numbers decode and whose exponent has one to eight octets, and it is read as the numbers it spells, most significant octet first, leading zeros aside |
| `KeySetDocuments.SpelledOnce` | internal/platform/oidc/jwks.go:161-164 | octets are read as the one number they spell |
| `KeySetDocuments.EntryPublishes` | internal/platform/oidc/jwks.go:112-126 | one such entry more publishes that key under its kid |
| `KeySetDocuments.OtherEntriesPublishNothing` | internal/platform/oidc/jwks.go:112-126 | an entry of another type or use, or one that does not decode, publishes nothing |
| `KeySetDocuments.KeyAnswers` | internal/platform/oidc/jwks.go:46-84 | what a caller is told: the cached key, nothing while throttled or when the fetch fails, else the fetched key |
| `KeySetTheorems.OneFetchInFlight` | internal/platform/oidc/jwks.go:51-59 | for any interleaving, at most one goroutine is fetching |
| `KeySetTheorems.PublicationsAreThrottled` | internal/platform/oidc/jwks.go:59-69 | any n successive publications take at least n - 1 refresh intervals, so a time T sees at most T / interval + 1 |
| `KeySetTheorems.ReturnedKeysAreFresh` | internal/platform/oidc/jwks.go:76-84 | every returned key is the asked kid's, from one whole published set no older than the ttl when judged |
| `KeySetTheorems.NoTornRead` | internal/platform/oidc/jwks.go:131-134 | under the read lock, keys and time always belong to one publication |
| `KeySetFetches.FetchesAreAccountedFor` | internal/platform/oidc/jwks.go:59-76 | in every run the fetches started are those published, those that failed and the one under way |
| `KeySetFetches.CloseStartsFollowAFailure` | internal/platform/oidc/jwks.go:63-70 | two successive fetches start less than the interval apart only if the first of them failed |
| `KeySetFetches.FetchesAreThrottledButForFailures` | internal/platform/oidc/jwks.go:37-39 | of fetches that start within a time T there are at most T / interval + 1 and one more for each that failed, so the documented bound holds when none fails |
| `KeySetFetches.ThrottleAdmitsIff` | internal/platform/oidc/jwks.go:63-70 | a caller past the locks starts a fetch if and only if nothing was published within the interval, whatever failed meanwhile |
| `KeySetFetches.FailedFetchFreesTheNext` | internal/platform/oidc/jwks.go:59-76 | in every reachable state a failed fetch lets the next caller start one at the same instant |
| `KeySetFetches.FailuresAreNotThrottled` | internal/platform/oidc/jwks.go:59-70 | so while fetches fail, any number of them is started with no time passing |
| `MigrationFiles.LoadMigrations` | internal/platform/database/migrate.go:66-100 | exactly the .sql files, cut into version and name, in version order |
| `MigrationFiles.CutSplits` | internal/platform/database/migrate.go:83-84 | the version is what stands before the first underscore of the name |
| `MigrationFiles.OrderIsUnique` | internal/platform/database/migrate.go:94-97 | with no version twice there is only one such order |
| `MigrationFiles.PaddedOrderIsNumeric` | internal/platform/database/migrate.go:94-97 | versions of one width sort as the numbers they spell |
| `MigrationFiles.MixedWidthsAgreeIff` | internal/platform/database/migrate.go:94-97 | versions of different widths sort as numbers if and only if the shorter is at most the longer's beginning just when it is the smaller number; without a leading zero, if and only if it is at most that beginning |
| `MigrationFiles.UnpaddedOrderIsNot` | internal/platform/database/migrate.go:94-97 | so unpadded 10 sorts before 9 |
| `MigrationReleases.FilesAreReadWhole` | internal/platform/database/migrate.go:68-92 | exactly the files ending in .sql are migrations, and version, name and contents of one give its file back |
| `MigrationReleases.ReadHas` | internal/platform/database/migrate.go:68-92 | exactly the migrations of the listed files are read |
| `MigrationReleases.EditedFileNeverPasses` | internal/platform/database/migrate.go:156-159 | a file whose contents change after its migration was recorded keeps every later run of that release from returning nil |
| `MigrationReleases.FaultlessRunAnswers` | internal/platform/database/migrate.go:125-179 | a run that meets no fault asks for a baseline, complains of a checksum or returns nil, each with its exact condition |
| `MigrationReleases.NeedsBaselineIff` | internal/platform/database/migrate.go:142-153 | a baseline is asked for if and only if tables are there and nothing is recorded, and then nothing is run |
| `MigrationReleases.UsersIffCreated` | internal/platform/database/migrate.go:251-263 | the probed table is there if and only if an executed migration made it |
| `MigrationReleases.BaselineSucceedsIff` | internal/platform/database/migrate.go:268-309 | refused if and only if something is recorded or nothing is there; else it succeeds if and only if no version is listed twice and every row goes in; nothing is run |
| `MigrationService.Database.ApplyOne` | internal/platform/database/migrate.go:213-242 | SQL and ledger row commit together or not at all, and a second row for a version is refused |
| `MigrationService.Database.Migrate` | internal/platform/database/migrate.go:125-179 | the run's end and result, and on success the number applied |
| `MigrationService.Database.Pending` | internal/platform/database/migrate.go:182-205 | the listed migrations without a row, in order |
| `MigrationService.Database.Baseline` | internal/platform/database/migrate.go:268-309 | refusals, and rows written one by one without running anything |
| `MigrationTheorems.CrashAndRetryConverge` | internal/platform/database/migrate.go:125-179 | from an empty database, after any sequence of runs cut short anywhere, a run that returns nil leaves exactly what one uninterrupted run leaves |
| `MigrationTheorems.RetrySucceeds` | internal/platform/database/migrate.go:125-179 | and a run that meets no failure does return nil |
| `MigrationTheorems.LedgerIsABeginning` | internal/platform/database/migrate.go:154-171 | at every point of every such sequence what is applied and recorded is a beginning of the sorted list |
| `MigrationTheorems.CommitsAtMostOnce` | internal/platform/database/migrate.go:213-242 | whatever lists the releases ship and however runs end, no version commits twice and no row is lost or changed |
| `MigrationTheorems.PendingIsTheNextRun` | internal/platform/database/migrate.go:182-204 | the next run applies a beginning of the pending list, and all of it if it returns nil |
| `MigrationTheorems.MigrateSucceedsIff` | internal/platform/database/migrate.go:125-179 | a run returns nil if and only if it may start, nothing recorded was edited, no pending version is listed twice and no transaction fails |
| `MigrationTheorems.EditedNeverPasses` | internal/platform/database/migrate.go:156-159 | once a migration is edited after being recorded, no later run of that release returns nil |
| `MigrationTheorems.FreshRunCompletesIff` | internal/platform/database/migrate.go:125-179 | an uninterrupted run on an empty database completes if and only if no version is listed twice |
| `MigrationTheorems.ConvergesIff` | internal/platform/database/migrate.go:154-171 | across changing releases, a completed run equals a fresh install if and only if what had run before is a beginning of its list |
| `MigrationTheorems.LateMigrationRunsLast` | internal/platform/database/migrate.go:154-171 | a migration merged late, between two applied ones, runs after both |
| `MigrationTheorems.DuplicateVersion` | internal/platform/database/migrate.go:230-236 | two files under one version: the first run always fails with the first of them committed, and the next returns nil if and only if the files are alike |
| `MigrationTheorems.BaselineAdopts` | internal/platform/database/migrate.go:268-309 | after a complete baseline nothing is pending and the next run changes nothing |
| `MigrationTheorems.BaselineRefusesWhatRunsBuilt` | internal/platform/database/migrate.go:278-288 | a database built from nothing by any runs can never be baselined |
| `MigrationConcurrency.InterleavedCommitsAtMostOnce` | internal/platform/database/migrate.go:125-242 | however several runs of any releases interleave, no version commits twice, no row is lost or changed and nothing executed is undone |
| `MigrationConcurrency.InterleavedLedgerIsABeginning` | internal/platform/database/migrate.go:131-171 | if they ship beginnings of one list, what is executed is a beginning of it at every moment, and a run that returns nil has its whole list executed |
| `MigrationConcurrency.LoserFindsItsMigrationExecuted` | internal/platform/database/migrate.go:213-242 | a run that meets no fault of its own fails only at a migration that another has executed since it read the ledger |
| `MigrationConcurrency.InterleavingConverges` | internal/platform/database/migrate.go:125-179 | after any such interleaving one more run alone leaves the database of an uninterrupted install |
| `MigrationConcurrency.RunningAloneIsMigrate` | internal/platform/database/migrate.go:125-179 | a run that nobody interrupts does exactly what the sequential runner does |
| `AssetService.Store.Discard` | internal/platform/storage/reaper.go:27-37 | an empty handle removes nothing, any other exactly itself |
| `AssetService.Store.DiscardAll` | internal/platform/storage/reaper.go:40-44 | exactly the listed assets go |
| `AssetService.Store.UploadGallery` | internal/modules/shop/service.go:372-386 | every non-empty slot is stored in order, or after a rejection nothing is left of them |
| `AssetService.Store.UploadImages` | internal/modules/product/service.go:76-85 | cover and gallery are both stored, or neither is left |
| `AssetService.Store.Insert` | internal/modules/product/repository_gorm.go:108-142 | a row with the uploaded handles, also when only the read-back fails |
| `AssetService.Store.Edit` | internal/modules/product/repository_gorm.go:147-192 | the cover is replaced only by a new one, the gallery cleared only when asked and always added to |
| `AssetService.Store.Remove` | internal/modules/product/repository_gorm.go:211-226 | the row and its links go together |
| `AssetService.Catalogue.Create` | internal/modules/product/service.go:63-106 | the whole effect of a create on assets and rows, and what is answered |
| `AssetService.Catalogue.Update` | internal/modules/product/service.go:114-167 | the whole effect of an edit: old images go only after the row points at the new ones, new ones go on failure |
| `AssetService.Catalogue.Delete` | internal/modules/shop/service.go:201-227 | a shop with orders is kept; otherwise the row goes, exactly when the delete takes effect, and then the images it held |
| `AssetTheorems.AssetsAreConserved` | internal/modules/product/service.go:63-195 | when calls on one row do not overlap and no write that carries images is lost, whatever else fails: the provider holds exactly what rows show and what calls under way uploaded, each asset in one place, so with no call under way exactly what live rows point at |
| `AssetTheorems.NothingDangles` | internal/modules/product/service.go:63-195 | in any interleaving, overlapping calls on one row included, nothing a row shows is missing, unless a write that carries images is lost |
| `AssetTheorems.FinishDanglesIff` | internal/modules/product/service.go:138-166 | finishing a call leaves a row pointing at a missing image if and only if its write landed, was reported as failed, and carried images |
| `AssetTheorems.LandedConservesIff` | internal/modules/product/service.go:157-166 | an edit or delete that lands keeps the law if and only if every image it replaces is one its row held when the call read it |
| `AssetTheorems.SerialCallsConserve` | internal/modules/shop/service.go:66-227 | after any sequence of product and shop calls, any upload or write of which may fail without changing a row, the law holds |
| `AssetTheorems.FinishConservesIff` | internal/modules/product/service.go:138-166 | the law survives a finished call if and only if it discards, of what the provider has, exactly what its write made useless |
| `AssetTheorems.LostConservesIff` | internal/modules/product/repository_gorm.go:108-143 | a write that commits but reports an error keeps the law if and only if the call neither uploaded nor replaced an image |
| `AssetTheorems.LostCreateDangles` | internal/modules/product/repository_gorm.go:138-143 | a create always carries a cover, so one whose read-back fails leaves a row pointing at a discarded image |
| `AssetTheorems.OverlappingUpdatesLeak` | internal/modules/product/service.go:114-166 | two edits of one row that both read it before either writes leak the first one's cover |
| `AssetRequests.CreateMakesItsRowIff` | internal/modules/product/service.go:63-112 | a create makes its row if and only if it is valid, every file is accepted and the insert takes effect, with the handles in the order of the files |
| `AssetRequests.EditStoresIff` | internal/modules/product/service.go:114-166 | an edit stores the new cover if one was sent and its images after the old ones or instead of them, if and only if nothing before the write fails |
| `AssetRequests.DeleteTakesItsRowIff` | internal/modules/shop/service.go:201-227 | a delete takes its row if and only if it is allowed, the row could be read and the delete takes effect |
| `AssetRequests.KeptWhileNotAllowed` | internal/modules/shop/service.go:201-227 | a shop that has orders throughout is there after any run |
| `AccountService.Directory.LinkIdentity` | internal/modules/user/identity_gorm.go:37-49 | inserted exactly when provider and subject are new; never overwritten |
| `AccountService.Directory.InsertUser` | internal/modules/user/repository_gorm.go:23-50 | inserted exactly when email, phone and username are free; a blank one is NULL and collides with nothing |
| `AccountService.Directory.LinkAndReturn` | internal/modules/user/social.go:104-124 | link, then mark the email verified, whose failure is not the caller's |
| `AccountService.Directory.CreateAccount` | internal/modules/user/social.go:126-157 | role, account, link, each of which may fail and leave the earlier ones |
| `AccountService.Directory.ResolveSocial` | internal/modules/user/social.go:65-102 | the sign-in's whole effect and result under any pattern of failures |
| `AccountService.Directory.ResolvePhone` | internal/modules/user/phone_login.go:99-155 | the same for a verified number |
| `AccountTheorems.SameKeySameAccount` | internal/modules/user/social.go:65-124 | across any interleaving and any failures, every answered sign-in with one provider and subject gets the same account, now and later |
| `AccountTheorems.SameNumberSameAccount` | internal/modules/user/phone_login.go:99-155 | two phone sign-ins, at any points of any run and however the numbers are typed, get one account if and only if the texts spell one subscriber |
| `AccountTheorems.OneAccountPerAddress` | internal/modules/user/repository_gorm.go:23-50 | no phone number and no email ever belongs to two accounts |
| `AccountTheorems.NobodyJoinsUnvouched` | internal/modules/user/social.go:80-98 | an identity is only ever attached to an account its own sign-in created or whose address it proved, so an unverified email joins no existing account |
| `AccountTheorems.VerifiedMeansVouched` | internal/modules/user/social.go:104-124 | an email is only ever marked verified on the word of a provider in some sign-in |
| `AccountTheorems.SoloSignIn` | internal/modules/user/social.go:65-102 | after any run, a sign-in that meets no failure is answered with its identity's account, else the holder of its proven address, else a new one, and refused if and only if its email is held and unverified |
| `AccountTheorems.DriveIsARun` | internal/modules/user/social.go:65-157 | one call driven to its end is a run of the interleaved machine |
| `AccountTheorems.StrandedForever` | internal/modules/user/social.go:84-90 | a profile with an unverified email whose sign-up left its account behind is never answered again, in any later run, however often it retries |
| `AccountTheorems.LeavesBehindIff` | internal/modules/user/social.go:126-157 | a sign-in or registration leaves a new account without its identity if and only if it finds neither identity nor holder, its insert takes effect and its link does not, also because the read after the insert failed and no link was tried |
| `AccountTheorems.RetryRecoversIff` | internal/modules/user/social.go:65-102 | the retry is answered with that account if and only if the request vouches for an address the account holds; an unproven email is refused for good, and without an email another account is made |
| `AccountTheorems.RegistrationIsNotRecovered` | internal/modules/user/service.go:126-187 | registering again, after a registration that left its account behind, is never answered with it, and with a username or email not at all |
| `AccountTheorems.LeftBehindStrands` | internal/modules/user/social.go:84-157 | every first attempt with an unverified email that leaves its account behind gets a profile there |
| `AccountTheorems.OrphanForever` | internal/modules/user/social.go:65-157 | an account with no address and no identity stays so in every later run: no sign-in is ever answered with it |
| `AccountTheorems.OrphansPileUp` | internal/modules/user/social.go:126-157 | without an email, from any reachable state, n attempts that leave their account behind leave n accounts that nobody can ever sign in to |
| `AccountVerification.KeysAreIdentities` | internal/modules/user/social.go:65-79 | two requests have one identity if and only if provider and subject, number or password address are the same |
| `AccountVerification.SameIdentitySameAccount` | internal/modules/user/social.go:65-124 | any two answered calls of one identity got one account, now and later |
| `AccountVerification.SharedAccountWasProven` | internal/modules/user/social.go:80-98 | two identities share an account only if one of their sign-ins proved the account's address |
| `AccountVerification.VerifiedIff` | internal/modules/user/social.go:104-124 | in every run an email is verified if and only if it was before, its mark took effect, or it was inserted by a sign-in whose provider vouched |
| `AccountVerification.ProvenLinkVerifies` | internal/modules/user/social.go:104-124 | once a sign-in whose provider vouches has linked its identity and been answered, its account's email is verified, then and after any later run, unless its own mark failed |
| `AccountVerification.SoloSignInVerifies` | internal/modules/user/social.go:65-157 | a new, proven sign-in that meets no failure leaves its account verified |
| `Phone.NormalizePhone` | internal/modules/user/phone.go:22-63 | the scanner computes the specified result, rejection reasons included |
| `Phone.AcceptedIsE164` | internal/modules/user/phone.go:54-62 | an accepted number is a plus and 8 to 15 digits, the first not 0 |
| `Phone.Idempotent` | internal/modules/user/phone.go:22-63 | normalising an accepted number again changes nothing, under any country code |
| `Phone.SpellingDoesNotMatter` | internal/modules/user/phone.go:28-43 | the result depends only on the leading plus and the digits |
| `Phone.SeparatorsAreIgnored` | internal/modules/user/phone.go:28-43 | a separator anywhere inside changes nothing |
| `Phone.ThreeSpellings` | internal/modules/user/phone.go:40-52 | 0n, ccn and +ccn are accepted or rejected together with one result |
| `Phone.AcceptedIffSpelled` | internal/modules/user/phone.go:22-63 | a text is accepted as a subscriber's number if and only if it spells it, in full, after trunk zeros or bare, with any separators, and the number fits |
| `Phone.PlainlySpelled` | internal/modules/user/phone.go:40-52 | 0n, ccn and +ccn spell subscriber n |
| `Phone.SpelledWithSeparators` | internal/modules/user/phone.go:28-43 | a separator anywhere inside a text leaves what it spells |
| `Phone.BareNumber` | internal/modules/user/phone.go:40-52 | exactly when a number typed without a prefix means the national one |
| `Phone.RejectedBecause` | internal/modules/user/phone.go:22-63 | why a text is rejected: nothing there, a character that is neither a digit nor a separator, an impossible length, or a leading zero |
| `Text.TrimSpaceTrims` | internal/modules/user/phone.go:22-27 | trimming takes away exactly the white space at both ends |
| `AddressService.AddressBook.Create` | internal/modules/customeraddress/repository_gorm.go:109-144 | refused at fifty addresses; otherwise the input as sent, the default exactly when it is the first |
| `AddressService.AddressBook.Update` | internal/modules/customeraddress/service.go:78-89 | each field is the sent one or the stored one; owner, flag and every other row stay |
| `AddressService.AddressBook.Delete` | internal/modules/customeraddress/repository_gorm.go:168-215 | the caller's own address goes, and if it was the default the newest survivor is promoted; nothing but flags and times changes in the others |
| `AddressService.AddressBook.SetDefault` | internal/modules/customeraddress/repository_gorm.go:217-243 | the old default is demoted and the new one promoted, or everything is as before |
| `AddressTheorems.ExactlyOneDefault` | internal/modules/customeraddress/repository_gorm.go:109-243 | in every run each customer has exactly one default if they have any address and none otherwise, and never more than 50 |
| `AddressTheorems.CheckoutFindsTheDefault` | internal/modules/customeraddress/repository_gorm.go:91-107 | checkout finds an address if and only if there is one, and it is the flagged one |
| `AddressTheorems.ForeignSetDefaultChangesNothing` | internal/modules/customeraddress/repository_gorm.go:217-243 | not-found if and only if the id is not the caller's, and then no row changes |
| `AddressTheorems.OthersUntouchedForever` | internal/modules/customeraddress/repository_gorm.go:109-243 | no run of other customers' operations touches a customer's rows |
| `AddressTheorems.SetDefaultHeals` | internal/modules/customeraddress/repository_gorm.go:217-243 | whatever flags were set before, the target is the only default afterwards |
| `AddressTheorems.NewestSurvivorInherits` | internal/modules/customeraddress/repository_gorm.go:187-213 | the default after deleting one is no older than any other survivor |
| `AddressTheorems.ChoiceSurvives` | internal/modules/customeraddress/repository_gorm.go:168-243 | deleting another address leaves the chosen default |
| `ReportService.IsRevenueStatus` | internal/modules/report/report.go:76-83 | true exactly for the statuses counted as revenue |
| `ReportService.Summarise` | internal/modules/report/service.go:45-75 | one pass gives the counts and totals, over all rows and over the revenue rows |
| `ReportTheorems.ScreensAgree` | internal/modules/report/service.go:45-97 | without a status filter the summary's revenue count is the financial count, and its revenue total the financial net: equal on whole cents, to half a cent per rounding otherwise |
| `ReportTheorems.ScreensWithinFourCents` | internal/modules/report/repository_gorm.go:32-34 | so the two screens are never five cents apart, whatever the amounts |
| `ReportTheorems.SeriesSumsToTotals` | internal/modules/report/repository_gorm.go:153-206 | the series sums to the totals in every column, for any bucketing |
| `ReportTheorems.SummaryCountsEveryOrder` | internal/modules/report/repository_gorm.go:126-151 | the summary counts each order in scope once |
| `ReportTheorems.StatusFilterAgreesIff` | internal/modules/report/repository_gorm.go:50-56 | with a status filter the counts agree if and only if every revenue order in scope has that status |
| `ReportTheorems.RollUpAgrees` | internal/modules/report/repository_gorm.go:32-34 | any GROUP BY against one aggregate over the same rows, in any row order |
| `ReportTheorems.RangeIsInclusive` | internal/modules/report/report.go:140 | the half-open bounds are the inclusive calendar days |
| `ReportTheorems.AcceptedRanges` | internal/modules/report/report.go:161-193 | a period is accepted if and only if both days are given, in order and at most 366 days |
| `ReportScope.ScopedCounts` | internal/modules/report/repository_gorm.go:41-68 | a query sees an order as often as it is there if it is not removed, was placed on one of the days, and has the shop, payment and status asked for, or a status of a made sale; else never |
| `ReportScope.TotalsAreSums` | internal/modules/report/repository_gorm.go:153-206 | each total is the nearest number of cents, halves away from zero, to the exact sum of its own column |
| `ReportScope.SummaryAddsUp` | internal/modules/report/service.go:45-75 | the summary counts every order in scope, and its total is the sum of their totals to half a cent per rounding |
| `ReportScope.GroupsExist` | internal/modules/report/repository_gorm.go:126-151 | every selection has a grouping, so what the roll-ups assume of a GROUP BY can always be met |
| `PermissionService.KnownCodes` | internal/modules/role/catalog.go:114-120 | the catalogue as a set |
| `PermissionService.NormaliseCodes` | internal/modules/role/permission_service.go:86-119 | the loops compute the specified list, or the list of unknown codes |
| `PermissionService.Permissions.ReplaceForRole` | internal/modules/role/permission_repository_gorm.go:61-84 | the role holds exactly the listed codes that exist |
| `PermissionService.Permissions.Replace` | internal/modules/role/permission_service.go:57-81 | every refusal, else the replacement and its answer |
| `PermissionTheorems.NormalisedIsExact` | internal/modules/role/permission_service.go:86-120 | an accepted list comes back as exactly the submitted codes, each once, in catalogue order |
| `PermissionTheorems.RefusalNamesTheUnknown` | internal/modules/role/permission_service.go:91-109 | refused if and only if a code is unknown, and the refusal names exactly those |
| `PermissionTheorems.NormaliseIsIdempotent` | internal/modules/role/permission_service.go:86-120 | normalising twice is normalising once |
| `PermissionTheorems.LengthTestIsEquality` | internal/modules/role/permission_service.go:126-135 | an accepted list is as long as the catalogue if and only if it is the catalogue |
| `PermissionTheorems.SuperAdminKeepsAll` | internal/modules/role/permission_service.go:57-83 | no sequence of replacements takes anything from a superadmin role that held the whole catalogue |
| `PermissionTheorems.SuperAdminAcceptsIff` | internal/modules/role/permission_service.go:126-135 | a change to it is let through if and only if it submits every code and no unknown one |
| `PermissionTheorems.RootIsCalledSuperadmin` | internal/modules/role/permission_service.go:126-135 | the root role is the one called superadmin in any case, spaces around it aside |
| `PermissionTheorems.ReplaceAnswers` | internal/modules/role/permission_service.go:52-83 | every refusal with its exact condition, in order; a refusal changes nothing |
| `PermissionTheorems.ReplaceIsExact` | internal/modules/role/permission_repository_gorm.go:61-84 | an answered replacement grants what it answers, among the codes that exist, and touches no other role |
| `PermissionTheorems.LastWriterWins` | internal/modules/role/permission_service.go:52-83 | a later replacement of the same role erases every trace of an earlier one |
| `PermissionTheorems.CatalogueHasNoDuplicates` | internal/modules/role/catalog.go:71-105 | the catalogue lists no code twice |
| `PermissionTheorems.CatalogueIsTidy` | internal/modules/role/catalog.go:71-105 | and no code that trimming would change |

## Left out

- HTTP handlers, routes, JSON and form decoding, response bodies, logging and wiring: plumbing.
- Password hashing, token signatures, file hashing and randomness: fresh handles are distinct values, and a checksum is modelled by the contents it stands for.
- Redis and JWT round time to seconds in places; one clock in whole ticks is used instead, and only the wait that a limiter advertises is rounded.
- Redis failures inside sign-in, refresh and logout, and other calls running between the Redis round trips of one of them: each service call is one step. The failure of a block's revocation is modelled.
- The code verification of a phone sign-in, its message sender and the login limiter's place in front of a sign-in: a sign-in begins once its credentials are verified.
- Names, photos, roles' names and account status in account resolution; `TouchLogin`, which changes nothing that is read.
- Limiter round trips that fail before anything is counted, after which the request is let through; and windows that are not whole seconds, which the expiry command truncates.
- Deleting accounts, and other modules that edit an account's email or phone.
- The re-read that follows a status change, order change or adjustment only to fill the response.
- SQL isolation: a transaction is one step. Two concurrent first addresses, which the create's comment says its transaction prevents, are therefore not modelled.
- The remaining scalar columns of products, shops and orders, and a shop's staff and stock lists, which hold no images.
- Failing deletes in the storage provider: a discard always succeeds, as the law assumes.
- An interrupted baseline's aftermath, and failures of `CREATE TABLE IF NOT EXISTS` and of reading the ledger, which change nothing.
- The sort that orders migrations: any permutation in version order is the result, and it is unique when versions are.
- The order in which the summary's cards are presented, the transaction list, best sellers, and the rounding of a rounded sum to a double.
- Parsing dates out of text: a day is given as missing, malformed or a day number.
- Creating, renaming and deleting roles.
- Distances and bounding boxes of nearby shops: trigonometry.
- Banner, cashier, review, voucher, event, notification, device token and dashboard modules, pagination, configuration, the seeder and the image scripts: single-branch checks or repeats of the image law.
- The FCM, Cloudinary and one-time-code adapters are not part of this model.
- Cancelling a key-set fetch through its context: it is a failed fetch.

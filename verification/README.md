# Proofs about the shared-state services

Most of this NestJS application is wiring. The services modelled here keep state
in a shared place, a Postgres table, a Redis entry, a map in memory, through
sequences of awaited single-row operations, and every `await` is a point where
another request can run. Each such service is a machine of small steps. A run is
any sequence of its events, so a theorem over all runs is a theorem over every
interleaving of any number of requests and instances.

Each protocol appears in up to three forms. The *machine* (`Step`, `Exec`) has one
event for each atomic call. The *class* is the service as its source is written,
with fields that change and loops, and its methods are proved equal to the
machine's script, or to a one-piece function, when nothing interleaves. The
*theorems* say what every run keeps. Beside them, the *laws* (`LoginLaw`, `ServeLaw`,
`CreateLaw` and so on) say what one call does in plain terms, with the constants and
conditions written out instead of named.

## How to read the files

- `Duration`, `AuthModel`, `AuthSafety`, `AuthService`, `AuthCleanup`, `AuthLaws`:
  refresh-token rotation. Login, refresh, logout, token cleanup, user deletion.
- `SharedCache`, `FeatureFlags`, `FlagRaces`, `FlagExactness`: the read-through flag
  cache, first one operation at a time, then under interleaving.
- `CronLock`: the distributed cron lock, any number of instances.
- `Json`, `Idempotency`, `IdempotencyWindow`, `IdempotencyService`: the idempotency
  middleware and its cleanup task.
- `Masking`: log masking over JSON trees.
- `Crypto`, `Users`, `Pagination`: the encrypted phone column and paged listing.
- `Websocket`, `Shutdown`, `ShutdownService`: the socket registry and the shutdown
  sequence.
- `Runs`: what a step function makes of a sequence of events, for every machine.
- `Wrappers`, `FiniteSets`: Option, Result and one fact about finite sets.

`dafny verify dfyconfig.toml` checks all of it.

## Assumptions

- Each repository, cache or table call is one atomic step.
- The store enforces unique keys and foreign keys (`prisma/schema.prisma:40`, `:45`,
  `:86`), and deleting a user cascades to that user's refresh tokens.
- The clock never goes back, and the process runs in UTC. Times are milliseconds;
  the `iat` and `exp` claims are whole seconds, rounded down (sections 4.1.4 and
  4.1.6 of RFC 7519).
- Signing is injective, so a token is its claims: two signatures for one user in
  one second are the same token string.
- Opening a sealed text under its own iv gives the text back (sections 7.1 and 7.2
  of NIST SP 800-38D). This is a hypothesis (`Crypto.Inverts`) of the theorems that
  use it.
- A timer fires when it is due, unless the process has exited.

## What the proofs found

- A refresh deletes the old row before it can still fail. `RefreshLosesSessionIff`
  states exactly when the caller is left with neither token: the stored lifetime
  does not parse, or the new token differs from the old and is already stored or
  cannot be returned because the phone does not decrypt.
- Token cleanup between calls is unobservable exactly when the refresh lifetime is
  at least a second (`SweepHiddenIff`). With "0d" two logins in one second collide
  on the token unless the cleanup ran between them.
- Logout-all does not stop a rotation that is already past its delete; everything
  earlier it does stop. It is final exactly when no such rotation can still store a
  row (`LogoutAllFinalIff`).
- Cleanup in the middle of a refresh can be seen in two places, at the delete and at
  the insert, and each has its exact condition (`SweepShowsAtDeleteIff`,
  `SweepShowsAtInsertIff`).
- `create` is the one flag writer that does not invalidate. Creating an enabled flag
  over a live cached "off" keeps answering "off", and nothing else makes cached and
  uncached answers differ between non-overlapping calls (`ReadsAgreeIff`). Under
  interleaving a read overtaken by an odd number of flag changes also leaves a wrong
  entry, and these two are all (`ExactBetweenWriters`).
- `docs/FEATURES.md:382` says cron jobs are never executed twice. The code does not
  guarantee it: a skipped instance's `finally` also deletes the lock
  (`SkipperLetsTheNextIn`). Bodies exclude each other exactly when no holder loses
  its entry (`ExclusiveIff`); otherwise their number is bounded by the lost entries
  (`OverlapBound`), and that bound is reached (`BoundIsReached`).
- An idempotency row can vanish before its 24 hours, and `VanishesEarlyIff` says
  exactly when; `LateDeleterCutsShort` is a run from the empty store.
- `docs/FEATURES.md:132` calls idempotency Redis-backed; the code uses Postgres, and
  the model follows the code. Text that is not JSON is replayed as a JSON string
  (`ReplayFaithfulIff`).
- An authenticate handler that runs after its socket's disconnect leaves a map entry
  that nothing removes, not even the shutdown loop, since disconnecting a closed
  socket does nothing (`StaleEntryIff`, `ShutdownClearsIff`).
- No failing shutdown step aborts a later one because each step that can throw has a
  catch of its own. Take any of these catches away and some run exits 1 halfway
  (`FailuresAbortNothingIff`).
- Masking loses an object's own `__proto__` field, since assigning to that name adds
  no key (`CleanKeeps` says that nothing else is lost).

## Model

| member | source | states |
|---|---|---|
| AuthSafety.AtMostOnceRotation | src/domains/auth/application/auth.service.ts:90-134 | over every interleaving of logins, refreshes, logouts, cleanups and user deletions, the refreshes of a token that succeed are at most the rows ever inserted for it |
| AuthSafety.EntersIff | src/domains/auth/infrastructure/auth.repository.ts:24-36 | the events counted as insertions are exactly those after which the table holds a row for the token that it did not hold before |
| AuthSafety.OneWinner | src/domains/auth/application/auth.service.ts:114-118 | two successful refreshes of a token inserted once are the same call |
| AuthSafety.RotationWasAuthorized | src/domains/auth/application/auth.service.ts:92-109 | a refresh past its delete had, in this order and in the same run, the token verified in date, its row and user found, the row seen unexpired and the user active |
| AuthSafety.SessionsGrowOnlyByLogin | src/domains/auth/application/auth.service.ts:111-118 | from any state on, rows of a user plus rotations between delete and insert grow by no more than that user's login inserts |
| AuthSafety.SessionConservation | src/domains/auth/application/auth.service.ts:66-67 | in every reachable state a user's rows plus pending rotations never exceed that user's completed login inserts |
| AuthSafety.RowsBelongToTheirTokens | src/domains/auth/application/auth.service.ts:155-213 | in every reachable state each row belongs to its token's sub, that user exists, and the row expires no earlier than the token's exp |
| AuthSafety.CleanupSparesTokensInDate | src/infra/schedule/tasks/cleanup.task.ts:29-35 | the cleanup task never deletes a row whose token is still in date |
| AuthSafety.GoneStaysGone | src/domains/auth/infrastructure/auth.repository.ts:18-22 | once a row is gone, and until its token is inserted again, no refresh short of its delete gets past it, whatever runs |
| AuthSafety.LogoutAllCutsOff | src/domains/auth/application/auth.service.ts:140-141 | after logout without a token, no refresh of that user that had not yet deleted its row ever succeeds, unless its token is inserted again |
| AuthSafety.LogoutAllLeavesOnlyPending | src/domains/auth/infrastructure/auth.repository.ts:38-52 | logout-all leaves the user no row, and every later session is paid for by a rotation already past its delete or by a later login |
| AuthSafety.LogoutAllFinalIff | src/domains/auth/infrastructure/auth.repository.ts:38-52 | logout-all is final, so that no run without a login of the user gives that user a row again, if and only if no rotation of the user is past its delete with its row stamped or a lifetime that parses |
| AuthSafety.LogoutAllMissesRotationPastDelete | src/domains/auth/application/auth.service.ts:114-118 | any such rotation, saving or stamped, stores a row after logout-all as soon as its user exists |
| AuthService.RefreshAlone | src/domains/auth/application/auth.service.ts:90-138 | the interleavable events of a refresh, run with nothing between them, leave the table and the verdict of a one-piece definition, on every path |
| AuthService.LoginAlone | src/domains/auth/application/auth.service.ts:40-88 | the same for login |
| AuthService.RefreshSucceedsIff | src/domains/auth/application/auth.service.ts:90-138 | an undisturbed refresh succeeds if and only if the token is genuine and in date, its row unexpired, its user active, the lifetime parses, the new token does not collide with another session and the phone decrypts |
| AuthService.RefreshLosesSessionIff | src/domains/auth/application/auth.service.ts:114-137 | the exact condition under which a failed refresh leaves the caller with neither the old nor a new token |
| AuthLaws.LoginLaw | src/domains/auth/application/auth.service.ts:40-88 | with a lifetime of n d, h, m or s: an undisturbed login succeeds exactly when the account is active, the password matches, no session has the same token and the phone decrypts; the token's sub, email, role, iat and exp, and the row's owner and expiry, each written out in milliseconds |
| AuthLaws.RefreshLaw | src/domains/auth/application/auth.service.ts:90-138 | the same for refresh: every guard written out, the old row gone, the new row's owner and expiry, the new token's claims |
| AuthLaws.StampLaw | src/domains/auth/application/auth.service.ts:196-210 | a day is 86,400,000 ms, an hour 3,600,000, a minute 60,000 and a second 1,000, from the moment of the stamp |
| AuthLaws.UnparsedLifetimeStoresNothing | src/domains/auth/application/auth.service.ts:183-191 | a number, or a text that is not digits and one unit letter: no login stores a row and a refresh at most deletes one |
| AuthLaws.BulkLaws | src/domains/auth/infrastructure/auth.repository.ts:38-52 | exactly which rows a logout, with and without a token, a cleanup and a user's deletion take away, and that they touch nothing else |
| AuthService.AuthService.Refresh | src/domains/auth/application/auth.service.ts:90-138 | the method leaves the table of the machine's run and returns a token exactly when that run's call succeeds |
| AuthService.AuthService.Login | src/domains/auth/application/auth.service.ts:40-88 | an unknown email changes nothing; otherwise the method leaves the table of the machine's run for that email's account and returns a token exactly when that run's call succeeds |
| AuthService.AuthService.SaveRefreshToken | src/domains/auth/application/auth.service.ts:180-213 | stores exactly one row, expiring the parsed lifetime from now; a lifetime that does not parse, a stored token or a missing user change nothing |
| AuthService.AuthRepository.DeleteRefreshTokens | src/domains/auth/infrastructure/auth.repository.ts:38-52 | removes exactly the user's rows, or that one token of the user's, keeps the others as they were and counts the removed ones |
| AuthCleanup.CleanupUnobservable | src/infra/schedule/tasks/cleanup.task.ts:29-35 | a cleanup at a point where no call has passed its expiry check with an expired row changes the end of no call, and no insertion or rotation, in any later interleaving; only expired rows are missing |
| AuthCleanup.SweepHiddenIff | src/infra/schedule/tasks/cleanup.task.ts:25-41 | cleanup between non-overlapping calls is unobservable if and only if the configured lifetime is at least one second |
| AuthCleanup.ZeroLifetimeSweepShows | src/domains/auth/application/auth.service.ts:180-213 | with a zero lifetime a second login in the same second ends differently swept and unswept |
| AuthCleanup.SweepShowsAtDeleteIff | src/domains/auth/application/auth.service.ts:102-115 | past its expiry check, a refresh's delete ends differently swept and unswept if and only if its row has expired since: it succeeds unswept and fails swept |
| AuthCleanup.SweepShowsAtInsertIff | src/domains/auth/application/auth.service.ts:117-118 | an insert ends differently if and only if its token is stored in an expired row: it fails unswept and succeeds swept |
| Duration.ParseRecoversPrinted | src/domains/auth/application/auth.service.ts:188-194 | the parser recovers the value and unit of every printed lifetime |
| Duration.ParseAcceptsExactly | src/domains/auth/application/auth.service.ts:188-191 | the parser accepts exactly nonempty digits followed by one of d, h, m, s |
| Duration.ParseIgnoresLeadingZeros | src/domains/auth/application/auth.service.ts:193 | leading zeros are accepted and change nothing |
| Duration.AddLifetime | src/domains/auth/application/auth.service.ts:196-210 | each unit's setter moves the date by that unit's milliseconds times the value |
| Duration.UnitsAreExact | src/domains/auth/application/auth.service.ts:188-210 | a printed number followed by d, h, m or s means that many days, hours, minutes or seconds, in milliseconds |
| Duration.ReadsBaseTen | src/domains/auth/application/auth.service.ts:193 | digits are read in base ten, the last one counting least |
| SharedCache.FlagKeysAreTheirOwn | src/domains/feature-flag/infrastructure/feature-flag.cache.ts:22-24 | distinct flags have distinct entries, and no flag's entry is a lock's or the health check's |
| SharedCache.LockKeysAreTheirOwn | src/infra/schedule/decorators/distributed-cron.decorator.ts:24 | two jobs have one lock entry only if they are one job, and none has the health check's |
| SharedCache.FeatureFlagCache.Set | src/domains/feature-flag/infrastructure/feature-flag.cache.ts:14-16 | sets one flag's entry and leaves every other entry of the shared cache, lock or flag, as it was |
| FeatureFlags.CachedRefinesPlain | src/domains/feature-flag/application/feature-flag.service.ts:22-136 | over every sequence of operations and clock advances without an enabling create on a live cached "off", every reply and the table are those of the service with no cache |
| FeatureFlags.StepRefines | src/domains/feature-flag/application/feature-flag.service.ts:22-136 | on a coherent cache each operation replies and writes as if uncached, and keeps the cache coherent if and only if it is not that create |
| FeatureFlags.ToggleLaw | src/domains/feature-flag/application/feature-flag.service.ts:72-89 | a toggle replies with the state the next read answers, different from the state before; name, description and every other flag stay; a missing flag fails and changes nothing |
| FeatureFlags.EnableLaw | src/domains/feature-flag/application/feature-flag.service.ts:48-55 | after enabling the next read is "on"; a stored flag keeps its name and description, a missing one is created named by its key |
| FeatureFlags.DisableLaw | src/domains/feature-flag/application/feature-flag.service.ts:60-67 | after disabling the next read is "off", name and description stay; a missing flag fails |
| FeatureFlags.CreateLaw | src/domains/feature-flag/application/feature-flag.service.ts:94-110 | a create stores and returns the row, and the next read tells it unless an entry of the key is live; a stored key fails |
| FeatureFlags.DeleteLaw | src/domains/feature-flag/application/feature-flag.service.ts:129-136 | after deleting the next read is "off" and the flag unknown; a missing flag fails |
| FeatureFlags.IsEnabledLaw | src/domains/feature-flag/application/feature-flag.service.ts:22-43 | a live entry answers; otherwise the table does, a missing flag as "off", and the answer is kept 300,000 ms |
| FeatureFlags.DiffersIffStaleCreate | src/domains/feature-flag/application/feature-flag.service.ts:94-110 | some next answer differs from the bare table if and only if the operation was that create |
| FeatureFlags.ReadsAgreeIff | src/domains/feature-flag/application/feature-flag.service.ts:22-136 | over a run, every read at every point would tell what the service with no cache tells if and only if the run has no such create |
| FeatureFlags.FeatureFlagService.IsEnabled | src/domains/feature-flag/application/feature-flag.service.ts:22-43 | on the real cache and table, reply and new state are those of the cached service |
| FeatureFlags.FeatureFlagService.Toggle | src/domains/feature-flag/application/feature-flag.service.ts:72-89 | reply and new state, including the missing flag |
| FlagRaces.BoundedStaleness | src/domains/feature-flag/application/feature-flag.service.ts:22-43 | under every interleaving of readers and writers, an answer was the table's value at an instant no earlier than its lookup minus the TTL minus the gap between the filling call's find and set |
| FlagExactness.ExactBetweenWriters | src/domains/feature-flag/application/feature-flag.service.ts:22-136 | over every run, a live entry tells the table's value whenever no writer of the key is still to invalidate, throughout, if and only if no event, with no such writer, sets a read that an odd number of flag changes overtook since its find, or creates the key enabled over a live entry |
| FlagExactness.UnsettlesIff | src/domains/feature-flag/application/feature-flag.service.ts:39-110 | one event makes a settled key wrong if and only if it sets another value than the table's, or is that create, with no writer of the key still to invalidate |
| FlagExactness.OvertakenIff | src/domains/feature-flag/application/feature-flag.service.ts:31-40 | a cache set carries another value than the table's if and only if an odd number of writes changed the flag since the call's find |
| FlagExactness.OvertakenFillSticks | src/domains/feature-flag/application/feature-flag.service.ts:31-40 | a reader stalled across a whole enable leaves "off" cached with no writer left |
| FlagRaces.OperationAlone | src/domains/feature-flag/application/feature-flag.service.ts:22-136 | the interleavable events of each operation, run with nothing between them, leave the flags, cache and clock of the sequential cached service |
| FlagRaces.ReaderAlone | src/domains/feature-flag/application/feature-flag.service.ts:22-43 | an undisturbed reader's events give the sequential answer, on a hit and on a miss |
| FlagRaces.TogglerAnswers | src/domains/feature-flag/application/feature-flag.service.ts:79-88 | the state a toggle is about to write is the sequential reply |
| CronLock.OverlapBound | src/infra/schedule/decorators/distributed-cron.decorator.ts:26-48 | in every run of any number of instances, the bodies running at once are at most one plus the times a still-running holder lost its entry |
| CronLock.ExclusiveIff | src/infra/schedule/decorators/distributed-cron.decorator.ts:26-48 | at every point of a run, and with any one instance more trying there, at most one body runs, if and only if no holder loses its entry in the run |
| CronLock.ExclusiveWithoutLoss | src/infra/schedule/decorators/distributed-cron.decorator.ts:26-48 | at every moment of a run in which no holder loses its entry, at most one body runs |
| CronLock.LossCauses | src/infra/schedule/decorators/distributed-cron.decorator.ts:28-48 | a holder loses its entry only to a rival's set, to the finally of a skipper, failed run or other runner, or to expiry |
| CronLock.LossOpensOverlap | src/infra/schedule/decorators/distributed-cron.decorator.ts:28-41 | after any loss a second body runs beside the first, at once or as soon as an instance starts |
| CronLock.SkipperLetsTheNextIn | src/infra/schedule/decorators/distributed-cron.decorator.ts:30-48 | one skipped instance is enough for a third to run beside the holder, with no race and no expiry |
| CronLock.BoundIsReached | src/infra/schedule/decorators/distributed-cron.decorator.ts:28-41 | for every n there is a run with n losses and n + 1 bodies at once |
| CronLock.DistributedCron.Invoke | src/infra/schedule/decorators/distributed-cron.decorator.ts:15-49 | run alone, with any of its cache calls failing, the body runs exactly when none failed before it and no live entry of its own job is there, whatever other jobs' locks and flags are; every error is passed on; unless the delete fails its entry is gone afterwards on every path; no other job's lock changes |
| CronLock.GetLaw | src/infra/schedule/decorators/distributed-cron.decorator.ts:28-35 | a run skips exactly when an entry is there that has not expired |
| CronLock.SetLaw | src/infra/schedule/decorators/distributed-cron.decorator.ts:38 | setting takes the entry over for a whole TTL |
| CronLock.DelLaw | src/infra/schedule/decorators/distributed-cron.decorator.ts:45-48 | the finally deletes the entry after a skip, a failure and a body alike, whoever's it is |
| Idempotency.NeverOverwritten | src/core/middlewares/idempotency.middleware.ts:86-93 | over any stretch of any run in which a key keeps a row, it is the same row |
| Idempotency.EarlyVanishing | src/core/middlewares/idempotency.middleware.ts:36-46 | in every run a row that goes before its expiry was deleted by a request that had looked up an earlier, expired row of the key |
| IdempotencyWindow.VanishesEarlyIff | src/core/middlewares/idempotency.middleware.ts:36-46 | a stored, unexpired row can vanish before its expiry in some continuation if and only if a request in flight is about to delete by its key or looked up a row of the key that expires sooner |
| IdempotencyWindow.LateDeleterCutsShort | src/core/middlewares/idempotency.middleware.ts:32-46 | a run from the empty store in which a late deleter takes away a row 24 hours before its expiry |
| Idempotency.RowIsAHandlersResponse | src/core/middlewares/idempotency.middleware.ts:57-93 | in every reachable state a stored row holds the 2xx status and body of a handler run made under its key |
| IdempotencyWindow.ReplayWindow | src/core/middlewares/idempotency.middleware.ts:30-55 | under every interleaving, from an unchallenged row until its expiry, the row stays as it is and every request of the key that had not looked it up replays it |
| IdempotencyWindow.FirstRowShields | src/core/middlewares/idempotency.middleware.ts:30-104 | from a key's first store until that row expires, the row stays, and the handler runs of the key are at most, and among, the requests whose lookup came before |
| IdempotencyWindow.ReplaysTheHandler | src/core/middlewares/idempotency.middleware.ts:47-93 | a request replayed inside the window gets the status and parsed body of a 2xx handler run made under its key |
| IdempotencyWindow.ReplayFaithfulIff | src/core/middlewares/idempotency.middleware.ts:76-84 | a replay repeats the stored response if and only if its body was JSON text; other text comes back as a JSON string |
| IdempotencyService.ServedAlone | src/core/middlewares/idempotency.middleware.ts:14-110 | a guarded request's events, run alone, leave the table and the reply of its one-piece form |
| IdempotencyService.ServeLaw | src/core/middlewares/idempotency.middleware.ts:14-110 | written out: only POST, PUT and PATCH with a nonempty key are acted on; an unexpired row is repeated, status 0 as 200; otherwise the handler runs, and the key holds a row afterwards if and only if the response was sent with a status from 200 to 299 and a body that is not null, for 86,400,000 ms |
| IdempotencyService.AloneLaw | src/core/middlewares/idempotency.middleware.ts:14-110 | the same of the machine's events run alone |
| IdempotencyService.LostDeleteStoresNothing | src/core/middlewares/idempotency.middleware.ts:40-42 | a request whose delete finds the row gone runs its handler and stores nothing |
| IdempotencyService.SweepLaw | src/infra/schedule/tasks/cleanup.task.ts:84-90 | a sweep keeps exactly the rows not yet expired |
| IdempotencyService.IdempotencyMiddleware.Use | src/core/middlewares/idempotency.middleware.ts:14-110 | the method's table and reply are the one-piece form's, and those of ServeLaw, on every branch |
| IdempotencyService.SweepsAreHidden | src/infra/schedule/tasks/cleanup.task.ts:84-90 | sweeps at any points between non-overlapping requests change no reply, so neither a replay nor a handler run |
| IdempotencyService.StoredRowRepeats | src/core/middlewares/idempotency.middleware.ts:36-54 | until a stored row expires, every non-overlapping request of its key repeats that row, through any other requests, waits and sweeps |
| IdempotencyService.ReplaysFor24Hours | src/core/middlewares/idempotency.middleware.ts:47-93 | after a storable 2xx response, every non-overlapping request of the key for 24 hours gets that status and that JSON body and runs no handler |
| Masking.MaskObject | src/shared/utils/mask.util.ts:22-44 | the loop that fills an object key by key computes the structural mask of the tree, without the fields whose key JavaScript does not copy |
| Masking.MaskedIdempotent | src/shared/utils/mask.util.ts:22-44 | masking twice is masking once, for every JSON tree |
| Masking.MaskKeepsShape | src/shared/utils/mask.util.ts:22-44 | along every path that crosses no sensitive key the masked tree has a node of the same kind with the same length and the same keys in order, and unchanged leaves |
| Masking.SensitiveValueIsMarked | src/shared/utils/mask.util.ts:59-69 | a value under a sensitive key, at any depth, becomes the bare mark or the mark between two characters of each end |
| Masking.MarksEqualIff | src/shared/utils/mask.util.ts:59-69 | two values mask alike if and only if both are hidden or both are long with the same two characters at each end |
| Masking.MasksEqualIff | src/shared/utils/mask.util.ts:22-69 | two JSON trees of any depth mask to the same tree if and only if they differ at most in such values under sensitive keys |
| Masking.MaskedEqualIff | src/shared/utils/mask.util.ts:22-69 | the same with the fields whose key JavaScript does not copy left out of the comparison |
| Masking.CleanKeeps | src/shared/utils/mask.util.ts:31-44 | a tree with no such key loses nothing |
| Masking.SensitiveIff | src/shared/utils/mask.util.ts:5-17 | a field is sensitive if and only if one of the eleven names, each written out, in whatever case, stands somewhere in its name |
| Masking.MaskValueLaw | src/shared/utils/mask.util.ts:59-69 | what is shown of null, booleans, zero, short and long texts and numbers, objects and the empty array |
| Masking.ArrayTextLaw | src/shared/utils/mask.util.ts:62 | the text of an array is its items' texts with commas between, null as nothing |
| Masking.ObjectLaw | src/shared/utils/mask.util.ts:31-43 | each own field but `__proto__` is kept, in order, as its masked value or its masked subtree |
| Masking.ProperLaw | src/shared/utils/mask.util.ts:22-44 | every tree whose objects have distinct keys, at any depth, is accepted |
| Crypto.DecryptOfEncrypt | src/shared/crypto/crypto.service.ts:27-96 | decrypting an encryption gives the plaintext back, for every plaintext and iv, and only the empty text is stored as the empty string |
| Crypto.SealedHasThreeParts | src/shared/crypto/crypto.service.ts:50-51 | splitting a stored text at colons gives exactly the iv, the tag and the data |
| Crypto.FromHexOfToHex | src/shared/crypto/crypto.service.ts:75-77 | hex decoding recovers every byte string |
| Crypto.HexLaw | src/shared/crypto/crypto.service.ts:51 | a byte is two lower-case digits, the high one first |
| Crypto.FromHexLaw | src/shared/crypto/crypto.service.ts:75-76 | decoding reads digits of either case and stops at the first pair that is not two digits |
| Crypto.DecryptLaw | src/shared/crypto/crypto.service.ts:63-96 | empty stays empty; any other text without exactly two colons is refused; the three parts are opened as iv, tag and data |
| Crypto.CryptoService.Encrypt | src/shared/crypto/crypto.service.ts:27-56 | the appended chunks come to the printed iv, tag and whole ciphertext |
| Users.EncryptedRefinesPlain | src/domains/user/application/user.service.ts:34-216 | over every sequence of create, update, remove and findOne, whatever the ivs, every reply is that of a service storing the plain phone; in particular none fails to decrypt |
| Users.StepRefines | src/domains/user/application/user.service.ts:34-204 | each operation keeps the encrypted and the plain table in step and gives the same reply |
| Users.CreateLaw | src/domains/user/application/user.service.ts:34-71 | a create conflicts if and only if some row has the email or the id is in use; otherwise each column of the stored row and of the reply, with the default role and the active flag |
| Users.UpdateLaw | src/domains/user/application/user.service.ts:141-184 | an update of a found user sets each named field and keeps each other, field by field; what null, undefined, an empty phone and a missing user do |
| Users.FindAndRemoveLaw | src/domains/user/application/user.service.ts:127-216 | what is shown of a user with and without a phone; removing takes away exactly that user |
| Users.EmailsStayApart | prisma/schema.prisma:20 | over every sequence of operations no two users share an email if none did at the start |
| Users.UntouchedPhoneIsKept | src/domains/user/application/user.service.ts:152-164 | after any run that gives a user no nonempty phone and does not remove the user, the same phone is shown |
| Users.UserService.Update | src/domains/user/application/user.service.ts:141-184 | table and reply are those of the stored service: undefined keeps a column, null clears a name and is refused of a role or active flag, a missing user is refused |
| Users.UserService.FindAll | src/domains/user/application/user.service.ts:73-125 | the page of the rows its where clause selects, with its metadata, every phone decrypted; one that does not decrypt fails the page |
| Users.PagesHoldEveryMatch | src/domains/user/application/user.service.ts:87-119 | the pages of a query, joined, hold every row with the asked role whose email or name contains the search as often as the table does, and no other row |
| Users.UserService.CollectChanges | src/domains/user/application/user.service.ts:169-176 | the changes hold exactly the fields that are not undefined, with their values |
| Pagination.PagesPartition | src/domains/user/application/user.service.ts:85-119 | pages 1 to totalPages, joined, are the whole result with every record once, and every later page is empty |
| Pagination.HasNextIff | src/domains/user/application/user.service.ts:111-119 | hasNext holds if and only if a record lies past the current page, equivalently if the next page is not empty; hasPrev on every page but the first; no page up to the last is empty |
| Pagination.RecordIsOnOnePage | src/domains/user/application/user.service.ts:85-108 | each record is at one page and offset and no other |
| Websocket.GaugeIsOpensMinusCloses | src/infra/websocket/presentation/websocket.gateway.ts:51-59 | over every order of events the gauge is opens minus closes and equals the number of sockets connected |
| Websocket.StaleEntryIff | src/infra/websocket/presentation/websocket.gateway.ts:56-88 | a closed socket is registered if and only if its authenticate handler ran after its disconnect |
| Websocket.ShutdownClearsIff | src/infra/websocket/presentation/websocket.gateway.ts:253-283 | what the shutdown loop leaves registered is nothing if and only if no authenticate handler ran after its socket's disconnect |
| Websocket.AuthenticateLaw | src/infra/websocket/presentation/websocket.gateway.ts:72-105 | authenticating sets the socket's user and registers it last, unless it is registered already |
| Websocket.DisconnectLaw | src/infra/websocket/presentation/websocket.gateway.ts:56-68 | closing takes the socket's entry out from between the others and lowers the gauge by one; a closed socket cannot close again |
| Websocket.WebsocketGateway.SendToUser | src/infra/websocket/presentation/websocket.gateway.ts:231-240 | picks the first registered socket of the user, and none only if there is none |
| Websocket.WebsocketGateway.DisconnectEach | src/infra/websocket/presentation/websocket.gateway.ts:267-274 | the loop over the snapshot calls disconnect once on each, in order, while the callbacks that run meanwhile delete from the map |
| Websocket.WebsocketGateway.DisconnectAll | src/infra/websocket/presentation/websocket.gateway.ts:253-283 | each snapshot client is disconnected once, in order; once all callbacks have run only entries of sockets already closed before remain, and the gauge still counts the connected |
| Shutdown.StartsOnce | src/infra/shutdown/shutdown.service.ts:59-67 | however many signals arrive the sequence starts once, and readiness is off from the first signal on, for good |
| Shutdown.StepsRunInOrder | src/infra/shutdown/shutdown.service.ts:107-156 | in every run the steps end in the stated order, none skipped or repeated, the WebSocket step within its cap, and the exit code is 0 if and only if all four ended |
| Shutdown.ExitsByTheTimeout | src/infra/shutdown/shutdown.service.ts:59-101 | in every run the process is gone by the timeout, whatever throws; with every throw caught it exits 0 if and only if the sequence takes less, and 1 at the timeout if it takes longer or never ends; only at exactly the timeout may either happen |
| Shutdown.ExitIsTheVerdict | src/infra/shutdown/shutdown.service.ts:59-229 | with every throw caught, the exit code, the exit time and the time and log word of every step are, up to ties, a function of the step durations and of which steps throw |
| Shutdown.FailuresAbortNothing | src/infra/shutdown/shutdown.service.ts:132-229 | with the catches of the source, whatever steps throw and whenever, every run is, step by step and moment by moment, the run in which nothing throws, and exit 1 comes from the timer alone |
| Shutdown.FailuresAbortNothingIff | src/infra/shutdown/shutdown.service.ts:107-127 | for any set of steps with a catch, that is so of every run if and only if every step that can throw before the timer has one |
| Shutdown.ThrowEscapesIff | src/infra/shutdown/shutdown.service.ts:93-100 | the catch around the sequence is entered in some run if and only if a step that can throw has no catch of its own |
| Shutdown.CanAlwaysExit | src/infra/shutdown/shutdown.service.ts:73-93 | from every state after a signal some continuation exits |
| ShutdownService.ShutdownService.OnSignal | src/infra/shutdown/shutdown.service.ts:59-101 | a first signal ends with the exit and the steps of that function; the catch that exits 1 is proved dead; a later signal changes nothing |
| ShutdownService.ShutdownService.ExecuteShutdownSequence | src/infra/shutdown/shutdown.service.ts:107-127 | the steps as written end as that function says, no throw leaves the sequence, and it stops where the timer exits the process |
| ShutdownService.ShutdownService.CloseWebSockets | src/infra/shutdown/shutdown.service.ts:132-156 | ends when the gateway's shutdown resolves or rejects or at the cap, whichever is first, unless the timer is earlier; a rejection goes through the step's catch and out as an ordinary return |
| ShutdownService.ShutdownService.StopScheduledTasks | src/infra/shutdown/shutdown.service.ts:161-196 | stops cron jobs, intervals and timeouts, in that order, exactly up to the first that throws, and always returns |
| ShutdownService.UpToFirstFailureIff | src/infra/shutdown/shutdown.service.ts:173-190 | what stopping up to the first failure comes to: a prefix of the tasks, none of whose stops throws, followed by the end or by one that throws |

## Left out

- Duration.AddLifetime: the date stays inside JavaScript's range and the process runs in UTC; overflow to an invalid date and local-time changes of `setDate` are not modelled.
- Masking.MaskObject: an object has no key twice; lower-casing is ASCII, strings are their UTF-16 units, so a split surrogate pair is two characters, and numbers are their printed text. A masked object's prototype, which an own `__proto__` field replaces, is not part of the tree.
- Users.UserService.Update: no other request runs between the lookup and the write.
- Users.StepRefines: argon2 hashing is done before, and two creates racing on one email are not interleaved.
- Users.UserService.FindAll: the rows arrive in the order of the requested sort, and the store's case-insensitive containment is a parameter; ties of the sort and rows added between `count` and `findMany` are not modelled.
- Idempotency.RowIsAHandlersResponse: a JSON body stands for its value, so key order in JSONB and white space are not modelled; neither is a failure of the lookup itself, which only skips the middleware.
- CronLock.DistributedCron.Invoke: a missing cache manager throws before any event and is left out, and a cache call that fails is taken to have had no effect.
- Websocket.WebsocketGateway.SendToUser: the emission itself, rooms and broadcasts belong to the transport.
- ShutdownService.ShutdownService.OnSignal: the queue and database close-downs run in other modules' destroy hooks after the exit is requested, and logging does not throw.
- AuthService.AuthService.Login: the machine's login event names the account by its id, which the method looks up by email; the access token, which the store never sees, is left out.
- AuthService.AuthService.Refresh: an empty token string passed to logout, which the code treats as no token, is the caller passing none; the events emitted for listeners are left out.
- JWT signing and verification, argon2 and AES are abstract, as stated under the assumptions.
- Store failures other than a missing row, a duplicate key or a missing user, and a cache TTL of 0.
- Two concurrent toggles may flip a flag once; `toggle` is modelled as its two steps and not claimed to be atomic.
- Audit-log cleanup deletes by age from a table nothing else here reads; maskEmail, maskPhone, hash and constantTimeCompare are pure functions that no modelled service calls.
- Guards, controllers, filters, interceptors, uploads, email and health tasks, Nest wiring and configuration loading keep no state that the modelled services share.

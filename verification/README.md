# Accounts, sessions, outbox and jobs: a verified model

This project models the stateful parts of a NestJS back end (a gateway, a `user`
service, two batch jobs and the libraries between them) and proves what they
guarantee over every input and every run.

* **User service.** `Accounts` gives every request handler as a function from the
  tables it finds to the tables it leaves; `UsersService` is the same service as
  an object that assigns fields and flushes, each method proved equal to its
  function. `AccountRuns` interleaves all handlers with the outbox dispatcher and
  with a purge split into its two deletes; an upgrade is split at its flush.
  `AccountTheorems` and `DeletionEvents` hold the results about whole runs,
  `AccountRoundTrips` those about one handler seen through another,
  `HandlerOutcomes` what each handler answers and leaves in each case,
  `VouchedAddresses` whose address a provider has vouched for, and
  `BlockedDevices` that a blocked device stays out.
* **Sessions.** `Sessions` puts the gateway on top: minting, and rotation split
  into blacklist read, version read, comparison, blacklist write and minting, with
  any number of requests in flight between any two service steps. Tokens carry
  history (parent token, and the steps at which the reads happened).
  `SessionTheorems` holds revocation, blacklisting, reuse and type coherence;
  `RefreshRuns` the lifetime of a token from its minting, and undisturbed and
  overlapping refreshes.
  `RefreshGuards`, `TokenStore` and `AuthService` are the pieces of one refresh.
* **Outbox.** `Outbox` is the protocol with crash points between any two database
  accesses and publisher calls (so flushes may be partial); `OutboxDrain` proves
  that an undisturbed sweep is a run of it and how many sweeps empty it;
  `OutboxStaging` that what is staged is what the publisher is given;
  `OutboxFairness` that newer rows do not hold up older ones;
  `OutboxDispatcher` is the dispatcher object; `OutboxRetries` counts how often a
  failed row was really refused; `EventPublishing` adds the real publisher.
* **Races on an address.** `EmailRaces` splits upgrade and OAuth sign-up at their
  flush, with the ORM's field-wise update, and shows what the unique index does, and
  exactly when a late flush changes a deleted row.
* **Kernels.** `Redact` (log redaction over trees and cyclic heaps), `SecretKeys`
  (which keys are secret), `Migrations` (file order and crash convergence), `UserPurge` (one purge run), `RpcErrors` (the way of an
  error from a worker to the client), `DuplicateKey`.

## Where code and documentation differ

The model follows the code.

* Deleting an account scrubs the address, password and reset fields. The comment
  above it also promises the name; the profile and the OAuth links stay, so the
  name is gone exactly if there was none: `DeleteScrubs`.
* A sign-in merges into an account by an address the incoming provider vouched for.
  The account's own address need not have been: an upgrade or an unverified sign-up
  stores what the client claims. `MergeJoinsVouchedIff` says when both were vouched
  for, `UnvouchedAddressMerges` that the other case arises.
* Deletion is meant to make an account unreachable. The clash query of an upgrade
  by provider does not ask for live rows, so a deleted account keeps its identities
  to itself until it is purged, and a new account of the same person cannot be
  upgraded with them: `OAuthUpgradeCollidesIff`, `DeletedIdentityBlocksUpgrade`,
  `SignUpDeleteReturn`, `DeletedIdentityBlocksUntilPurge`.
* `docs/AUTH-FLOW.md` calls refresh tokens single-use. That holds unless two
  refreshes overlap: `ReuseOnlyByOverlap` and `OverlappingRefreshesBothSucceed`.
* The outbox promises at-least-once delivery, but `publishEvent` swallows every
  failure. With it no row is ever refused, a sent row is never attempted again, and
  its message is lost for good exactly if the bus refused it in every sweep that
  attempted it: `RealPublisherNeverFails`, `SentMeansHandedOverIff`,
  `OneRefusalLosesTheEvent`. The queue guarantees are therefore stated for a
  publisher that may throw.
* A failed outbox row is documented as refused ten times. It was refused ten times
  and once more for every crash or throwing flush that came between a refusal and
  its write, and every such number occurs: `FailedExactlyAfterTen`,
  `AnyNumberOfRefusals`, `FailedAfterEleven`.
* A failed row is documented as revivable by staging it again. The event of a
  deletion never is, since a deleted account cannot be deleted again:
  `GivenUpStaysGivenUp`.
* `redactSecrets` stops below depth 6 and drops own properties called `__proto__`:
  `CleanIff`, `DeepSecretIsShown`, `ShapeKeptIff`.
* `isDuplicateKeyError` says it reads the message only when `keyPattern` is absent;
  it also does so when `keyPattern` lacks the field: `KeyPatternDecidesIff`,
  `MessageOverridesKeyPattern`. And its fallback for drivers without `keyPattern`
  expects an index called `email_1`, while the index is `users_email_unique`, whose
  name it does not recognise: `EmailIndexByNameIff`, `EmailIndexMissed`.
* The gateway's filter answers `internal_error` for an HttpException with a plain
  string body, where the worker's filter would give the status its own code:
  `LocalEqualsRemoteIff`.
* A block of a device is documented as one from autoreg and login. Only autoreg reads it:
  `BlockedDeviceIsKeptOut`, `LoginsIgnoreBlocks`.

## Assumptions

* A user-service handler is one atomic step, except where said otherwise above.
  `(tokenVersion ?? 0) + 1` is a read-modify-write, so overlapping handlers of one
  account can lose an increment; `FlushChangesDeletedIff` gives another
  consequence of overlap exactly.
* Hashes are injective constructors; fresh ids, salts, jtis and reset tokens are
  parameters required not to have been used (ids are not empty, and the store has
  no entry for a new jti). What a query answers is a parameter
  constrained to a possible answer, since several rows may match.
* Unique indexes on fingerprint and idempotency key are map keys; the one on the
  address is checked by every flush, and its violation is reported with a
  `keyPattern` (without one, see `EmailIndexByNameIff`). The dispatcher and the migration job are
  single instances, as the code asks for.
* The gateway and the token store share one clock, and the store never drops a
  live entry. A store that does not answer is an error. Thirty days are
  30 x 86,400,000 ms.
* A device is blocked by an operator who edits its row; no handler does it.

## Model

| member | source | states |
|---|---|---|
| Outbox.NoEventIsLost | libs/messaging/src/outbox/outbox.service.ts:88-163 | in every reachable state, with crashes, partial flushes and staging anywhere in a sweep, a row is pending with attempts left, or sent with exactly its message handed over without a throw since it was last staged, or failed with ten recorded attempts |
| OutboxRetries.FailedExactlyAfterTen | libs/messaging/src/outbox/outbox.service.ts:108-116 | over any run, a failed row was refused ten times plus once for every crash or throwing flush, since it was last staged, that found a refusal of it not yet written; so exactly ten times if and only if there was none |
| OutboxRetries.LostIsForgotten | libs/messaging/src/outbox/outbox.service.ts:87-163 | the history counter of forgotten refusals equals the number of those steps in the run |
| OutboxRetries.AnyNumberOfRefusals | libs/messaging/src/outbox/outbox.service.ts:101-143 | for every event and every c some reachable failed row was refused 10 + c times |
| OutboxRetries.FailedAfterEleven | libs/messaging/src/outbox/outbox.service.ts:101-143 | a reachable failed row with ten recorded attempts that was refused eleven times |
| OutboxRetries.UninterruptedFailsAfterTen | libs/messaging/src/outbox/outbox.service.ts:108-116 | in a run without crashes or throwing flushes, failed means exactly ten refusals since the row was staged |
| OutboxRetries.CrashForgetsAnAttempt | libs/messaging/src/outbox/outbox.service.ts:143 | for every event, a reachable state in which it was refused once and its row is pending with no attempt recorded |
| Outbox.StepKeepsInv | libs/messaging/src/outbox/outbox.service.ts:88-163 | every protocol step keeps the accounting of publisher calls against durable rows, loaded copies and unrecorded attempts |
| Outbox.DispatchKeepsMessages | libs/messaging/src/outbox/outbox.service.ts:101-143 | the dispatcher adds and drops no row and changes no row's target, pattern or payload |
| Outbox.StepLeavesSettled | libs/messaging/src/outbox/outbox.service.ts:92-96 | a row that is sent or failed is neither changed nor attempted by any step but the staging of a failed one |
| OutboxDrain.SweepIsARun | libs/messaging/src/outbox/outbox.service.ts:87-163 | an undisturbed sweep, taken as one transition, equals the step-by-step protocol run |
| OutboxDrain.AbortedSweepReachable | libs/messaging/src/outbox/outbox.service.ts:143 | a sweep whose flush throws after writing any subset of its rows ends in a reachable state |
| OutboxDrain.SweepSpends | libs/messaging/src/outbox/outbox.service.ts:101-142 | a sweep makes no row pending and uses up at least one remaining attempt per row of its batch |
| OutboxDrain.DrainBound | libs/messaging/src/outbox/outbox.service.ts:92-142 | with n rows pending and nothing staged, floor(2n/5)+10 sweeps leave no pending row, whatever the publisher does |
| OutboxFairness.OlderRowsDrain | libs/messaging/src/outbox/outbox.service.ts:92-142 | with r pending rows created at or before some instant, and any number of newer rows staged before every sweep, floor(2r/5)+10 sweeps leave none of the r pending |
| OutboxFairness.NoRowStarves | libs/messaging/src/outbox/outbox.service.ts:92-96 | so a row with r pending rows at least as old as it, itself included, is settled by then, however many newer rows arrive |
| OutboxFairness.SweptSeen | libs/messaging/src/outbox/outbox.service.ts:92-142 | among the rows created at or before any instant, a sweep of all rows is one sweep of those rows |
| OutboxDrain.QuietDrainDelivers | libs/messaging/src/outbox/outbox.service.ts:92-143 | if the publisher does not throw, every row that has not failed is sent, with the message it was staged with, within that bound |
| OutboxStaging.StagedIsDelivered | libs/messaging/src/outbox/outbox.service.ts:87-236 | stage an event at any reachable moment, in the middle of a sweep too, under a new key or over a row that was given up; whatever follows, crashes included, if the key is not staged again and the publisher does not throw, then within the drain bound the row is sent by a call made since that carried the payload staged |
| OutboxStaging.StagedRow | libs/messaging/src/outbox/outbox.service.ts:198-236 | staging under a new key or over a failed row leaves a pending row with no attempts, no error and the payload staged now (a revived row keeps target, pattern and creation time); over any other row it changes nothing; no other row moves |
| OutboxStaging.AttemptedRow | libs/messaging/src/outbox/outbox.service.ts:101-142 | one attempt, field by field: sent exactly if the publisher returned, given up exactly at the tenth failure, the message never changed |
| OutboxStaging.BatchSize | libs/messaging/src/outbox/outbox.service.ts:92-96 | a batch is every row that is due, or 25 of them |
| OutboxDispatcher.Dispatcher.Sweep | libs/messaging/src/outbox/outbox.service.ts:87-163 | nothing happens while another sweep runs; otherwise the batch is the oldest eligible rows, the calls, rows and both counters are those of the sweep transition, a throwing flush leaves the aborted-sweep state, and the running flag is cleared either way |
| OutboxDispatcher.Dispatcher.SweepBody | libs/messaging/src/outbox/outbox.service.ts:91-159 | the durable rows, the calls made and the counters of one guarded sweep, for complete and for partial flushes |
| OutboxDispatcher.CountersTell | libs/messaging/src/outbox/outbox.service.ts:99-159 | the two counters of a sweep are the numbers of rows of its batch that are sent and given up after it |
| OutboxDispatcher.Dispatcher.Find | libs/messaging/src/outbox/outbox.service.ts:92-96 | the answer is a batch: eligible, distinct, in order of age, at most 25, and nothing older is left out |
| OutboxDispatcher.Dispatcher.PublishAll | libs/messaging/src/outbox/outbox.service.ts:99-142 | the loop's in-memory rows, its calls in order, and how many were dispatched and given up |
| OutboxDispatcher.Dispatcher.Flush | libs/messaging/src/outbox/outbox.service.ts:143 | writes every loaded row, or exactly the given subset when it throws |
| OutboxDispatcher.Dispatcher.StageOutboxEvent | libs/messaging/src/outbox/outbox.service.ts:198-236 | the staging transition; reports `created` exactly for a new key; a pending or sent row is untouched; a new row carries the event, a failed one is pending again with no attempts and the payload of this event; no other row moves |
| OutboxDispatcher.Dispatcher.Schedule | libs/messaging/src/outbox/outbox.service.ts:79-85 | after this call a timer is armed exactly if the object is not shutting down; the invariant, that none is armed while it is, is kept |
| OutboxDispatcher.Dispatcher.OnModuleDestroy | libs/messaging/src/outbox/outbox.service.ts:71-77 | the object is shutting down and keeps the invariant that then no timer is armed, which every method keeps |
| EventPublishing.RealPublisherNeverFails | libs/common/src/services/rpc-client.service.ts:109-123 | with the real publisher, over any run with crashes, no row fails, records an error or a second attempt, and no refusal is forgotten: the failure branch is unreachable |
| EventPublishing.SentIsFinal | libs/messaging/src/outbox/outbox.service.ts:92-106 | whatever happens later, a sent row is unchanged and no publisher call is made for it |
| EventPublishing.SentMeansHandedOverIff | libs/common/src/services/rpc-client.service.ts:109-123 | a sent row had a call, and in no continuation of the run is its message ever taken by the bus if and only if the bus refused it in every sweep that attempted it |
| EventPublishing.OneRefusalLosesTheEvent | libs/common/src/services/rpc-client.service.ts:116-122 | for every event, a run with the real publisher in which the bus throws once, the row is sent and the message lost for good although the bus works ever after |
| Accounts.AutoregKeeps | apps/user/src/modules/users/users.service.ts:95-155 | autoreg keeps addresses, identities and reset tokens unique, deleted and anonymous rows bare, and devices owned |
| Accounts.UpgradeKeeps | apps/user/src/modules/users/users.service.ts:192-259 | the same for upgrades |
| Accounts.OAuthKeeps | apps/user/src/modules/users/users.service.ts:269-348 | the same for OAuth sign-in: exact link, verified-address merge and creation |
| Accounts.ForgotKeeps | apps/user/src/modules/users/users.service.ts:350-377 | the same for issuing a fresh reset token |
| Accounts.ResetKeeps | apps/user/src/modules/users/users.service.ts:379-407 | the same for resets |
| Accounts.UpdateKeeps | apps/user/src/modules/users/users.service.ts:419-434 | the same for profile updates |
| Accounts.DeleteKeeps | apps/user/src/modules/users/users.service.ts:436-462 | the same for deletions |
| AccountRuns.UpgradeEffect | apps/user/src/modules/users/users.service.ts:192-259 | a failed upgrade changes nothing; a successful one changes one live anonymous row into a registered one with the next version, and reports that version |
| AccountRuns.UpgradeIsReported | apps/user/src/modules/users/users.service.ts:250-259 | the version an upgrade reports is the one its row has after it |
| AccountRuns.StepRow | apps/user/src/modules/users/users.service.ts:95-462 | what any one step can do to any one account, by the event it is recorded as: types move only with a version bump, deleted rows do not move at all |
| AccountInvariants.StepKeepsInv | apps/user/src/modules/users/users.service.ts:95-462 | every step of service, dispatcher and purge keeps the tables, purge, event and history invariants together |
| AccountTheorems.DeletionIsFinal | apps/user/src/modules/users/users.service.ts:436-462 | over any run a soft-deleted row stays exactly as it is until a purge removes it |
| AccountTheorems.StaysGone | apps/user/src/modules/users/users.service.ts:133-138 | an id whose account was purged never names an account again |
| AccountTheorems.PurgeOnlyExpired | tasks/user-purge/src/task.service.ts:28-65 | a row about to be purged was deleted more than 30 days before that purge run began, and no device points at it |
| AccountTheorems.PurgeCompletes | tasks/user-purge/src/task.service.ts:28-65 | every account deleted more than 30 days (2,592,000,000 ms) before can be found and removed, with exactly its devices, by the three steps of a purge |
| AccountTheorems.DevicesNeverDangle | tasks/user-purge/src/task.service.ts:61-65 | every device row points at an existing user after every single step, whatever is interleaved with the two purge deletes |
| AccountTheorems.TokenVersionIsACount | apps/user/src/modules/users/users.service.ts:250-253 | `tokenVersion` equals the number of upgrades, successful resets and deletions in the history |
| DeletionEvents.DeleteAndEventAgree | apps/user/src/modules/users/users.service.ts:436-462 | an account is deleted if and only if the row keyed by its id is in the outbox; that row carries its id; the key determines the id |
| DeletionEvents.DeletionStages | apps/user/src/modules/users/users.service.ts:436-462 | in every reachable state, deleting a live account adds a new pending row `user.deleted:<id>` with the pattern, target and payload of the event, in the same step |
| DeletionEvents.DeletionIsAnnounced | apps/user/src/modules/users/users.service.ts:450-461 | from any reachable state, in the middle of a sweep too, once the dispatcher has come to rest in any way and while the publisher does not throw, the event of a deletion is sent within the drain bound exactly if it had not been given up, and was then announced |
| DeletionEvents.DispatcherSettles | libs/messaging/src/outbox/outbox.service.ts:87-163 | from any state the dispatcher can come to rest without touching a row |
| DeletionEvents.GivenUpStaysGivenUp | apps/user/src/modules/users/users.service.ts:436-462 | over any run of service, dispatcher and purge, the failed event of a deletion stays failed and is never published again |
| AccountTheorems.IdentityHasOneLiveAccount | apps/user/src/modules/users/users.service.ts:269-348 | in every reachable state a provider identity is linked to at most one live account |
| AccountTheorems.EmailHasOneAccount | libs/database/src/entities/user.entity.ts:49-53 | in every reachable state no two accounts, deleted ones included, share an address |
| AccountTheorems.DeletedIdentityBlocksUntilPurge | apps/user/src/modules/users/users.service.ts:220-235 | in every state of a run from an account's deletion until its purge, an upgrade with an identity it held is a collision |
| AccountTheorems.OnlyVerifiedEmailMerges | apps/user/src/modules/users/users.service.ts:294-319 | an OAuth sign-in changes an existing account only by adding the link, only if the incoming provider vouched for that account's address, and only if no live account held the identity |
| VouchedAddresses.VouchedIsHeld | apps/user/src/modules/users/users.service.ts:294-347 | over any run, a live account whose address a provider has vouched for still holds that address and the identity that did |
| VouchedAddresses.MergeJoinsVouchedIff | apps/user/src/modules/users/users.service.ts:294-319 | over any run, a merge is on an address the incoming provider vouches for, and joins two identities both vouched for on it if and only if the account's own address had been vouched for before |
| VouchedAddresses.UnvouchedAddressMerges | apps/user/src/modules/users/users.service.ts:294-347 | the other case arises: an unvouched sign-up with an address, then a vouched one by another identity, answers the first account |
| AccountTheorems.OAuthIsStable | apps/user/src/modules/users/users.service.ts:275-292 | after a successful sign-in the identity resolves to exactly the account that was returned |
| AccountTheorems.AnonymousHoldsNothing | apps/user/src/modules/users/users.service.ts:95-155 | in every reachable state an anonymous account has no address, password, link or reset token |
| AccountTheorems.LoginOnlyFindsRegistered | apps/user/src/modules/users/users.service.ts:157-190 | a login answers only with a live registered account with that address and password, and its current version |
| AccountTheorems.OAuthOnlyFindsRegistered | apps/user/src/modules/users/users.service.ts:269-348 | an OAuth sign-in answers only with a live registered account and its current version |
| AccountTheorems.UpgradedAtMostOnce | apps/user/src/modules/users/users.service.ts:195-197 | an account is upgraded at most once, and stays registered |
| AccountTheorems.FingerprintSticks | apps/user/src/modules/users/users.service.ts:84-128 | a fingerprint keeps resolving to its account over any run without an upgrade or purge of it or a block of the device |
| AccountTheorems.ResolvedAutoreg | apps/user/src/modules/users/users.service.ts:118-127 | while it resolves, autoreg returns that account with its version and adds no row |
| AccountTheorems.AutoregNeverReturnsUpgraded | apps/user/src/modules/users/users.service.ts:111-128 | autoreg never answers with an account that was ever upgraded, even if the process died between an upgrade's flush and its device wipe |
| BlockedDevices.BlockedIsRefused | apps/user/src/modules/users/users.service.ts:102-110 | every autoreg with a blocked device is refused with the stored reason or `policy_violation`, and leaves the tables as they are |
| BlockedDevices.RefusedIffBlocked | apps/user/src/modules/users/users.service.ts:102-110 | and autoreg refuses no other device |
| BlockedDevices.StepKeepsBlock | libs/database/src/entities/device.entity.ts:27-32 | every step of service, purge and dispatcher that leaves a blocked row leaves it blocked, for the same reason unless it is blocked again |
| BlockedDevices.StepRemovesBlocked | apps/user/src/modules/users/users.service.ts:261-264 | a blocked row is removed only by the wipe or purge of its account |
| BlockedDevices.BlockLasts | apps/user/src/modules/users/users.service.ts:95-155 | over any run in which the row of a blocked device stays, it stays blocked and every autoreg with it is refused and changes nothing |
| BlockedDevices.LoginsIgnoreBlocks | apps/user/src/modules/users/users.service.ts:157-190 | a block changes no answer of a password login or an OAuth sign-in |
| BlockedDevices.BlockedDeviceIsKeptOut | apps/gateway/src/modules/auth/auth.service.ts:51-80 | over any run of the gateway with the service, from a block until the row is removed, no sign-in with the device can happen |
| AccountTheorems.OutstandingIsAwaited | apps/user/src/modules/users/users.service.ts:350-407 | the reset token an account waits for is the latest issued to it and not since used or voided |
| AccountTheorems.ResetSucceedsIff | apps/user/src/modules/users/users.service.ts:379-407 | over any run a reset succeeds exactly for the latest unused token of a live account, at most 3,600,000 ms after issue |
| AccountTheorems.ResetTokenUsedAtMostOnce | apps/user/src/modules/users/users.service.ts:379-407 | over any run a reset token is used at most once |
| AccountRoundTrips.UpgradeThenLogin | apps/user/src/modules/users/users.service.ts:199-212 | after an upgrade by address, exactly that password signs in, to that account and version |
| AccountRoundTrips.UpgradeThenOAuth | apps/user/src/modules/users/users.service.ts:213-245 | after an upgrade by provider, that identity resolves to that account |
| AccountRoundTrips.ForgotThenReset | apps/user/src/modules/users/users.service.ts:350-407 | the issued token works up to and including the hour; then exactly the new password signs in, the version is the next one, and the token is dead |
| AccountRoundTrips.WipeUnbinds | apps/user/src/modules/users/users.service.ts:264 | the wipe removes exactly the account's devices and touches nothing else |
| AccountRoundTrips.UpdateIsLocal | apps/user/src/modules/users/users.service.ts:419-434 | an update touches one live account's profile only, is idempotent, and is undone by writing the old values back |
| AccountRoundTrips.DeleteScrubs | apps/user/src/modules/users/users.service.ts:436-449 | deleting scrubs address, password and reset fields; profile and links stay, so the name is gone exactly if there was none |
| AccountRoundTrips.DeleteThenGone | apps/user/src/modules/users/users.service.ts:436-449 | no query by address or reset token and no live query by identity finds a deleted account, and its address is free again; the unfiltered identity query still finds it, for exactly the identities it held |
| AccountRoundTrips.OAuthUpgradeCollidesIff | apps/user/src/modules/users/users.service.ts:220-235 | an anonymous account's upgrade by provider is a collision if and only if some row, deleted ones included, holds the identity, and names such a row |
| AccountRoundTrips.DeletedIdentityBlocksUpgrade | apps/user/src/modules/users/users.service.ts:223-235 | after an account with an identity is deleted, no possible query answer lets another account upgrade with it, and the deleted account may be named |
| AccountRoundTrips.SignUpDeleteReturn | apps/user/src/modules/users/users.service.ts:192-462 | from empty tables: sign up with a provider, delete, return anonymously, upgrade with the same provider: refused, naming the deleted account |
| HandlerOutcomes.AutoregCreates | apps/user/src/modules/users/users.service.ts:95-155 | an unblocked device that resolves to no anonymous account gets a new one with the default profile, bound to it, and nothing else moves |
| HandlerOutcomes.AutoregTouches | apps/user/src/modules/users/users.service.ts:118-127 | a device that resolves is marked as seen, its address hash replaced only by a non-empty one |
| HandlerOutcomes.AbortedAutoreg | apps/user/src/modules/users/users.service.ts:111-155 | an autoreg that dies after dropping a stale device has changed nothing else, and the next one ends as it would have |
| HandlerOutcomes.LoginIff | apps/user/src/modules/users/users.service.ts:157-190 | whatever row the query answers, a login succeeds if and only if a live account has this address and password, and every refusal is the same |
| HandlerOutcomes.UpgradeRefusals | apps/user/src/modules/users/users.service.ts:192-259 | each of the five refusals exactly by its condition, in the order of the checks; a refusal changes nothing |
| HandlerOutcomes.UpgradeLeaves | apps/user/src/modules/users/users.service.ts:203-259 | every field of an upgraded row, for both kinds of upgrade; no other row moves |
| HandlerOutcomes.OAuthReturns | apps/user/src/modules/users/users.service.ts:275-292 | an identity a live account holds signs in to that account, whatever the queries could answer, and changes nothing |
| HandlerOutcomes.OAuthMerges | apps/user/src/modules/users/users.service.ts:294-319 | otherwise a vouched address of a live account signs in to that account, and only adds the link |
| HandlerOutcomes.OAuthCreates | apps/user/src/modules/users/users.service.ts:321-347 | otherwise an account is created with the address, vouched for or not, unless any row has it |
| HandlerOutcomes.ForgotLeaves | apps/user/src/modules/users/users.service.ts:350-377 | the one live account with the address gets the token for 3,600,000 ms; without one nothing happens |
| HandlerOutcomes.ResetLeaves | apps/user/src/modules/users/users.service.ts:379-407 | a refused reset changes nothing; a successful one writes the hash, spends the token and bumps the version of the account whose unexpired token it was |
| HandlerOutcomes.UpdateSets | apps/user/src/modules/users/users.service.ts:419-434 | each field present takes its value, an explicit null included; each absent one is kept |
| HandlerOutcomes.DeleteLeaves | apps/user/src/modules/users/users.service.ts:436-462 | succeeds exactly on live accounts; stamps the time and bumps the version |
| HandlerOutcomes.ExpiredIff | tasks/user-purge/src/task.service.ts:28-37 | a purge finds exactly the accounts deleted more than 2,592,000,000 ms before |
| HandlerOutcomes.FoundIff | apps/user/src/modules/users/users.service.ts:409-417 | an account is found by id exactly while it is live |
| UsersService.Service.CreateAutoregUser | apps/user/src/modules/users/users.service.ts:95-155 | the object's new state and reply are the handler's function of the old one; invariant kept |
| UsersService.Service.Login | apps/user/src/modules/users/users.service.ts:157-190 | the reply is that of the handler's function whichever row the query may answer with; nothing changes |
| UsersService.Service.UpgradeAccount | apps/user/src/modules/users/users.service.ts:192-267 | row change, reply and device wipe are those of the two upgrade steps; devices stay when it fails |
| UsersService.Service.FindOrCreateOAuthUser | apps/user/src/modules/users/users.service.ts:269-348 | new state and reply are the handler's function of the old state and possible query answers |
| UsersService.Service.ForgotPassword | apps/user/src/modules/users/users.service.ts:350-377 | new state is the handler's function of the old one |
| UsersService.Service.ResetPassword | apps/user/src/modules/users/users.service.ts:379-407 | new state and reply are the handler's function of the old state |
| UsersService.Service.UpdateUser | apps/user/src/modules/users/users.service.ts:419-434 | new state and reply are the handler's function of the old state |
| UsersService.Service.DeleteUser | apps/user/src/modules/users/users.service.ts:436-462 | the row change and the staged event land together, or neither does |
| UsersService.Service.Flush | apps/user/src/modules/users/users.service.ts:254-259 | a flush that would share an address changes nothing and reports an error recognised as a duplicate address; any other writes its row |
| DuplicateKey.IndexNameIsRecognised | libs/common/src/db/duplicate-key.ts:19-38 | a message naming an index `<field>_<suffix>` is recognised without `keyPattern` |
| DuplicateKey.LongerNameIsNot | libs/common/src/db/duplicate-key.ts:28-36 | in any message, a longer word that starts with the field adds nothing to what the rest names |
| DuplicateKey.KeyPatternDecidesIff | libs/common/src/db/duplicate-key.ts:25-38 | with a `keyPattern`, the answer is whether it has the field, if and only if it has it or the message does not name it |
| DuplicateKey.MessageOverridesKeyPattern | libs/common/src/db/duplicate-key.ts:27-37 | a driver's message about the index on `fingerprint`, with its `keyPattern`, counts as one about `email` if and only if the duplicate value names `email` |
| DuplicateKey.NamedThroughWord | libs/common/src/db/duplicate-key.ts:34-36 | the regular expression finds the field in a message exactly if the rest of it names the field or the word at hand is the field, or the field and `_` |
| DuplicateKey.OnlyThatCode | libs/common/src/db/duplicate-key.ts:26-28 | only error 11000 counts, and without a field every such error does |
| DuplicateKey.EmailIndexByNameIff | libs/database/src/entities/user.entity.ts:49-53 | without `keyPattern`, a message about `users_email_unique` is recognised if and only if the rest of it names `email` |
| DuplicateKey.EmailIndexMissed | libs/common/src/db/duplicate-key.ts:28-37 | the message of a server that does not repeat the field name is not recognised |
| DuplicateKey.EmailIndexRecognised | libs/common/src/db/duplicate-key.ts:28-37 | that of one that writes `email:` before the value is |
| EmailRaces.RacesKeepEmailsUnique | apps/user/src/modules/users/users.service.ts:203-259 | under any interleaving of split upgrades and sign-ups, no two rows share an address |
| EmailRaces.LoserChangesNothing | apps/user/src/modules/users/users.service.ts:254-259 | whoever is told EMAIL_EXISTS has changed no row, and another row holds the address |
| EmailRaces.ContestedEmailHasOneWinner | apps/user/src/modules/users/users.service.ts:203-259 | once anyone racing for a free address has been answered, one account holds it and every success names that account |
| EmailRaces.UndisturbedUpgrade | apps/user/src/modules/users/users.service.ts:192-259 | split at its flush and undisturbed, an upgrade does exactly what the atomic handler does |
| EmailRaces.UndisturbedSignUp | apps/user/src/modules/users/users.service.ts:269-348 | split at its flush and undisturbed, a sign-up does exactly what the atomic handler does; a sign-in to an account that is there claims nothing |
| EmailRaces.PatchIsFieldwise | apps/user/src/modules/users/users.service.ts:254-259 | a flush writes exactly the fields the handler changed and keeps what others wrote to the rest |
| EmailRaces.LateFlushReattachesAddress | apps/user/src/modules/users/users.service.ts:192-259 | an upgrade that loaded its row before the account was deleted and flushes after it puts the address back on the deleted row |
| EmailRaces.LateFlushArises | apps/user/src/modules/users/users.service.ts:192-259 | for every upgrade by address that could go through, the run read, delete, flush does so and answers success |
| EmailRaces.FlushChangesDeletedIff | apps/user/src/modules/users/users.service.ts:192-259 | over any run, a flush changes a deleted row if and only if it is that of an update of it, loaded while it was live, that meets a free address and is not in the row yet; a row deleted while anonymous is changed by every such flush; it stays deleted |
| RefreshGuards.TrimShape | apps/gateway/src/modules/auth/auth.controller.ts:51-60 | trimming removes exactly the white space at both ends |
| RefreshGuards.DeviceIdPresentIff | apps/gateway/src/modules/auth/auth.controller.ts:51-60 | a device header is accepted exactly if it has a non-space character |
| RefreshGuards.GateAcceptsIff | apps/gateway/src/modules/auth/strategies/jwt-refresh.strategy.ts:24-50 | a refresh reaches the service exactly if the token is unexpired (section 4.1.4 of RFC 7519), complete, known not to be blacklisted, and sent by its own device |
| RefreshGuards.RejectionReasons | apps/gateway/src/modules/auth/strategies/jwt-refresh.strategy.ts:24-50 | each of the eight refusals exactly by its condition, in the order of the checks; an unanswered store is not a revoked token |
| RefreshGuards.SpacesAre | apps/gateway/src/modules/auth/auth.controller.ts:51-60 | white space, as trimming takes it, is exactly the twenty-five characters of sections 12.2 and 12.3 of ECMA-262 |
| RefreshGuards.BoundDeviceMatches | apps/gateway/src/modules/auth/auth.controller.ts:161-167 | the device id bound into a token is always accepted as that device again, and only headers that trim to it are |
| TokenStore.EntryLifetime | apps/gateway/src/modules/auth/services/token-store.service.ts:33-38 | an entry outlives its token, by less than a second plus the delay of the write |
| TokenStore.ListedUntil | apps/gateway/src/modules/auth/services/token-store.service.ts:33-56 | an entry is seen for exactly the whole seconds its token had left: at every instant until the expiry, and at none a second and the delay of the write after it |
| TokenStore.WriteShuts | apps/gateway/src/modules/auth/services/token-store.service.ts:33-38 | a finished call shuts its token out, also when ttl <= 0 and it wrote nothing, and reopens no other token |
| TokenStore.ShutForever | apps/gateway/src/modules/auth/services/token-store.service.ts:33-56 | a token shut out at some time is listed or expired at every later millisecond |
| TokenStore.Store.BlacklistRefreshToken | apps/gateway/src/modules/auth/services/token-store.service.ts:33-38 | succeeds exactly if the store answers or nothing need be written; on success the token is out for good; no other entry moves |
| TokenStore.Store.IsBlacklisted | apps/gateway/src/modules/auth/services/token-store.service.ts:40-56 | fails closed: an unanswered read is an error; and "no" means that no unexpired token with this jti has been shut out |
| AuthService.Auth.Refresh | apps/gateway/src/modules/auth/auth.service.ts:188-235 | succeeds exactly if the version RPC answered with the token's own version (missing counts as 0) and the blacklist write went through; then the old token is shut out and the new one carries its claims, and passes the gate from its device exactly until `lifetime` seconds after the second of its minting; an unknown user is a revoked token; failure writes nothing |
| AuthService.Auth.Logout | apps/gateway/src/modules/auth/auth.service.ts:237-249 | always answers success; shuts the token out exactly if it names itself and the store answers |
| AuthService.ClaimedEmailNeverMerges | apps/gateway/src/modules/auth/auth.service.ts:118-165 | a sign-in can merge accounts exactly when the provider itself returned the address and vouched for it; the address sent is the provider's, or the claimed one only without it |
| SessionInvariants.GateMeansOpen | apps/gateway/src/modules/auth/strategies/jwt-refresh.strategy.ts:43-48 | in every state that satisfies the invariant, a token that passes the gate has not been blacklisted and comes from its device |
| SessionInvariants.StepKeepsInv | apps/gateway/src/modules/auth/auth.service.ts:51-249 | every gateway or service step keeps the invariant over tokens, requests in flight and blacklist |
| SessionTheorems.LineageKeepsClaims | apps/gateway/src/modules/auth/auth.service.ts:188-235 | any chain of rotations keeps subject, type, device and version, and only that device ever rotated |
| SessionTheorems.PassedStays | apps/user/src/modules/users/users.service.ts:250-253 | an account once past a version, deleted or gone stays so for every later step of a run |
| SessionTheorems.VersionsWereRead | apps/gateway/src/modules/auth/auth.service.ts:208-222 | every rotation's version was that of the live account at the recorded step of its read |
| SessionTheorems.RevocationCoversLineages | apps/gateway/src/modules/auth/auth.service.ts:188-235 | once an account has passed a token's version, no refresh whose version read comes later yields a descendant of that token, under every interleaving of split refreshes with upgrade, reset, delete and purge |
| SessionTheorems.DeadAccountNeverRotates | apps/gateway/src/modules/auth/auth.service.ts:208-222 | from an account's deletion on, purge included, every rotation of its tokens had read the version before, of a token that was already out |
| SessionTheorems.AutoregOfDeletedIsBarren | apps/user/src/modules/users/users.service.ts:111-127 | while a fingerprint resolves to a deleted account, autoreg answers with it, and no token minted from then on for that account is ever rotated in the run |
| SessionTheorems.BlacklistedNeverReturns | apps/gateway/src/modules/auth/services/token-store.service.ts:33-56 | once a refresh or logout has finished blacklisting a token, the gate rejects it in every later state at every later millisecond, whether or not the store answers |
| SessionTheorems.FinishedCallsClose | apps/gateway/src/modules/auth/auth.service.ts:224-249 | a refresh or logout that reaches its write has closed its token: it is listed or expired |
| SessionTheorems.EntryGoesWithToken | apps/gateway/src/modules/auth/services/token-store.service.ts:33-38 | if the write follows at once, the entry of a refresh or logout outlives its unexpired token by less than a second |
| SessionTheorems.LogoutGetsThrough | apps/gateway/src/modules/auth/auth.service.ts:237-249 | a logout with an unexpired token that names itself reaches its write |
| SessionTheorems.ReuseOnlyByOverlap | apps/gateway/src/modules/auth/strategies/jwt-refresh.strategy.ts:43-48 | two rotations of one token overlapped: each read the blacklist before the other had finished writing it |
| RefreshRuns.UsableTokenRefreshes | apps/gateway/src/modules/auth/auth.service.ts:188-235 | an undisturbed refresh of a current, open token succeeds, hands its claims on, and gives a token that is again current and open |
| RefreshRuns.MintedTokenLives | apps/gateway/src/modules/auth/auth.service.ts:253-291 | in every state that satisfies the invariant, the token of a sign-in or of a rotation passes the gate from its own device at a later millisecond if and only if that is before 1000 x (now / 1000 + lifetime), and no store entry stands against it |
| RefreshRuns.MintedIsUsableIff | apps/gateway/src/modules/auth/auth.service.ts:51-173 | a freshly minted token can be refreshed at once exactly if its account is live and still at the version it carries |
| RefreshRuns.SignInMints | apps/gateway/src/modules/auth/auth.service.ts:51-173 | every sign-in leads to a token for exactly the account, type and version the user service answered with, hard-coded types included, and the device that asked |
| RefreshRuns.UsableUntilExpiry | apps/gateway/src/modules/auth/strategies/jwt-refresh.strategy.ts:24-50 | a usable token stays usable, undisturbed, exactly until its expiry |
| RefreshRuns.RefreshesGoOn | apps/gateway/src/modules/auth/auth.service.ts:188-235 | a chain of undisturbed refreshes of any length goes through, each token usable in turn |
| RefreshRuns.MissingVersionIsZero | apps/gateway/src/modules/auth/auth.service.ts:208-222 | a token without a version is current exactly while its account is at version 0 |
| RefreshRuns.OverlappingRefreshesBothSucceed | apps/gateway/src/modules/auth/auth.service.ts:227-234 | any usable token can be rotated twice by two overlapping refreshes |
| SessionTheorems.CurrentTokensHaveTheRightType | apps/gateway/src/modules/auth/auth.service.ts:89-94 | in every reachable state a token whose version is current carries its account's current type, though sign-ins hard-code the type and refreshes copy it |
| Redact.RedactSecrets | libs/common/src/bootstrap/redact-secrets.ts:31-55 | the recursive walk that fills a new object entry by entry computes the rewrite function |
| SecretKeys.SecretIff | libs/common/src/bootstrap/redact-secrets.ts:26-27 | a key is secret if and only if it contains, in any casing, KEY, SECRET, TOKEN, PASSWORD, PASSWD, PRIVATE, AUTH, CREDENTIAL, COOKIE, SESSION, FINGERPRINT or VERIFIER |
| SecretKeys.CaseDoesNotMatter | libs/common/src/bootstrap/redact-secrets.ts:26-27 | two keys that differ only in letter case are both secret or both not |
| SecretKeys.SecretValueIsHidden | libs/common/src/bootstrap/redact-secrets.ts:46-54 | in an object at depth 0 to 6, wherever the entry stands, the value of a key with such a word in any casing, with any prefix and suffix, becomes `[REDACTED]`, and two values that differ only there have equal output |
| SecretKeys.OnlyProtoIsDropped | libs/common/src/bootstrap/redact-secrets.ts:46-54 | of an object at depth 0 to 6 an own property `__proto__` is dropped, and no other |
| Redact.OutputIsTheVisiblePart | libs/common/src/bootstrap/redact-secrets.ts:31-55 | two values have the same output if and only if they agree outside secret-named keys of objects at depth 0 to 6 |
| Redact.OutputAgreesWithInput | libs/common/src/bootstrap/redact-secrets.ts:31-55 | the output agrees with the input everywhere outside secrets |
| Redact.Idempotent | libs/common/src/bootstrap/redact-secrets.ts:31-55 | redacting twice is redacting once |
| Redact.ShapeKeptIff | libs/common/src/bootstrap/redact-secrets.ts:46-54 | keys, their order and array lengths are kept exactly if no copied object has an own property `__proto__` |
| Redact.CleanIff | libs/common/src/bootstrap/redact-secrets.ts:29-32 | no secret-named key keeps its value exactly if none does so below the depth limit |
| Redact.DeepSecretIsShown | libs/common/src/bootstrap/redact-secrets.ts:29-32 | an object seven levels down (depth plus nesting) is returned as it is, whatever its key |
| Redact.GraphIsTree | libs/common/src/bootstrap/redact-secrets.ts:31-55 | on any heap of objects, cyclic or not, the walk stops and equals the rewrite of the tree seen to depth 7 |
| Migrations.StepKeepsInv | tasks/db-migrate/src/task.service.ts:43-75 | every step, crash and failure keeps the record a prefix and the data at most one half-done script away from it |
| Migrations.RecordIsAPrefix | tasks/db-migrate/src/task.service.ts:43-75 | after any sequence of crashed, failing and complete runs the recorded ids are a prefix of the list |
| Migrations.PredecessorsAreRecorded | tasks/db-migrate/src/task.service.ts:50-62 | when a migration starts, exactly the ones before it are recorded, in order |
| Migrations.CompleteRunConverges | tasks/db-migrate/src/task.service.ts:43-75 | a complete run after any such sequence leaves the database of one uninterrupted in-order application, every id recorded, and applied + skipped = list length |
| Migrations.DbMigrateTask.Run | tasks/db-migrate/src/task.service.ts:43-75 | keeps the invariant; on success converges and reports exactly how many were new and old; on failure names the first unrecorded migration |
| Migrations.DbMigrateTask.Apply | tasks/db-migrate/src/task.service.ts:55-68 | records one id after a complete `up`; a failing `up` or insert records nothing and leaves a state the next run can start from |
| Migrations.DbMigrateTask.LoadAppliedIds | tasks/db-migrate/src/task.service.ts:77-83 | the snapshot holds exactly the migrations before the first unrecorded one |
| Migrations.LoadMigrations | tasks/db-migrate/src/task.service.ts:131-142 | the loop over the listed files builds the list of those that export what is required: a strictly increasing map of positions takes each migration to its file and reaches every such file |
| Migrations.SmallerFilesAreRecorded | tasks/db-migrate/src/task.service.ts:43-142 | whatever crashed and failed before, when the migration of a file starts, the recorded ids are exactly those exported by the files of the directory with a smaller name |
| Migrations.LessIff | tasks/db-migrate/src/task.service.ts:121-126 | the order of names is lexical by character code: proper prefix, or smaller at the first difference |
| Migrations.DirectoryFixesTheOutcome | tasks/db-migrate/src/task.service.ts:118-142 | two jobs that list the same directory load the same list, and complete runs of them, after any crashes and failures, leave the same database and record |
| UserPurge.Task.Run | tasks/user-purge/src/task.service.ts:28-59 | treats exactly the accounts deleted more than 30 days before, removes exactly those that did not fail, counts exactly those, and never leaves a device without its user |
| UserPurge.Task.PurgeUser | tasks/user-purge/src/task.service.ts:61-65 | devices go first; a failure of either delete leaves the state just before it |
| UserPurge.PurgeLeaves | tasks/user-purge/src/task.service.ts:28-65 | account by account: gone exactly if it had expired and neither delete failed, its devices exactly if it had expired and theirs did not; what stays is unchanged |
| UserPurge.RerunRetriesFailures | tasks/user-purge/src/task.service.ts:48-55 | the next run finds exactly what has expired by then, less what the first run removed; so every failure again, unchanged, and everything expired since |
| RpcErrors.RoundTrip | libs/common/src/services/rpc-client.service.ts:153-198 | status, code, message and details of an error thrown in a worker, of any JSON type, reach the HTTP response unchanged (falsy details absent) in either wire shape, with the worker's code for an HttpException that has none; an RpcException without an envelope becomes a 503 |
| RpcErrors.TraceIsAttached | libs/common/src/filters/rpc-exception.filter.ts:27-91 | the worker adds its trace id to everything but an envelope, which it passes on unchanged |
| RpcErrors.UpstreamFailures | libs/common/src/services/rpc-client.service.ts:153-198 | a timeout is answered with 504 and a foreign error with 503, both `internal_error` naming the service |
| RpcErrors.UnwrappedErrors | apps/gateway/src/common/filters/http-exception.filter.ts:22-89 | an envelope that reaches the filter is answered as if the client had unwrapped it; any other error is a 500 |
| RpcErrors.CodesByStatus | libs/common/src/filters/rpc-exception.filter.ts:93-126 | an HttpException without a code gets that of its status, the same in worker and gateway |
| RpcErrors.FalsyDetails | apps/gateway/src/common/filters/http-exception.filter.ts:22-96 | details are shown exactly unless they are an empty string, zero or false |
| RpcErrors.LocalEqualsRemoteIff | libs/common/src/filters/rpc-exception.filter.ts:93-126 | the same HttpException thrown in gateway and worker gives the same response exactly if its body is structured or its status has no code of its own |
| RpcErrors.Catch | apps/gateway/src/common/filters/http-exception.filter.ts:22-89 | the filter that starts from defaults and overwrites them computes the reply function used in the round trip |

## Left out

- Overlapping user-service handlers, except claims to an address (`EmailRaces`) and an upgrade's device wipe: the code makes no promise there, and increments of `tokenVersion` can be lost.
- AccountTheorems.DeletionIsFinal: for handlers that do not overlap; `FlushChangesDeletedIff` says exactly what an overlapping flush can do.
- OutboxFairness.NoRowStarves: staging again a failed row that is at least as old counts as an older row arriving, and is excluded.
- DeletionEvents.DeletionIsAnnounced: for an abstract publisher; with the real one "sent" does not mean handed over (`SentMeansHandedOverIff`).
- SessionTheorems.CurrentTokensHaveTheRightType: asks that tokens already out at the start of the run be coherent, which a start without tokens is.
- Access tokens: they carry no version and are not revocable, so there is nothing to prove beyond their expiry.
- Live-user checks on minting: autoreg answers for a soft-deleted anonymous account too (`deletedAt` is not in its filter); what is proved is that no token from such an answer is ever rotated (`AutoregOfDeletedIsBarren`).
- Message brokers, the database driver, Redis, argon2, SHA-256, JWT signing and verification, mail, Sentry, metrics, logging: I/O and libraries; their answers are parameters.
- Consumers of `user.deleted` and their deduplication: the idempotency key is not part of the published message.
- Several dispatcher replicas, concurrent migration jobs, duplicate migration ids: outside what the code promises.
- Which file names count as migrations, where the directory is found, and the module loader: a regular expression and I/O.
- `down` scripts, `createdAt`, `updatedAt` of accounts, the internal `_id` of devices: nothing modelled reads them.
- Request validation and field stripping in the controllers, throttling, OAuth verifiers and their hints, User-Agent parsing: short tables and wiring.

# Verified model of the backend's stateful cores

This project models the parts of the backend whose guarantees span a whole run
rather than one branch, and proves them for every input, every run or every
reachable state. Each module stands for one component.

| file | component |
|---|---|
| `ExportJobs`, `ExportProtocol`, `ExportSafety`, `ExportTheorems`, `ExportRecovery`, `ExportEffects` | the export job row, and the interleaving of web requests, queue, workers, recovery and retention |
| `OwnershipTriggers`, `OwnershipServices` | the deferred ownership triggers, and the services and migrations above them |
| `Sessions`, `SessionRotation`, `SessionServices` | device sessions, account version, refresh-token rotation |
| `PendingTokens`, `PendingTheorems`, `PendingServices` | mailed tokens: registration, password reset, email change |
| `Idempotency`, `IdempotencyTheorems`, `IdempotencyStore` | replayed requests under an advisory lock, interleaved with crashes and cleanups |
| `Framing`, `Uploads` | the fingerprint's byte stream, bounded bulk reads |
| `ImageRelations`, `ImageOperations` | order and cover of the images of one object |
| `MediaProtocol`, `MediaFiles` | image rows against stored objects, compensation, media audit |
| `Identifiers`, `Decimal` | one-query and query-per-candidate search for a unique identifier |

## How the model reads the code

* A `transaction.atomic` block under its row lock is one step; an unlocked read,
  a storage call, a publish and a message delivery are steps of their own. A step
  that can fail has a failing form, and a process can stop between any two steps.
* Code that changes state has two forms here: a transition system for what holds
  over interleavings, and a class whose methods change the same tables and are
  proved equal to the transition system's functions. What an operation writes is
  also stated column by column, with the source's own conditions and constants, so
  that neither form can change without the other statement failing.
* Time is one clock in whole seconds. SHA-256, JWT signatures, password hashing
  and BLAKE2b are opaque: token and identity equality stands for hash equality,
  and the advisory lock number is an arbitrary function of the job, so two jobs
  may share one.
* Email addresses are compared after lower-casing, which stands for `iexact`.
* PostgreSQL is the database; locks are held to the end of the transaction, or of
  the whole task for exports.

## Where the code and the expected property part

* **Owner triggers.** `TriggersAreSound` needs that no transaction re-inserts the
  id of an account that existed when it began. Deleting an owner's account row and
  inserting the id again as inactive fires no trigger (`ReinsertedOwnerEscapes`).
  `IncrementalCheckExactly` gives the condition without that assumption.
* **Media audit.** An upload shorter than the minimum age is not enough: the time
  from the audit's row scan to its cutoff counts too. `NeverDanglesExactly` proves
  the bound both ways.
* **Account version.** `update_me` saves the full row it read earlier, so it can
  write back an older `auth_version`, email and password, and re-insert a deleted
  account. `PastThroughoutExactly` says for every run when a revoked version stays
  revoked; `StaleSaveRevivesOldVersion` is a run in which a token of it is accepted
  again. A revoked session is never revived. In the same way an email change can
  outlive a password change: `EmailChangeFreezesVersion` gives the exact condition,
  `StaleSaveRevivesEmailChange` a run.
* **Rotation.** The blacklist check precedes the row lock, so two rotations of one
  token in flight both succeed (`TwoRotationsRace`). `StepKeepsOneCurrent` says
  exactly which step breaks uniqueness, `OneCurrentThroughoutExactly` which runs do.
* **Unique identifiers.** The prefix filter is unsound for a short field or an
  enormous table: `ResultTakenExactly` gives the condition, `MakeItUniqueIsSafe` a
  bound on the table that rules it out, `TwoCharacterFieldClashes` an instance. The
  instance has a field of two characters; no field of the program is that short.
* **Bulk upload.** A request within all documented limits is refused when the
  files before the last one already use the whole total
  (`HonestAdmittedExactly`, `EmptyFileAtFullTotalIsRefused`).
* **Idempotency identity.** Path and key are joined by an unescaped colon; only
  paths that contain a colon can collide (`SameIdentityExactly`, `ColonPathCollides`).
  The routes that use keys put slugs, model names and ids into their paths, so for
  them `PlainPathsAreDistinguished` applies.
* **Exports.** An exception raised between the READY commit and the end of the
  `try` block, such as the soft time limit, sends the worker down the failure path,
  which deletes the object of a READY job. `StoredThroughoutExactly` and
  `PromiseKeptExactly` prove over all runs that this is the only way a promised
  object is lost, `LateInterruptLosesTheObject` that it happens.

## Model

| member | source | states |
|---|---|---|
| ExportJobs.ObjectKeyInjective | organizations/export_tasks.py:201 | two jobs never share an object key |
| ExportJobs.StaleRulesAgree | organizations/export_tasks.py:37-48 | the SQL stale query, under three-valued logic, selects exactly the rows that the Python rule calls stale, for every status and NULL combination |
| ExportJobs.StalenessIsMonotone | organizations/export_tasks.py:37-48 | a row that is stale stays stale at every later instant while nobody touches it |
| ExportJobs.JobRow.ResetForRetry | organizations/export_tasks.py:51-70 | afterwards the row is PENDING, goes stale exactly one window after the reset, issues no URL, and keeps its object key and attempt count |
| ExportJobs.JobRow.StampQueued | organizations/export_tasks.py:73-80 | succeeds exactly on a PENDING row, whose staleness window then starts anew; no status changes |
| ExportJobs.JobRow.BeginAttempt | organizations/export_tasks.py:169-199 | starts exactly from PENDING or PROCESSING, counts one attempt, starts the staleness window anew and keeps the object key |
| ExportJobs.JobRow.MarkReady | organizations/export_tasks.py:146-159 | updates exactly a PROCESSING row; afterwards it is never stale, and its URL is issued at exactly the instants before the retention has passed |
| ExportSafety.LockExcludes | organizations/export_tasks.py:102-116 | no two workers past the lock work on the same job, in any state that the invariant admits |
| ExportSafety.StepKeepsInv | organizations/export_tasks.py:162-252 | every step of every party keeps the protocol invariant |
| ExportSafety.RunKeepsInv | organizations/export_tasks.py:162-319 | the invariant holds after any interleaving of any length |
| ExportTheorems.ReadyObjectIsStored | organizations/api_export.py:34-50 | in every state of every run, a job for which a URL is issued has its object stored, unless an exception hit its own worker between the READY commit and the end of the `try` block |
| ExportTheorems.IssuedUrlNamesStoredObject | organizations/api_export.py:101-104 | the same for a request that read the row earlier and decides now |
| ExportTheorems.OnlyRetentionRemovesReadyObjects | organizations/export_tasks.py:211-228 | a READY job's object is removed only by retention, after expiry, or by the failure path of a worker interrupted after the READY commit |
| ExportTheorems.PromiseKeptExactly | organizations/export_tasks.py:202-238 | over all runs, a promised object is stored in every state and safe from the next clean-up exactly when no such exception arrives before the expiry |
| ExportTheorems.StoredThroughoutExactly | organizations/export_tasks.py:211-228 | over all runs, a promised object is stored in every state exactly when no clean-up after such an exception deletes it before the expiry |
| ExportTheorems.StatusMovesOnly | organizations/export_tasks.py:301-319 | READY moves only to EXPIRED and only after its expiry, EXPIRED is absorbing, FAILED is left only by a manual retry of that job |
| ExportTheorems.AttemptCountIsEntries | organizations/export_tasks.py:181-199 | over any run, `attempt_count` equals the number of entries to PROCESSING |
| ExportRecovery.RecoveryFindsEveryStaleJob | organizations/export_tasks.py:277-285 | the recovery scan lists exactly the stale jobs |
| ExportRecovery.UntouchedJobIsRecoverable | organizations/export_tasks.py:255-285 | in every run, a PENDING or PROCESSING job whose row is the same a whole window later is stale by then, can be retried and is in every recovery scan |
| ExportRecovery.StaleExactlyAfterWindow | organizations/export_tasks.py:37-80 | whatever step wrote a waiting job's row last, and while the row stays so, the job is stale exactly when a window has passed since that write, or since the scan if recovery wrote it |
| ExportRecovery.RecoverableUntilTouched | organizations/api_export.py:112-122 | a stale job can be retried and is in every recovery scan after any run that leaves its row unchanged |
| ExportRecovery.NoJobOutlastsAPass | organizations/export_tasks.py:277-297 | none is stuck: in every run and interleaving, a PENDING or PROCESSING job that keeps its row for a window does not keep it through a recovery pass that reaches the end of its list |
| ExportRecovery.RecoveryReachesListedJobs | organizations/export_tasks.py:277-297 | whatever happens between the scan and the moment the task reaches a listed job, that job is then reset and about to be published, or its row is gone or has changed since the scan |
| ExportRecovery.RecoveryRequeues | organizations/export_tasks.py:286-297 | undisturbed and with a publish that succeeds, three steps later the job is PENDING and its message queued; nothing but row, queue and the task's own place has changed |
| ExportTheorems.NoTakeoverOfLiveWorker | organizations/api_export.py:112-124 | with the stale window above the hard limit, neither recovery nor a retry takes a job from a live worker |
| ExportTheorems.TimelyRunIsTimed | DjangoApiStarter/settings/base.py:133-144 | runs in which workers die at the hard limit keep every worker's ownership of its row |
| ExportTheorems.ReadyUpdateHitsItsRow | organizations/export_tasks.py:146-159 | in such runs the READY update of a live worker always hits its PROCESSING row |
| ExportTheorems.LateInterruptLosesTheObject | organizations/export_tasks.py:218-236 | for every job, a run of one attempt interrupted after the READY commit, at whose end the URL of the READY job names no object |
| ExportEffects.CreatedRow | organizations/api_export.py:75-83 | a new job waits with nothing but its creation time |
| ExportEffects.RetriedRow | organizations/export_tasks.py:51-70 | a retry leaves the row PENDING with the time of the reset, its key and its attempts, and nothing else |
| ExportEffects.StampedRow | organizations/export_tasks.py:73-79 | enqueueing stamps a PENDING row and no other, and goes on to publish only then |
| ExportEffects.RejectedRow | organizations/export_tasks.py:83-93 | a failed publish leaves a PENDING row FAILED with its completion time, to be retried at once; another row stays |
| ExportEffects.RecoveredRow | organizations/export_tasks.py:286-292 | recovery resets a job that is still stale by the time of its scan, and drops it from its list either way |
| ExportEffects.RetentionDeletes | organizations/export_tasks.py:301-315 | a successful delete takes exactly the listed object, after a failing one the row is skipped |
| ExportEffects.RetiredRow | organizations/export_tasks.py:316-318 | the row then becomes EXPIRED, names no object and keeps every other column |
| ExportEffects.BegunRow | organizations/export_tasks.py:169-199 | the columns of a begun attempt, and that any other row ends the task without a write |
| ExportEffects.MarkedRow | organizations/export_tasks.py:146-159 | the columns of a READY row, and that any other outcome leads to the failure path with the upload to clean up |
| ExportEffects.RecordedFailure | organizations/export_tasks.py:229-236 | a failed attempt leaves its PROCESSING row FAILED, stamped now, with key and attempts kept, and a retry possible at once; no row is left PROCESSING |
| ExportEffects.FailuresLeadToTheRecord | organizations/export_tasks.py:218-236 | every exception leads to the clean-up and the clean-up to the record of the failure |
| ExportEffects.ClearedKeysAreGone | organizations/export_tasks.py:211-212 | before the save neither the old nor the deterministic key is stored, and nothing else was deleted |
| ExportEffects.SavedObject | organizations/export_tasks.py:213-217 | what is stored after each outcome of the save |
| ExportEffects.CleanedUpload | organizations/export_tasks.py:219-228 | the clean-up deletes the uploaded object and nothing else |
| ExportEffects.TakenLock | organizations/export_tasks.py:162-168 | a busy lock ends the duplicate delivery, a free one is taken |
| ExportEffects.Departure | organizations/export_tasks.py:102-116 | an ending or dying worker frees its lock and no other, and only an acknowledged end takes the message |
| ExportEffects.EndedAttemptsSettleExactly | organizations/export_tasks.py:218-236 | over all runs, no attempt that has ended has left its row PROCESSING, exactly when no update that records a failure is lost |
| ExportEffects.ExpiredObjectsAreGoneExactly | organizations/export_tasks.py:301-319 | over all runs, an EXPIRED job's object is gone in every state, exactly when the storage never gives its name to another object and keeps that |
| OwnershipTriggers.DeactivationIsChecked | organizations/migrations/0003_require_active_group_owner.py:45-61 | an account that ends inactive without being re-inserted had all organizations it owns checked |
| OwnershipTriggers.NamedIsChecked | organizations/migrations/0003_require_active_group_owner.py:24-43 | every organization named by OLD or NEW of some row event is checked on the final state |
| OwnershipTriggers.UnnamedIsUnchanged | organizations/migrations/0003_require_active_group_owner.py:63-76 | an organization that no event named kept its row and all its memberships |
| OwnershipTriggers.IncrementalCheckExactly | organizations/migrations/0004_organization_organizations_personal_creator_unique.py:5-43 | after an accepted transaction the global check holds exactly when each group that no trigger named keeps a counted owner |
| OwnershipTriggers.TriggersAreSound | organizations/migrations/0003_require_active_group_owner.py:63-76 | with fresh account ids, any accepted sequence of row events ends with every organization owned |
| OwnershipTriggers.ReinsertedOwnerEscapes | organizations/migrations/0003_require_active_group_owner.py:73-76 | a transaction without fresh ids that is accepted and leaves a group without active owner |
| OwnershipTriggers.OwnershipForever | organizations/migrations/0004_organization_organizations_personal_creator_unique.py:5-43 | ownership holds after any history of accepted transactions |
| OwnershipTriggers.OwnedPasses | organizations/migrations/0003_require_active_group_owner.py:63-76 | a transaction that ends owned is never rejected by the triggers |
| OwnershipTriggers.CommitsExactly | organizations/migrations/0003_require_active_group_owner.py:63-76 | with fresh account ids a transaction is accepted exactly when it ends owned with all references intact |
| OwnershipServices.RoleChangeIsExact | organizations/services.py:32-62 | the pre-check refuses a role change exactly when it would break ownership |
| OwnershipServices.RemovalIsExact | organizations/services.py:65-87 | the same for a membership removal |
| OwnershipServices.DeactivationIsExact | organizations/services.py:90-110 | the same for a deactivation |
| OwnershipServices.DeletionIsExact | accounts/services.py:164-222 | account deletion with its cascades is refused exactly when it would leave a group without active owner |
| OwnershipServices.DeletionKeepsConsistent | accounts/services.py:164-222 | the personal-organization cascade, membership cascade and creator set-null leave no dangling reference |
| OwnershipServices.OwnerWriteHelps | organizations/services.py:133-145 | writing an owner membership takes no owner away and repairs the creator's personal organization |
| OwnershipServices.RoleChangeCommitsExactly | organizations/services.py:32-62 | whatever row events lead to the changed role, the database accepts them exactly when the service does |
| OwnershipServices.RemovalCommitsExactly | organizations/services.py:65-87 | the same for a membership removal |
| OwnershipServices.DeactivationCommitsExactly | organizations/services.py:90-110 | the same for a deactivation |
| OwnershipServices.DeletionCommitsExactly | accounts/services.py:164-222 | the same for an account deletion with its cascades |
| OwnershipServices.CascadeCommitsExactly | accounts/services.py:164-222 | an event list for the cascade of every account deletion, which passes the triggers exactly when the service allows the deletion |
| OwnershipServices.CreationIsExact | organizations/services.py:113-129 | a new organization with its owner keeps ownership exactly when it is personal or its owner is active |
| OwnershipServices.CreationCommitsExactly | organizations/services.py:113-175 | whatever row events lead to the created organization, the database accepts them exactly then |
| OwnershipServices.CreationEvents | organizations/services.py:113-175 | the two inserts of both creation services, and that the triggers refuse them exactly for a group of an inactive account |
| OwnershipServices.OwnerWriteCommits | organizations/services.py:133-145 | the owner write that repairs an existing personal organization is always accepted |
| OwnershipServices.Tables.ChangeMembershipRole | organizations/services.py:32-62 | every answer, the refusal in terms of the rows, and the one role column that changes; ownership is kept |
| OwnershipServices.Tables.RemoveMembership | organizations/services.py:65-87 | every answer, the refusal in terms of the rows, and the one row that goes; ownership is kept |
| OwnershipServices.Tables.CheckSuccessors | organizations/services.py:90-110 | the loop succeeds exactly when no owned group loses its last active owner |
| OwnershipServices.Tables.SetUserActiveStatus | accounts/services.py:146-157 | every answer, the refusal in terms of the rows, and the one flag that changes; ownership is kept |
| OwnershipServices.Tables.DeleteUserAccount | accounts/services.py:164-222 | every answer and the refusal in terms of the rows; exactly the account, its personal organizations and their and its memberships go, and only its creator columns change; references and ownership are kept |
| OwnershipServices.Tables.CreateGroupOrganization | organizations/services.py:113-129 | an inactive owner or a taken slug is refused; otherwise the group is created with its owner and ownership is kept |
| OwnershipServices.Tables.CreatePersonalOrganization | organizations/services.py:132-175 | the answer and the tables for every mix of five attempts, including an organization created by another transaction between attempts; ownership and the one-per-creator constraint are kept |
| OwnershipServices.Tables.RequireExistingActiveOwners | organizations/migrations/0003_require_active_group_owner.py:90-111 | lists at most ten groups, each without an active owner, and none exactly when there is none |
| OwnershipServices.Tables.RepairPersonalOwners | organizations/migrations/0004_organization_organizations_personal_creator_unique.py:68-88 | refuses exactly duplicate or missing creators; otherwise every personal organization passes its check, no membership is lost and only creators are promoted |
| OwnershipServices.AccountIsGone | accounts/services.py:210-218 | what the deletion's cascades leave, row by row |
| OwnershipServices.OwnerWriteGrants | organizations/services.py:133-145 | the owner write touches no row but the membership of that account in that organization |
| OwnershipServices.LastOwnerRead | organizations/services.py:90-110 | the last-owner test in terms of the three tables |
| OwnershipServices.CreatorsDetermine | organizations/migrations/0004_organization_organizations_personal_creator_unique.py:68-80 | what the duplicate and missing creator checks mean |
| Sessions.DeadForever | accounts/models.py:197-204 | a revoked or deleted session stays so in every run, whatever is in flight |
| Sessions.DeadSessionNeverAccepted | core/authentication.py:11-33 | no token of such a session is accepted later by authentication or rotation, not even when the account and session rows are read at different moments |
| Sessions.RevokeAllKills | accounts/services.py:137-143 | revoking all sessions kills every session the account has |
| Sessions.InactiveNeverAccepted | core/authentication.py:14-18 | no token of an inactive account is accepted, by authentication or rotation, in any state |
| Sessions.AccountAfter | accounts/services.py:137-157 | which steps change an account's active flag and version, and to what |
| Sessions.SessionAfter | accounts/tasks.py:23-30 | a session row goes exactly with its account, or in a purge after its expiry |
| Sessions.RevokedExactly | accounts/services.py:68-120 | a session is revoked by exactly these steps: logout, revoke-all, status change, a refused refresh before its expiry, a refused rotation |
| Sessions.OnlyActiveAccountsLogIn | accounts/services.py:27-30 | in every run only accounts read as active are logged in |
| Sessions.VersionFallsExactly | accounts/users_api.py:109-115 | a step lowers an account's version exactly when it is a save of a row read before the last bump |
| Sessions.PastStepExactly | accounts/users_api.py:109-115 | an account past a version is brought back to it by a step exactly when the step is a full-row save of that account read at that version or before |
| Sessions.PastThroughoutExactly | accounts/services.py:137-143 | over any run, an account stays past a version exactly when the run contains no such save |
| Sessions.OldVersionNeverAccepted | accounts/services.py:137-157 | after a revocation a token with the old version is accepted in a later state only if a save of that account has restored the version, even if a login that had read the old row minted it later |
| Sessions.StaleSaveRevivesOldVersion | accounts/users_api.py:109-115 | a run with such a save that ends with an old-version token accepted |
| SessionRotation.RotationIsUniqueExactly | accounts/services.py:83-120 | an accepted rotation leaves one current token exactly when the presented one was still current at the lock |
| SessionRotation.StepKeepsOneCurrent | accounts/services.py:59-120 | one current token per live session survives a step exactly when the step is not such a late rotation |
| SessionRotation.OneCurrentThroughoutExactly | accounts/services.py:59-120 | over any run, every live session has one current token in every state exactly when no rotation of the run is late |
| SessionRotation.AtomicRunKeepsOneCurrent | accounts/services.py:59-120 | with check and lock taken together, every run keeps one current token per live session |
| SessionRotation.OneUsableToken | accounts/services.py:43-56 | then every active session has exactly one refresh token, and it is presentable |
| SessionRotation.OneUsableTokenExactly | accounts/services.py:94-120 | over such runs, the current token of an active session is accepted exactly when its account is active and still at the token's version |
| SessionRotation.LoginIsAccepted | accounts/services.py:42-56 | a login gives an access and a refresh token that both work at once, and opens one session |
| SessionRotation.RotationIsAccepted | accounts/services.py:109-120 | a rotation gives two tokens that work at once, prolongs the session, and the presented token works no more |
| SessionRotation.LogoutEndsTheSession | accounts/services.py:123-134 | the two statements of a logout leave the session dead and the token blacklisted |
| SessionRotation.ReplayKillsTheChain | accounts/services.py:59-82 | presenting an earlier unexpired token revokes the session, so the newest token is refused |
| SessionRotation.TwoRotationsRace | accounts/services.py:59-87 | from any state with a usable token, two rotations in flight end with two current tokens |
| SessionServices.AuthTables.IssueTokenPair | accounts/services.py:52-56 | two tokens for the session, one of each kind, never issued and never blacklisted before |
| SessionServices.AuthTables.Revoke | accounts/models.py:201-204 | the session is dead for good, a second revocation changes nothing, no other session is touched |
| SessionServices.AuthTables.RotateLocked | accounts/services.py:83-120 | a pair exactly when account and session columns admit it, spelled out; the new columns, or the one session revoked |
| SessionServices.AuthTables.RotateTokenPair | accounts/services.py:59-120 | a pair exactly for an unexpired, unspent refresh token of an active account and a live session at the same version; the new columns, or the one session revoked; one current token per live session |
| SessionServices.AuthTables.RevokeSessionFromRefresh | accounts/services.py:123-134 | a presentable token is blacklisted and its session is dead |
| SessionServices.AuthTables.RevokeAllSessions | accounts/services.py:137-143 | every session of the account is dead and its version is one higher |
| SessionServices.AuthTables.SetActive | accounts/services.py:146-157 | every session of the account is dead, its version one higher, and no session of another account touched |
| SessionServices.AuthTables.Authenticates | core/authentication.py:11-33 | an access token is accepted exactly when account and session columns admit it, spelled out |
| PendingTokens.SlotStep | accounts/operations.py:73-98 | in any step a row keeps its token, loses it, or gets one that was never issued before |
| PendingTheorems.RedemptionConsumes | accounts/operations.py:106-144 | a redeemed token sat in one row, and no row carries it afterwards |
| PendingTheorems.DeadIsNeverRedeemed | accounts/operations.py:237-282 | a token in no row is never redeemed in any later run |
| PendingTheorems.RedeemedAtMostOnce | accounts/operations.py:237-348 | in any interleaving of lookups, locks and re-checks a token is redeemed at most once |
| PendingTheorems.RotatedOutNeverRedeemed | accounts/operations.py:161-185 | a token replaced by a newer request is never redeemed |
| PendingTheorems.ResetRowFate | accounts/operations.py:265-282 | expiry commits the deletion, a weak password keeps the token, success deletes it and bumps the version |
| PendingTheorems.RegistrationRowFate | accounts/operations.py:111-140 | the row survives exactly a weak password or a lost creation race, and no other account changes |
| PendingTheorems.ChangeRowFate | accounts/operations.py:314-347 | the row survives exactly a lost uniqueness race; success needs the recorded version |
| PendingTheorems.VersionFallsExactly | accounts/users_api.py:109-115 | a step lowers an account's version exactly when it is a successful full-row save of an older row |
| PendingTheorems.EmailChangeFreezesVersion | accounts/operations.py:285-348 | for every run that ends with a confirmed email change, the account version stood still at the recorded one exactly when it started there and no such save lowered it in between |
| PendingTheorems.RequestToConfirmation | accounts/operations.py:188-348 | the same from the granted request to the confirmation |
| PendingTheorems.StaleSaveRevivesEmailChange | accounts/users_api.py:109-115 | a run from empty tables in which a bump is undone by such a save and the email change requested before it is confirmed |
| PendingTheorems.RequestRecordsVersion | accounts/operations.py:188-234 | a granted request stores the current version |
| PendingTheorems.EmailChangeNeedsPassword | accounts/operations.py:205-206 | in every run from empty tables, a confirmed email change was requested with the right password |
| PendingTheorems.AccountAfter | accounts/operations.py:248-348 | which steps change an account's address, password and version, and to what |
| PendingTheorems.ResetSucceeds | accounts/operations.py:161-282 | a reset confirmed no later than its expiry sets the password and bumps the version |
| PendingTheorems.RegistrationMailed | accounts/operations.py:73-108 | what a registration stores, and that cancelling it removes exactly its own row |
| PendingTheorems.PurgeExactly | accounts/tasks.py:18-30 | the purge removes exactly the pending rows past their expiry |
| PendingTheorems.DeletionCascades | accounts/models.py:91-107 | an account's deletion takes its pending rows and no others |
| PendingTheorems.RunKeepsInv | accounts/operations.py:73-348 | no two rows ever carry the same token, and no row one that was not issued |
| PendingServices.AccountTables.ConfirmPasswordReset | accounts/operations.py:248-282 | every outcome in terms of the rows and the clock; a redeemed or expired token is dead, accounts change only on success and then only this one's password and version |
| PendingServices.AccountTables.ConfirmEmailChange | accounts/operations.py:298-348 | every outcome in terms of the rows and the clock; a redeemed, expired or beaten token is dead; success sets the address and bumps the version of this account only |
| PendingServices.AccountTables.ConfirmRegistrationOf | accounts/operations.py:111-144 | every outcome in terms of the rows and the clock; a redeemed, expired or beaten token is dead; success adds exactly one account, under an address nobody has |
| PendingServices.AccountTables.RequestEmailChange | accounts/operations.py:188-234 | granted exactly to an existing account with the right password, for another address that nobody else has; then its row carries token, expiry, address and version, and a replaced token is dead |
| PendingServices.AccountTables.RotatePasswordReset | accounts/operations.py:173-178 | the new token is in the account's row and the one it replaces is dead |
| IdempotencyTheorems.LockExcludes | core/utils/idempotency.py:118-132 | at most one request is past the lock for a lock number, and so for an identity |
| IdempotencyTheorems.StepKeepsInv | core/utils/idempotency.py:151-196 | in every interleaving, what a request has learned under its lock stays true until its transaction ends |
| IdempotencyTheorems.InsertNeverCollides | core/utils/idempotency.py:180-193 | the insert of a record never meets another row of the same identity |
| IdempotencyTheorems.CommitsAreATtlApart | core/utils/idempotency.py:151-196 | two commits under one identity, in any interleaving of requests, crashes and cleanups: the second one's operation began a whole TTL after the first one completed |
| IdempotencyTheorems.ReplayIsStable | core/utils/idempotency.py:165-178 | inside the window every lookup under the identity answers the first response, or a refusal to another fingerprint, and ends the request; no operation runs |
| IdempotencyTheorems.OnlyCommitsChange | core/utils/idempotency.py:172-196 | only a commit changes the database or an unexpired record, and only that identity's; crashes change nothing |
| IdempotencyTheorems.OtherStatusesLeaveNothing | core/utils/idempotency.py:180-196 | a protected operation that raises, or answers outside 200 to 499, ends its request and leaves neither writes nor record |
| IdempotencyTheorems.OperationTakesEffect | core/utils/idempotency.py:180-196 | one that answers within that range is recorded for a day and committed with its writes |
| IdempotencyTheorems.RecordedStatuses | core/utils/idempotency.py:181 | in every run every stored record has a status from 200 to 499 |
| IdempotencyTheorems.LookupAnswers | core/utils/idempotency.py:165-178 | a lookup replays a record exactly while its expiry lies ahead, and only to the same fingerprint |
| IdempotencyTheorems.LockAnswers | core/utils/idempotency.py:118-131 | a taken lock number refuses the request, a free one is taken |
| IdempotencyTheorems.EndReleasesLock | core/utils/idempotency.py:118-132 | however a request ends, its lock is free and no other has moved |
| IdempotencyTheorems.CleanupDeletesExactly | core/tasks.py:58-63 | a cleanup deletes exactly the records expired at its cutoff |
| IdempotencyTheorems.CleanupIsInvisible | core/tasks.py:58-63 | cleanups at any moments, also inside requests, change no response and no write: the same schedule without them is possible and answers the same |
| Idempotency.SameIdentityExactly | core/utils/idempotency.py:46-48 | two requests share an identity exactly when account and verb agree and path and key have the same joined text |
| Idempotency.PlainPathsAreDistinguished | core/utils/idempotency.py:46-48 | for paths without a colon all four parts agree |
| Idempotency.ColonPathCollides | core/utils/idempotency.py:46-48 | two different requests with one identity |
| IdempotencyStore.AloneIsARun | core/utils/idempotency.py:151-196 | a request that nothing interrupts is a run of the interleaved protocol with the sequential answer and state |
| IdempotencyStore.Store.RunIdempotently | core/utils/idempotency.py:151-196 | every answer and both tables, spelled out for lock refusal, replay until the expiry, a reused key, a raised operation and statuses inside and outside 200 to 499; the same as a run of the protocol, with the invariant kept for all requests in flight |
| IdempotencyStore.Store.CleanupExpired | core/tasks.py:58-63 | removes the records expired at an earlier cutoff, counts them, and leaves a state that no request in flight can tell apart |
| Framing.FramesDecode | images/api/uploads.py:61-76 | a decoder of length-prefixed blocks recovers the ordered metadata and data blocks |
| Framing.ClosedInjective | images/api/uploads.py:62-72 | an escaped JSON string and what follows it determine the string, for all of Unicode |
| Framing.MetadataInjective | images/api/uploads.py:62-72 | at one position the metadata text determines name and content type |
| Framing.MetadataDetermines | images/api/uploads.py:62-72 | the metadata text determines position, size, name and content type |
| Framing.MetadataText | images/api/uploads.py:62-72 | one whole metadata text, key by key |
| Framing.LongEscape | images/api/uploads.py:62-72 | a character that needs it is written in four lower-case hexadecimal digits |
| Framing.SurrogateEscape | images/api/uploads.py:62-72 | a character beyond 16 bits is written as its surrogate pair |
| Framing.StreamInjective | images/api/uploads.py:57-77 | two requests feed the digest the same bytes exactly when they carry the same files in the same order |
| Framing.MultipartFingerprint | images/api/uploads.py:57-77 | the loop feeds exactly that stream |
| Uploads.BulkRequest.ReadBounded | core/utils/uploads.py:5-16 | succeeds exactly when declared and real size fit, returns the whole content, and takes at most one byte more than the limit |
| Uploads.BulkRequest.PrepareNext | images/api/uploads.py:95-112 | one round: which files are admitted and with which error otherwise, in terms of sizes and limits, and how much is read |
| Uploads.BulkRequest.PrepareFiles | images/api/uploads.py:93-113 | the loop stops at the first file that is not admitted, with its error |
| Uploads.BulkRequest.PrepareBulk | images/api/uploads.py:80-113 | succeeds exactly when the request is admitted, hands on every file's content, content type and name, or `image`, and takes at most `max_total + 1` bytes in any case |
| Uploads.AdmittedWithinLimits | images/api/uploads.py:80-113 | an admitted request keeps the per-file and the aggregate limit, whatever sizes it declared |
| Uploads.HonestAdmittedExactly | images/api/uploads.py:99-102 | for truthful sizes, admission is the documented limits and one free byte before the last file |
| Uploads.DeclaredExactly | images/api/uploads.py:87-91 | only declared sizes count towards the declared total, each once |
| Uploads.EmptyFileAtFullTotalIsRefused | images/api/uploads.py:99-101 | a truthful request within all limits that is refused |
| ImageRelations.AttachKeepsFacts | images/operations.py:80-105 | an attach keeps one cover, distinct images and distinct orders |
| ImageRelations.AttachLeavesACover | images/operations.py:83-105 | an attach that adds an image ends with exactly one cover |
| ImageRelations.AttachedRow | images/operations.py:91-105 | the k-th new image gets the k-th new key and order, old rows are untouched, and only the first can become the cover |
| ImageRelations.NewIdsExactly | images/operations.py:88-105 | the attached ids are the requested ones that were not attached, each once |
| ImageRelations.NewIdsInOrder | images/operations.py:88-105 | new images are attached in the order in which they were first requested |
| ImageRelations.ListedBefore | images/operations.py:33-41 | what the listing order means: ascending order, NULL last, ties by key |
| ImageRelations.ReorderKeepsFacts | images/operations.py:172-194 | a reorder keeps the three facts and leaves no NULL order |
| ImageRelations.RunKeepsFacts | images/models.py:78-89 | any sequence of operations keeps the three facts |
| ImageRelations.FactsFromEmpty | images/models.py:78-89 | from an empty target they hold for ever and every row has an order |
| ImageRelations.ListChecksExactly | images/operations.py:156-166 | the three list checks pass exactly when the request is a permutation of the attached images |
| ImageRelations.ReorderReadsBack | images/api/listing.py:69-74 | listing by (order, pk) after a reorder gives the requested list |
| ImageRelations.ReorderIsIdempotent | images/operations.py:172-194 | repeating a reorder changes nothing |
| ImageOperations.BulkUpdateKeepsFacts | images/operations.py:172-179 | the facts also hold between the bulk update and the cover statements |
| ImageOperations.Target.LockedRelations | images/operations.py:33-41 | all rows, in (order, pk) order with NULL last |
| ImageOperations.Target.NextOrder | images/operations.py:84-87 | one above the highest order, or 0 |
| ImageOperations.Target.Attach | images/operations.py:62-110 | refused exactly for an id outside the organization; otherwise keys, orders, images and cover of the new rows, the old rows untouched, the answer in request order, repeats included, and the facts after every statement |
| ImageOperations.Target.Detach | images/operations.py:113-137 | removes exactly the rows of the requested images, leaves the others unchanged, and answers the removed ones in listing order |
| ImageOperations.Target.Reorder | images/operations.py:140-194 | every error in its order; otherwise every row has the order of its place in the request and the first is the cover, and no statement when nothing changes |
| ImageOperations.Target.MoveCover | images/operations.py:181-194 | the desired relation ends as the only cover, with the facts after every statement |
| ImageOperations.Target.SetCover | images/operations.py:197-227 | refused exactly when not attached or of another organization; otherwise the image is the only cover and no other column changes |
| ImageOperations.Target.UnsetCover | images/operations.py:230-240 | one statement, after which no row is a cover and no other column has changed |
| ImageOperations.CountNoDup | images/operations.py:156-157 | comparing the set's size with the list's length detects exactly the duplicates |
| MediaProtocol.StepKeepsInv | images/services.py:47-93 | with the age gate, every step of uploads, deletions and audits keeps the invariant |
| MediaProtocol.CondemnedIsDead | images/management/commands/audit_media.py:61-76 | a key that passes the audit's checks belongs to no row, and its upload can no longer commit |
| MediaProtocol.NeverDanglesExactly | images/management/commands/audit_media.py:33-76 | no committed row ever loses one of its five objects, in any run, exactly when upload time plus audit time is below the minimum age |
| MediaProtocol.MinimumAgeExactly | images/management/commands/audit_media.py:65-67 | the same bound for `--minimum-age-hours`, of which at least one hour is kept |
| MediaProtocol.SlowAuditDeletesARow | images/management/commands/audit_media.py:36-76 | for every larger pair of times, a run in which the audit deletes a committed row's object |
| MediaProtocol.ObjectsAfter | images/services.py:63-147 | exactly which object and which row each step adds or removes |
| MediaProtocol.CompensationCleans | images/services.py:83-93 | in every run, after a complete compensation none of the keys that the upload had written is stored |
| MediaFiles.StorageKeysAreUploaded | images/services.py:63-73 | the keys derived from a row's file name are exactly those its upload wrote |
| MediaFiles.KeysDetermine | images/services.py:63-73 | a key names organization, upload and variant, so uploads share no key |
| MediaFiles.CompensationUndoes | images/services.py:83-93 | deleting the written keys restores the store |
| MediaFiles.Media.UploadImageFile | images/services.py:47-93 | success stores five objects under their names and one row, and nothing else changes; a failed write or insert leaves the store as it was, but for an object the failing write left |
| MediaFiles.Media.Reconcile | images/management/commands/audit_media.py:33-76 | exactly which keys are missing and unreferenced, and that exactly the unreferenced images of known sufficient age are deleted; an object outside the image prefix is never touched |
| Identifiers.MakeItUnique | core/utils/identifiers.py:6-40 | returns the first candidate outside the fetched set within one more step than that set has members: the value when no other row holds it, else a cut with a dash and a counter; it is taken in the whole table exactly when the table is exhausted, and below the stated number of rows no other row holds it and it fits |
| Identifiers.UniqueContactSlug | contacts/services.py:18-31 | returns the first candidate that is not occupied, within one more step than there are occupied slugs |
| Identifiers.FetchedExactly | core/utils/identifiers.py:19-25 | the query fetches the values of the other rows that share the stated number of characters |
| Identifiers.TakenSuffixesBound | core/utils/identifiers.py:27-40 | distinct counters give distinct candidates, so a set of n members holds at most n of them |
| Identifiers.ResultTakenExactly | core/utils/identifiers.py:19-40 | the result is taken in the whole table exactly when all candidates up to one outside the fetched prefix are taken |
| Identifiers.ShortSuffixKeepsPrefix | core/utils/identifiers.py:19-35 | a suffix of at most 32 characters, and shorter than the field, keeps the fetched prefix |
| Identifiers.MakeItUniqueIsSafe | core/utils/identifiers.py:14-40 | below the stated number of rows the result fits the field, is free in the whole table and needs at most one suffix more than there are rows |
| Identifiers.ResultFitsExactly | core/utils/identifiers.py:27-35 | the result fits the field exactly when its suffix does |
| Identifiers.TwoCharacterFieldClashes | core/utils/identifiers.py:19-40 | a two-character field where the result is already taken |
| Identifiers.FastFormAgreesExactly | core/utils/identifiers.py:19-40 | the one-query and the query-per-candidate search stop at the same candidate exactly when the table is not exhausted in that sense |
| Identifiers.SameSlug | contacts/services.py:18-31 | for a base of at most 50 characters both routines give the same slug |

## Left out

- OwnershipTriggers.TriggersAreSound: assumes fresh account ids; IncrementalCheckExactly is the statement without them. It is a statement about one transaction against its final state; two transactions evaluating triggers at the same time under READ COMMITTED are not modelled.
- SessionRotation.OneUsableToken: for runs where each rotation is one step, as the code intends; RotationIsUniqueExactly covers the two-phase form.
- ExportRecovery.NoJobOutlastsAPass: assumes a positive stale window, which the settings check enforces; a pass that a crash cuts short is not one that reaches the end of its list.
- ExportTheorems.ReadyUpdateHitsItsRow: assumes that a worker dies at the hard limit and that the settings check of the stale window holds.
- Identifiers.SameSlug: assumes fewer than 10^31 occupied slugs; longer display names, whose first slug is not truncated, are compared only by FastFormAgreesExactly.
- Framing.StreamInjective: for lengths below 2^64, where the source's conversion does not overflow; names are Unicode scalar values, so lone surrogates are not covered. The generic JSON request fingerprint is not modelled.
- Uploads.BulkRequest.PrepareBulk: the pull bound assumes a per-file limit of at least -1; a more negative one would make a read unbounded.
- MediaProtocol.NeverDanglesExactly: the recursive listing of the store is not modelled; an audit may try any stored key. The public avatar check is not modelled either.
- IdempotencyTheorems.CommitsAreATtlApart: account deletion, which cascades to the account's records, is not a step; a deleted account sends no further requests. The isolation level is READ COMMITTED, and the local lock that is released before the commit is not modelled.
- IdempotencyStore.Store.RunIdempotently: the stored response is kept as a value, not as JSON text, and the primary key on the identity is the map's key.
- IdempotencyStore.Store.CleanupExpired: the count and the deletion of the cleanup are separate statements in the code; the deletion is one statement on rows that are expired when it runs.
- PendingTokens: `change_password` and every other revocation appear as a version bump; of the columns that a profile update writes back, those used here are modelled.
- OwnershipServices.Tables.SetUserActiveStatus: the session half of the same transaction is SessionServices.AuthTables.SetActive.
- OwnershipServices.Tables.CreateGroupOrganization: slug text is left out; a slug violation is an input.
- MediaFiles.Media.UploadImageFile: its compensating deletes succeed; deletes that fail or stop half-way are steps of MediaProtocol.
- MediaFiles.Media.Reconcile: the public avatar keys that the command also reports as missing are left out.
- OwnershipServices.Tables.CreatePersonalOrganization: slug text is left out; whether an attempt collides, and with what, is an input. Display names are left out of all organization rows.
- ExportProtocol: loss of the database connection while the worker runs on, an update whose commit result is unknown, and archive building and zip contents are left out.
- Concurrent image operations on one target are serialized by its row lock, so they are taken one after the other; custom texts of a relation are left out.
- HTTP routing, schemas, throttles, cookies, serializers, email templates, image decoding and resizing, presigning, contact search, tags, profile fields and avatars are plumbing or library calls.
- The admin's direct writes, which bypass the services, are left out.

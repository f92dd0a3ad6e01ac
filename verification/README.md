# Verified models of AIPermission

AIPermission lets agents call connectors (SSH, databases, HTTP and others) under per-token permissions. A
call becomes a durable request that is admitted, approved or blocked, revalidated under a delivery gate,
claimed, executed and finished, while approvers, declines, authorization changes, a recovery worker, runtime
shutdown and process restarts race with it. This project models that protocol and the kernels around it in
Dafny 4.11, and proves what they promise. `dafny verify dfyconfig.toml` checks everything.

## Modules

| file | what it holds |
|---|---|
| `ActionStore.dfy` | the request table: rows and the guarded transitions of the store's statements |
| `Lifecycle.dfy` | the protocol as a state machine: threads, delivery gate, boundary map, clock, audit log, idempotency records, restarts; one action is one lock region, one transaction or one read of the clock, and every transaction may also roll back or commit while reporting a failure |
| `LifecycleInvariant.dfy`, `LifecycleSteps.dfy` | the invariant, and that each of the 38 kinds of action keeps it |
| `LifecycleTheorems.dfy` | what holds over every run |
| `LifecycleAudit.dfy` | exactly when the end of a request is reported once, and a run in which it is reported twice |
| `LifecycleTurns.dfy`, `LifecycleRecovery.dfy`, `LifecycleDirect.dfy` | recovery never gives up on a request its own runtime is still executing, unless two approvals of that request were in flight together |
| `LifecycleProgress.dfy`, `LifecycleReach.dfy`, `LifecycleRace.dfy` | what an uninterrupted thread achieves, also as part of a run; a run in which two approvals in flight break the recovery guarantee |
| `LifecycleKeys.dfy` | a run in which one idempotency key is executed twice |
| `RequestLedger.dfy` | the loops one goroutine runs on the table, as methods on mutable state |
| `CredentialRedaction.dfy`, `CredentialMarkers.dfy`, `CredentialBoundary.dfy` | byte-level redaction of credential values that protects its own markers |
| `JsonRedaction.dfy` | redaction of JSON values, and what can be left in a redacted result |
| `Capabilities.dfy`, `CapabilityRuns.dfy` | replacement of a token's capabilities, revision numbers over time, fingerprints and compare-and-set |
| `ConnectorPermissions.dfy` | the same for connector permissions, which carry no revision number; the fingerprint of project scopes |
| `ApprovalContext.dfy` | the approval snapshot, its hash and the reason given for drift |
| `Finalizers.dfy` | shutdown of background finalizers |
| `ReleaseFiles.dfy` | the all-or-nothing commit of release files under arbitrary faults |
| `LocalActions.dfy` | verification of local composite actions |
| `BoundedText.dfy`, `ReleaseOrder.dfy` | UTF-8-safe truncation; version precedence and release order |
| `Canonical.dfy`, `Keyed.dfy`, `Wrappers.dfy` | lists in a strict order, keyed inputs and their fingerprints, shared types |

A run of the protocol is any sequence of actions from any empty initial state; an action that is not enabled
changes nothing, so every theorem quantifies over all interleavings. Hashing, tagging and encoding are taken
to be injective and stand for their input. I/O, clocks, randomness and connector results are parameters.

## What turned out different from the promise

- A request that is blocked at admission is finished from `blocked` to `blocked`. If that commit is reported
  as a failure, the retry reports the end a second time. `RequestLedger.ReportedOnceExactly` states exactly
  when the end is reported at most once.
- A stale approval is written to the audit log even when the row has already ended, so a request can be reported
  declined and then stale (`LifecycleAudit.DeclinedThenStale`, a run from an empty database).
  `LifecycleAudit.EndsReportedOnceExactly` says for which runs every end is reported once.
- An idempotency key protects against a second execution until the record of the purged request is forgotten,
  30 days after the purge (`LifecycleTheorems.KeyUsedOnce`, and exactly then: `LookupExact`). After that the same
  call runs again: `LifecycleKeys.ForgottenKeyRunsAgain` is a run from an empty database.
- With two approvals of one request in flight, the one that gives up removes the boundary that protects the
  other's execution, and recovery marks a request unknown that is still being executed
  (`LifecycleRace.DuplicateApprovalIsNotSpared`, a run from an empty database). Without two approvals of this very
  request this cannot happen, whatever else goes on (`LifecycleRecovery.RecoverySparesLive`), and to a request that
  was admitted without approval it never happens (`LifecycleDirect.RecoverySparesDirect`).
- Redaction keeps its promise for more values than those without brackets. Among the values that are long enough
  to be masked inside a word, `CredentialBoundary.CleanExactly` gives the exact class, over all lists that a
  boundary can hold.
- Redacting a redacted text again can change it when some value is too short to be masked inside a word: with the
  keys `abcd-` and `wxyz`, a second call masks what the first one left of `abcd-wxyz`
  (`CredentialBoundary.KeysAreMaskedLater`). With long enough values it cannot
  (`CredentialBoundary.RedactAllIdempotent`).
- Replacing capabilities with exactly the listed ones, while the token also holds capabilities that are not
  listed (inactive project, unsupported name), is carried out, reported as no change and rolled back
  (`CapabilityRuns.ReportedExactly`; `HiddenIsReached` is a run that gets there).
- A set of connector permissions that is changed and changed back has its old fingerprint again, so an update based
  on it commits although the set was another one in between (`ConnectorPermissions.ChangedBackCommits`). For
  capabilities this cannot happen (`CapabilityRuns.CommitsOverLoaded`).
- A wait for finalizers that begins before shutdown can make a later stop return while finalizers still run
  (`Finalizers.EarlyWaitMisleads`); `Finalizers.TrustExactly` says exactly when a return can be trusted.
- With leading zeros, version precedence is still a strict order but not a total one: distinct versions can compare
  as equal, and comparing as equal is not transitive (`ReleaseOrder.LeadingZerosCollide`).
  `ReleaseOrder.CompareZeroExact` says exactly which versions compare as equal.
- An approval context in which a null stands in for a missing area hashes differently but is given no reason for the
  drift (`ApprovalContext.NullHidesDrift`). Contexts that are built here always have all areas, and for them hash and
  reason agree (`ApprovalContext.ReasonExact`).

## Model

| member | source | states |
|---|---|---|
| `LifecycleSteps.RunKeeps` | backend/internal/actions/workflow_execution.go:17-222 | in every run the gate excludes readers and the writer, one thread at most may claim a request, rows agree with their history, keys and tombstones agree with purges, boundaries belong to live threads |
| `LifecycleTheorems.ExecutedAtMostOnce` | backend/internal/actions/workflow_recovery.go:132-166 | in every interleaving the connector is executed at most once per request, and only after a won claim |
| `LifecycleTheorems.ClosedForEver` | backend/internal/connectortargets/action_records.go:991-1021 | a request that has ended unclaimed can never be claimed again, whatever happens later |
| `LifecycleTheorems.NeverAttempted` | backend/internal/actions/workflow_recovery.go:102-166 | a request that ended declined, blocked or as "lease expired before dispatch" has not been executed and no continuation executes it |
| `LifecycleTheorems.RecoveryVerdict` | backend/internal/connectortargets/action_records.go:1026-1059 | recovery ends a claimed request as outcome_unknown and an unclaimed one as failed, and the failed one was never executed |
| `LifecycleTheorems.ExecutionAuthorized` | backend/internal/actions/workflow_execution.go:180-256 | an executed request of a token had a live token, the required rule and exactly the input, payload and material hashed at insertion, under the authorization in force at its claim |
| `LifecycleTheorems.ValidatedMeansGated` | backend/internal/actions/workflow_approval.go:282-314 | no authorization change can commit between a revalidation and the claim it is made for |
| `LifecycleTheorems.PendingIsCurrent` | backend/internal/actions/workflow_execution.go:38-117 | the context stored with a pending MCP request has the token expiry, revocation, rule and permission expiry of its token's authorization as it is now |
| `LifecycleTheorems.ChangeInvalidates` | backend/internal/accesscontrol/mutation.go:22-86 | a request of the token that existed and was unclaimed when an authorization change was committed is not executed in any continuation of any run |
| `LifecycleTheorems.KeyUsedOnce` | backend/internal/actions/workflow_persistence.go:152-173 | two requests share a principal and key only when the first was purged a full window before the second was created |
| `LifecycleTheorems.KeyExecutedOnce` | backend/internal/actions/workflow_persistence.go:188-249 | one key leads to one execution until the first request's record is forgotten |
| `LifecycleKeys.KeyExecutedTwice` | backend/internal/actions/workflow_persistence.go:152-173 | every run that leaves a call with a key unopposed can be continued so that its key is executed twice |
| `LifecycleKeys.ForgottenKeyRunsAgain` | backend/internal/actions/workflow_persistence.go:152-173 | such a run from an empty database |
| `LifecycleTheorems.LookupExact` | backend/internal/connectortargets/action_records.go:669-725 | a key leads to a request exactly while that request is stored or was purged within the window, and then to the identity of the call that created it |
| `LifecycleTheorems.AnswerExact` | backend/internal/actions/workflow_persistence.go:188-249 | in every reachable state a retry is a replay exactly when the one request on record for its key has the caller's identity, a conflict exactly when it has another, and new exactly when there is none |
| `LifecycleTheorems.RetryIsAnswered` | backend/internal/actions/workflow_persistence.go:188-249 | with a request on record, before admission or at the insertion, the call gets that answer and nothing is created, claimed or executed |
| `LifecycleTheorems.AnswersAreTrue` | backend/internal/connectortargets/action_records.go:585-600 | in every run a call that was answered with a replay was answered with a request of its own key and identity, one refused with a request of another identity |
| `LifecycleTheorems.AnsweredOnlyReturns` | backend/internal/actions/workflow_execution.go:17-117 | no action makes an answered call do anything but return |
| `LifecycleTheorems.InsertExactlyWhenFree` | backend/internal/connectortargets/action_records.go:456-600 | an insertion creates a request exactly when its key is free; otherwise the call ends without creating, claiming or executing anything |
| `LifecycleTheorems.ReportedOnce` | backend/internal/actions/workflow_result.go:60-117 | over all interleavings and retries at most one conditional end event per request, and only for an ended row |
| `LifecycleAudit.EndsReportedOnceExactly` | backend/internal/actions/workflow_result.go:60-117 | over every run, stale and blocked endings included, every end is reported at most once if and only if no stale and no blocked finish comes after its request has been reported |
| `LifecycleAudit.InTimeIsPrompt` | backend/internal/actions/workflow_approval.go:352-366 | in particular when every stale finish finds a row that has not ended and every blocked finish an unreported one |
| `LifecycleAudit.DeclinedThenStale` | backend/internal/actions/workflow_approval.go:352-366 | a run from an empty database that reports one request declined and then stale |
| `LifecycleTheorems.BoundariesDrain` | backend/internal/actions/workflow_ports.go:225-254 | once all calls and finalizers have ended the boundary map is empty |
| `LifecycleRecovery.RecoverySparesLive` | backend/internal/actions/workflow_recovery.go:65-110 | as long as no two approvals of a request were in flight together, recovery does not rewrite it while this runtime, having claimed it, is executing or finishing it, whatever happened to other requests |
| `LifecycleDirect.RecoverySparesDirect` | backend/internal/actions/workflow_recovery.go:65-110 | for a request that was admitted without approval this holds in every run |
| `LifecycleDirect.DirectIsSerial` | backend/internal/actions/workflow_execution.go:169-222 | in every run at most one thread at a time tracks a request that was admitted without approval, or is about to |
| `LifecycleRace.DuplicateApprovalIsNotSpared` | backend/internal/actions/workflow_ports.go:247-254 | a run from an empty database with two approvals of request 1 in flight, after which that request is stored as unknown while the thread that claimed it is still executing it |
| `LifecycleRace.RunRace` | backend/internal/actions/workflow_ports.go:247-254 | every run that has a pending, authorized request can be continued like this, and in the continuation two approvals of that request are in flight together |
| `LifecycleProgress.AdmissionAdmits` | backend/internal/actions/workflow_execution.go:17-117 | an uninterrupted call with a free key is stored under the status its permission asks for, in exactly the described state |
| `LifecycleProgress.ApprovalMarks` | backend/internal/actions/workflow_approval.go:137-272 | an uninterrupted approval of a still authorized request marks it running with its boundary tracked |
| `LifecycleProgress.ExecutionCalls` | backend/internal/actions/workflow_execution.go:169-222 | an uninterrupted, still authorized and claimable request is claimed and executed once with what was validated |
| `LifecycleProgress.CompletionFinishes` | backend/internal/actions/workflow_dispatch_completion.go:82-94 | completion settles the row, reports it once and removes thread and boundary |
| `LifecycleProgress.CallRunsThrough` | backend/internal/actions/workflow_execution.go:38-117 | an allowed call is stored, claimed, executed once and completed, and leaves no thread, boundary or gate behind |
| `LifecycleProgress.ApprovalRunsThrough` | backend/internal/actions/workflow_approval.go:35-68 | so is an approved request, with the approved context |
| `RequestLedger.FinishPersists` | backend/internal/actions/workflow_result.go:74-91 | a reported success means the status is stored and reported, or the row was in a status this ending may not replace |
| `RequestLedger.FinishAtomic` | backend/internal/actions/workflow_result.go:93-117 | over every pattern of faults row and event change together or not at all, and no other row changes |
| `RequestLedger.ReportedOnceExactly` | backend/internal/actions/workflow_result.go:60-117 | at most one end event over every pattern of faults, if and only if the ending is not blocked-from-blocked |
| `RequestLedger.RecoveryPassSpares` | backend/internal/actions/workflow_recovery.go:65-110 | after a pass under any faults a row is recoverable exactly when it was and has a live boundary or was rolled back; a row that was not recoverable, or still is, is untouched |
| `RequestLedger.RecoveryPassSettles` | backend/internal/actions/workflow_recovery.go:65-110 | two passes under any faults are one pass in which only what was rolled back twice is rolled back; without a rollback the second changes nothing |
| `RequestLedger.ActionsAreAttempts` | backend/internal/actions/workflow_result.go:93-117 | the finishing actions of the state machine are single attempts of this retry loop |
| `RequestLedger.Ledger.AllowedStatuses` | backend/internal/connectortargets/serialization.go:375-396 | the statuses a finish may start from, or a refusal |
| `RequestLedger.Ledger.PersistFinish` | backend/internal/actions/workflow_result.go:93-117 | one finishing transaction under a fault equals its specification |
| `RequestLedger.Ledger.FinishAllowed` | backend/internal/actions/workflow_result.go:60-91 | the retry loop equals the specified sequence of at most three attempts |
| `RequestLedger.Ledger.PersistExpiredRecovery` | backend/internal/actions/workflow_recovery.go:112-130 | exactly a running row with an expired lease changes, and the log grows exactly when it does; it ends failed if it was never dispatched and unknown otherwise, keeps its claim and is not recoverable again |
| `RequestLedger.Ledger.Recover` | backend/internal/actions/workflow_recovery.go:65-110 | exactly the unprotected expired rows are settled, in order, each with one event |
| `RequestLedger.Ledger.StalePendingForToken` | backend/internal/connectortargets/action_authorization.go:16-88 | exactly the token's undispatched rows become stale, and their ids are returned in order |
| `RequestLedger.Ledger.InvalidateToken` | backend/internal/accesscontrol/mutation.go:22-86 | after a change no lease of the token is active, its undispatched rows and pending Vault requests are stale, and the sessions to close are listed once each; without a change nothing happens |
| `RequestLedger.Ledger.StaleVaultForToken` | backend/internal/vaultrequests/store.go:538-554 | exactly the token's pending Vault requests become stale |
| `RequestLedger.Ledger.MarkRunningOutcomeUnknown` | backend/internal/connectortargets/action_recovery.go:27-104 | every running row and no other becomes outcome_unknown, each with one event |
| `RequestLedger.Ledger.BeginDispatch` | backend/internal/actions/workflow_recovery.go:132-166 | the claim is won exactly when the guard holds and the commit is acknowledged, rejected exactly when the row is disputed; the whole new table in every case, and an expired answer means never dispatched |
| `CredentialRedaction.BracketFreeIsClean` | backend/internal/actionresult/credential_boundary.go:265-276 | a value without brackets cannot lie across a marker's edge |
| `CredentialRedaction.WindowExact` | backend/internal/actionresult/credential_boundary.go:265-276 | the windowed test holds exactly when some marker covers the match |
| `CredentialMarkers.MarkersExact` | backend/internal/actionresult/credential_boundary.go:238-263 | after a pass the markers are exactly the old ones, moved, and the ones put in the place of matches: a pass breaks none and makes none out of old text |
| `CredentialRedaction.PassKeeps` | backend/internal/actionresult/credential_boundary.go:238-263 | a pass for one value keeps every other value covered |
| `CredentialRedaction.PassCovers` | backend/internal/actionresult/credential_boundary.go:238-263 | a pass leaves no occurrence of its own value outside markers |
| `CredentialBoundary.RedactAllCovers` | backend/internal/actionresult/credential_boundary.go:212-236 | after redaction with any list of clean values in any order, every occurrence of a long enough value lies wholly inside a marker |
| `CredentialBoundary.RedactAllIdempotent` | backend/internal/actionresult/credential_boundary.go:212-236 | when every value is clean and long enough to be masked inside a word, redacting again changes nothing |
| `CredentialBoundary.ShortIsMaskedLater` | backend/internal/actionresult/credential_boundary.go:225-257 | a shorter value that ends outside a word, followed by a later value that starts one, is left alone by the first redaction and masked by the second |
| `CredentialBoundary.KeysAreMaskedLater` | backend/internal/actionresult/credential_boundary.go:225-236 | so it is with two short keys |
| `CredentialBoundary.NothingToRedact` | backend/internal/actionresult/credential_boundary.go:238-241 | a text without any of the values is returned unchanged |
| `CredentialBoundary.CleanExactly` | backend/internal/actionresult/credential_boundary.go:238-308 | a value that is long enough keeps the promise in every ordered list of clean values it can be delivered with if and only if it is clean |
| `CredentialBoundary.RedactCredentialValue` | backend/internal/actionresult/credential_boundary.go:238-276 | the left-to-right rewriter with its window test equals the specification that replaces every match no marker covers |
| `CredentialBoundary.Boundary.Add` | backend/internal/actionresult/credential_boundary.go:291-308 | the list holds the old values and every variant of the new ones, each once, longest first |
| `CredentialBoundary.Boundary.Redact` | backend/internal/actionresult/credential_boundary.go:212-223 | one pass per value in list order |
| `CredentialBoundary.Boundary.RedactKey` | backend/internal/actionresult/credential_boundary.go:225-236 | the same with the longer minimum for keys |
| `CredentialBoundary.AdditionOrderIrrelevant` | backend/internal/actionresult/credential_boundary.go:291-308 | boundaries with the same values hold the same list |
| `JsonRedaction.RedactValue` | backend/internal/actionresult/redact.go:47-94 | result or refusal is the same for every order in which object entries are visited |
| `JsonRedaction.RedactCapabilityValue` | backend/internal/actionresult/redact.go:96-113 | capability strings and arrays of them go through the capability redactor, everything else through the plain one |
| `JsonRedaction.RedactedAt` | backend/internal/actionresult/redact.go:47-113 | below no sensitive field, the value at the renamed path is the redaction of the old one in the mode that its field names determine |
| `JsonRedaction.CapabilityExactly` | backend/internal/actionresult/redact.go:47-113 | the capability redactor is used exactly for what lies in a temporary field, directly or in arrays, and not for what lies in other fields below it |
| `JsonRedaction.SensitiveReplaced` | backend/internal/actionresult/redact.go:72-75 | a sensitive field is replaced at any depth |
| `JsonRedaction.KeptAt` | backend/internal/actionresult/redact.go:47-131 | outside replaced subtrees objects keep their entry count, arrays their length, other scalars their value, and a string leaf went through exactly the redactor of its mode |
| `JsonRedaction.DepthKept` | backend/internal/actionresult/redact.go:47-113 | redaction does not nest deeper |
| `JsonRedaction.EveryTextRedacted` | backend/internal/actionresult/redact.go:43-131 | what all redactors guarantee holds of every string, number spelling and key in the result |
| `JsonRedaction.CredentialsCovered` | backend/internal/actionresult/credential_boundary.go:323-356 | a structured value that went through a boundary holds no delivered credential outside markers, in strings, numbers and long keys |
| `Keyed.SetEqual` | backend/internal/accesscontrol/capability_store.go:311-322 | comparing sizes and looking up each input decides equality of the two sets |
| `Capabilities.CapabilityStore.Normalize` | backend/internal/accesscontrol/capability_store.go:153-166 | accepts exactly lists without repetition of acceptable capabilities |
| `Capabilities.CapabilityStore.Advance` | backend/internal/accesscontrol/capability_store.go:195-212 | exactly the counters of new or different inputs advance by one |
| `Capabilities.CapabilityStore.Rewrite` | backend/internal/accesscontrol/capability_store.go:213-234 | the token's rows become the inputs at their counters' revisions, keeping creation times |
| `Capabilities.CapabilityStore.Replace` | backend/internal/accesscontrol/capability_store.go:149-245 | accepted exactly when the checks hold; then the tables are the specified ones, else unchanged |
| `Capabilities.ReplacedExact` | backend/internal/accesscontrol/capability_store.go:187-234 | a replacement leaves the token exactly the requested set and touches no other token |
| `Capabilities.ReplacedAgain` | backend/internal/accesscontrol/capability_store.go:191-193 | repeating a replacement is a no-op |
| `CapabilityRuns.RevisionNeverDecreases` | backend/internal/accesscontrol/capability_store.go:194-213 | over every run a capability's revision never decreases, through removal and renewed grants |
| `CapabilityRuns.SameRevisionUntouched` | backend/internal/accesscontrol/capability_store.go:194-235 | two observations with one revision saw the same rule and expiry, and the capability was there unchanged all the time between them |
| `CapabilityRuns.CapabilityFingerprintExact` | backend/internal/accesscontrol/revisions.go:72-94 | fingerprints are equal exactly when the listed sets are, whatever the order |
| `ConnectorPermissions.PermissionFingerprintExact` | backend/internal/accesscontrol/revisions.go:31-56 | so are those of connector permissions |
| `ConnectorPermissions.ScopeFingerprintExact` | backend/internal/accesscontrol/revisions.go:58-70 | and those of project scopes |
| `ConnectorPermissions.CommitsOverLoaded` | backend/internal/accesscontrol/connector_permissions.go:117-136 | in any interleaving an update of connector permissions commits only over exactly the set its client loaded |
| `ConnectorPermissions.CommitsExactly` | backend/internal/accesscontrol/connector_permissions.go:117-136 | an update changes anything if and only if the current listing is the loaded one, the inputs are accepted, and they are neither what is listed nor all that is stored; then the token holds exactly the inputs |
| `ConnectorPermissions.ChangedBackCommits` | backend/internal/accesscontrol/connector_permissions.go:117-136 | it also commits when that set was replaced and restored in between |
| `ConnectorPermissions.ReplacedExact` | backend/internal/accesscontrol/connector_permissions.go:117-136 | a replacement leaves the token exactly the requested permissions and touches no other token |
| `ConnectorPermissions.InputsEqual` | backend/internal/connectortargets/action_records.go:332-354 | striking off the inputs one by one decides whether they are exactly what is listed |
| `CapabilityRuns.CommitsOverLoaded` | backend/internal/accesscontrol/project_capabilities.go:79-92 | in any interleaving an update commits only over the set its client loaded, every member of which was untouched since |
| `CapabilityRuns.ReportedExactly` | backend/internal/accesscontrol/capability_store.go:247-257 | when a replacement is reported as a change, and exactly when it is carried out and not reported |
| `CapabilityRuns.HiddenIsReached` | backend/internal/accesscontrol/capability_store.go:105-133 | a run from empty tables to a token that holds a capability that is not listed; asking for nothing then is accepted and rolled back, and the token keeps it |
| `CapabilityRuns.ListsEqual` | backend/internal/accesscontrol/capability_store.go:259-274 | the comparison of two listings decides equality of their grants |
| `CapabilityRuns.ListedGrants` | backend/internal/accesscontrol/capability_store.go:105-133 | a listing names exactly the visible grants |
| `ApprovalContext.DriftReason` | backend/internal/actions/approval.go:116-138 | names the first area, then the first action field, that differs, everything before it being equal, and gives no name exactly when nothing it compares differs or a context does not parse |
| `ApprovalContext.ReasonVersusHash` | backend/internal/actions/approval.go:116-152 | hashes are equal exactly when no reason is found, nothing outside the compared areas differs and the same areas are present |
| `ApprovalContext.ReasonExact` | backend/internal/actions/approval.go:35-152 | for snapshots built here a changed hash always has a reason, an unchanged one never, and the hash covers all material but the time |
| `ApprovalContext.NullHidesDrift` | backend/internal/actions/approval.go:116-152 | a missing area against a null one: different hashes, no reason |
| `Finalizers.NilMeansDrained` | backend/internal/actions/workflow_ports.go:140-200 | when the first wait follows the start of shutdown, a return of nil means no finalizer runs and none will ever start |
| `Finalizers.TrustExactly` | backend/internal/actions/workflow_ports.go:177-200 | from any state, a later return of nil can be trusted in every continuation if and only if shutdown has begun and a waiter that is done left nothing running |
| `Finalizers.EarlyWaitMisleads` | backend/internal/actions/workflow_ports.go:140-200 | a run from the start in which a stop returns nil while a finalizer runs |
| `ReleaseFiles.Prepare` | scripts/release-version.js:149-159 | reads every original and writes every new file beside its target, changing no target; stops only at a failing call or a missing target |
| `ReleaseFiles.Install` | scripts/release-version.js:160-164 | renames the new files into place up to the first failing call |
| `ReleaseFiles.Restore` | scripts/release-version.js:173-188 | fails if and only if one of its calls does; otherwise every original is back and nothing is left over |
| `ReleaseFiles.CommitFileUpdates` | scripts/release-version.js:124-205 | returns normally if and only if every file exists and no call fails, and then all files are new; otherwise the rollback fails if and only if a call after the first failing one does, and when it does not all files are original; in both good cases nothing is left over; always: no file is ever partial |
| `LocalActions.VerifyLocalAction` | scripts/workflow-contracts.js:333-382 | terminates, and accepts exactly when every chain of uses has compliant actions only and revisits none |
| `LocalActions.VerifyRequiredJob` | scripts/workflow-contracts.js:326-331 | the same for all local actions of a job |
| `BoundedText.BoundaryExact` | backend/internal/boundedtext/truncate.go:33-37 | in valid text a prefix is valid exactly when the next byte starts a character |
| `BoundedText.PrefixUTF8` | backend/internal/boundedtext/truncate.go:26-38 | the longest valid prefix within the budget |
| `BoundedText.TruncateUTF8` | backend/internal/boundedtext/truncate.go:11-24 | the specified truncation of the repaired text |
| `BoundedText.TruncatedFits` | backend/internal/boundedtext/truncate.go:11-38 | valid, within the budget, and wasting at most three bytes of it |
| `BoundedText.TruncatedUnique` | backend/internal/boundedtext/truncate.go:11-38 | what the truncation is specified by has one solution |
| `BoundedText.TruncationIdempotent` | backend/internal/boundedtext/truncate.go:11-24 | truncating again changes nothing |
| `ReleaseOrder.CompareSemver` | scripts/release-notes.js:47-84 | the comparison loop equals precedence by core, then identifier by identifier |
| `ReleaseOrder.CompareZeroExact` | scripts/release-notes.js:47-84 | accepted versions compare as equal exactly when their cores agree as numbers and their prereleases are equal or first differ in two numeric identifiers of one value |
| `ReleaseOrder.CompareTotal` | scripts/release-notes.js:47-84 | without leading zeros only equal versions compare as equal |
| `ReleaseOrder.CompareAntisymmetric` | scripts/release-notes.js:47-84 | swapping any two accepted versions swaps the sign |
| `ReleaseOrder.CompareTransitive` | scripts/release-notes.js:47-84 | precedence is transitive on all accepted versions |
| `ReleaseOrder.LeadingZerosCollide` | scripts/release-notes.js:71-82 | at three accepted versions comparing as equal is not transitive |
| `ReleaseOrder.ValidateList` | scripts/release-notes.js:103-125 | one pass over neighbours decides the order of all pairs |
| `ReleaseOrder.ValidateOrder` | scripts/release-notes.js:103-125 | accepts exactly lists of accepted versions in which every earlier release is newer than every later one |

## Left out

- LifecycleTheorems.ReportedOnce: speaks of all end events but `stale` and `blocked`, which can be repeated; `LifecycleAudit.EndsReportedOnceExactly` covers those too.
- LifecycleTheorems.ExecutionAuthorized: token and permission are live at the time of the revalidation; the clock may pass their expiry before the claim, as in the code.
- ReleaseOrder.CompareSemver: numbers are exact, so the loss of precision above 2^53 is not modelled; the order of alphanumeric identifiers is a parameter.
- File modes, directories and symbolic links in the release commit: a failing rename is taken to have no effect, and an absent file is the only reason for a missing-file error.
- Whitespace trimming and RFC 3339 parsing of capability inputs and idempotency keys: inputs are taken after it; a blank key is no key.
- Credential variants (quoting, base64, URL and HTML escapes): a parameter of `Boundary.Add`.
- Token request capacity, payload sealing, session handles and history projections: they only make transactions fail or carry data the promises do not depend on.
- Dates, labels and sections of the release notes: only versions and their order are modelled.
- Size and depth limits of canonical JSON values: the redaction theorems hold for values of any size.
- Connectors, console sessions, file transfers, backups, HTTP handlers, the frontend and the other scripts: external effects or wiring around the modelled core.

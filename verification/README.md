# Verification of the assurance harness lifecycle, the credential lock and the assurance aggregate

Four parts of the repository are protocols, and this project models and proves them.

**The shared lease directory.** Any number of harness processes own port blocks and worktrees through one
directory of atomic renames, links and unlinks. `LeaseStore` is a transition system over that directory with
process births, crashes, starts, retries, releases, transfers, discoveries and quarantines; `FileLeaseState` is
the adapter class, method by method, and `LeaseAdapterRuns` proves each of its calls a run of that system. `Takeover` opens up one operation,
the transfer of ownership, to single system calls. `LeaseRecords` holds the record, the two families of record
comparison, and the port-block arithmetic.

**The lifecycle controller.** `ResetProtocol` runs the eighteen-step reset against an adversary that lets each step
succeed, fail before taking effect, or fail after taking effect, and records the stack at every instant;
`ResetSafety` says what the poison flag guarantees at each of them. `RunLife` puts resets, restarts, recoveries
and crashes in sequence. `StartAndCleanup` starts, aborts, stops and cleans up one run. `OperationQueue` and
`Supervisor` are the two promise chains that serialize operations.

**The credential lock and file.** `CredentialLock` interleaves processes and tasks over the in-process reservation
set and a kernel lock table that follows the fcntl() page of the System Interfaces volume of POSIX.1-2017, and
proves one bounded call against the script of its own steps. `CredentialFile` is the atomic replacement of the
file the lock protects.

**The aggregate.** `AggregateRunner` builds an evidence document in an early-stopping pass over an arbitrary
registry; `AggregateValidator` derives it again from the invocation facts; `AggregateAgreement` proves exactly
when the two agree, `AggregateIdentities` reads that condition off what the children print, and `AggregateReading`
says what a run and an accepted document mean in terms of what the children did. `ExitPrecedence` and `SortedText` serve them. `ControlCheck` is the control-sensitivity
executor.

Transition systems are written as `Enabled`, `Apply` and a run (`Legal`/`After`, or `Run`); theorems quantify over
every run. Adversaries are explicit: a datatype of functions (`Env`, `Runtime`, `StartEnv`, ...) that says what every
call into code outside the model answers. Clocks, identifiers and other processes' steps are such parameters too.

## Assumptions

- Reading a dead owner's claim and removing it is one step, and so is each read-compare-replace of `lease.json`
  (except inside `Takeover`, where the transfer's own steps are single). `SplitReclaimBreaksExclusion` and
  `InterleavedDiscoveryIsLost` show what goes wrong otherwise.
- A directory rename succeeds only onto an absent or empty directory (the rename() page of the System Interfaces
  volume of POSIX.1-2017). Process identities (pid and start fingerprint) are never reused, and probes of them are
  truthful.
- A wait of the credential lock lasts at least ten milliseconds. Random names and identifiers are fresh.
- Public verification runs inside Porta's container (test-harness/fixtures/lifecycle-runtime-reset.ts:581-589), so the
  repair of a Porta restart cannot pass it while Porta is down.
- Start properties are stated inside the startup deadline; the wrapper around it can still discard a result.

## Where the code does less than its callers may expect

- The controller's authority comparison ignores the startup intent and the attacker URL, which the store's compares
  (`AuthorityGap`, `IntentEscapesTheControllerCheck`).
- A retry that runs past the port range, or a probe or acquisition that rejects, forgets the worktree claim an
  earlier attempt placed (`LastBlockRetryLeavesClaim`). When the abort of a started stack cannot read the lease, the
  rejection escapes, and lease and claim stay. `StartWithinDeadline` has the exact condition for both.
- Exit 60 of a reset does not promise the poison flag: a last flush that takes effect but reports failure, followed
  by a failing repair, leaves `ready` committed (`SixtyMayLeaveReady`; `FencedExactlyWhen` is exact).
- A Porta restart misses the effect of a quiesce that reports failure after taking effect: it answers by the kind of
  that failure, 30 for an ordinary one, and leaves traffic blocked (`QuietQuiesceIsMissed`; `RestartOwnedPorta` and
  `RestartExit` have the exact conditions).
- An action accepted before a stop may still start after it: exactly while one is queued
  (`ActionsStillStartExactlyWhenQueued`; `QueuedActionsStillStart` is the shortest such run).
- A run whose aggregate deadline passes between two children builds evidence its own validator rejects, and throws
  instead of publishing (`LateRunsAreRejected`; `DeadlineCanPassAnywhere` shows it in every registry).
- When `provenance()` throws, the control check runs cleanup a second time; and any stage that throws is reported
  as a failure of validation (`ExecuteControlSensitivityCheck`).

## Model

| member | source | states |
|---|---|---|
| LeaseStore.LeasesAreExclusive | test-harness/fixtures/lifecycle-system.ts:108-130 | in every reachable state of any interleaving there is at most one lease per block, at most one per worktree, and every lease is covered by a claim with its run and intent |
| LeaseStore.StepKeepsInv | test-harness/fixtures/lifecycle-system.ts:216-384 | each directory operation keeps the invariant behind that |
| LeaseStore.ClaimsGoBy | test-harness/fixtures/lifecycle-system.ts:333-369 | the only three ways a worktree claim disappears, each with its guard |
| LeaseStore.ClaimsStayPaired | test-harness/fixtures/lifecycle-system.ts:274-286 | no step removes a claim a lease relies on |
| LeaseStore.ClaimsStayOwned | test-harness/fixtures/lifecycle-controller.ts:96-121 | a live start that retries after an occupied block still has its claim |
| LeaseStore.OwnersComeFromStarts | test-harness/fixtures/lifecycle-system.ts:112-122 | owner directories never move, and a new one appears only on a free block |
| LeaseStore.OwnersStayUnique | test-harness/fixtures/lifecycle-system.ts:112-122 | a block never holds two owner directories, and each was put there by the start that holds that block |
| LeaseStore.LeasesComeFrom | test-harness/fixtures/lifecycle-system.ts:216-271 | a lease file gets content only from a start, a transfer of its owner, or a discovery with the same authority |
| LeaseStore.ClaimComesFrom | test-harness/fixtures/lifecycle-system.ts:313-332 | a claim in place was there before or is what its own start just wrote |
| LeaseStore.LeasesStayInPlace | test-harness/fixtures/lifecycle-system.ts:247-271 | a lease's ports and intent always match its directory |
| LeaseStore.ReleaseStaysLate | test-harness/fixtures/lifecycle-system.ts:274-286 | a release that has removed its owner directory never sees that start's directory again |
| LeaseStore.LeasesShareNoPort | test-harness/scripts/lifecycle.ts:123 | leases on blocks that are multiples of ten never share a port |
| LeaseStore.SplitReclaimBreaksExclusion | test-harness/fixtures/lifecycle-system.ts:341-350 | if reading and removing a dead claim were two steps, one worktree could end with two leases |
| FileLeaseState.FileLeaseStateAdapter.constructor | test-harness/fixtures/lifecycle-system.ts:101-105 | a new store is empty |
| FileLeaseState.FileLeaseStateAdapter.Read | test-harness/fixtures/lifecycle-system.ts:142-168 | a record is found whenever the one owner directory's lease file holds it and it matches the lookup, and only then; missing and malformed exactly for none and for an unreadable file |
| FileLeaseState.FileLeaseStateAdapter.AcquireWorktreeClaim | test-harness/fixtures/lifecycle-system.ts:313-354 | the claim is granted exactly when absent, this start's own, or a dead start's without directories; only this worktree's claim changes |
| FileLeaseState.FileLeaseStateAdapter.TryAcquire | test-harness/fixtures/lifecycle-system.ts:108-130 | the three answers, each with its exact condition, and exactly the directories and claims each leaves |
| FileLeaseState.FileLeaseStateAdapter.ReleaseIntent | test-harness/fixtures/lifecycle-system.ts:133-139 | the claim goes exactly when it is this intent's and no owner directory exists |
| FileLeaseState.FileLeaseStateAdapter.Rewrite | test-harness/fixtures/lifecycle-system.ts:221-238 | exactly when a unique lease file equals the expected record, that file holds the replacement afterwards; other runs' directories, tombstones and claims never change, and nothing does without such a file |
| FileLeaseState.FileLeaseStateAdapter.TransferOwner | test-harness/fixtures/lifecycle-system.ts:216-244 | answers the record with the new owner exactly when the expected one was persisted uniquely; then the file holds the answer and no longer the expected record, and nothing of other runs changed |
| FileLeaseState.FileLeaseStateAdapter.FinalizeDiscovered | test-harness/fixtures/lifecycle-system.ts:247-271 | the same for the discovered record, exactly when it also is an advance of the expected one |
| FileLeaseState.FileLeaseStateAdapter.Release | test-harness/fixtures/lifecycle-system.ts:274-286 | completes exactly on a matching unique lease and claim, and then lease, block and claim are gone |
| FileLeaseState.FileLeaseStateAdapter.QuarantineBlock | test-harness/fixtures/lifecycle-system.ts:293-304 | moves one owner directory aside and marks its block |
| FileLeaseState.FileLeaseStateAdapter.Quarantine | test-harness/fixtures/lifecycle-system.ts:289-306 | exactly the run's directories move aside and their blocks stay blocked, or it stops at a block already marked |
| FileLeaseState.ReleaseMeans | test-harness/fixtures/lifecycle-system.ts:274-286 | a completed release leaves neither lease, block nor claim; an incomplete one keeps the claim; a refused one changes nothing |
| FileLeaseState.RewriteMeans | test-harness/fixtures/lifecycle-system.ts:226-239 | a rewrite leaves the replacement in the run's one directory, which stays the same start's, and everything else as it was |
| FileLeaseState.AcquisitionMeans | test-harness/fixtures/lifecycle-system.ts:108-130 | an acquisition leaves the worktree's claim to the start that was granted it, the record in a block without owner and tombstone, and everything else as it was |
| FileLeaseState.QuarantineMeans | test-harness/fixtures/lifecycle-system.ts:289-306 | a quarantine takes away the run's directories in those blocks, marks the blocks, and nothing else |
| LeaseAdapterRuns.AcquisitionIsARun | test-harness/fixtures/lifecycle-system.ts:108-130 | under truthful probes every acquisition is a legal run of the shared directory, after which a start that met an occupied block may try again |
| LeaseAdapterRuns.ClaimIsARun | test-harness/fixtures/lifecycle-system.ts:313-354 | so is every claim attempt, the takeover of a dead start's claim included |
| LeaseAdapterRuns.IntentReleaseIsARun | test-harness/fixtures/lifecycle-system.ts:133-139 | so is every release of an intent |
| LeaseAdapterRuns.TransferIsARun | test-harness/fixtures/lifecycle-system.ts:216-244 | so is every transfer: the one transfer event when the lease matches, and no event otherwise |
| LeaseAdapterRuns.DiscoveryIsARun | test-harness/fixtures/lifecycle-system.ts:247-271 | so is every finalization: the one finalization event when the lease matches and may advance, and no event otherwise |
| LeaseAdapterRuns.ReleaseIsARun | test-harness/fixtures/lifecycle-system.ts:274-286 | so is every release, as far as it gets |
| LeaseAdapterRuns.QuarantineIsARun | test-harness/fixtures/lifecycle-system.ts:289-306 | so is every quarantine, as far as it gets |
| LeaseAdapterRuns.AcquisitionKeepsExclusion | test-harness/fixtures/lifecycle-system.ts:108-130 | whatever happened before, the directories an acquisition leaves hold one claimed lease per block and per worktree |
| LeaseAdapterRuns.CallsKeepExclusion | test-harness/fixtures/lifecycle-system.ts:133-369 | the same for every call that is such a run |
| Takeover.AtMostOneTransfer | test-harness/fixtures/lifecycle-system.ts:216-244 | of any number of racing recoverers with one expected lease at most one wins, whatever crashes |
| Takeover.LeaseIsAlwaysWhole | test-harness/fixtures/lifecycle-system.ts:230-238 | `lease.json` is never seen partly written |
| Takeover.EveryChangeIsAtomic | test-harness/fixtures/lifecycle-system.ts:226-239 | seen from the file, every step of a run is nothing or one update: a replacement puts the new owner into the very record it compared, and each other writer does its own compare-and-replace |
| Takeover.LoneRecovererWins | test-harness/fixtures/lifecycle-system.ts:216-244 | a recoverer that meets a dead owner and nobody else wins: the file names it, and the claim is gone |
| Takeover.LinkingMeets | test-harness/fixtures/lifecycle-system.ts:398-420 | a link takes a free claim, is refused by a live claimant without any change, and clears a dead claimant's for one more try and no third |
| Takeover.FailedTakeoverGivesUp | test-harness/fixtures/lifecycle-system.ts:240-244 | a takeover that fails before its replacement leaves the lease alone and gives the claim back |
| Takeover.LeaseOnlyAdvances | test-harness/fixtures/lifecycle-system.ts:516-550 | along any run authority other than the owner is fixed, each list is set at most once, hosts only grow, each role at most once |
| Takeover.StepAdvances | test-harness/scripts/managed-client-bootstrap.ts:27-50 | the same for every single step, the registration of a host process included |
| Takeover.StepKeepsClaims | test-harness/fixtures/lifecycle-system.ts:393-423 | a live attempt between link and unlink is always the one the claim names |
| Takeover.StepKeepsComparisons | test-harness/fixtures/lifecycle-system.ts:226-239 | what was compared stays true until it is replaced |
| Takeover.ClaimStep | test-harness/fixtures/lifecycle-system.ts:393-423 | an attempt holds the claim only by linking it, and nobody else's step takes it from a live one |
| Takeover.ComparisonStays | test-harness/fixtures/lifecycle-system.ts:226-239 | between comparison and replacement nothing replaces the file or sweeps what was written |
| Takeover.StepKeepsOwners | test-harness/fixtures/lifecycle-system.ts:232-237 | a displaced owner is dead and never recorded again |
| Takeover.StepKeepsWinners | test-harness/fixtures/lifecycle-system.ts:232-237 | no two attempts displace the same owner |
| Takeover.InterleavedDiscoveryIsLost | test-harness/fixtures/lifecycle-system.ts:261-271 | a discovery between a takeover's comparison and replacement would be undone |
| LeaseRecords.AuthorityGap | test-harness/fixtures/lifecycle-controller-support.ts:254-265 | the store's authority check is the controller's plus intent and attacker URL, both directions |
| LeaseRecords.IntentEscapesTheControllerCheck | test-harness/fixtures/lifecycle-controller-support.ts:268-278 | some record passes the controller's advance check and not the store's |
| LeaseRecords.SameRecordGap | test-harness/fixtures/lifecycle-controller-support.ts:225-251 | the controller takes two records for the same exactly when they differ only in the attacker URL and the order of host processes |
| LeaseRecords.AdvanceMeans | test-harness/fixtures/lifecycle-system.ts:516-550 | a lease may advance exactly by filling empty lists and appending host processes |
| LeaseRecords.AdvanceGap | test-harness/fixtures/lifecycle-controller-support.ts:268-278 | a discovery the controller sends on is one the store accepts, exactly when intent, attacker URL and the order of recorded hosts agree |
| LeaseRecords.EndpointsNameTheirPorts | test-harness/fixtures/lifecycle-validation.ts:64-85 | the six listeners are consecutive ports in a fixed order, and every URL is its origin followed by its port in decimal |
| LeaseRecords.DecimalParses | test-harness/fixtures/lifecycle-validation.ts:78-85 | the decimal text of a port reads back as the port |
| LeaseRecords.DashesDropInPlace | test-harness/fixtures/lifecycle-validation.ts:96 | removing the dashes of a run identifier changes nothing else |
| LeaseRecords.FinalizationsAreNotLost | test-harness/fixtures/lifecycle-system.ts:247-271 | of two finalizations prepared against one record the second is refused, and what the first discovered is only advanced from |
| LeaseRecords.AdvanceIsTransitive | test-harness/fixtures/lifecycle-system.ts:536-550 | advancing, up to the owner, is transitive |
| LeaseRecords.CreateEndpointManifest | test-harness/fixtures/lifecycle-validation.ts:64-77 | a manifest exists exactly while the block starts at or below 65530, and carries the block's ports |
| LeaseRecords.RetriesChangeOnlyEndpoints | test-harness/fixtures/lifecycle-validation.ts:93-102 | the manifests of two attempts differ in ports and URLs only |
| LeaseRecords.BlockPorts | test-harness/fixtures/lifecycle-validation.ts:68-76 | a block is the six consecutive ports from its base |
| LeaseRecords.BlocksShareAPortIffClose | test-harness/fixtures/lifecycle-validation.ts:68-76 | two blocks share a port exactly when their bases are fewer than six apart |
| LeaseRecords.BlocksAreDisjointAndInRange | test-harness/fixtures/lifecycle-validation.ts:38-76 | blocks of different attempts are disjoint and inside 1024..65535 |
| LeaseRecords.TensAreTenApart | test-harness/scripts/lifecycle.ts:123 | distinct multiples of ten are far enough apart |
| ResetProtocol.VerificationMismatch | test-harness/fixtures/lifecycle-controller-support.ts:108-138 | no mismatch exactly when the observed identity equals the expected one; otherwise migration exactly for a wrong revision or migration digest, and fixture verification for the rest |
| ResetProtocol.StopIsUnique | test-harness/fixtures/lifecycle-controller.ts:460-525 | a reset stops in exactly one place for one adversary |
| ResetProtocol.StepByStep | test-harness/fixtures/lifecycle-controller.ts:461-524 | the stack after k steps, field by field, is what the steps do in order |
| ResetProtocol.SafeIds | test-harness/fixtures/lifecycle-controller-support.ts:329-336 | the identifiers shown: run, project, then every container and every volume |
| ResetProtocol.Stack.RunStep | test-harness/fixtures/lifecycle-controller.ts:592-597 | one step succeeds, fails before, or fails after its effect, and the position says which step it was |
| ResetProtocol.Stack.HaltPorta | test-harness/fixtures/lifecycle-controller.ts:461-463 | quiesce and stop, in order |
| ResetProtocol.Stack.Fence | test-harness/fixtures/lifecycle-controller.ts:458-469 | the first four steps in order |
| ResetProtocol.Stack.RebuildDatabase | test-harness/fixtures/lifecycle-controller.ts:470-485 | recreate, migrate, bootstrap and seed, in order |
| ResetProtocol.Stack.RecreateDatabase | test-harness/fixtures/lifecycle-controller.ts:470-479 | recreate and migrate in order; the identifiers are reported exactly once the recreation went well |
| ResetProtocol.Stack.FillDatabase | test-harness/fixtures/lifecycle-controller.ts:480-485 | bootstrap and seed, in order |
| ResetProtocol.Stack.EmptyStores | test-harness/fixtures/lifecycle-controller.ts:486-493 | Redis and mail are emptied and counted |
| ResetProtocol.Stack.RestartProcesses | test-harness/fixtures/lifecycle-controller.ts:494-499 | clients and Porta restart, in order |
| ResetProtocol.Stack.Observe | test-harness/fixtures/lifecycle-controller.ts:500-510 | the identity is read and compared; a mismatch stops the reset there |
| ResetProtocol.Stack.VerifyPublic | test-harness/fixtures/lifecycle-controller.ts:511-516 | public verification and the check that traffic is still blocked |
| ResetProtocol.Stack.Reopen | test-harness/fixtures/lifecycle-controller.ts:517-524 | poison is cleared and flushed before traffic resumes |
| ResetProtocol.Stack.Forward | test-harness/fixtures/lifecycle-controller.ts:458-525 | the whole forward sequence stops where the specification says, and has reported what the steps that went well brought back |
| ResetProtocol.Stack.RestorePoisonAfterFailure | test-harness/fixtures/lifecycle-controller.ts:606-620 | after the first mutation the repair blocks traffic and commits poison again, in that order, and says when it could not |
| ResetProtocol.Stack.ExecuteReset | test-harness/fixtures/lifecycle-controller.ts:453-553 | exit, calls made, instants, final stack and the whole report of every reset, wherever it stops |
| ResetSafety.ResetIsFencedThroughout | test-harness/fixtures/lifecycle-controller.ts:453-553 | at every instant, crash included, a mutated and unverified database is poisoned on disk and blocked |
| ResetSafety.ForwardIsFenced | test-harness/fixtures/lifecycle-controller.ts:461-524 | the same for each forward step, also when it fails after its effect |
| ResetSafety.RepairIsFenced | test-harness/fixtures/lifecycle-controller.ts:526-546 | the same for each instant of the repair |
| ResetSafety.SuccessIsTruthful | test-harness/fixtures/lifecycle-controller.ts:500-525 | exit 0 exactly when every step there is succeeded and the identity matched; then ready is committed and traffic is open |
| ResetSafety.CallsFollowTheOrder | test-harness/fixtures/lifecycle-controller.ts:458-525 | a reset calls a prefix of the eighteen steps in their literal order, all but the last went well, and it stops only at a failure, a wrong identity, or the end |
| ResetSafety.ExitFollowsTheLastCall | test-harness/fixtures/lifecycle-controller-support.ts:141-161 | the exit of every reset from the fate of its last call and of its repair |
| ResetSafety.PrerequisitesOfSteps | test-harness/fixtures/lifecycle-controller-support.ts:182-189 | the prerequisite each failing step is reported as, both directions |
| ResetSafety.ReportFollowsTheCalls | test-harness/fixtures/lifecycle-controller.ts:470-506 | the report holds exactly what the steps that went well brought back |
| ResetSafety.StepsFindTheStack | test-harness/fixtures/lifecycle-controller.ts:461-524 | the database is touched only while poisoned, blocked and Porta down; public verification and what follows see Porta up, traffic blocked and the database verified |
| ResetSafety.FailureAfterMutationIsFenced | test-harness/fixtures/lifecycle-controller-support.ts:57-72 | any other exit but 60 after the first mutation leaves poison committed and traffic blocked |
| ResetSafety.FencedExactlyWhen | test-harness/fixtures/lifecycle-controller.ts:526-553 | the exact condition under which a failed reset, 60 included, ends fenced |
| ResetSafety.SixtyMayLeaveReady | test-harness/fixtures/lifecycle-controller.ts:539-546 | an adversary for which exit 60 leaves ready committed |
| ResetSafety.FailureBeforeMutationIsHarmless | test-harness/fixtures/lifecycle-controller.ts:527-538 | an early failure leaves the database alone and reopens traffic when the repair goes through |
| ResetSafety.EarlyStopNeverCommitsReady | test-harness/fixtures/lifecycle-controller.ts:517-522 | nothing before the last flush commits ready |
| ResetSafety.ReadyNeedsVerification | test-harness/fixtures/lifecycle-controller.ts:500-522 | ready is committed only after a verified identity and sixteen good steps |
| RunLife.LifeIsFenced | test-harness/fixtures/lifecycle-controller.ts:125-267 | the fence holds over every sequence of resets, restarts, preparations, stops, recoveries and crashes |
| RunLife.OnlyProvenRecoveryMakesReady | test-harness/fixtures/lifecycle-controller.ts:562-589 | once not ready, only a recovery that proved owner and stack gone, won the transfer, found the stack absent again and completed a reset makes a run ready |
| RunLife.OpIsFenced | test-harness/fixtures/lifecycle-controller.ts:125-206 | the fence for one operation |
| RunLife.OpKeepsNotReady | test-harness/fixtures/lifecycle-controller.ts:185-190 | no other operation commits ready on a run that is not |
| RunLife.RunController.ResetOwned | test-harness/fixtures/lifecycle-controller.ts:174-192 | refuses everything but a run committed ready, without touching it |
| RunLife.RunController.PrepareOwned | test-harness/fixtures/lifecycle-controller.ts:200-206 | succeeds exactly when both transient stores are cleared, and names the one that was not |
| RunLife.RunController.TryRestart | test-harness/fixtures/lifecycle-controller.ts:146-158 | the first failure, the calls made, and how far the two flags had come |
| RunLife.RunController.ReplacePorta | test-harness/fixtures/lifecycle-controller.ts:147-152 | block, stop and start in order, with the calls made and the flags |
| RunLife.RunController.VerifyAndResume | test-harness/fixtures/lifecycle-controller.ts:153-156 | traffic is resumed only after both verifications, and the flag says when it was |
| RunLife.FirstFailureIsFirst | test-harness/fixtures/lifecycle-controller.ts:146-157 | the failure is that of the first step that fails, the deadline only when none does |
| RunLife.RestartCalls | test-harness/fixtures/lifecycle-controller.ts:147-155 | the calls of a restart are a prefix of the six in their literal order |
| RunLife.RepairSteps | test-harness/fixtures/lifecycle-controller.ts:160-165 | the repair starts Porta exactly when it was stopped and reopens traffic only after a verification that passed |
| RunLife.RunController.RestartOwnedPorta | test-harness/fixtures/lifecycle-controller.ts:135-171 | on a ready and serving run, any answer but 60 leaves it serving exactly unless quiesce failed after taking effect; durable state and database are never touched |
| RunLife.RestartExit | test-harness/fixtures/lifecycle-controller.ts:158-169 | the answer of that restart: 0 exactly when nothing failed, 60 exactly when the failure has no kind or the repair cannot reopen traffic |
| RunLife.QuietQuiesceIsMissed | test-harness/fixtures/lifecycle-controller.ts:147-166 | every quiesce that fails after taking effect on a serving run is answered by its kind although the run no longer serves |
| RunLife.RunController.RepairRestart | test-harness/fixtures/lifecycle-controller.ts:160-168 | the repair goes through exactly when what the flags ask for does, and then Porta and traffic are where they should be |
| RunLife.RunController.StopOwned | test-harness/fixtures/lifecycle-controller.ts:214-223 | a stop answers its cleanup, drops the capability only after a clean one, and is an operation that leaves the stack alone |
| RunLife.PerformedKeepsFence | test-harness/fixtures/lifecycle-controller.ts:125-267 | any operation the controller's methods perform on a fenced stack keeps the fence at its end and at every instant it adds |
| RunLife.RunController.Recover | test-harness/fixtures/lifecycle-controller.ts:226-267 | owned exactly after a won takeover of a proven dead, poisoned run; the exit of the reset or of a clean stop; quarantine exactly for an unusable lease; and what each answer names |
| RunLife.RecoveryMeans | test-harness/fixtures/lifecycle-controller.ts:226-267 | exactly when a recovery hands out a capability and exactly when it answers 0, in terms of probes, durable state and adapters |
| RunLife.RecoveryLeaves | test-harness/fixtures/lifecycle-controller.ts:562-589 | 0 after a takeover leaves a verified, ready and serving run; without a created stack the run stays as found |
| RunLife.NamedMeans | test-harness/fixtures/lifecycle-controller.ts:233-266 | when an answer names the record's resources, and when the quarantined lease |
| RunLife.RunController.AnswerRecovery | test-harness/fixtures/lifecycle-controller.ts:227-266 | the same after the durable state was read again, with the exact condition of a rejection |
| RunLife.RunController.RecoverRecord | test-harness/fixtures/lifecycle-controller.ts:245-266 | a usable record is rebuilt only when owner and stack are proved gone and it is poisoned |
| RunLife.RunController.QuarantineUnusable | test-harness/fixtures/lifecycle-controller.ts:233-242 | an unusable lease is moved aside and named, unless that fails |
| RunLife.RunController.StopRecovered | test-harness/fixtures/lifecycle-controller.ts:253-266 | a run that is not poisoned is stopped and released only when readable |
| RunLife.RunController.RecreatePoisonedRun | test-harness/fixtures/lifecycle-controller.ts:562-589 | rebuilds only after a won transfer that finds the stack still absent |
| RunLife.RunController.StartAndReset | test-harness/fixtures/lifecycle-controller.ts:576-588 | a recreated stack is reset completely before it counts |
| StartAndCleanup.CleanupIsFenced | test-harness/fixtures/lifecycle-controller.ts:420-446 | whatever store and Docker answer, destructive calls get a record with the persisted authority, recorded lists unchanged, and Docker's lists when the stack is present |
| StartAndCleanup.CleanupActsExactlyWhen | test-harness/fixtures/lifecycle-controller.ts:420-443 | exactly when a cleanup acts, and on which record |
| StartAndCleanup.QuietCleanupSucceeds | test-harness/fixtures/lifecycle-controller.ts:420-450 | left alone, with a stack absent or as recorded, a cleanup whose calls go through succeeds |
| StartAndCleanup.StaleRecordExactlyWhen | test-harness/fixtures/lifecycle-controller.ts:282-298 | exactly when a stale lease may be adopted, and which record then is |
| StartAndCleanup.StartController.CleanupOwnedRecord | test-harness/fixtures/lifecycle-controller.ts:420-450 | stop and release are called with the fenced record or not at all; success exactly when both went through on the lease in place; and the lease and claim every ending leaves |
| StartAndCleanup.StartController.StopOwned | test-harness/fixtures/lifecycle-controller.ts:214-223 | the capability is dropped exactly when cleanup succeeded |
| StartAndCleanup.StartController.DiscoverStale | test-harness/fixtures/lifecycle-controller.ts:282-298 | a stale lease is adopted exactly as StaleRecordExactlyWhen says, and only advanced |
| StartAndCleanup.StartController.CleanupStale | test-harness/fixtures/lifecycle-controller.ts:270-309 | the record is adopted exactly when the owner is proven dead and the compare-and-replace of the owner won; 0 exactly when the adopted record was cleaned up, which leaves neither lease nor claim |
| StartAndCleanup.StartController.AbortAcquiredStart | test-harness/fixtures/lifecycle-controller.ts:399-412 | 30 exactly when the cleanup succeeds; rejects exactly when the lease cannot be read, and then both lease and claim stay |
| StartAndCleanup.StartController.ApplyConsumers | test-harness/fixtures/lifecycle-controller.ts:347-357 | all eight consumers in order exactly when every one succeeds, else up to the first that fails |
| StartAndCleanup.StartController.RunPrerequisites | test-harness/fixtures/lifecycle-controller.ts:375-382 | the four prerequisites in order, each followed by the deadline check; succeeds exactly when all pass, names the first that failed, and leaves exactly the hosts that registered |
| StartAndCleanup.StartController.RegisterHosts | test-harness/scripts/managed-client-bootstrap.ts:27-50 | client processes append themselves, unless their role is registered or there is no lease |
| StartAndCleanup.HostsOnlyGrow | test-harness/scripts/managed-client-bootstrap.ts:34-36 | so hosts are only appended, no role registers twice, and each role that arrives is registered |
| StartAndCleanup.StartController.StartAcquiredRecord | test-harness/fixtures/lifecycle-controller.ts:342-396 | owned exactly when every consumer, check, adapter call and read goes well and Docker reports an advance of the leased record; otherwise 30 exactly when the abort cleans up, the first failing prerequisite is named, and a rejection keeps lease and claim |
| StartAndCleanup.StartController.StartStack | test-harness/fixtures/lifecycle-controller.ts:342-372 | from the consumers to the finalized lease: succeeds exactly when the stack runs and its resources are recorded, and what a failure leaves |
| StartAndCleanup.StartController.CheckAndCommit | test-harness/fixtures/lifecycle-controller.ts:375-391 | from the prerequisites to the committed ready state, likewise |
| StartAndCleanup.ComesUpMeans | test-harness/fixtures/lifecycle-controller.ts:347-391 | the condition of an owned start is that of its two halves |
| StartAndCleanup.FailedPrerequisiteMeans | test-harness/fixtures/lifecycle-controller.ts:356-382 | which prerequisite a failed start names, one by one |
| StartAndCleanup.StartCallsInOrder | test-harness/fixtures/lifecycle-controller.ts:347-391 | the literal order of a start's calls, of which every start makes a prefix |
| StartAndCleanup.EveryHostRegisters | test-harness/scripts/managed-client-bootstrap.ts:27-50 | every client process that presents itself during the prerequisites ends up registered |
| StartAndCleanup.StartController.OfferBlock | test-harness/fixtures/lifecycle-controller.ts:96-111 | one offer: what it comes to, and the claim and lease it leaves |
| StartAndCleanup.StartController.SelectBlock | test-harness/fixtures/lifecycle-controller.ts:96-112 | retries only on an occupied endpoint or block, with the claim and lease each ending leaves |
| StartAndCleanup.AcquiredIsTheFirstFree | test-harness/fixtures/lifecycle-controller.ts:96-112 | a block is acquired at exactly the first attempt that is not retried, when it is in range, free and granted; the search runs out exactly when all are retried |
| StartAndCleanup.OfferedRecordIsNew | test-harness/fixtures/lifecycle-controller.ts:312-339 | the record offered is this start's own, on that block, with nothing discovered |
| StartAndCleanup.StartController.AnswerSearch | test-harness/fixtures/lifecycle-controller.ts:98-121 | what each ending without a block answers and leaves |
| StartAndCleanup.StartController.StartWithinDeadline | test-harness/fixtures/lifecycle-controller.ts:84-122 | owned exactly when a block is acquired and the stack comes up on it; the answer, named prerequisite and exit of every other ending; and exactly when an answer other than 60 leaves something |
| StartAndCleanup.WellBehavedLeavesNoClaim | test-harness/fixtures/lifecycle-controller.ts:96-112 | within the port range and with adapters that answer, no search leaves a claim |
| StartAndCleanup.WellBehavedSearchIsClean | test-harness/fixtures/lifecycle-controller.ts:96-121 | so such a start meets the condition of StartWithinDeadline |
| StartAndCleanup.LastBlockRetryLeavesClaim | test-harness/fixtures/lifecycle-controller.ts:98-102 | a retry past the port range does leave one |
| OperationQueue.OperationsNeverOverlap | test-harness/fixtures/lifecycle-controller.ts:651-663 | operations on one capability never overlap and begin in submission order, rejections included |
| OperationQueue.NothingIsTouchedAfterStop | test-harness/fixtures/lifecycle-controller.ts:214-223 | after a successful stop no operation on the capability reaches an adapter |
| OperationQueue.RegisteredExactlyWhen | test-harness/fixtures/lifecycle-controller.ts:214-223 | a capability is registered exactly from its issue to the first stop on it that cleaned up |
| OperationQueue.AdmittedExactlyWhen | test-harness/fixtures/lifecycle-controller.ts:174-191 | an operation that begins runs with its record exactly when its capability is registered so, and is refused otherwise |
| OperationQueue.WaitingCanBegin | test-harness/fixtures/lifecycle-controller.ts:651-658 | no operation waits forever: it can begin once those before it have settled, however they settle |
| OperationQueue.BeginWaits | test-harness/fixtures/lifecycle-controller.ts:652-653 | an operation begins only when all earlier ones on its capability have settled |
| OperationQueue.SettledTailIsAll | test-harness/fixtures/lifecycle-controller.ts:659-661 | dropping a settled tail loses no unsettled operation |
| OperationQueue.Controller.constructor | test-harness/fixtures/lifecycle-controller.ts:63-70 | a new controller has issued nothing |
| OperationQueue.Controller.CreateOwnedRun | test-harness/fixtures/lifecycle-controller.ts:644-648 | a capability is issued once, registered |
| OperationQueue.Controller.Serialize | test-harness/fixtures/lifecycle-controller.ts:651-658 | the operation waits for the capability's tail and becomes the tail |
| OperationQueue.Controller.Start | test-harness/fixtures/lifecycle-controller.ts:175-178 | an operation looks up its record first and is refused without one |
| OperationQueue.Controller.Finish | test-harness/fixtures/lifecycle-controller.ts:218-222 | only a stop that cleaned up deletes the record |
| OperationQueue.Controller.DropTail | test-harness/fixtures/lifecycle-controller.ts:659-661 | the entry goes exactly when the settled operation still is the tail |
| Supervisor.OneAtATimeInOrder | test-harness/scripts/lifecycle.ts:284-309 | accepted actions run one at a time in arrival order, the stop after all of them |
| Supervisor.StopsOnceAfterDraining | test-harness/scripts/lifecycle.ts:273-283 | the controller is stopped at most once, after every accepted action settled |
| Supervisor.NothingAcceptedOnceStopping | test-harness/scripts/lifecycle.ts:270-272 | once stopping, no further action is accepted |
| Supervisor.ActionsAreAccepted | test-harness/scripts/lifecycle.ts:284-309 | until stopping every action is accepted and goes to the end of the chain |
| Supervisor.StopRequestsWaitForTheStop | test-harness/scripts/lifecycle.ts:273-283 | a stop request is answered by the one stop, which is behind everything accepted, whoever chained it |
| Supervisor.SignalsChainTheStop | test-harness/scripts/lifecycle.ts:348-356 | a signal chains that same stop, once |
| Supervisor.QueuedCanBegin | test-harness/scripts/lifecycle.ts:273-309 | every chained link, the stop included, can begin once those before it have settled |
| Supervisor.ActionsStillStartExactlyWhenQueued | test-harness/scripts/lifecycle.ts:273-283 | once stopping, some continuation starts an action if and only if an action accepted before is still queued |
| Supervisor.SupervisorProcess.ScheduleControl | test-harness/scripts/lifecycle.ts:260-310 | what each request does to the chain, and which link its answer waits for |
| Supervisor.SupervisorProcess.StopFromSignal | test-harness/scripts/lifecycle.ts:348-356 | a signal chains the stop once and aborts the active project |
| Supervisor.SupervisorProcess.EnsureStop | test-harness/scripts/lifecycle.ts:276 | the stop is chained behind the queue, once |
| Supervisor.SupervisorProcess.AbortActiveProject | test-harness/scripts/lifecycle.ts:275 | the running project command, if any, is aborted |
| Supervisor.SupervisorProcess.BeginLink | test-harness/scripts/lifecycle.ts:284-292 | a project command whose turn comes is the active one |
| Supervisor.SupervisorProcess.SettleLink | test-harness/scripts/lifecycle.ts:300-304 | and no longer when it settles |
| CredentialLock.MutualExclusion | packages/cli/src/credential-lock.ts:91-161 | over all interleavings and crashes at most one task is in its operation per path, its process has the kernel lock, and no other task of it has the file open |
| CredentialLock.ReservationsNeverLeak | packages/cli/src/credential-lock.ts:109-113 | every reservation is some live call's |
| CredentialLock.HoldersStayReserved | packages/cli/src/credential-lock.ts:105-113 | every call past the reservation loop is the only one of its process on its path |
| CredentialLock.KernelLockStays | packages/cli/src/credential-lock.ts:102-104 | no step of others takes the kernel lock from an operating call |
| CredentialLock.RunKeepsInv | packages/cli/src/credential-lock.ts:91-161 | the invariant over whole runs |
| CredentialLock.KernelLockAloneDoesNotExclude | packages/cli/src/credential-lock.ts:102-104 | without the reservation two processes can be operating at once |
| CredentialLock.MaxWaits | packages/cli/src/credential-lock.ts:35 | the least number of ten-millisecond waits that covers a timeout |
| CredentialLock.LockedProcess.WaitForRetry | packages/cli/src/credential-lock.ts:72-88 | a wait lasts ten milliseconds or is cancelled |
| CredentialLock.LockedProcess.ReservePath | packages/cli/src/credential-lock.ts:105-121 | reserves, without wait when the path is free, or is cancelled or times out exactly where the loop had come to, a timeout only while the path is reserved; within the bound |
| CredentialLock.LockedProcess.TakeKernelLock | packages/cli/src/credential-lock.ts:125-143 | locks, without wait when the lock is free, or fails likewise, a timeout only while another process has the lock; within the same bound |
| CredentialLock.LockedProcess.Operate | packages/cli/src/credential-lock.ts:147-152 | the operation runs under the lock, which is released afterwards |
| CredentialLock.LockedProcess.CloseFile | packages/cli/src/credential-lock.ts:154-157 | the descriptor is closed before the reservation goes |
| CredentialLock.LockedProcess.LockAndOperate | packages/cli/src/credential-lock.ts:125-152 | the operation runs exactly when the lock was taken |
| CredentialLock.LockedProcess.UseFile | packages/cli/src/credential-lock.ts:123-156 | the steps between reservation and removal, with the cause of each failure |
| CredentialLock.LockedProcess.WithCredentialLock | packages/cli/src/credential-lock.ts:91-161 | a call's own steps are the script of its outcome on every exit path, reservation removed exactly when placed; every outcome has its cause where the loops had come to, success included: a call aborted beforehand does nothing; and both loops wait at most ceil(timeout / 10) times |
| CredentialFile.FileIsAlwaysWhole | packages/cli/src/credential-store.ts:268-286 | at every instant the file is the old snapshot or the whole text of the last writer that renamed |
| CredentialFile.OnlyCrashesLeaveSiblings | packages/cli/src/credential-store.ts:282-285 | without crashes every temporary is a live writer's |
| CredentialFile.LoneWriterReplaces | packages/cli/src/credential-store.ts:268-286 | a writer left alone replaces the file by its text and leaves no temporary |
| CredentialFile.FailingWriterCleansUp | packages/cli/src/credential-store.ts:282-285 | a writer that fails anywhere removes its temporary and leaves the file |
| CredentialFile.StepKeepsNames | packages/cli/src/credential-store.ts:270-271 | no two writers share a temporary |
| CredentialFile.StepKeepsSibling | packages/cli/src/credential-store.ts:273-281 | a temporary is whole before it can be renamed |
| AggregateValidator.ValidateEvidence | test-harness/assurance/aggregate/evidence.ts:361-497 | valid exactly when every derivable field is what was derived, and otherwise the part that failed first |
| AggregateValidator.CheckDerivations | test-harness/assurance/aggregate/evidence.ts:435-489 | items, roll-up, cleanup, terminal flags and storage are compared in that order |
| AggregateValidator.CheckChildren | test-harness/assurance/aggregate/evidence.ts:375-433 | the pass over all children, with the items collected |
| AggregateValidator.CheckChild | test-harness/assurance/aggregate/evidence.ts:378-431 | one child valid exactly when registered, bound to the baseline, unrepeated, and summarized truthfully |
| AggregateValidator.EvidenceIsDetermined | test-harness/assurance/aggregate/evidence.ts:250-358 | two accepted documents with equal invocation facts and tree flag are equal in every field |
| AggregateValidator.SameInvocationsSameChildren | test-harness/assurance/aggregate/evidence.ts:378-431 | invocation facts determine children and baseline |
| AggregateValidator.RollupIsASortedPartition | test-harness/assurance/aggregate/evidence.ts:323-336 | every list of an accepted roll-up holds each id exactly as often as an item with that id has the list's own conclusion; the lists are sorted and together hold every id |
| AggregateValidator.RollupFiles | test-harness/assurance/aggregate/runner.ts:229-242 | for any items, each id is filed under its own conclusion with its multiplicity |
| AggregateEvidence.FileItems | test-harness/assurance/aggregate/runner.ts:229-242 | the loop that files the ids one by one gives that roll-up |
| AggregateValidator.RollupCounts | test-harness/assurance/aggregate/runner.ts:229-242 | multiplicity is conserved for any items |
| AggregateValidator.RollupIsSorted | test-harness/assurance/aggregate/runner.ts:240 | and each list is sorted |
| SortedText.SortSorts | test-harness/assurance/aggregate/runner.ts:240 | the default sort of strings sorts |
| SortedText.SortedIsUnique | test-harness/assurance/aggregate/evidence.ts:334 | a sorted list is determined by its contents |
| AggregateRunner.RunInvocation | test-harness/assurance/aggregate/runner.ts:300-427 | one invocation, skipped or run, gives the invocation, the item the validator derives, and the runner's next state |
| AggregateRunner.RunChild | test-harness/assurance/aggregate/runner.ts:298-427 | the invocations of one child with the items the validator derives from them |
| AggregateRunner.Summarize | test-harness/assurance/aggregate/runner.ts:428-454 | the runner's child outcome is the validator's |
| AggregateRunner.Publish | test-harness/assurance/aggregate/runner.ts:457-512 | the assembled document is published exactly when it validates |
| AggregateRunner.RunAssuranceAggregate | test-harness/assurance/aggregate/runner.ts:280-528 | the incremental run publishes the derived document exactly when it is accepted, and then its roll-up files every id under its own conclusion |
| AggregateReading.ChildTerminalMeans | test-harness/assurance/aggregate/runner.ts:209-226 | the exit recorded for a child and whether it stops the aggregate, exit by exit |
| AggregateReading.RunsExactlyUntil | test-harness/assurance/aggregate/runner.ts:298-303 | an invocation runs exactly when the two hours were not over and every child before it let the aggregate go on |
| AggregateReading.RecordedFacts | test-harness/assurance/aggregate/runner.ts:304-396 | the facts recorded of an invocation that ran, and none of one that did not |
| AggregateReading.OutcomeMeans | test-harness/assurance/aggregate/evidence.ts:297-320 | a child's outcome in terms of its invocations, both directions |
| AggregateReading.InvocationItemMeans | test-harness/assurance/aggregate/evidence.ts:250-294 | an item's conclusion, observation and authority in terms of its invocation |
| AggregateReading.GapItemMeans | test-harness/assurance/aggregate/evidence.ts:437-449 | an item of a known gap did not run and has the gap's own conclusion |
| AggregateReading.RollupTellsWhatRan | test-harness/assurance/aggregate/evidence.ts:323-336 | each list of an accepted document names exactly the invocations that concluded so, and the gaps of that conclusion |
| AggregateReading.FlagsMean | test-harness/assurance/aggregate/evidence.ts:338-358 | each terminal flag of an accepted document |
| AggregateReading.CleanupMeans | test-harness/assurance/aggregate/evidence.ts:454-472 | the cleanup section of an accepted document |
| AggregateReading.ExitIsMostSevere | test-harness/assurance/aggregate/evidence.ts:474-482 | the exit of an accepted document is the most severe of all exits, drift, incomplete cleanup and gaps it accounts for |
| AggregateReading.ReasonNamesTheExit | test-harness/assurance/aggregate/evidence.ts:203-216 | the terminal reason names the exit, both directions |
| AggregateReading.ChildrenAcceptedIff | test-harness/assurance/aggregate/evidence.ts:375-433 | the children are accepted exactly when each invocation is bound to its registration and the baseline, ids are unique, one tool digest is named, and outcomes are derived |
| AggregateReading.PublishedTellsWhatRan | test-harness/assurance/aggregate/runner.ts:298-512 | a published run lists as assured, and as blocked, exactly the invocations it reached in time whose children exited 0, or 20, and the known gaps of that conclusion |
| AggregateAgreement.AcceptedExactlyWhen | test-harness/assurance/aggregate/runner.ts:298-509 | for every registry and every child behaviour, the exact condition under which the validator accepts the runner's evidence |
| AggregateAgreement.OrderlyRunsAreAccepted | test-harness/assurance/aggregate/runner.ts:298-509 | with a gap, UUID identities, no active run and a deadline only through an exit 70, every run is accepted |
| AggregateAgreement.LateRunsAreRejected | test-harness/assurance/aggregate/runner.ts:301-303 | a deadline that passes between children makes the evidence unacceptable |
| AggregateIdentities.DeadlineCanPassAnywhere | test-harness/assurance/aggregate/runner.ts:300-303 | in every registry, before every invocation: children succeed up to it, the deadline passes there, and the evidence is rejected |
| AggregateIdentities.IdentitiesFitIff | test-harness/assurance/aggregate/runner.ts:329-372 | the identities fit exactly when, at each report that runs, those printed last before it are version-4 UUIDs or change nothing |
| AggregateIdentities.ArgumentsArePrinted | test-harness/assurance/aggregate/runner.ts:329-337 | an invocation that ran carries the identities printed before it, one that did not carries none |
| AggregateIdentities.OneRow | test-harness/assurance/aggregate/runner.ts:298-300 | running child by child is running all invocations in one row |
| AggregateAgreement.CompletedAreAPrefix | test-harness/assurance/aggregate/runner.ts:298-427 | completed invocations are a prefix of registry order, and all but the last exited 0, 20 or an admitted 40 |
| AggregateAgreement.ChildrenFitIff | test-harness/assurance/aggregate/evidence.ts:224-247 | the children are acceptable exactly when substituted identities are version-4 UUIDs |
| AggregateAgreement.CleanupFitsIff | test-harness/assurance/aggregate/evidence.ts:454-472 | the cleanup section is exactly when an active run is left only after an exit 60 |
| AggregateAgreement.TerminalFitsIff | test-harness/assurance/aggregate/evidence.ts:474-482 | the flags agree exactly when each exit recorded without an invocation shows in one or in a gap |
| AggregateAgreement.DirtyIffExited60 | test-harness/assurance/aggregate/runner.ts:382-397 | incomplete cleanup and exit 60 are the same thing in a run |
| AggregateAgreement.UuidsFit | test-harness/assurance/aggregate/runner.ts:329-337 | identities printed as UUIDs make every substitution acceptable |
| AggregateAgreement.FlagFormIsSelection | test-harness/assurance/aggregate/runner.ts:245-260 | the aggregate's exit is the command selector's choice, drift counting as 60 and a gap as 50 |
| ExitPrecedence.SelectExit | test-harness/assurance/commands.ts:238-246 | the selector, an unregistered exit first |
| ExitPrecedence.SelectIsMostSevere | test-harness/assurance/commands.ts:225-246 | a selection is the most severe of its codes, both directions |
| ExitPrecedence.UnregisteredIsEarliest | test-harness/assurance/commands.ts:238-246 | an unregistered exit is reported exactly when there is one, and it is the earliest |
| ExitPrecedence.SelectionIsAJoin | test-harness/assurance/commands.ts:238-246 | selecting over a concatenation is selecting over the two selections, errors included |
| ExitPrecedence.SelectionIgnoresOrderAndRepetition | test-harness/assurance/commands.ts:238-246 | only the set of codes matters |
| ExitPrecedence.StageOf | test-harness/assurance/command-outcomes/reducer.ts:12-18 | the stage is that of the first event with the exit |
| ExitPrecedence.ReducerAgreesWithSelector | test-harness/assurance/command-outcomes/reducer.ts:5-22 | the event reducer answers exactly on its domain and then names the selector's exit |
| ControlCheck.ControlRun.ExecuteControlSensitivityCheck | test-harness/assurance/control-sensitivity/executor.ts:22-100 | detection exactly when detected and cleaned up; the primary result of every run that is cleaned up; cleanup once and last unless only the first finalization threw, and then the result of the second |
| ControlCheck.DetectionMeans | test-harness/assurance/control-sensitivity/executor.ts:43-91 | detection needs every stage but the check to pass, no signal, and the check to fail with exactly the expected signature |
| ControlCheck.StoppedMeans | test-harness/assurance/control-sensitivity/executor.ts:11-20 | the verdict, stage and signal of a stage that does not complete, exactly |
| ControlCheck.CheckedMeans | test-harness/assurance/control-sensitivity/executor.ts:69-91 | each verdict of the check, exactly |
| ControlCheck.StagesCalled | test-harness/assurance/control-sensitivity/executor.ts:43-68 | which stages are called |
| ControlCheck.ControlRun.RunPrimary | test-harness/assurance/control-sensitivity/executor.ts:37-99 | the stages called and the primary result, a throw reported as validation |
| ControlCheck.ControlRun.RunStages | test-harness/assurance/control-sensitivity/executor.ts:43-68 | stages run in order up to the first that does not complete |
| ControlCheck.ControlRun.RunCheck | test-harness/assurance/control-sensitivity/executor.ts:69-94 | the verdict of the check is that of CheckedMeans |
| ControlCheck.ControlRun.Finalize | test-harness/assurance/control-sensitivity/executor.ts:103-123 | cleanup precedence, and the two provenance calls |
| ControlCheck.FirstIncomplete | test-harness/assurance/control-sensitivity/executor.ts:43-68 | the first stage that does not complete |

## Left out

- JSON text, schema string patterns, secret scans, digests and file modes: abstract values; closed name sets are enumerations.
- Docker, curl, git, psql, child processes and the deadline wrapper: only their answers and failure modes are parameters.
- Success of a rebuild of a poisoned stack end to end: only its safety is proved.
- Symbolic links, worker threads and the Windows branch of the credential lock.
- LeaseRecords.CreateEndpointManifest: the contract leaves out the text of project name and certificate path, which is fixed strings around the run.
- AggregateValidator.ValidateEvidence: does not model the string patterns of the schema nor the scan for secrets, both predicates on text; of the answers about children it fixes the length mismatch only.
- `parseStoredCredentials`, `saveCredentials`, token expiry and output formatting: one-function claims.
- The run-id extraction regular expressions, the artifact digest and the summary file of the aggregate: parameters or dropped.
- The registration conditions of known incomplete collectors: one oracle per invocation, so the empty registration is a special case.
- The `EndpointManifestFileAdapter`, the service start and stop of the client bootstrap, and the socket transport of the supervisor.
- FileLeaseState.FileLeaseStateAdapter.Release: files a takeover left in the owner directory, which make its removal fail, are not in the directory model.
- CredentialFile.FileIsAlwaysWhole: temporary names are fresh; a collision of two random names is not modelled.
- StartAndCleanup.StartController.StartWithinDeadline: does not cover the deadline wrapper, which may discard an owned result.
- OperationQueue.Controller.Start: one operation on one record; the adapters it then calls are the events `Touch`.

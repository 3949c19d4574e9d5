# A verified model of the progress monitor and its installer

The repository is a resident progress monitor for Codex tasks and an installer that can roll back. This project models
its state machines and algorithms in Dafny and proves what they keep. `dafny verify dfyconfig.toml` checks all of it.

Code that works by changing things step by step is modelled by classes and loops whose methods are proved against a
specification; code made of expressions is modelled by functions. Operations of several threads are modelled by the
regions under their lock, as atomic steps, and the theorems range over every interleaving of those steps.

| module | models |
|---|---|
| `HeapQueue`, `DeadlineScheduling` | the keyed deadline scheduler: a binary heap with lazy deletion that refines a map from key to latest entry |
| `Reservations` | the keyed reservations: one holder per key |
| `ClientPool`, `ClientClose` | the shared client pool with its borrowed, installed and closing tokens, and the retryable close gates |
| `CacheSemver`, `VersionNames`, `GenerationSelection` | version keys, the texts that have one, their order, and the choices made by it |
| `TurnOwnership` | the turn-ownership handshake: every mutator of the persisted runtime record |
| `TurnInterrupts` | the turn-owner index and interrupt single-flight of the daemon registry |
| `InstallTransaction` | the install transaction and its recovery in a world where any step can fail |
| `Lifecycle` | admissions against shutdown, and the bounded close report |
| `BoundedLines`, `JsonLimits` | the bounded line splitter and the explicit-stack structure check of the STDIO server |
| `TomlSplice` | block spans and the reverse-order splicing of the TOML editor |
| `PackageFraming`, `PackageManifest` | the byte stream that a package digest is taken over, the order of its paths and the directories they imply |
| `RotatingLog` | the rotating diagnostic log |
| `Calibration` | percentile thresholds from progress gaps |
| `StallDetector`, `SilenceDetector` | the two silence detectors |
| `Options`, `Ordering`, `Sorting`, `Utf8` | shared vocabulary: optional values, three-way comparison, sorting, the UTF-8 encoding and its length |

What the proofs found about the code:

- Two regions of the client pool can break its invariant, and no others (`ClientPool.StepKeepsInv`). Promoting a token
  that is already closing is not rejected (`ClientPool.CommitKeepsInvExactly`, `ClientPool.ClosingReachable`). And the
  handler of a failed factory call runs after the reservation has been left: it drops and closes whatever is pooled by
  then, which can be the client that another borrower has just been given (`ClientPool.HandlerKeepsInvExactly`,
  `ClientClose.LateHandlerReachable`). The theorems about pool and gates hold for the interleavings without these two.
- A version without build metadata ranks above the same version with build metadata exactly when the first build
  identifier is numeric (`CacheSemver.MissingBuildOutranksNumeric`).
- The order that falls back to raw text is not transitive: two versions and some safe name form a cycle exactly when raw
  text puts the two versions the other way round (`VersionNames.HigherCyclesExactly`); `1.10.0`, `1.9.0` and `1.10.0!`
  are each higher than the next, around (`VersionNames.NumbersCycle`).
- The structure check raises a type error, instead of accepting or rejecting, exactly when a `tools/call` message names
  its tool with a list or an object (`JsonLimits.ValidateStructure`), also when it is within every limit
  (`JsonLimits.SmallMessageRaises`).
- The older silence detector can ask for a second restart in one interval: exactly when a ripe poll comes after a step
  that dropped the phase (`SilenceDetector.RestartsAgainExactly`), and never unless something between the two restarts
  loosened the interval (`SilenceDetector.SecondRestartLoosened`). Nondecreasing times, fixed thresholds and no withdrawn
  terminal wait rule that out (`SilenceDetector.AutoRestartOnce`); each of them missing can allow a second restart.
- A reinstall that finds its cache and its runtime in place can be interrupted after it has disabled the plugin and be
  left there: the probe confirms the earlier receipt, which names the same objects, so the config is neither restored nor
  committed (`InstallTransaction.World.EndFailed`, `InstallTransaction.ReinstallLeftDisabled`).
- Two of the transaction's own writes are not recorded as owned: the first disabling, when the look that ends it fails,
  and the prior config, when the configured generation is kept. A failure there makes recovery report a conflict and
  leave the prior config unrestored although no other program has touched it
  (`InstallTransaction.UnrecordedWriteConflicts`); every other failure of a run that nothing disturbs is recovered
  without conflict (`InstallTransaction.World.RunInstallTransaction`).
- Two branches never run: the stale re-check after a pop (`DeadlineScheduling.DeadlineScheduler.NextEntry`) and the
  second monitor search of the restart guard (`TurnOwnership.OwnershipFindsMonitor`).

## Model

| member | source | states |
|---|---|---|
| HeapQueue.SiftDown | scripts/daemon_scheduler.py:105-108 | one entry out of place at a leaf: moving it towards the root gives a heap with the same entries |
| HeapQueue.SiftUp | scripts/daemon_scheduler.py:208 | a replaced root: moving it to a leaf and back up gives a heap with the same entries |
| HeapQueue.HeapPush | scripts/daemon_scheduler.py:105-108 | the heap gains exactly the pushed entry |
| HeapQueue.HeapPop | scripts/daemon_scheduler.py:208 | the popped entry is one that nothing precedes by (deadline, sequence), and only it is removed |
| DeadlineScheduling.LiveEntryUnique | scripts/daemon_scheduler.py:215-220 | each live key has exactly one matching heap entry, and a key without a generation has none |
| DeadlineScheduling.PendingOrigin | scripts/daemon_scheduler.py:85-130 | over every run, a live entry comes from one scheduling call and has not been cancelled, replaced, closed away or handed out since |
| DeadlineScheduling.DispatchJustified | scripts/daemon_scheduler.py:196-213 | over every run, what is handed out is due, no live entry has an earlier deadline, or the same one and a smaller sequence number, and it was scheduled and has not been retired since |
| DeadlineScheduling.DispatchedOnce | scripts/daemon_scheduler.py:208-212 | over every run, no generation is handed out twice |
| DeadlineScheduling.StoppedForever | scripts/daemon_scheduler.py:96-101 | after close or a fatal failure nothing is accepted or handed out again |
| DeadlineScheduling.AcceptedUntilEnded | scripts/daemon_scheduler.py:85-101 | over every run a key is accepted exactly when it is not empty and neither a close nor a fatal failure came before |
| DeadlineScheduling.HealthFollows | scripts/daemon_scheduler.py:176-194 | over every run the health is fatal from the first fatal failure on, and otherwise degraded exactly when the latest callback failed |
| DeadlineScheduling.DeadlineScheduler.constructor | scripts/daemon_scheduler.py:62-76 | a new scheduler means the empty agenda |
| DeadlineScheduling.DeadlineScheduler.Schedule | scripts/daemon_scheduler.py:85-109 | the key's live entry is replaced by one with the next sequence number, or the call is rejected for the first of the three reasons and nothing changes |
| DeadlineScheduling.DeadlineScheduler.Cancel | scripts/daemon_scheduler.py:115-119 | the key has no live entry any more; the others stay |
| DeadlineScheduling.DeadlineScheduler.Close | scripts/daemon_scheduler.py:121-128 | closed, with nothing live |
| DeadlineScheduling.DeadlineScheduler.MarkFatal | scripts/daemon_scheduler.py:188-194 | fatal health, with nothing live |
| DeadlineScheduling.DeadlineScheduler.RecordCallbackFailure | scripts/daemon_scheduler.py:176-181 | the failure is counted; healthy becomes degraded, fatal stays |
| DeadlineScheduling.DeadlineScheduler.RecordCallbackSuccess | scripts/daemon_scheduler.py:183-186 | degraded becomes healthy, fatal stays |
| DeadlineScheduling.DeadlineScheduler.DiscardStale | scripts/daemon_scheduler.py:215-220 | the root is live or the heap is empty, and the meaning has not changed |
| DeadlineScheduling.DeadlineScheduler.NextEntry | scripts/daemon_scheduler.py:196-213 | the earliest live entry if it is due, otherwise the time until the earliest deadline, otherwise idle, and stopped exactly when closed |
| ClientPool.StepKeepsInv | scripts/daemon_client_pool.py:104-275 | the locked regions that keep the invariant are exactly all but the promotion of a closing token and a failure handler that finds a pooled client; the invariant: a client is pooled exactly when some token is active, the active tokens are those that name it, and two closing tokens never name one client |
| ClientPool.CommitKeepsInvExactly | scripts/daemon_client_pool.py:142-156 | promotion keeps that invariant exactly when the token is not closing |
| ClientPool.ClosingReachable | scripts/daemon_client_pool.py:142-156 | borrowing and releasing reaches a closing token whose promotion succeeds and breaks the invariant |
| ClientPool.HandlerKeepsInvExactly | scripts/daemon_client_pool.py:132-140 | the failure handler, which runs after the reservation has been left, keeps the invariant exactly when nothing is pooled |
| ClientPool.BorrowExactly | scripts/daemon_client_pool.py:109-119 | a borrower gets a token of the pooled client exactly when the fingerprints agree, fails exactly when they differ, and creates exactly when nothing is pooled |
| ClientPool.SharedClientFits | scripts/daemon_client_pool.py:104-131 | over every run a token taken from the pool is of a client that was made for the same fingerprint |
| ClientPool.CommitInstalls | scripts/daemon_client_pool.py:142-156 | promotion moves exactly the given borrowed token to the installed ones; closing tokens and clients stay |
| ClientPool.CommitRefuses | scripts/daemon_client_pool.py:145-151 | promotion is refused exactly for released and for installed tokens, and then changes nothing |
| ClientPool.CommittedReleasable | scripts/daemon_client_pool.py:142-182 | a promotion counts: one more installed, one fewer borrowed, and releasing one installed reference succeeds |
| ClientPool.ReleaseEndsToken | scripts/daemon_client_pool.py:158-170 | a released token is gone, or, as the last active one, kept as the obligation to close the client that leaves the pool; every other token stays |
| ClientPool.FinishDischarges | scripts/daemon_client_pool.py:263-275 | a standing obligation is begun, and its end takes away exactly it |
| ClientPool.ReleaseInstalledCounts | scripts/daemon_client_pool.py:172-211 | the installed count falls by exactly the given number or nothing changes, borrowed tokens stay, and every pending close is handed back |
| ClientPool.OldestFirst | scripts/daemon_client_pool.py:175-183 | installed references are released oldest first |
| Reservations.KeyedReservations.TryEnter | scripts/daemon_reservation.py:25-30 | one attempt of the wait loop enters exactly when the key is free |
| Reservations.KeyedReservations.Exit | scripts/daemon_reservation.py:32-36 | only the given key becomes free |
| Reservations.OneHolder | scripts/daemon_reservation.py:25-36 | over every run a key has at most one holder, and an attempt enters exactly when it has none |
| ClientPool.SharedClientPool.InspectPooled | scripts/daemon_client_pool.py:109-119 | a borrower takes a new borrowed token of the pooled client, fails on another fingerprint, or goes on to create |
| ClientPool.SharedClientPool.CreateClient | scripts/daemon_client_pool.py:120-131 | the made client is pooled under a first borrowed token; a failure changes nothing yet |
| ClientPool.SharedClientPool.HandleFailure | scripts/daemon_client_pool.py:132-140 | the handler drops whatever is pooled and goes on to close it |
| ClientPool.SharedClientPool.CommitToken | scripts/daemon_client_pool.py:142-156 | the token becomes installed, as `CommitInstalls` states, or the error says that it was released or committed already |
| ClientPool.SharedClientPool.ReleaseToken | scripts/daemon_client_pool.py:158-170 | one token goes; the last active one becomes the obligation to close the pooled client |
| ClientPool.SharedClientPool.RetireSelected | scripts/daemon_client_pool.py:183-205 | the selected tokens go; when no active one remains the last becomes the obligation |
| ClientPool.SharedClientPool.ReleaseInstalledTokens | scripts/daemon_client_pool.py:172-210 | the first installed tokens in table order are released, and the pending closes are listed |
| ClientPool.SharedClientPool.BeginClose | scripts/daemon_client_pool.py:263-270 | a gate runs exactly while its obligation stands, and the pooled entry never has to be dropped here |
| ClientPool.SharedClientPool.EndClose | scripts/daemon_client_pool.py:273-275 | exactly the discharged obligation goes |
| ClientPool.SharedClientPool.ReferenceCounts | scripts/daemon_client_pool.py:213-221 | the numbers of tokens in the three states |
| ClientClose.CloseGate.LookOnce | scripts/daemon_client_close.py:30-58 | an attempt starts only when none is alive and none succeeded; success is reported exactly when it is final; an error is raised once and then forgotten |
| ClientClose.CloseGate.CloseAttempt | scripts/daemon_client_close.py:74-76 | success is recorded exactly when the call returned |
| ClientClose.CloseGate.StoreError | scripts/daemon_client_close.py:60-72 | the stored error is that of the attempt |
| ClientClose.EventKeepsInv | scripts/daemon_client_pool.py:158-275 | every step of pool and gates, late failure handlers and promotions of closing tokens excepted, keeps: each client is pooled or owed by one token, and its close is done exactly when that token's gate says so |
| ClientClose.ClosesAreSafe | scripts/daemon_client_pool.py:158-275 | over every interleaving without those two steps, no client is closed twice, none while an active token names it, and one gate serves all closers of a client |
| ClientClose.SuccessfulClosesDiffer | scripts/daemon_client_close.py:30-76 | over every such interleaving, two successful closes are of different clients, whatever fails and is retried |
| ClientClose.AllClosedWhenNoTokens | scripts/daemon_client_pool.py:172-275 | over every such interleaving, when no tokens remain every client ever made has been closed exactly once |
| ClientClose.LateHandlerExactly | scripts/daemon_client_pool.py:132-140 | a failure handler keeps the books exactly when nothing is pooled, and otherwise closes a client that an active token names |
| ClientClose.LateHandlerReachable | scripts/daemon_client_pool.py:104-140 | an ordinary run reaches a state where it closes a borrowed client |
| CacheSemver.DecimalOrder | scripts/cache_semver.py:86-89 | on decimals without leading zeros, of any length, (length, text) order is numeric order |
| CacheSemver.FitsU64Exactly | scripts/cache_semver.py:62-68 | the text bound accepts exactly the numbers up to 2^64 - 1 |
| CacheSemver.ValidExactly | scripts/cache_semver.py:57-75 | a version is valid exactly by the grammar, the 64-bit range, and no leading zeros in numeric prerelease identifiers |
| CacheSemver.PrecedenceMatches | scripts/cache_semver.py:57-89 | the first four key components order valid versions exactly by section 11 of SemVer 2.0.0 |
| CacheSemver.BuildKeyOrder | scripts/cache_semver.py:92-96 | build identifiers compare by class, decimals by their number and then by their leading zeros, others by text |
| CacheSemver.KeyOrder | scripts/cache_semver.py:57-96 | the whole key orders valid versions by section 11 of SemVer 2.0.0, and those that it ranks alike by their build identifiers |
| CacheSemver.NumericBuildsOrdered | scripts/cache_semver.py:92-96 | versions that differ only in one numeric build identifier are ordered by its number |
| CacheSemver.KeyInjective | scripts/cache_semver.py:57-96 | different valid versions have different keys, leading zeros of build numbers included |
| CacheSemver.VersionsTotallyOrdered | scripts/cache_semver.py:57-96 | exactly one of lower, equal and higher holds of two valid versions; which one, `KeyOrder` says |
| CacheSemver.VersionsTransitive | scripts/cache_semver.py:57-96 | the version order is transitive |
| CacheSemver.MissingBuildOutranksNumeric | scripts/cache_semver.py:74-96 | a version without build metadata ranks above the same version with build metadata exactly when the first build identifier is numeric, and below it exactly when it is not |
| VersionNames.CaptureUnique | scripts/cache_semver.py:11-17 | the version pattern is unambiguous: a text has at most one capture |
| VersionNames.SafeNamesPlain | scripts/cache_semver.py:28-44 | a safe name is one path component on either host: no separator, no parent, no control character, no trailing dot or space, and no reserved device name with any extension |
| VersionNames.NameKeysDiffer | scripts/cache_semver.py:57-75 | different texts never share a key |
| VersionNames.HigherOneWay | scripts/cache_semver.py:78-83 | of two different names, versions or not, exactly one is higher |
| VersionNames.HigherTransitive | scripts/cache_semver.py:78-83 | three names are ordered consistently when all are versions, or when text order agrees on each pair |
| VersionNames.HigherCyclesExactly | scripts/cache_semver.py:28-83 | a higher and a lower version close into a cycle through some safe name exactly when raw text order reverses them |
| VersionNames.NumbersCycle | scripts/cache_semver.py:78-83 | 1.10.0, 1.9.0 and the safe name 1.10.0! are each higher than the next, around |
| GenerationSelection.SelectedCacheRoot | scripts/installer_cache_observation.py:54-73 | the result is a qualified candidate with a valid version that no such candidate outranks, and there is none only if none is qualified and valid |
| GenerationSelection.HighestByPrecedence | scripts/installer_cache_observation.py:54-73 | no eligible candidate is above the result by section 11 and the order of build identifiers |
| GenerationSelection.HighestUnique | scripts/installer_cache_observation.py:54-73 | among distinct names the result is unique and does not depend on the listing order |
| GenerationSelection.SelectionNeverDowngrades | scripts/installed_generation.py:129-144 | the choice is one of the two, never lower than either, and conflicts exactly on equal versions with different digests |
| GenerationSelection.SelectionFollowsPrecedence | scripts/installed_generation.py:129-144 | of two different versions the one that is higher by section 11, or by the build identifiers where that ranks them alike, is chosen |
| GenerationSelection.SelectionDefined | scripts/installed_generation.py:129-150 | a first installation takes the requested generation; an invalid version on either side is refused |
| TurnOwnership.MutatorsSound | scripts/manager_runtime.py:152-333 | every mutator keeps ownership, raises the restart count exactly with a performed restart, and leaves a standing claim alone |
| TurnOwnership.OwnedAlways | scripts/manager_runtime.py:193-333 | over every run, pending and managed turns are never both set, a timeout stamp needs a pending turn, and a claim is stamped and names the managed turn |
| TurnOwnership.CountIsPerformed | scripts/manager_runtime.py:304-307 | over every run, the count is the number of performed restarts, which with a standing claim never outnumber the claims |
| TurnOwnership.RestartAnswersClaim | scripts/manager_runtime.py:283-310 | every performed restart answers its own claim of the managed turn, made at most 60 seconds before, when the manager was ready, the rollout showed no activity, and the requested monitor was live and unchanged |
| TurnOwnership.ManagedExactly | scripts/manager_runtime.py:193-333 | over every run a turn is managed exactly from its recorded start, adoption included, to its finish or performed restart |
| TurnOwnership.PendingExactly | scripts/manager_runtime.py:193-333 | over every run a turn is pending exactly from its accepted start response until it starts, is cleared, or the record is released |
| TurnOwnership.ReleasedForNext | scripts/manager_runtime.py:193-333 | after a finish or a performed restart nothing is pending, managed, requested or claimed, the handoff is requested, and in a managed record every nonempty turn can be started or accepted next |
| TurnOwnership.TurnGuards | scripts/manager_runtime.py:193-280 | exactly when a start, an accepted response, a timeout, a clearing and a finish take effect |
| TurnOwnership.MutatorEntriesMove | scripts/manager_runtime.py:193-333 | what every mutator of the record does to the ownership entries, and that all the others leave them alone |
| TurnOwnership.MutatorOthersMove | scripts/manager_runtime.py:152-333 | handoff, restart request, shutdown, manager state and revision are written by exactly the listed mutations |
| TurnOwnership.ClassifyExactly | scripts/manager_restart_guard.py:83-98 | a claim is unclaimed, mismatched or expired exactly by the claim flag, the managed turn and the 60 seconds |
| TurnOwnership.PerformsExactlyWhenMatched | scripts/manager_restart_guard.py:83-98 | in every reachable record a restart is recorded exactly when the claim classifies as matched |
| TurnOwnership.OwnershipFindsMonitor | scripts/manager_restart_guard.py:101-179 | matching ownership implies that the later monitor search succeeds |
| TurnOwnership.RuntimeDocument.StartTurn | scripts/manager_runtime.py:193-215 | ownership is committed only from a requested handoff whose pending turn, if any, is this one |
| TurnOwnership.RuntimeDocument.AcceptPendingTurn | scripts/manager_runtime.py:218-235 | a turn becomes pending only from a requested handoff without pending or managed turn |
| TurnOwnership.RuntimeDocument.FinishOwnedTurn | scripts/manager_runtime.py:272-280 | exactly the owned turn is released, as `ReleasedForNext` states, and the next handoff is requested |
| TurnOwnership.RuntimeDocument.AcknowledgeRestart | scripts/manager_runtime.py:283-310 | the restart is counted and the turn released, as `ReleasedForNext` states, or the first failed guard is raised and nothing changes |
| TurnOwnership.RuntimeDocument.RequestIsFresh | scripts/manager_restart_guard.py:126-164 | fresh exactly with unchanged request, matching ownership, a known cursor and no activity; stale evidence is cleared |
| TurnOwnership.RuntimeDocument.ClaimRequest | scripts/manager_restart_guard.py:39-54 | an unclaimed fresh request is claimed and stamped |
| TurnOwnership.RuntimeDocument.AdoptStartedTurn | scripts/daemon_activation_fence.py:107-143 | a user turn is adopted only from a queued handoff of an open managed session without pending or managed turn |
| TurnOwnership.RuntimeDocument.DeferSessionShutdown | scripts/session_shutdown.py:31-49 | a ready manager with a managed turn gets the shutdown request, and the restart request is dropped |
| TurnInterrupts.BuildOwners | scripts/daemon_registry.py:432-446 | a turn is in the index exactly when it is mentioned, and has an owner exactly when it is mentioned once |
| TurnInterrupts.OwnerExactlyAlone | scripts/daemon_registry.py:432-450 | a turn maps to a task exactly when that task alone has it pending or managed |
| TurnInterrupts.IndexKeys | scripts/daemon_registry.py:432-446 | the index holds exactly the turns that are pending or managed in the known runtime of some managed task |
| TurnInterrupts.ClaimKeepsInv | scripts/daemon_registry.py:557-576 | completed and in-flight interrupts stay disjoint and number at most 2048 together |
| TurnInterrupts.FinishKeepsInv | scripts/daemon_registry.py:545-551 | so does finishing an attempt |
| TurnInterrupts.ClaimOutcomes | scripts/daemon_registry.py:557-576 | a claim is refused exactly for a turn whose success is recent or that is in flight, or at the capacity, against which only recent successes and attempts in flight count |
| TurnInterrupts.FailedAttemptRetries | scripts/daemon_registry.py:534-551 | a failed attempt leaves nothing behind, and its turn can be claimed again at any time |
| TurnInterrupts.SuccessRecorded | scripts/daemon_registry.py:545-551 | a success is remembered with its time, and the end of an attempt that is not the turn's own changes nothing |
| TurnInterrupts.ClaimsSeparated | scripts/daemon_registry.py:557-576 | over every run, between two claims of one turn the first attempt has finished |
| TurnInterrupts.NoInterruptWithinExpiry | scripts/daemon_registry.py:545-576 | with a monotone clock and until all tasks are detached, no attempt is claimed within 600 seconds after a success |
| TurnInterrupts.ClaimAfterDetach | scripts/daemon_registry.py:330-340 | right after all tasks are detached a claim succeeds exactly when the turn is not in flight and the capacity is not reached |
| TurnInterrupts.InterruptRegistry.RefreshTurnOwners | scripts/daemon_registry.py:432-450 | the index is rebuilt exactly when the mentioned turns fit the capacity; otherwise the old one stays |
| TurnInterrupts.InterruptRegistry.ClaimInterruptAttempt | scripts/daemon_registry.py:557-576 | the claim's four outcomes and the state after each |
| TurnInterrupts.InterruptRegistry.BeginInterrupt | scripts/daemon_registry.py:521-532 | too many mentioned turns overflow, a mentioned turn is owned, and for any other the outcome and the state are those of the claim; so a request is sent only for a turn that no task mentions |
| TurnInterrupts.InterruptRegistry.EndInterrupt | scripts/daemon_registry.py:545-551 | the caller's own attempt ends, and only a success is remembered |
| TurnInterrupts.InterruptRegistry.Detach | scripts/daemon_registry.py:330-340 | tasks, owners and successes are forgotten, attempts in flight stay |
| InstallTransaction.World.DisablePluginOnly | scripts/installer_observation_config.py:100-127 | a normal end leaves the observed config disabled |
| InstallTransaction.World.CleanupCreated | scripts/installer_recovery.py:168-195 | a complete cleanup removed every object recorded as made by this run, and nothing else is ever removed |
| InstallTransaction.World.RestorePrior | scripts/installer_recovery.py:90-96 | the prior config is written only over the very config that recovery has disabled, so no edit by another program is overwritten |
| InstallTransaction.World.TryRecover | scripts/installer_recovery.py:66-102 | without a conflict, no step failed, what this run made is gone, and the config is the prior one when that is safe, and then not edited by another program since it was disabled, otherwise disabled |
| InstallTransaction.World.RecoverInstall | scripts/installer_recovery.py:55-115 | a report without conflict means that nothing failed before the last observation and that the reason was no concurrent change; there is no conflict when nothing fails and the config is still the owned one; and the config settled then is the prior one, if it was disabled or restorable with a valid cache, or else a disabled one |
| InstallTransaction.World.FenceConfig | scripts/installer_transaction.py:68-74 | the fenced config is disabled and unchanged since it was observed disabled |
| InstallTransaction.World.FenceAndPublish | scripts/installer_transaction.py:68-80 | an undisturbed config is the recorded one, whether the fenced disabled config and the cache are recorded or a step failed, the last look of the first disabling excepted |
| InstallTransaction.World.InstallNew | scripts/installer_transaction.py:68-175 | after a failure of a run that nothing has disturbed, the recorded bytes are those of the config, or the config is the disabled or the prior one and was not recorded |
| InstallTransaction.World.NoWriteReinstall | scripts/installer_transaction.py:51-67 | a reinstall in place commits only if no step failed, the config is still the prior one, and the final comparison said yes |
| InstallTransaction.World.KeepConfigured | scripts/installer_transaction.py:84-106 | the configured generation is kept only if no step failed and its revalidation said yes; after the write an undisturbed config is the prior one |
| InstallTransaction.World.PublishEnabled | scripts/installer_transaction.py:126-151 | the config is published enabled and recorded; it stays only if the trust check said yes and no other program has edited it up to the last look, and an undisturbed run without failing steps can only fail that check |
| InstallTransaction.World.EnableRequested | scripts/installer_transaction.py:107-175 | the requested generation is committed only through all steps of the three publications, with both verifications answering yes, and an undisturbed config is then the three renderings in order |
| InstallTransaction.World.TryInstall | scripts/installer_transaction.py:43-175 | from every failure point the record is right: recorded objects exist, and are recorded as made only if they are new; the bytes recorded as owned are those of an undisturbed config, except for the two unrecorded writes; the transaction has committed, or its receipt is unpublished; and it commits when nothing goes wrong |
| InstallTransaction.World.PublishReceipt | scripts/install_receipt.py:53-83 | success is the commit; a failure leaves the receipt as it was, or written, and then the run has committed all the same |
| InstallTransaction.World.RecoverInterrupted | scripts/install_plugin.py:159-193 | an interrupted transaction is left alone exactly when the probe confirms a receipt for its cache and runtime; otherwise, unless the probe is interrupted too, it is recovered |
| InstallTransaction.World.EndFailed | scripts/installer_transaction.py:176-208 | a run that is left alone has committed, or the earlier receipt names its cache and its runtime, neither of which it made |
| InstallTransaction.World.RunInstallTransaction | scripts/installer_transaction.py:18-208 | success only if no step failed and every verdict on the way taken said yes, after validating the cache before any enabling write of the transaction, with this run's receipt last; the way taken, and the exact final config of an undisturbed success; success when nothing goes wrong; a failing run that nothing disturbs is recovered, without conflict exactly when its last own write is recorded; a recovery without conflict, also after an interruption, is a rollback to the objects from before; a run left alone on a receipt has committed or reuses what the earlier receipt names; nothing that was there before is removed or replaced |
| InstallTransaction.ReinstallLeftDisabled | scripts/install_plugin.py:159-193 | such a run over an enabled config that could be restored: left alone on the earlier receipt, uncommitted, with the plugin disabled |
| InstallTransaction.UnrecordedWriteConflicts | scripts/installer_transaction.py:68-69 | a first install that no other program touches, in which only the look that verifies the first disabling fails, is recovered with a conflict |
| Lifecycle.EventKeepsInv | scripts/daemon_lifecycle.py:173-267 | every step keeps: active admissions are counted right, one owner closes, and the report is final |
| Lifecycle.ResourcesClosedOnce | scripts/daemon_lifecycle.py:247-267 | in every interleaving the owned resources are closed at most once, and only with no admission active |
| Lifecycle.NoAdmissionAfterClose | scripts/daemon_lifecycle.py:173-192 | once the admissions have drained, none is active and none can start for the rest of the run |
| Lifecycle.AdmittedExactly | scripts/daemon_lifecycle.py:173-179 | over every run an admission is admitted exactly before the first call of close |
| Lifecycle.LeavingExactly | scripts/daemon_lifecycle.py:185-192 | over every run a leaving admission is told of a shutdown exactly after the first call of close |
| Lifecycle.FirstCallerOwns | scripts/daemon_lifecycle.py:247-260 | over every run the first caller of close becomes its owner, and every other one waits |
| Lifecycle.SameReport | scripts/daemon_lifecycle.py:194-202 | every finished caller gets the one report |
| Lifecycle.ReportIsOfThePass | scripts/daemon_lifecycle.py:261-267 | the report that finished callers get is the one that the pass over the resources made |
| Lifecycle.NestedCallReturns | scripts/daemon_lifecycle.py:251-253 | a call nested in the closing returns an empty report and changes nothing |
| Lifecycle.DaemonLifecycle.TryBeginAdmission | scripts/daemon_lifecycle.py:173-179 | admitted exactly before close has started |
| Lifecycle.DaemonLifecycle.ReleaseAdmission | scripts/daemon_lifecycle.py:185-192 | one admission fewer, and whether close has started |
| Lifecycle.WaitingMeans | scripts/daemon_lifecycle.py:194-202 | in every interleaving the closing thread gets an empty report at once, and everybody else gets a report exactly when the closing has finished, which is then the one of the single pass |
| Lifecycle.DaemonLifecycle.TryClose | scripts/daemon_lifecycle.py:247-258 | the first caller becomes the owner |
| Lifecycle.DaemonLifecycle.PublishReport | scripts/daemon_lifecycle.py:262-266 | the report is published and the owner gone |
| Lifecycle.CloseDetached | scripts/daemon_lifecycle.py:121-134 | every task and the client is tried; the report is the bounded list of all failures in order |
| Lifecycle.CloseOwnedResources | scripts/daemon_lifecycle.py:269-282 | one bounded list over the scheduler, the registry and everything detached |
| BoundedLines.Serve | scripts/mcp_stdio.py:47-74 | for every way of cutting the stream into chunks the frames are those of its newline split, with ("", true) for each line over the limit |
| BoundedLines.FramedExactly | scripts/mcp_stdio.py:59-74 | a line passes unflagged exactly when it has a UTF-8 encoding within the limit, and of every other line only the flag is left |
| BoundedLines.TrackPiece | scripts/mcp_stdio.py:59-69 | the running byte count decides rightly about the line so far, and what is buffered stays within the limit |
| BoundedLines.SplitInverse | scripts/mcp_stdio.py:52-58 | the newline split loses nothing: joining gives the stream back, and no line holds a newline |
| JsonLimits.ValidateStructure | scripts/mcp_limits.py:69-116 | the walk accepts exactly what the recursive rule accepts, except that it raises a type error exactly on `tools/call` messages that name their tool with a list or an object |
| JsonLimits.AcceptedExactly | scripts/mcp_limits.py:73-99 | the recursive rule accepts exactly the messages whose every part, at its own depth and path, is within the limits |
| JsonLimits.ShapeExactly | scripts/mcp_limits.py:102-116 | an overlong session identifier is exempt exactly in a call of one of the six control tools with an object of arguments |
| JsonLimits.OverlongOnlySession | scripts/mcp_limits.py:69-99 | in an accepted message every string can be encoded and is within the limit, the exempt one excepted, and nothing is nested too deeply |
| JsonLimits.SmallMessageRaises | scripts/mcp_limits.py:102-116 | such a message can be within every limit |
| JsonLimits.Visit | scripts/mcp_limits.py:73-88 | popping a tree and pushing its children keeps what is still to be checked, and shrinks the trees on the stack |
| JsonLimits.ObjectPairs | scripts/mcp_limits.py:38-53 | too many pairs, or the first bad or repeated name, decide the error; otherwise all pairs are kept in order |
| JsonLimits.NameOkExactly | scripts/mcp_limits.py:38-53 | a member name is accepted exactly when it has a UTF-8 encoding within the limit |
| TomlSplice.BlocksDisjoint | scripts/toml_lexical_editor.py:48-57 | block spans are pairwise disjoint and inside the text, and each starts at its header and ends before the tail that is kept |
| TomlSplice.DistinctBlocksApart | scripts/toml_lexical_editor.py:97-124 | edits of disjoint blocks sort like their blocks, also when they touch |
| TomlSplice.BackwardIsSimultaneous | scripts/toml_lexical_editor.py:130-131 | applying edits in reverse offset order equals substituting all spans at once |
| TomlSplice.CollectedEditsSubstitute | scripts/toml_lexical_editor.py:127-131 | edits collected from distinct blocks, in any order, are one simultaneous substitution |
| TomlSplice.CollectionOrderIrrelevant | scripts/toml_lexical_editor.py:130-131 | the order of collection does not matter |
| TomlSplice.OutsideKept | scripts/toml_lexical_editor.py:130-131 | each character outside the edited spans is kept, moved by the edits before it |
| TomlSplice.OutsideOrdered | scripts/toml_lexical_editor.py:130-131 | the kept characters stay in order |
| TomlSplice.ReplacementPlaced | scripts/toml_lexical_editor.py:130-131 | each replacement stands where its edit starts, moved by the edits before it |
| TomlSplice.AdditionsPlaced | scripts/toml_lexical_editor.py:132-135 | adding tables keeps the text before its terminal newlines, places every new table between, and ends with the terminal newlines |
| TomlSplice.AdditionsSeparated | scripts/toml_lexical_editor.py:133-135 | the first new table starts the text when nothing stands before it, and else follows a blank line |
| TomlSplice.Editor.EditTable | scripts/toml_lexical_editor.py:87-97 | one edit over the whole table, ending with a line break exactly when the table did |
| TomlSplice.Editor.EditBoolean | scripts/toml_lexical_editor.py:106-116 | one edit over the assignment, or an insertion at the head of the body |
| TomlSplice.Editor.Drop | scripts/toml_lexical_editor.py:119-124 | one edit that removes the table |
| TomlSplice.Editor.Finish | scripts/toml_lexical_editor.py:127-136 | the simultaneous substitution of all collected edits, with the new tables added before the terminal newlines |
| PackageFraming.DigestInput | scripts/cache_package.py:41-48 | the stream is the framing of the files, and packing raises exactly when a count or length does not fit |
| PackageFraming.ParseFrame | scripts/cache_package.py:41-48 | parsing a framed package recovers exactly its files |
| PackageFraming.FrameParse | scripts/cache_package.py:41-48 | every stream that parses is the frame of what was parsed |
| PackageFraming.FrameInjective | scripts/cache_package.py:41-48 | equal streams mean equal packages |
| PackageManifest.ManifestOrderExactly | scripts/cache_package.py:28-30 | the order test accepts exactly the lists that increase strictly by encoded bytes |
| PackageManifest.LessExactly | scripts/cache_package.py:28-30 | a path comes first exactly when it is a proper prefix or has the smaller byte where the two first differ |
| PackageManifest.StreamIdentifiesFiles | scripts/cache_package.py:28-48 | accepted packages have equal streams exactly when they hold the same files |
| PackageManifest.SplitInverse | scripts/cache_package.py:56 | joining the parts gives the path back, and no part holds a slash |
| PackageManifest.JoinedExactly | scripts/cache_package.py:56-57 | joining the first parts, for each number of parts, gives exactly what precedes the slashes of the path |
| PackageManifest.ExpectedDirectories | scripts/cache_package.py:52-58 | exactly what precedes a slash of some path, each once, in increasing order |
| PackageManifest.AboveTransitive | scripts/cache_package.py:52-58 | the closure holds the parents of all its members |
| RotatingLog.DropOldestSuffix | scripts/monitor_diagnostics.py:179-180 | losing the oldest backup leaves a suffix of what was retained |
| RotatingLog.MoveKeeps | scripts/monitor_diagnostics.py:181-185 | moving a file to an empty older place keeps everything in order |
| RotatingLog.DiagnosticLog.constructor | scripts/monitor_diagnostics.py:17-18 | an empty log for any number of backups |
| RotatingLog.DiagnosticLog.Rotate | scripts/monitor_diagnostics.py:176-185 | every file moves by one place and the oldest is dropped; after any number of file operations the retained records are those from before or lack only the oldest file, unique and within the limit; a complete rotation frees the current file |
| RotatingLog.DiagnosticLog.MakeRoom | scripts/monitor_diagnostics.py:123-126 | the log is rotated exactly when the record does not fit the current file |
| RotatingLog.DiagnosticLog.WriteNew | scripts/monitor_diagnostics.py:123-127 | the record is written last in the current file of the log with room |
| RotatingLog.DiagnosticLog.ContainsEventId | scripts/monitor_diagnostics.py:218-222 | found exactly when some retained record has the identity |
| RotatingLog.DiagnosticLog.AppendOnce | scripts/monitor_diagnostics.py:107-128 | the record is appended last, to the log with room for it, exactly when it was not retained already, or an error leaves a suffix; with enough file operations there is no error; the invariant holds after each |
| Calibration.OutcomeKinds | scripts/calibration.py:60-67 | too few gaps, a nonpositive gap, and a recommendation exclude each other as stated |
| Calibration.RecommendationLeast | scripts/calibration.py:68-85 | the warning is the least positive whole minute covering 95 percent, the restart the least covering 99 percent that is at least twice the warning, and the pair is valid |
| Calibration.RecommendationForgetsOrder | scripts/calibration.py:65-77 | permuting the gaps changes nothing |
| Utf8.ByteLengthExactly | scripts/mcp_stdio.py:59-69 | the byte length is that of the encoding by RFC 3629, and there is none exactly when a code point cannot be encoded |
| Utf8.EncodeInjective | scripts/mcp_stdio.py:59-69 | equal encodings are of equal texts |
| StallDetector.WaitsKeepAnchor | scripts/stall_detector.py:147-166 | waiting and resuming change nothing but phase and waits: the anchor, the interval and the emitted diagnostics stay |
| StallDetector.DiagnosticsOnce | scripts/stall_detector.py:169-212 | over every run, an interval sees at most one warning and at most one critical diagnostic; when they are due, `WarnsExactly` and `CriticalExactly` say |
| StallDetector.CriticalAfterWarning | scripts/stall_detector.py:186-191 | over every run, a critical diagnostic follows a warning in the same interval |
| StallDetector.HistoryMeans | scripts/stall_detector.py:121-166 | over every run the waits are those last applied, and silence is counted from the latest accepted progress |
| StallDetector.WarnsExactly | scripts/stall_detector.py:180-187 | over every run a tick warns exactly when no wait holds, the warning threshold has passed since the latest accepted progress, and no earlier tick of the interval warned |
| StallDetector.CriticalExactly | scripts/stall_detector.py:186-191 | a tick is critical exactly when no wait holds, both thresholds have passed, and an earlier tick of the interval warned and none was critical |
| StallDetector.StopsExactly | scripts/stall_detector.py:180-181 | a tick stops exactly while a terminal wait holds |
| SilenceDetector.RestartsAgainExactly | scripts/silence.py:207-262 | after a restart, a later step of the interval is the next restart exactly when it is a poll without waits, past both thresholds, with an effective gate, and some step in between dropped the phase |
| SilenceDetector.SecondRestartLoosened | scripts/silence.py:147-262 | in every trace, between two restarts of one interval lies a poll before a threshold, a terminal wait, or a clock reading before the latest progress |
| SilenceDetector.AutoRestartOnce | scripts/silence.py:228-262 | with nondecreasing times, fixed thresholds and no withdrawn terminal wait, an interval sees at most one automatic restart |
| SilenceDetector.WarnsExactly | scripts/silence.py:228-247 | in every trace a poll warns exactly when no wait holds, the warning threshold has passed, and the interval has not been warned of |
| SilenceDetector.FirstRestartExactly | scripts/silence.py:248-251 | in an interval without a restart, a step restarts exactly when it is a ripe poll after a warning |
| SilenceDetector.RestartNeedsEvidence | scripts/silence.py:250-251 | no restart is asked for without every piece of evidence and exactly one eligible sibling |
| SilenceDetector.LimitedExactly | scripts/silence.py:248-255 | the limit is reported exactly when both thresholds have passed, the gate is not effective, and the interval was warned of but neither restarted nor limited |
| SilenceDetector.PhaseAfterPoll | scripts/silence.py:240-262 | the phase after every poll of every trace, by the waits, the thresholds and the request |
| SilenceDetector.ProgressOpens | scripts/silence.py:165-204 | progress that is neither late nor under a terminal wait becomes the latest and opens an interval without flags; other progress changes only the number of open tools |
| SilenceDetector.WaitsHold | scripts/silence.py:207-225 | a wait holds until it is replaced or confirmed to have ended, which opens an interval at that time |
| SilenceDetector.WithdrawnTerminalRestartsTwice | scripts/silence.py:207-262 | withdrawing a terminal wait can allow a second one |
| SilenceDetector.ChangedThresholdRestartsTwice | scripts/silence.py:244-252 | so can thresholds that are raised and lowered |
| SilenceDetector.DecreasingTimeRestartsTwice | scripts/silence.py:239-252 | so can a clock reading that goes back |

## Left out

- ClientPool.SharedClientPool.CreateClient: interrupts that arrive between source lines are not modelled, so a failing
  factory has made no client.
- ClientClose.ClosesAreSafe: leaves out late failure handlers and promotions of closing tokens, with which it is false.
- ClientClose.CloseGate.LookOnce: waits and their timeouts are further looks, so liveness is not stated.
- CacheSemver.Key: takes the groups that the version pattern captures. The regular expression is a predicate on those
  groups together with the text that they come from, and is not executed.
- VersionNames.HigherCyclesExactly: the upper-case form that safe names are checked in is that of ASCII letters.
- GenerationSelection.SelectedCacheRoot: manifest and file-type checks are one flag of a candidate.
- TurnOwnership.MutatorsSound: values have their proper types, so corrupt-document errors do not occur; Goal-companion
  fields other than the flag, and the diagnostics written after a mutation, are left out. The watcher is an environment
  that replaces the restart request only while it is unclaimed. No source file assigns a restart request other than none,
  so performed restarts depend entirely on that environment step.
- TurnInterrupts.InterruptRegistry.BeginInterrupt: what the tasks' runtime files say is given as the list of tasks.
- InstallTransaction.World.RunInstallTransaction: files, locks, trust records and caches are abstract steps that succeed,
  fail, or answer a check. Recovery's last observation only reports; its cache-match flag is left out, and so is the
  creation of a config that did not exist. A receipt names the identities of cache and runtime, and the other checks of
  the receipt probe are one answer. Edits by other programs can happen before every step; what is said of the config
  holds unless another program has edited it since the deciding step.
- Lifecycle.EventKeepsInv: the raised error of an admission that ends after close has started, and interruptions of the
  closing thread, are left out.
- BoundedLines.Serve: what `readline` promises about its chunks is assumed; dispatch and responses are left out.
- JsonLimits.ValidateStructure: takes a parsed tree; number parsing is left out.
- TomlSplice.Editor.EditTable: header offsets, assignment matches and syntax checks come from regular expressions and
  from the TOML parser, and are inputs; the checks that reject unsupported syntax are left out.
- PackageFraming.DigestInput: stops at the byte stream; hashing and the required manifest entries are left out.
- PackageManifest.ExpectedDirectories: paths are their encoded bytes; which paths are safe names is left out.
- RotatingLog.DiagnosticLog.AppendOnce: a log file is a list of complete records with their sizes and identities, and the
  limit is fixed; trimming a torn last line and path checks are left out.
- Calibration.RecommendationLeast: percentiles are exact; the source multiplies floating-point numbers.
- StallDetector.DiagnosticsOnce: times are real numbers, so NaN and infinities do not occur.
- Thread liveness, fairness and timeouts: the theorems are about safety over interleaved atomic steps.
- Sockets, HTTP, processes, cryptography, message texts, the command line, and the notification setup.

# Durable coordination: a Dafny model

This project models the parts of the platform that must keep their promises across crashes, retries and concurrent
callers, and proves those promises for every input, every run and every reachable state:

* **Offline replay queue** of the worker agent (`QueueNames`, `Json`, `JsonLaws`, `QueueRecord`, `OfflineQueue`,
  `Replay`, `CloudClient`). Files are created, claimed, returned, rejected and removed by single filesystem steps; a crash may
  fall between any two, and the server may accept, fail for now, refuse, or answer garbage. `OfflineQueue` is the
  transition system; the class `CloudClient` runs the program over it and records each step it takes, so that every
  point at which the program could die is a point of a run.
* **Workflow scheduler ledger** (`Scheduler`, `SchedulerLaws`, `SchedulerEffects`, `SchedulerLedger`,
  `SchedulerProcesses`): the commands
  as functions on the ledger, the in-place commands proved against them, and many processes running
  lock / read / change / write aside / replace transactions with crashes anywhere.
* **Canary rollout** (`Rollout`, `RolloutPasses`, `RolloutLaws`, `RolloutEffects`,
  `RolloutTenants`): cohort selection, publishing, evaluation passes and
  operator pins over the version table, under a strictly increasing clock.
* **Sliding-window rate limiter** (`RateLimiter`): the pruned queues and the least-recently-used map against the full
  log of admissions.
* **Lease reaper and session registry** (`Timestamps`, `Maintenance`, `Sessions`,
  `MaintenancePass`).
* **Stream framing** (`Framing`): newline-delimited events and blank-line-delimited server-sent events, however the
  stream is cut.
* **Runtime updater** (`RuntimeUpdates`, `RuntimeUpdater`): staged installation, the version file
  (`version.json`) and pruning, one filesystem step at a time, with crashes and recoveries anywhere in between. The
  digest is an arbitrary function.

`Options`, `Text` and `Sorting` hold what the components share. Functions specify each operation and methods are proved
against them; what the functions mean is then said again without them, by fields, thresholds, status codes and times
(`SchedulerEffects`, `RolloutEffects`, and the predicates that the methods ensure).

The model follows the code, also where its documentation or a first reading says otherwise:

* `version_for` scans canaries from the smallest cohort up; its docstring says highest first.
* `publish_version` is documented as idempotent. Stage changes append to the notes and the notes are compared, so a
  repeated publication is accepted exactly while the version has not changed stage (`RolloutLaws.RepublishAccepted`,
  with the failing case in `RolloutLaws.RepublishAfterPinRefused`).
* `_restore_prev_stable` is meant to bring a superseded version back after a rollback. In every reachable table the row
  it finds is the one that is stable already, so it never changes anything (`RolloutLaws.RestoreIsIdle`).
* A denied caller is told how long to wait. Waiting that long is enough when no more than the limit was held, and
  exactly when the limit-th newest hit has expired; it can fail after the limit was lowered
  (`RateLimiter.WaitingCanFail`).
* The flush of an unterminated last line at exit is lost when that line fills the buffer to the size limit
  (`Framing.ExitTripsIff`, with a run in `Framing.ExitFlushLost`).
* An entry whose name is in use as queue entry, claim and rejected file at once is never touched again
  (`Replay.TripleUseSticks`); fresh names exclude this (`Replay.FreshNamesAreTakeable`).
* `pruneOldVersions` spares the directory that the version file names. If that file cannot be read it spares no
  directory in particular: by `RuntimeUpdates.PrunedIff` with no active directory, the one in use then survives exactly
  when fewer than `keep` others are newer. The same lemma says when a prune called from outside during an installation
  would take the directory about to be activated; the updater itself prunes only after the version file has been written.

## Model

| member | source | states |
|---|---|---|
| `QueueNames.ClaimRoundTrip` | services/worker-agent/cloud_client.py:418-435 | the claim name made from a queue name is a claim name, and gives that queue name back |
| `QueueNames.QueueRoundTrip` | services/worker-agent/cloud_client.py:384-390 | the queue name recovered from a claim name is a queue name, and gives that claim name back |
| `QueueNames.NamesDisjoint` | services/worker-agent/cloud_client.py:51-57 | no name is both a queue name and a claim name |
| `QueueNames.QueueNameOrder` | services/worker-agent/cloud_client.py:364 | name order is (timestamp, nonce) order, both ways |
| `QueueNames.StemParts` | services/worker-agent/cloud_client.py:364 | the stem built from a clock reading and a nonce is well-formed, names its entry, and has them as its parts |
| `QueueNames.StemFromParts` | services/worker-agent/cloud_client.py:51-57 | every stem the patterns accept is built that way |
| `QueueNames.StemOrder` | services/worker-agent/cloud_client.py:384-416 | stems, entry names and claim names sort alike: by timestamp, then nonce |
| `QueueNames.ClaimOrder` | services/worker-agent/cloud_client.py:384 | claims sort exactly as the entries they came from |
| `QueueNames.ListSorted` | services/worker-agent/cloud_client.py:409-416 | a directory listing in any order comes out strictly increasing with exactly the same names |
| `JsonLaws.ReadPrint` | services/worker-agent/cloud_client.py:207-215 | parsing a printed value gives the value back, whatever follows it |
| `JsonLaws.TornObjectUnreadable` | services/worker-agent/cloud_client.py:476-482 | no proper prefix of a printed object is a JSON text |
| `QueueRecord.DecodesIff` | services/worker-agent/cloud_client.py:159-200 | a file decodes to a record if and only if it is a JSON text with exactly the required members, of their kinds and within their limits, that stand for it |
| `QueueRecord.DecodeEncode` | services/worker-agent/cloud_client.py:188-221 | a valid record decodes to itself, with or without the final newline |
| `QueueRecord.TornRecord` | services/worker-agent/storage.py:123-155 | any prefix of an encoded record decodes to that record if at most the newline is missing, and to nothing otherwise |
| `OfflineQueue.Conservation` | services/worker-agent/cloud_client.py:360-501 | once caching returned, at every later point of every run the record is in exactly one of queue, claims and rejected with its full text, or is gone and was accepted by the server; never both |
| `OfflineQueue.NothingElseIsSent` | services/worker-agent/cloud_client.py:476-500 | whatever the server accepted is a record some caller asked to cache, under its own name |
| `OfflineQueue.FreshNamesNeverCollide` | services/worker-agent/cloud_client.py:363-365 | with fresh names no stem is ever held in two roles |
| `OfflineQueue.PathsTellApart` | services/worker-agent/cloud_client.py:51-57 | in every reachable state different files have different paths, and the entry and claim patterns find exactly the queue entries and the claims |
| `OfflineQueue.InvStep` | services/worker-agent/storage.py:107-155 | every filesystem step and crash keeps: one name per file, contents a prefix of what was asked and all of it once durable, durable files held or accepted, deliveries faithful |
| `Replay.SendRequest` | services/worker-agent/cloud_client.py:252-301 | accepted if and only if the first attempt that is not lost, 429 or at least 500 is answered below 300 without broken JSON; refused if and only if it is answered 300 to 499; garbled if and only if below 300 with broken JSON; unreachable if and only if there is none |
| `Replay.FreshNamesAreTakeable` | services/worker-agent/cloud_client.py:378-435 | with fresh names every safe file is within reach of the next pass, in every reachable state |
| `Replay.TornIsRejected` | services/worker-agent/cloud_client.py:476-482 | a torn entry is never delivered, whatever fails and whatever the server would have said; a pass that takes it and can rename it moves it to rejected |
| `Replay.CompletePassDrains` | services/worker-agent/cloud_client.py:466-501 | a pass that was not stopped leaves no takeable entry queued or claimed |
| `Replay.AllFates` | services/worker-agent/cloud_client.py:466-501 | every entry a pass got as far as, by the answers and failures it met: gone after an acceptance, in rejected after a refusal, broken JSON or an unreadable file, back in the queue when two attempts decide nothing, a claim when its last step failed; and exactly where the pass stopped |
| `Replay.RecoveryFates` | services/worker-agent/cloud_client.py:378-407 | every orphan claim: back in the queue, or in rejected, or still a claim, by what is free |
| `Replay.QueuedPaths` | services/worker-agent/cloud_client.py:409-416 | the entries of the directory, by a scan of file names in any order, come out in increasing order of stem |
| `Replay.OrphanClaims` | services/worker-agent/cloud_client.py:378-384 | likewise the claims |
| `CloudClient.CloudClient.RecoverOrphanClaims` | services/worker-agent/cloud_client.py:378-407 | each claim returns to its queue name, or to rejected if that is taken, or stays; nothing is delivered |
| `CloudClient.CloudClient.ClaimEntry` | services/worker-agent/cloud_client.py:418-435 | one rename from the queue name to the claim name |
| `CloudClient.CloudClient.ReturnClaim` | services/worker-agent/cloud_client.py:437-445 | one rename back to the queue name |
| `CloudClient.CloudClient.RejectClaim` | services/worker-agent/cloud_client.py:447-464 | one rename to the rejected directory |
| `CloudClient.CloudClient.DeliverClaim` | services/worker-agent/cloud_client.py:484-500 | acceptance first, removal second, exactly one delivery of exactly the decoded record; an unlink that raises leaves the claim, or only the pass |
| `CloudClient.CloudClient.SettleClaim` | services/worker-agent/cloud_client.py:476-500 | the ways a claim ends, each with its file moves, its delivery and whether the pass goes on, ends, or is left by an exception |
| `CloudClient.CloudClient.FlushOffline` | services/worker-agent/cloud_client.py:466-501 | every orphan claim and every entry ends where the answers and failures it met put it; exactly the entries reached whose record was accepted are delivered, each once, in name order; the count is theirs, and is missing exactly when an exception left the pass; whenever a record is accepted, no takeable entry with an earlier timestamp, or the same one and a smaller nonce, is queued or claimed |
| `CloudClient.CloudClient.WriteAll` | services/worker-agent/storage.py:107-113 | the file always holds a prefix of the text, and all of it on success |
| `CloudClient.CloudClient.WriteEntry` | services/worker-agent/storage.py:123-155 | success leaves the whole text; a failed write or file sync leaves nothing, or a torn or whole entry that could not be unlinked; a failure after the close leaves the whole entry; durable only on success |
| `CloudClient.CloudClient.CacheOffline` | services/worker-agent/cloud_client.py:360-376 | the first free of eight names, each a clock reading and a nonce, gets the whole record; a failure leaves nothing, or one entry the caller was not told about; an invalid or too large record, or eight taken names, change nothing |
| `Scheduler.NextTaskId` | workflows/runtime/scheduler.py:201-209 | the id is new and its number larger than every number in the backlog |
| `Scheduler.NextBatchId` | workflows/runtime/scheduler.py:231-236 | the same for batches |
| `Scheduler.ResolveDependencies` | workflows/runtime/scheduler.py:212-220 | keeps, in order, exactly the tasks whose dependencies are all done, completed or deferred |
| `Scheduler.SelectReady` | workflows/runtime/scheduler.py:223-228 | the selection is the best-placed part of the ready tasks |
| `Scheduler.SelectSound` | workflows/runtime/scheduler.py:223-228 | only ready tasks, each once, at most the limit, none behind a ready task left out |
| `SchedulerLaws.ExecKeeps` | workflows/runtime/scheduler.py:336-560 | every command keeps: distinct ids, at most one active batch, no task listed twice, every listed task claimed with its dependencies resolved, every running task listed in the active batch, dependencies only in earlier batches |
| `SchedulerLaws.ReplayKeeps` | workflows/runtime/scheduler.py:73-78 | so does every sequence of commands from the default state, failed ones included |
| `SchedulerLaws.RoundEffect` | workflows/runtime/scheduler.py:452-560 | a round of start, complete each, finish succeeds on a grounded backlog, adds one batch of exactly the claimed tasks, does exactly those and leaves no batch open |
| `SchedulerLaws.Drains` | workflows/runtime/scheduler.py:212-228 | a backlog whose dependencies look back and where nothing failed drains in at most as many rounds as it has pending tasks; each round adds one batch, old batches keep their tasks, every pending task is claimed in one of the new batches, and a pending dependency in a strictly earlier one than its dependent |
| `SchedulerLedger.Ledger.AddTask` | workflows/runtime/scheduler.py:364-379 | the backlog grows by one task with exactly the given description, priority, dependencies, group and time, a new id, pending, claimed by nobody and in no batch; nothing else changes |
| `SchedulerLedger.Ledger.CompleteTask` | workflows/runtime/scheduler.py:336-361 | the first task of that id is done now and counted, unless it was done or there is none; nothing else changes |
| `SchedulerLedger.Ledger.Claim` | workflows/runtime/scheduler.py:475-479 | the claiming loop marks exactly the selected tasks |
| `SchedulerLedger.Ledger.Start` | workflows/runtime/scheduler.py:453-495 | succeeds exactly when the command function does, with its result; otherwise nothing changes |
| `SchedulerLedger.Ledger.CloseActive` | workflows/runtime/scheduler.py:537-558 | every active batch is closed with its outcome and counted |
| `SchedulerLedger.Ledger.Finish` | workflows/runtime/scheduler.py:511-560 | succeeds exactly when a batch is active and all its tasks are settled; otherwise nothing changes |
| `SchedulerLedger.Ledger.Perform` | workflows/runtime/scheduler.py:336-560 | any command in place succeeds exactly when the command function does, with its effect field by field, or leaves the ledger alone; the laws hold either way |
| `SchedulerEffects.StartsIff` | workflows/runtime/scheduler.py:453-471 | a start succeeds if and only if no batch is open, the mode exists and some pending task has every dependency done, completed or deferred |
| `SchedulerEffects.StartsTheBatch` | workflows/runtime/scheduler.py:472-496 | a start adds one active batch that lists ready tasks only, each once, as many as the mode allows or all there are, in order of priority and id, none overtaken by one left out; exactly those are claimed for it |
| `SchedulerEffects.DependentsWait` | workflows/runtime/scheduler.py:212-228 | no start lists or changes a task while one of its dependencies is unsettled |
| `SchedulerEffects.FinishesIff` | workflows/runtime/scheduler.py:511-535 | a finish succeeds if and only if a batch is active and every task of every active batch is done, failed or deferred |
| `SchedulerEffects.FinishesTheBatch` | workflows/runtime/scheduler.py:537-560 | each active batch is failed if one of its tasks failed and completed otherwise, lists its done and its failed tasks in order, and is counted; nothing else changes |
| `SchedulerEffects.SmallCommands` | workflows/runtime/scheduler.py:432-449 | heartbeat and checkpoint set one field; an operator's mark changes the first task of that id, and only if it is running |
| `SchedulerProcesses.Serialisable` | workflows/runtime/scheduler.py:123-192 | at every point of every interleaving with crashes, the state file is what the committed calls, run one at a time in commit order, would have left, each successfully; and it keeps the ledger's laws |
| `SchedulerProcesses.ReportsAreTrue` | workflows/runtime/scheduler.py:166-192 | a call reported as done was committed exactly once; one reported as an error never was |
| `SchedulerProcesses.RealTimeOrder` | workflows/runtime/scheduler.py:123-163 | a call answered before another was made comes first in the serial order |
| `Rollout.ScanCanaries` | services/control-plane/cloud/rollout.py:192-197 | finds the first, in input order, of the smallest matching canaries; nothing exactly when none matches |
| `Rollout.VersionFor` | services/control-plane/cloud/rollout.py:147-199 | every branch of the choice: opt-out, opt-in, smallest matching canary, newest stable; no version exactly when none is live |
| `Rollout.NewestStableIsNewest` | services/control-plane/cloud/rollout.py:170-174 | the fallback is a stable version with the latest entry time, and is missing exactly when none is stable |
| `Rollout.OneCanaryReach` | services/control-plane/cloud/rollout.py:125-145 | with one live canary, it reaches exactly the first 1, 10 or 50 buckets by its stage |
| `RolloutTenants.PromotionKeepsTenants` | services/control-plane/cloud/rollout.py:490-554 | over an evaluation pass of any table that satisfies the invariant, a tenant of the one canary still runs it afterwards, at its new stage, if and only if the pass did not roll it back |
| `RolloutPasses.Rollouts.PublishVersion` | services/control-plane/cloud/rollout.py:220-273 | a new row, an unchanged table for an equal republication, or a refusal that changes nothing |
| `RolloutEffects.PublishesTheRelease` | services/control-plane/cloud/rollout.py:220-273 | accepted if and only if the release is well-formed and a row of its version, if any, carries exactly it; a new version gets one new row with its URLs, lower-case digest, protocol floor, notes and first stage, a known one nothing |
| `RolloutPasses.Rollouts.EvaluatePass` | services/control-plane/cloud/rollout.py:490-554 | the pass's loop leaves the table the specification gives, with its list of actions |
| `RolloutEffects.EvaluatesEachRow` | services/control-plane/cloud/rollout.py:490-554 | for every table that satisfies the invariant: a canary is rolled back if and only if it has at least 20 samples and misses a threshold; it moves up one stage if and only if it has the samples, meets every threshold and has dwelt long enough (a new stable one is superseded at once if the same pass promotes one that entered its stage earlier); a stable one is superseded if and only if the pass promotes another; every other row is untouched |
| `RolloutEffects.EvaluateReports` | services/control-plane/cloud/rollout.py:506-552 | the actions are exactly the rollbacks, with the first threshold missed, and the promotions, with both stages, one for each version that changes |
| `RolloutPasses.Rollouts.PinVersion` | services/control-plane/cloud/rollout.py:587-610 | all canaries rolled back, the pinned version stable, the previous stable superseded; unknown versions change nothing |
| `RolloutEffects.PinsTheVersion` | services/control-plane/cloud/rollout.py:587-610 | a pin succeeds if and only if its version is known; that row becomes stable, every other canary is rolled back, the other stable one superseded, the rest untouched |
| `RolloutEffects.PinnedLeavesNoCanary` | services/control-plane/cloud/rollout.py:596-607 | after a pin there is no canary, and exactly the pinned version is stable |
| `RolloutPasses.Rollouts.MoveTo` | services/control-plane/cloud/rollout.py:296-317 | a stage change sets stage and time of that version's row and appends to its notes |
| `RolloutPasses.Rollouts.SupersedeOthers` | services/control-plane/cloud/rollout.py:576-584 | every other stable version becomes superseded, nothing else changes |
| `RolloutPasses.Rollouts.RestorePrevious` | services/control-plane/cloud/rollout.py:557-573 | the latest stable or superseded version other than the failed one is made stable unless it is |
| `RolloutLaws.RunKeeps` | services/control-plane/cloud/rollout.py:490-610 | every run of publications, passes and pins keeps the table's invariant |
| `RolloutLaws.StableReigns` | services/control-plane/cloud/rollout.py:576-610 | besides the stable version, every version that was ever stable is superseded and entered earlier; so at most one is stable |
| `RolloutLaws.StableStays` | services/control-plane/cloud/rollout.py:557-610 | once any version is stable, one always is, whatever publications, passes and pins follow |
| `RolloutLaws.NeverHeadless` | services/control-plane/cloud/rollout.py:557-584 | a superseded version implies a stable one |
| `RolloutLaws.StableIsEarned` | services/control-plane/cloud/rollout.py:506-552 | stable without a pin means three promotions, each green with at least twenty samples, in three different passes, more than three dwell periods after publication |
| `RolloutLaws.CanaryIsEarned` | services/control-plane/cloud/rollout.py:464-478 | a canary's stage is exactly the number of green passes behind it |
| `RolloutLaws.ReleasesAreImmutable` | services/control-plane/cloud/rollout.py:296-317 | rows are never deleted; artifact and publication time never change; notes only grow |
| `RolloutLaws.RestoreIsIdle` | services/control-plane/cloud/rollout.py:557-573 | after a rollback, in every table that satisfies the invariant, restoring changes nothing |
| `RolloutLaws.RepublishAccepted` | services/control-plane/cloud/rollout.py:220-273 | publishing the same release again is accepted if and only if the version has not changed stage since publication |
| `RolloutLaws.RepublishAfterPinRefused` | services/control-plane/cloud/rollout.py:220-273 | the counterexample: publish, pin, publish again is refused |
| `RateLimiter.InMemoryRateLimiter.AcquireSlot` | services/control-plane/cloud/middleware.py:99-116 | admitted if and only if fewer hits than the limit are left in the window; the hit is remembered, or the wait is the next whole second after the oldest leaves; the key is the last used now, and only the least recently used keys are forgotten, as far as there are too many |
| `RateLimiter.RememberedIff` | services/control-plane/cloud/middleware.py:104-116 | over any calls, a key that was used is remembered if and only if fewer than `capacity` other keys were used since its own last use |
| `RateLimiter.KeysBounded` | services/control-plane/cloud/middleware.py:83-97 | after any calls the map and its order hold the same keys, each once, and never more than the capacity |
| `RateLimiter.AdmittedIffUnderLimit` | services/control-plane/cloud/middleware.py:99-116 | for a key never evicted, a call is admitted if and only if fewer than its limit of all earlier admissions lie in the window ending now |
| `RateLimiter.NoWindowOverflows` | services/control-plane/cloud/middleware.py:99-116 | under a fixed limit no interval of the window's length ever holds more than that many admissions |
| `RateLimiter.RetryBounds` | services/control-plane/cloud/middleware.py:107-110 | the advertised wait is between one second and the window plus one |
| `RateLimiter.RetryAdmittedIff` | services/control-plane/cloud/middleware.py:104-116 | a later call is admitted if and only if the limit-th newest held hit has expired |
| `RateLimiter.WaitingIsRewarded` | services/control-plane/cloud/middleware.py:107-110 | waiting as told is enough when nobody else used the key and no more than the limit was held, whatever other keys did |
| `RateLimiter.WaitingCanFail` | services/control-plane/cloud/middleware.py:107-110 | the counterexample, as five calls from an empty limiter: told to wait six seconds, the caller waits six seconds and is refused |
| `Timestamps.TaskTextOrder` | services/control-plane/cloud/maintenance.py:33-34 | the text of two instants compares as the instants do, fraction printed or dropped |
| `Timestamps.SessionTextOrder` | services/control-plane/cloud/maintenance.py:37-38 | session text compares as whole seconds do |
| `Maintenance.Store.ExpireStaleAgents` | services/control-plane/cloud/maintenance.py:41-68 | exactly the agents not offline whose last heartbeat is at the cutoff or before are named and go offline, and exactly their running tasks have their lease end now |
| `Maintenance.StaleIsByTime` | services/control-plane/cloud/maintenance.py:41-60 | with times written as texts, an agent is taken offline if and only if it is not offline and its last heartbeat is not after the cutoff |
| `Maintenance.NeverReportedIsSpared` | services/control-plane/cloud/maintenance.py:48-51 | an agent without a heartbeat is left alone |
| `Maintenance.Store.ReapExpiredTasks` | services/control-plane/cloud/maintenance.py:91-151 | each running task whose lease ran out goes back to the queue with nothing left of its attempt and one more retry, or has failed with the expiry as its result; every other task is untouched; one transition each |
| `Maintenance.OldestFirst` | services/control-plane/cloud/maintenance.py:97-103 | the transitions are in order of creation, then of id |
| `Maintenance.ExpiryIsByTime` | services/control-plane/cloud/maintenance.py:97-103 | a lease is found expired if and only if its instant is not after the pass's |
| `Maintenance.ReapIsExact` | services/control-plane/cloud/maintenance.py:91-151 | afterwards no running task is expired; a row changed if and only if a transition names it, with its new status and count |
| `Maintenance.OneTransitionEach` | services/control-plane/cloud/maintenance.py:105-151 | no task has two transitions in one pass |
| `Maintenance.PassLeavesNoOrphans` | services/control-plane/cloud/maintenance.py:174-183 | after a pass that nobody interrupts no stale agent is online, no running task is expired, and none belongs to an agent just taken offline |
| `Maintenance.PassAmidWriters` | services/control-plane/cloud/maintenance.py:174-183 | when routes write between the transactions, still no running task is expired, and a task of an agent just taken offline is running if and only if a route left it one with a lease not expired |
| `MaintenancePass.RunMaintenanceOnce` | services/control-plane/cloud/maintenance.py:174-183 | the three transactions with writers in between: agents, sessions, tasks, transitions and counts afterwards, no stale agent online, no running task expired |
| `Maintenance.RunCounts` | services/control-plane/cloud/maintenance.py:105-140 | over any run a task's requeues equal its retry count and stay within the maximum |
| `Maintenance.RetriesAreBounded` | services/control-plane/cloud/maintenance.py:105-140 | over any run a task is requeued at most the maximum number of times, and the expiry after the last of them fails it |
| `Sessions.SessionManager.CreateSession` | services/control-plane/cloud/session_manager.py:83-147 | created exactly when the user is named, both limits leave room and the id is new; otherwise nothing changes |
| `Sessions.SessionManager.Heartbeat` | services/control-plane/cloud/session_manager.py:149-158 | only the caller's active session is refreshed, and the answer says whether there was one |
| `Sessions.SessionManager.TerminateSession` | services/control-plane/cloud/session_manager.py:160-175 | the caller's session ends, active or not, and nobody else's |
| `Sessions.SessionManager.ExpireStaleSessions` | services/control-plane/cloud/maintenance.py:71-88 | exactly the active sessions past the cutoff expire, and exactly they are reported |
| `Sessions.TransactionsAre` | services/control-plane/cloud/session_manager.py:83-175 | each transaction row by row, and a creation succeeds if and only if the user is named, the user's and all active sessions leave room, and the id is new |
| `Sessions.SilenceIsByTime` | services/control-plane/cloud/maintenance.py:71-88 | with times written as texts, an active session expires if and only if its last heartbeat is not after the cutoff |
| `Sessions.LimitsHold` | services/control-plane/cloud/session_manager.py:102-137 | in every interleaving of transactions neither the global nor any user's limit is exceeded |
| `Sessions.NeverReactivated` | services/control-plane/cloud/session_manager.py:149-175 | a session that stopped being active never becomes active again |
| `Sessions.IdsUnique` | services/control-plane/cloud/session_manager.py:123-137 | in every interleaving session ids stay distinct |
| `Framing.SplitRoundTrip` | apps/desktop/electron/cc/cc-wrapper.ts:877-878 | splitting loses nothing and no part holds a newline |
| `Framing.CcSession.TakeLine` | apps/desktop/electron/cc/cc-wrapper.ts:880-904 | a blank line does nothing; one that does not parse is counted; any other, trimmed at both ends, sends exactly the events it translates to, in order, and ends the turn if one of them says so |
| `Framing.CcSession.HandleStdoutChunk` | apps/desktop/electron/cc/cc-wrapper.ts:860-905 | a chunk handles its complete lines in order and buffers the rest, or reports an oversize and stops the session |
| `Framing.CcSession.OnExit` | apps/desktop/electron/cc/cc-wrapper.ts:1161-1171 | the exit flush handles the unterminated last line unless it is blank |
| `Framing.FeedAllIsSplit` | apps/desktop/electron/cc/cc-wrapper.ts:877-905 | after any chunks, every complete line of their concatenation has been handled and the rest is buffered |
| `Framing.ChunkingIsInvisible` | apps/desktop/electron/cc/cc-wrapper.ts:860-905 | if no call trips the limit, events, counters and translator state after exit are those of the whole output split once |
| `Framing.CutsAgree` | apps/desktop/electron/cc/cc-wrapper.ts:1161-1171 | two ways of cutting the same output broadcast the same events |
| `Framing.ExitTripsIff` | apps/desktop/electron/cc/cc-wrapper.ts:1168-1171 | the exit flush ends in an oversize report if and only if the unterminated line is at least as long as the limit |
| `Framing.ExitFlushLost` | apps/desktop/electron/cc/cc-wrapper.ts:1161-1171 | a run that reaches it: output of exactly the limit without a newline, then the exit |
| `Framing.Separator` | apps/desktop/electron/services/connection-health.ts:301 | the first blank-line separator, and none before it |
| `Framing.FramesJoin` | apps/desktop/electron/services/connection-health.ts:298-303 | a separator straddling two chunks frames as if the text had come at once |
| `Framing.FramesRoundTrip` | apps/desktop/electron/services/connection-health.ts:301-303 | framing loses nothing, and neither a frame nor the remainder holds a separator |
| `Framing.SseReader.Read` | apps/desktop/electron/services/connection-health.ts:293-321 | one read hands on every complete frame in order, or fails on the buffer limit |
| `Framing.SseReader.HandOn` | apps/desktop/electron/services/connection-health.ts:300-303 | the slicing loop hands on exactly the complete frames and leaves the remainder |
| `Framing.FramesAreWhole` | apps/desktop/electron/services/connection-health.ts:293-321 | unless the buffer limit is hit, the frames handed on are those of the whole text |
| `RuntimeUpdates.JobStep` | apps/desktop/electron/cc/cc-runtime-updater.ts:831-988 | whatever step comes next, a crash and a recovery included, what the update in flight relies on is still true of the disk |
| `RuntimeUpdates.PointerStep` | apps/desktop/electron/cc/cc-runtime-updater.ts:554-573 | every step keeps the version file whole and backed by a genuine directory |
| `RuntimeUpdates.ActiveIsGenuine` | apps/desktop/electron/cc/cc-runtime-updater.ts:831-988 | at every point of every run a named directory is there, complete, and its executable has the digest of a signed manifest of that version and directory name |
| `RuntimeUpdates.PointerNeverTorn` | apps/desktop/electron/cc/cc-runtime-updater.ts:554-573 | no crash leaves a half-written version file |
| `RuntimeUpdates.ServedIsLatest` | apps/desktop/electron/cc/cc-runtime-updater.ts:606-640 | an executable handed out has the digest pinned by the last signed manifest fetched |
| `RuntimeUpdates.DeletionsSpareActive` | apps/desktop/electron/cc/cc-runtime-updater.ts:1035-1082 | no deletion step of any run touches the active directory |
| `RuntimeUpdates.ReleasesAreImmutable` | apps/desktop/electron/cc/cc-runtime-updater.ts:241-274 | a version directory keeps its contents until a prune deletes it; promotion never replaces one |
| `RuntimeUpdates.PrunedIff` | apps/desktop/electron/cc/cc-runtime-updater.ts:1035-1082 | a prune takes every staging directory, never the active version, and another version if and only if at least as many newer inactive ones exist as may be retained |
| `RuntimeUpdates.DirectoriesDiffer` | apps/desktop/electron/cc/cc-runtime-updater.ts:841-843 | two manifests share a directory if and only if they agree on the version and on the first twelve digits of the digest |
| `RuntimeUpdater.Updater.WriteMeta` | apps/desktop/electron/cc/cc-runtime-updater.ts:554-573 | the new version file whole, or the old one untouched; a temporary file is left only if its removal failed |
| `RuntimeUpdater.Updater.DownloadExecutable` | apps/desktop/electron/cc/cc-runtime-updater.ts:746-829 | succeeds exactly for a complete, non-empty body of allowed and announced size with the pinned digest, which is then what the staging directory holds |
| `RuntimeUpdater.Updater.PromoteStagedDirectory` | apps/desktop/electron/cc/cc-runtime-updater.ts:241-274 | succeeds exactly when the version is not there yet and a rename goes through within the allowed retries; otherwise nothing moves |
| `RuntimeUpdater.Updater.InstallVersion` | apps/desktop/electron/cc/cc-runtime-updater.ts:831-903 | exactly when it succeeds, with the version file naming a directory that matches; versions already there are untouched either way |
| `RuntimeUpdater.Updater.PruneOldVersions` | apps/desktop/electron/cc/cc-runtime-updater.ts:1035-1082 | what is left is the directory minus the victims that could be removed |
| `RuntimeUpdater.Updater.CheckAndUpdate` | apps/desktop/electron/cc/cc-runtime-updater.ts:905-988 | exactly when an update happens; then the pinned executable is active, verified and spared by the prune; otherwise the active version and every version directory stay |
| `RuntimeUpdater.Updater.RecoverFromMissingBinary` | apps/desktop/electron/cc/cc-runtime-updater.ts:1013-1034 | at any time: the version file is cleared, and a forced update follows unless one is in flight |

## Left out

- HTTP, FastAPI, Redis, SQLite and Electron plumbing: each transaction is one atomic step on a table, each rename one atomic step on a directory.
- Queue records: `NaN`, `Infinity` and lone surrogates in JSON, float rounding of the duration, and a cut inside a multi-byte character (which fails to decode and is rejected like any other torn entry) are not part of the model, which works on characters.
- Queue directory: ownership, link and identity checks of `storage.py` appear only as the set of files a pass finds unsafe; directory markers and the replay lock between threads are not modelled. The clock prints at most twenty digits of nanoseconds.
- Worker requests: delays between attempts, registration, heartbeats and polling.
- Scheduler: session ids, console output and statistics; `\d` matching digits outside ASCII; hand-edited state with repeated ids. A read of the state file under the lock is taken to succeed, since the code falls back to an empty ledger when it does not. Marking a task failed or deferred is an operator step, since no command does it.
- Rollout: metric aggregation in SQL (metrics are arbitrary inputs), the bucket hash (any bucket below one hundred), URL policy, the event table, notifications and the numbers inside reason texts. The clock is strictly increasing; with tied timestamps the newest stable version is not determined.
- `check_downgrade_safe`: a short comparison of two versions.
- Rate limiter: the Redis limiter. Times are real numbers; the clock is read before the lock in the code, and the model asks that times do not decrease in lock order.
- Maintenance: claim, heartbeat and result routes are environment steps that never touch a retry count; publishing transitions is not modelled.
- MaintenancePass.RunMaintenanceOnce: sessions created or refreshed between two transactions of a pass are not modelled there; `Sessions` interleaves every session transaction freely.
- Timestamps.SessionTextOrder: years are printed in four digits.
- Sessions: metadata, resource limits and unknown session types.
- Framing: event translation and JSON parsing are an arbitrary protocol with a state of its own; decoding bytes to text, diagnostics kept for failures, parsing inside a server-sent event and merging snapshots are not modelled. The oversize stop does not model the session's shutdown.
- Updater: signatures, manifest parsing, URL checks, platform selection, external executables, progress messages and configuration changes. Entries of the versions directory that are neither version nor staging directories are ignored by the code and absent from the model. Nothing else writes to the runtime directory, and the version file can be read.
- RuntimeUpdates.PrunedIff: states its exact count for distinct modification times; with ties the listing order decides.
- Guardian, health probe, websocket broker, process supervision, user interfaces and report rendering: easy members, foreign calls or plumbing next to the above.

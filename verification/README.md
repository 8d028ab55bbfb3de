# DeadSwitch: a verified model

A Dafny model of DeadSwitch, a dead man's switch: scenarios that must be checked in on,
a timed escalation ladder, and a release pipeline that sends messages once nobody
answers. Concurrent workers move shared rows by compare-and-swap; jobs go through a
transactional outbox; every action is audited in hash chains.

Every database transaction and every single conditional update is one atomic step.
Between two of them any other step of any other worker, user or operator may come, a
worker may stop for good, and a job may be delivered again. Where the program updates
rows in place the model does too: a class holds the rows, its methods let others' steps
in at each await, and each change is recorded as a step of a state machine about which
the theorems are proved for all runs.

| file | what it models |
|---|---|
| `ScenarioStates` | the transition table and the service every scenario change goes through |
| `ReleaseModel`, `ReleaseInvariants`, `ReleaseTheorems` | the release pipeline as a machine of any number of runs, and what holds over all its runs |
| `ReleaseDispatch`, `ReleaseRetries` | what a dispatch row tells of its call, and which failed actions can be claimed again |
| `ReleaseAttempts`, `ReleaseLimits` | how many provider calls one queued action can cause under any limit of the queue, and that the bounds are met |
| `ReleaseExecutor` | the executor, provider adapter, decrypt gate and operator commands as methods |
| `Outbox`, `OutboxArrival`, `OutboxRelay` | the outbox, its leases and relays, and exactly when a job can still reach the queue in time |
| `Ladder`, `LadderSafety`, `LadderEarly`, `LadderLimits`, `LadderGrace`, `EscalationService` | arming, check-ins, escalation, grace, entry into release and its fan-out, over real time |
| `Text`, `CanonicalJson`, `CanonicalJsonParser`, `CanonicalJsonLaws` | canonical JSON over UTF-16 text, with a parser that undoes it |
| `AuditChain`, `AuditLog`, `AuditExport` | the hash chain, concurrent recording, and the watermark export |
| `CircuitBreaker`, `SafetyMode` | the provider breaker, and the global mode with its containment watcher |
| `AttachmentBlob`, `AttachmentNames`, `AttachmentStore`, `AttachmentTokens` | blob framing, names and associated data, the way from upload to download, and the life of a link token |
| `Kek`, `PauseBudget` | PBKDF2 and HMAC on the phone, and a contact's pause budget |

Where the code and its own comments differ, the code is followed:

- A check-in adds a due job and recalls none, and due and expiry jobs look only at the
  state, so neither "a check-in postpones the miss" nor "a full grace period since the
  latest entry" holds; `LadderEarly` says exactly when each fails, and `LadderLimits` and
  `LadderGrace` give a run of either kind for every configuration.
- Jobs are added without a number of attempts, so the queue makes one: an action calls at
  most once, and MAX_ATTEMPTS is never reached. Under a larger limit a run that throws
  after booking an ambiguous outcome is delivered again under a new key, so MAX_ATTEMPTS
  bounds the calls exactly when the queue allows no more (`ReleaseLimits`). A failure to
  issue links always ends in failed_temporary, also on the last attempt, and a
  configuration error is retried like a passing one.
- A message can be sent and its action booked as failed: if the transaction after the
  acknowledgement fails, the executor treats that as a failed send.
- The relay's backoff grows with the row's time modulo eight, not with its attempts.
- The mode guard refuses only an automatic step straight to `normal`, and the thirty
  minutes before an automatic exit need not be clean: they count from the first entry
  into the mode, however often a rule fires again (`SafetyMode`).
- A breaker opens one failure before its threshold, its window of failures never decides,
  its first cooldown is twice the initial one, no probe is possible before somebody
  un-isolates the provider, and a late success lifts an isolation an operator asked for.
- Canonical key order is not purely lexicographic: array-index keys come first, in
  numeric order, and a member called `__proto__` is dropped.
- A dry-run export moves the watermark, and two exporters at once can move it back.
- An upload whose row is refused leaves its blob behind.
- Sanitizing a file name is not idempotent and can cut a surrogate pair in two.

## Model

| member | source | states |
|---|---|---|
| `ScenarioStates.Attempt` | apps/api/src/modules/state/state.service.ts:30-90 | a transition commits exactly when the row exists, its state is one the key may leave, and the new row couples state with timestamps; it is denied exactly when the row is missing or elsewhere |
| `ScenarioStates.StateMachineService.CompareAndSwap` | apps/api/src/modules/state/state.service.ts:60-68 | the guarded update changes the row exactly when its state is allowed, and counts it |
| `ScenarioStates.StateMachineService.Transition` | apps/api/src/modules/state/state.service.ts:30-90 | the read, the compare-and-swap and the three post-checks together do what `Attempt` says; a refusal leaves the table as it was |
| `ScenarioStates.TerminalStatesAbsorb` | apps/api/src/modules/state/scenario-states.ts:13-28 | no transition leaves a terminal state |
| `ScenarioStates.LeadsIff` | apps/api/src/modules/state/scenario-states.ts:13-28 | the states each state can go to: up the ladder one step at a time, back to armed from every step before the release, aborted while live, expired until it releases |
| `ScenarioStates.ReleaseOnlyAfterFullLadder` | apps/api/src/modules/state/scenario-states.ts:13-28 | in every run of committed transitions from a draft, an entry into release is immediately preceded by miss_checkin, begin_escalation, begin_grace |
| `ScenarioStates.ReleaseAtMostOnce` | apps/api/src/modules/state/scenario-states.ts:13-28 | a release is entered at most once, and only its completion or the kill switch can follow |
| `ReleaseInvariants.StepShape` | apps/api/src/modules/releases/release-action-executor.service.ts:44-225 | what any one step of a run may change: its own program point, its own action row in three ways, its own dispatch row, at most one provider call |
| `ReleaseInvariants.StepKeepsHolders` | apps/api/src/modules/releases/release-action-executor.service.ts:227-252 | no step lets two runs be between claim and closing update for one action, nor makes a held row claimable |
| `ReleaseInvariants.StepKeepsLog` | apps/api/src/modules/providers/provider-adapter.ts:89-133 | every step keeps one call per key and a reservation before each call |
| `ReleaseInvariants.StepKeepsAttempts` | apps/api/src/modules/releases/release-action-executor.service.ts:244-248 | every step keeps the calls for an action at or below its attempts counter |
| `ReleaseInvariants.StepKeepsCompletion` | apps/api/src/modules/releases/release-action-executor.service.ts:267-286 | what a run has counted outside any transaction still holds when it completes the release |
| `ReleaseInvariants.RunKeepsInv` | apps/api/src/modules/releases/release-action-executor.service.ts:44-293 | all of these hold in every reachable state, under any interleaving, crash or redelivery |
| `ReleaseTheorems.SendingIsExclusive` | apps/api/src/modules/releases/release-action-executor.service.ts:227-252 | over all runs of the system, at most one worker holds an action and each idempotency key reaches the provider at most once |
| `ReleaseTheorems.CallsNeverExceedAttempts` | apps/api/src/modules/releases/release-action-executor.service.ts:244-248 | over all runs, provider calls for an action never exceed its attempts |
| `ReleaseTheorems.VerdictsAreTrue` | apps/api/src/modules/releases/release-action-executor.service.ts:267-286 | a release is completed only if every action is executed, partially_failed only if all are terminal and some is not executed; a released scenario has only terminal actions |
| `ReleaseTheorems.TerminalActionsAbsorb` | apps/api/prisma/migrations/20260421_hardening_v2/migration.sql:61-75 | terminal action states absorb in every run |
| `ReleaseTheorems.CanceledReleaseWindsDown` | apps/api/src/modules/crypto/vault-decryptor.ts:56-69 | while a release stays cancelled no run newly passes the decrypt gate, later calls number at most the runs already past it, and nothing becomes executed |
| `ReleaseTheorems.CancelStopsSends` | apps/api/src/modules/crypto/vault-decryptor.ts:56-69 | the same for any run of the system split at any moment the release is cancelled, until it is force-unlocked |
| `ReleaseTheorems.LateAckIsRecorded` | apps/api/src/modules/releases/release-action-executor.service.ts:159-172 | an acknowledgement after a cancel ends in sent_after_abort exactly when the row is still sending, and otherwise leaves a terminal row alone |
| `ReleaseTheorems.TaintStopsLaterRuns` | apps/api/src/modules/releases/release-action-executor.service.ts:53-68 | once a sibling is sent_after_abort, every later call of the release comes from a run that started before |
| `ReleaseTheorems.NoCallAfterTaint` | apps/api/src/modules/releases/release-action-executor.service.ts:53-68 | the same from any initial state, across force_unlock_release |
| `ReleaseDispatch.RowTellsFate` | apps/api/src/modules/providers/provider-adapter.ts:89-133 | over every run from an empty table the row of a key is sent only if a call under it was accepted, failed only if it was rejected for good or could not be booked, and exactly so where the answer was booked; it is reserved otherwise, and there if there was a call |
| `ReleaseDispatch.ExecutedWasAccepted` | apps/api/src/modules/releases/release-action-executor.service.ts:148-172 | an action is executed or sent_after_abort only if the provider accepted a call made for it |
| `ReleaseDispatch.AckedIsAccepted` | apps/api/src/modules/providers/provider-adapter.ts:100-119 | a run is acknowledged, also by a row of an earlier delivery, only if the call under its key was accepted |
| `ReleaseRetries.FailsForGood` | apps/api/src/modules/releases/release-action-executor.service.ts:187-204 | a row still sending that is closed after a client error, or after any but an ambiguous error at the fifth attempt, is failed_permanent, and in every continuation nobody claims it or calls the provider for it |
| `ReleaseRetries.FailsForNow` | apps/api/src/modules/releases/release-action-executor.service.ts:187-204 | closed after any other failure it is failed_temporary, and some continuation claims it again exactly as long as its release goes on for it |
| `ReleaseRetries.RetryIsClaimedIff` | apps/api/src/modules/releases/release-action-executor.service.ts:227-252 | an unheld claimable action can be claimed in some continuation exactly if its scenario is still releasing and no sibling is tainted, or a run has passed the taint check already; a cancellation does not rule it out, as it can be lifted |
| `ReleaseAttempts.CallsFollowThrows` | apps/api/src/workers/release.worker.ts:37-41 | with one job per action and the attempt number rising only on a throw, an action makes at most one call more than runs that threw, and never more than the queue allows attempts |
| `ReleaseAttempts.RelayedActionCallsOnce` | apps/api/src/workers/outbox-relay.worker.ts:96-101 | as the relay adds jobs, without a number of attempts, an action reaches its provider at most once in its lifetime |
| `ReleaseAttempts.CallsAreBounded` | apps/api/src/modules/releases/release-action-executor.service.ts:187-219 | whatever the queue allows, an action makes at most MAX_ATTEMPTS calls plus one for each throw at that number or beyond that follows a call and leaves the action retryable |
| `ReleaseLimits.EveryCallCountIsReached` | apps/api/src/modules/releases/release-action-executor.service.ts:187-224 | every number of calls the queue allows is made in some run, in which both bounds are met with equality |
| `ReleaseLimits.QueueLimitDecides` | apps/api/src/modules/releases/release-action-executor.service.ts:19-19 | an action never makes more than n calls exactly when the queue has a limit of at most n; so MAX_ATTEMPTS bounds the calls exactly under such a limit, and without a limit nothing does |
| `ReleaseExecutor.ReleaseSystem.RowsAreSound` | apps/api/src/modules/releases/release-action-executor.service.ts:44-293 | whatever the methods below did, the rows satisfy every invariant of the machine |
| `ReleaseExecutor.ReleaseSystem.Run` | apps/api/src/modules/releases/release-action-executor.service.ts:44-225 | one delivery: a path of the machine with others' steps let in at every await, which calls the provider at most once and ends; it throws exactly at a refusing interlock, unissued links, a booked failure that is not ambiguous, or a missing release |
| `ReleaseExecutor.ReleaseSystem.Admit` | apps/api/src/modules/releases/release-action-executor.service.ts:45-68 | a run the interlock refuses throws and changes nothing; one that finds a tainted sibling returns and leaves its action unclaimable; any other goes on to claim |
| `ReleaseExecutor.ReleaseSystem.CountTaint` | apps/api/src/modules/releases/release-action-executor.service.ts:53-61 | a sibling counts as tainted exactly if some action of the release is sent_after_abort |
| `ReleaseExecutor.ReleaseSystem.AbortTaintedAction` | apps/api/src/modules/releases/release-action-executor.service.ts:62-66 | beside a tainted sibling a pending or failed_temporary action is aborted and no other row changes |
| `ReleaseExecutor.ReleaseSystem.Claim` | apps/api/src/modules/releases/release-action-executor.service.ts:227-252 | the claim is won exactly on a pending or failed_temporary row of a release that is not cancelled, in a scenario that is releasing, and counts the attempt; a row of a dead release is aborted |
| `ReleaseExecutor.ReleaseSystem.MarkSuppressed` | apps/api/src/modules/releases/release-action-executor.service.ts:254-265 | a row still sending is suppressed, for good, and the run ends without completing the release |
| `ReleaseExecutor.ReleaseSystem.OpenForAction` | apps/api/src/modules/crypto/vault-decryptor.ts:49-84 | the payload is admitted exactly if it decrypts, the action is not terminal, the release is not cancelled and the scenario is releasing |
| `ReleaseExecutor.ReleaseSystem.RefuseDecrypt` | apps/api/src/modules/releases/release-action-executor.service.ts:96-102 | a refused decrypt aborts the row if it is still sending, and the run returns |
| `ReleaseExecutor.ReleaseSystem.IssueForAction` | apps/api/src/modules/releases/release-action-executor.service.ts:119-138 | links are issued and the run goes on, or it throws |
| `ReleaseExecutor.ReleaseSystem.PutOffIssue` | apps/api/src/modules/releases/release-action-executor.service.ts:129-138 | without links a row still sending goes to failed_temporary, at any attempt, and the run throws |
| `ReleaseExecutor.ReleaseSystem.Reserve` | apps/api/src/modules/providers/provider-adapter.ts:89-99 | a reservation succeeds exactly when the key had no dispatch row, and then it has one that is reserved |
| `ReleaseExecutor.ReleaseSystem.CallProvider` | apps/api/src/modules/providers/provider-adapter.ts:112-113 | one call is logged under the run's key, with any outcome |
| `ReleaseExecutor.ReleaseSystem.Settle` | apps/api/src/modules/providers/provider-adapter.ts:114-132 | the row of the key becomes sent exactly after an accepted call, failed exactly after a client or configuration error, and stays reserved otherwise; the run goes on acknowledged or failing |
| `ReleaseExecutor.ReleaseSystem.Prior` | apps/api/src/modules/providers/provider-adapter.ts:100-108 | an existing row means delivered, a client error or an ambiguous outcome by its status; so delivered only if the call under the key was accepted, and a client error only if it was rejected for good or could not be booked |
| `ReleaseExecutor.ReleaseSystem.Send` | apps/api/src/modules/providers/provider-adapter.ts:71-134 | nothing is called where policy or breaker refuse, and they refuse as another or a transient error; otherwise at most one call, and delivered only with a row that says sent |
| `ReleaseExecutor.ReleaseSystem.Acknowledge` | apps/api/src/modules/releases/release-action-executor.service.ts:159-172 | the post-send transaction makes a row still sending executed if its release stands at that moment, and sent_after_abort if not |
| `ReleaseExecutor.ReleaseSystem.CloseFailed` | apps/api/src/modules/releases/release-action-executor.service.ts:187-218 | a row still sending becomes failed_permanent after a client error or, unless ambiguous, at the fifth attempt, and failed_temporary otherwise |
| `ReleaseExecutor.ReleaseSystem.MaybeCompleteRelease` | apps/api/src/modules/releases/release-action-executor.service.ts:267-293 | two counts and a transaction, with others' steps between, end the run; it throws exactly if the release is missing |
| `ReleaseExecutor.ReleaseSystem.CountPending` | apps/api/src/modules/releases/release-action-executor.service.ts:268-271 | the first count is none exactly if no action of the release is pending, sending or failed_temporary |
| `ReleaseExecutor.ReleaseSystem.CountOutcomes` | apps/api/src/modules/releases/release-action-executor.service.ts:272-275 | the verdict is completed exactly if no action is failed_permanent, aborted, suppressed or sent_after_abort |
| `ReleaseExecutor.ReleaseSystem.CompleteRelease` | apps/api/src/modules/releases/release-action-executor.service.ts:275-286 | the completing transaction writes the verdict that was counted, and releases the scenario if it is still releasing |
| `ReleaseExecutor.ReleaseSystem.DrainReleases` | apps/api/src/modules/admin/admin.service.ts:226-240 | every claimable action is aborted, every executing release is withdrawn and cancelled, and nothing else changes |
| `ReleaseExecutor.ReleaseSystem.SweepSiblings` | apps/api/src/modules/safety/containment.service.ts:169-174 | one sweep aborts exactly the claimable actions of its release |
| `ReleaseExecutor.ReleaseSystem.AbortSiblingsOfSentAfterAbort` | apps/api/src/modules/safety/containment.service.ts:150-175 | every release of the list is swept, with others' steps between the sweeps |
| `ReleaseExecutor.ReleaseSystem.ForceUnlockRelease` | apps/api/src/modules/admin/admin.service.ts:241-246 | a cancelled release is executing again, and nothing else changes |
| `Outbox.CommittedJobsArrive` | apps/api/src/workers/outbox-relay.worker.ts:46-116 | over all runs of any number of relays, a committed job is still in the table or has been handed over, and never before the time first asked for |
| `OutboxArrival.HandsOverIff` | apps/api/src/workers/outbox-relay.worker.ts:46-116 | in every reachable outbox some run of the relays hands a job over before a deadline exactly when it was handed over already, a relay can come to its lease, or its row is due and unlocked before the deadline |
| `OutboxArrival.CannotArriveStays` | apps/api/src/workers/outbox-relay.worker.ts:46-116 | what cannot reach the queue before a deadline cannot after any event either, unless it is committed anew for a time before it |
| `OutboxArrival.ArrivalWasPromised` | apps/api/src/modules/outbox/outbox.service.ts:29-50 | what can reach the queue before a deadline was committed for a time before it |
| `Outbox.StepKeepsInv` | apps/api/src/workers/outbox-relay.worker.ts:46-116 | each claim, deferral, hand-over, delete, failure and crash keeps that |
| `OutboxRelay.OutboxTable.Enqueue` | apps/api/src/modules/outbox/outbox.service.ts:29-50 | an insert ignores a duplicate job and otherwise adds one row that is due at now plus its delay |
| `OutboxRelay.OutboxTable.ClaimBatch` | apps/api/src/workers/outbox-relay.worker.ts:46-68 | the claiming statement leases, for half a minute, exactly the free and due rows it returns, up to fifty, and copies them |
| `OutboxRelay.OutboxTable.HandOver` | apps/api/src/workers/outbox-relay.worker.ts:75-115 | a gated row is put off by a minute while releases are not allowed, a row the queue refuses by its backoff, and any other reaches the queue and is deleted; the batch ends early only where the row was gone |
| `OutboxRelay.OutboxTable.Step` | apps/api/src/workers/outbox-relay.worker.ts:84-114 | each update pushes back or deletes its own row and finishes the first lease, or throws where the row is gone |
| `OutboxRelay.OutboxTable.AddToQueue` | apps/api/src/workers/outbox-relay.worker.ts:95-101 | the queue receives the leased job under its own id |
| `OutboxRelay.OutboxTable.Tick` | apps/api/src/workers/outbox-relay.worker.ts:44-116 | a pass deals with its rows in order, with all of them unless one was gone, and holds nothing afterwards |
| `OutboxRelay.OutboxTable.TableIsSound` | apps/api/src/workers/outbox-relay.worker.ts:44-116 | whatever the methods did, the outbox invariants hold of the table |
| `OutboxRelay.LeaseKeepsOthersOut` | apps/api/src/workers/outbox-relay.worker.ts:54-67 | until its lease runs out or a holder pushes it back, no run of the relays claims a leased row |
| `OutboxRelay.BackoffByDigits` | apps/api/src/workers/outbox-relay.worker.ts:111-111 | the backoff is one, two, four or eight minutes by the row's time modulo eight, and ten from four on |
| `OutboxRelay.ClaimIff` | apps/api/src/workers/outbox-relay.worker.ts:54-61 | a relay may claim exactly up to fifty different rows that are due and not leased |
| `LadderSafety.NoEarlyRelease` | apps/api/src/modules/escalation/escalation.service.ts:46-55 | in every run, with stale jobs, check-ins, recoveries, crashes and redeliveries, release is entered no earlier than armedAt plus interval, all waits but the last, and grace; at most once, with one release and one job for each action |
| `LadderSafety.StepKeepsTiming` | apps/api/src/modules/escalation/escalation.service.ts:145-172 | each outstanding due, run-step and grace job and each running handler carries its share of the bound |
| `LadderSafety.QueuedJobIsDue` | apps/api/src/modules/outbox/outbox.service.ts:29-33 | a job that is delivered is not early |
| `LadderSafety.StepKeepsEntry` | apps/api/src/modules/escalation/escalation.service.ts:210-258 | only the release transaction creates a release or its jobs |
| `LadderSafety.EntryFollowsLadder` | apps/api/src/modules/state/scenario-states.ts:13-28 | each entry in such a run comes straight off the whole ladder, and the committed row is coupled |
| `LadderSafety.DefaultClimb` | packages/shared/src/escalation.ts:17-22 | the shipped steps account for fifty-five minutes of the bound |
| `LadderEarly.MovesEarlyIff` | apps/api/src/modules/escalation/escalation.service.ts:36-63 | from every reachable state, for every deadline within a period from now and whatever jobs the queue will not deliver again, some run opens an incident or enters release before it exactly when a handler of that move is at work or one of its other jobs can still reach the queue |
| `LadderEarly.CheckinPostponesIff` | apps/api/src/modules/scenarios/scenarios.service.ts:176-209 | after a check-in of any run, some continuation takes a miss before a full interval exactly when a miss is being handled or an earlier due job can still reach the queue in time |
| `LadderEarly.GraceIsWaitedOutIff` | apps/api/src/modules/escalation/escalation.service.ts:176-215 | after any entry into grace, some continuation enters release before a full grace period exactly when a release is being handled or an earlier expiry job can still reach the queue in time |
| `LadderEarly.EarlyTriggerWasPromised` | apps/api/src/modules/outbox/outbox.service.ts:29-50 | the job of such an early move was committed for a time before the deadline, so it is not the latest one |
| `LadderLimits.CheckinDoesNotPostpone` | apps/api/src/modules/scenarios/scenarios.service.ts:176-209 | for every configuration, and a check-in at any moment of the first interval, a run in which the condition of `LadderEarly.CheckinPostponesIff` is met: the scenario becomes an incident when the first interval ends |
| `LadderGrace.LatestGraceIsNotWaitedOut` | apps/api/src/modules/escalation/escalation.service.ts:176-215 | for every interval, grace period and ladder, a run in which that condition is met: grace is entered, left by a check-in and entered again one interval later, and some continuation that delivers no job a second time releases before the second grace period is over |
| `EscalationService.CheckinRecovers` | apps/api/src/modules/scenarios/scenarios.service.ts:176-211 | in an armed state, or any from which some transition besides arming leads back to armed, a check-in whose row nobody moves meanwhile ends armed with a due job a full interval on |
| `EscalationService.ComesBackIff` | apps/api/src/modules/scenarios/scenarios.service.ts:178-203 | these states are armed, incident_pending, escalation_in_progress and grace_period, and each has its own way back |
| `EscalationService.MayLeaveIff` | apps/api/src/modules/scenarios/scenarios.service.ts:148-156 | a disarm is possible in the same four states; at the commit it still is in the state it read, or in the other of the two that share its key |
| `EscalationService.ScenarioSystem.RowsAreSound` | apps/api/src/modules/escalation/escalation.service.ts:36-258 | whatever the handlers below did, the invariants and the time bound hold of the rows |
| `EscalationService.ScenarioSystem.Transition` | apps/api/src/modules/state/state.service.ts:30-90 | inside a handler's transaction the row moves exactly as the state machine allows |
| `EscalationService.ScenarioSystem.Arm` | apps/api/src/modules/scenarios/scenarios.service.ts:89-142 | only a draft is armed, as of the time that was read, and its due job is added in the same commit; otherwise nothing changes |
| `EscalationService.ScenarioSystem.PerformCheckin` | apps/api/src/modules/scenarios/scenarios.service.ts:176-222 | refused without effect exactly outside the four recoverable states; there it fails only if the row has left the state it read, and otherwise the row is armed and a due job is out for a full interval after the read |
| `EscalationService.ScenarioSystem.Disarm` | apps/api/src/modules/scenarios/scenarios.service.ts:144-174 | aborts with its timestamp exactly if the state read and the state at the commit share a disarm key, and changes nothing else |
| `EscalationService.ScenarioSystem.HandleCheckinDue` | apps/api/src/modules/escalation/escalation.service.ts:36-68 | the handler does nothing unless armed; then a row still armed becomes an incident whose first step is due at once, and any other is left alone |
| `EscalationService.ScenarioSystem.RunStep` | apps/api/src/modules/escalation/escalation.service.ts:70-159 | the handler returns on a foreign state; otherwise it finishes its step, or stops where step 0 finds the incident gone |
| `EscalationService.ScenarioSystem.BeginStep` | apps/api/src/modules/escalation/escalation.service.ts:83-90 | step 0 starts the escalation exactly of an incident that is still pending, and other steps go on |
| `EscalationService.ScenarioSystem.FinishStep` | apps/api/src/modules/escalation/escalation.service.ts:145-158 | the next step is due after this step's wait; after the last one an escalation enters grace with an expiry job a grace period on, and any other state is left alone |
| `EscalationService.ScenarioSystem.BeginGrace` | apps/api/src/modules/escalation/escalation.service.ts:161-184 | an escalation enters grace with its expiry job in one commit, and nothing happens in any other state |
| `EscalationService.ScenarioSystem.HandleGraceExpiry` | apps/api/src/modules/escalation/escalation.service.ts:186-258 | a release is entered exactly if it is allowed and the row is in grace at the commit, with one release, its actions and a job for each; otherwise the tables are left alone |
| `EscalationService.ScenarioSystem.FanOut` | apps/api/src/modules/escalation/escalation.service.ts:222-255 | the two loops leave one action, with its own id, for each message that has a recipient, and a job for each, and touch no other action |
| `Text.QuoteRoundTrip` | apps/api/src/modules/audit/canonical-json.ts:51-51 | reading undoes string quoting, lone surrogates and control characters included |
| `Text.EscapesOfJson` | apps/api/src/modules/audit/canonical-json.ts:51-51 | the escapes are those of section 7 of RFC 8259: short ones, hexadecimal ones for other controls and lone surrogates, nothing else |
| `Text.LessIff` | apps/api/src/modules/audit/canonical-json.ts:39-39 | the sort order is the lexicographic one by code units: a proper prefix, or smaller at the first difference |
| `CanonicalJson.OrderedUnique` | apps/api/src/modules/audit/canonical-json.ts:40-45 | members in enumeration order are determined by which they are |
| `CanonicalJson.FilledOrders` | apps/api/src/modules/audit/canonical-json.ts:40-45 | filling a fresh object in sorted key order enumerates array indices first, numerically, then the other keys, and drops `__proto__` |
| `CanonicalJson.BeforeIff` | apps/api/src/modules/audit/canonical-json.ts:39-43 | keys are enumerated array indices first and by number, then the others by code units, each stated by what the keys are |
| `CanonicalJson.NormalKeysStand` | apps/api/src/modules/audit/canonical-json.ts:38-42 | in every object of a normal form the keys stand in that order |
| `CanonicalJson.TextsOfValues` | apps/api/src/modules/audit/canonical-json.ts:47-60 | the tokens of the text, its separators without white space, and what bytes and dates turn into |
| `CanonicalJson.NormalFormIsNormal` | apps/api/src/modules/audit/canonical-json.ts:21-45 | normalising gives a normal form |
| `CanonicalJson.NormalFormIdempotent` | apps/api/src/modules/audit/canonical-json.ts:21-45 | a normal form is its own normal form |
| `CanonicalJsonParser.ParsePrint` | apps/api/src/modules/audit/canonical-json.ts:47-60 | a parser undoes the printer on every normal form, whatever follows |
| `CanonicalJsonLaws.PrintInjective` | apps/api/src/modules/audit/canonical-json.ts:47-60 | different normal forms print differently |
| `CanonicalJsonLaws.SameIffEqualForms` | apps/api/src/modules/audit/canonical-json.ts:21-45 | normal forms are equal exactly for the same JSON up to key order |
| `CanonicalJsonLaws.CanonicalTextDecides` | apps/api/src/modules/audit/canonical-json.ts:17-19 | canonical texts are equal exactly for the same JSON up to key order |
| `CanonicalJsonLaws.KeyOrderIrrelevant` | apps/api/src/modules/audit/canonical-json.ts:40-45 | the order in which keys were inserted or stored does not change the text |
| `CanonicalJsonLaws.ProtoLeavesNoTrace` | apps/api/src/modules/audit/canonical-json.ts:42-43 | a member named `__proto__` leaves no trace in the text |
| `CanonicalJsonLaws.PrintIsWellFormed` | apps/api/src/modules/audit/canonical-json.ts:47-60 | the text has no lone surrogate, so hashing its UTF-8 form loses nothing |
| `CanonicalJsonLaws.NormalizeMembers` | apps/api/src/modules/audit/canonical-json.ts:40-45 | the loop that fills the object computes the normal form, or throws exactly where some value has none |
| `CanonicalJsonLaws.Normalize` | apps/api/src/modules/audit/canonical-json.ts:21-45 | the recursion computes the normal form, or throws exactly on unsupported values |
| `CanonicalJsonLaws.Canonicalize` | apps/api/src/modules/audit/canonical-json.ts:17-19 | the text is the canonical one, is well formed, parses back to the normal form, and its keys stand in code-unit order after the array indices |
| `AuditChain.HashInputDecides` | apps/api/src/modules/audit/audit.service.ts:63-72 | two hash inputs are the same JSON only when scope, number, every field and the previous hash agree, the payload as JSON |
| `AuditChain.RowIsWritten` | apps/api/src/modules/audit/audit.service.ts:63-72 | the text hashed for a row has the eight named members in code-unit order of their names, the payload in its normal form |
| `AuditChain.ScopesDecide` | apps/api/src/modules/audit/audit.service.ts:9-11 | two events share a chain exactly if they name the same scenario, or neither names one and the user is the same |
| `AuditChain.CheckRow` | apps/api/src/modules/audit/audit.service.ts:98-110 | one row is intact exactly when its hash is that of its text and it names the hash before it; it throws exactly without a text, and is otherwise reported by its number |
| `AuditChain.VerifyChain` | apps/api/src/modules/audit/audit.service.ts:92-114 | a chain is passed exactly when every row links; otherwise the first row that does not is reported |
| `AuditChain.VerifiedRows` | apps/api/src/modules/audit/audit.service.ts:92-114 | a verifying chain begins with sixty-four zeros, and each row names the hash before it and has that of its own text |
| `AuditChain.LastHashCommits` | apps/api/src/modules/audit/audit.service.ts:92-114 | two verifying chains with one last hash agree row by row in every hashed field, unless two of their own texts collide or one hashes to the genesis value |
| `AuditChain.RewriteIsReported` | apps/api/src/modules/audit/audit.service.ts:92-114 | so a rewrite that keeps the last hash does not verify |
| `AuditChain.TruncationVerifies` | apps/api/src/modules/audit/audit.service.ts:92-114 | a chain cut short still verifies |
| `AuditLog.NewRowLinks` | apps/api/src/modules/audit/audit.service.ts:63-87 | a row made for the end of a chain links to it, whatever key order the database keeps the payload in |
| `AuditLog.InsertAppends` | apps/api/src/modules/audit/audit.service.ts:50-88 | an insert never meets a taken number: it puts one row at the end, or nothing where the payload has no text |
| `AuditLog.ChainsStaySound` | apps/api/src/modules/audit/audit.service.ts:50-88 | however transactions of all scopes interleave, every chain stays numbered 1 to n, verifies, and only grows at its end |
| `AuditLog.AuditService.Record` | apps/api/src/modules/audit/audit.service.ts:40-90 | one call waits for its lock and ends with its event as the last row of its chain; otherwise it has written nothing and the cause it names is there: a lock still held, a payload without text, or a refused insert |
| `AuditLog.AuditService.ReadLast` | apps/api/src/modules/audit/audit.service.ts:54-60 | the last row is read under the lock and stays last |
| `AuditLog.AuditService.InsertRow` | apps/api/src/modules/audit/audit.service.ts:62-88 | the computed row is inserted, or the table is untouched exactly because the payload has no text or the insert was refused |
| `AuditLog.AuditService.VerifyScope` | apps/api/src/modules/audit/audit.service.ts:92-114 | verification passes on every chain the service wrote |
| `AuditExport.GapTestIsExact` | apps/api/src/workers/audit-export.worker.ts:85-89 | counting rows is a sound and complete gap test, and then each row stands at its number |
| `AuditExport.WatermarkIsCovered` | apps/api/src/workers/audit-export.worker.ts:73-148 | over all runs of overlapping or crashing passes, rows 1 to the watermark exist, each is in the sink unless it was only logged, and every object copies the table |
| `AuditExport.ExportedExactlyOnce` | apps/api/src/workers/audit-export.worker.ts:73-148 | with one exporter and no crash between write and watermark, the sink read through is rows 1 to the watermark once and in order, and the watermark never falls |
| `AuditExport.EverythingIsInSink` | apps/api/src/workers/audit-export.worker.ts:109-148 | in every run without a dry run, whatever passes overlap or stop, every row to the watermark is in the sink |
| `AuditExport.DryRunAdvances` | apps/api/src/workers/audit-export.worker.ts:129-148 | with a dry run it need not be: a run after which the watermark has passed a row that is in no sink |
| `AuditExport.AdvanceLowersIff` | apps/api/src/workers/audit-export.worker.ts:134-148 | a pass lowers the watermark exactly when another has moved it since this one read it, and the last to do so moved it beyond the end of this one |
| `AuditExport.WatermarkNeverFalls` | apps/api/src/workers/audit-export.worker.ts:64-148 | while passes do not overlap the watermark never falls, though they stop anywhere or only log |
| `AuditExport.OverlapMovesBack` | apps/api/src/workers/audit-export.worker.ts:134-148 | a run in which that happens: two passes at once move the watermark back and ship a row twice |
| `AuditExport.Exporter.FetchBatch` | apps/api/src/workers/audit-export.worker.ts:74-110 | nothing exactly if the watermark has reached the last number, a gap exactly if a number of the batch is missing, and otherwise the lines of the table up to the batch size |
| `AuditExport.Exporter.Put` | apps/api/src/workers/audit-export.worker.ts:114-131 | with a bucket the sink gets one object with the lines, without one the numbers are logged, and nothing else changes |
| `AuditExport.Exporter.AdvanceWatermark` | apps/api/src/workers/audit-export.worker.ts:133-148 | the watermark becomes the end of what was shipped |
| `AuditExport.Exporter.ExportPass` | apps/api/src/workers/audit-export.worker.ts:55-150 | an exporting pass ends with everything up to the watermark exported, where the table or the batch size ends it; nothing and gap are reported only with their cause |
| `CircuitBreaker.RecentTwice` | apps/api/src/modules/safety/circuit-breaker.service.ts:155-159 | a window trimmed earlier and again now is the full history trimmed now |
| `CircuitBreaker.CooldownDoubles` | apps/api/src/modules/safety/circuit-breaker.service.ts:161-168 | doubling and capping at each opening is the closed form min(max, initial * 2^k) |
| `CircuitBreaker.FailuresOpenAt` | apps/api/src/modules/safety/circuit-breaker.service.ts:22-46 | with the shipped limits failures in a row open a breaker exactly from the ninth on, the first of the key service, the seventh of the voice provider, the fourteenth of a social one |
| `CircuitBreaker.AmbiguitiesOpenAt` | apps/api/src/modules/safety/circuit-breaker.service.ts:22-46 | within five minutes five ambiguous outcomes open a breaker, and three that of the voice provider |
| `CircuitBreaker.FirstCooldown` | apps/api/src/modules/safety/circuit-breaker.service.ts:22-46 | the first opening lasts two minutes, thirty seconds, three or four minutes, by provider |
| `CircuitBreaker.LongestCooldown` | apps/api/src/modules/safety/circuit-breaker.service.ts:22-46 | from the fourth opening on a cooldown lasts ten minutes, two for the key service, fifteen for a social provider |
| `CircuitBreaker.WindowNeverDecides` | apps/api/src/modules/safety/circuit-breaker.service.ts:22-46 | with these limits the window of failures never decides: after any history a failure opens a breaker exactly by the count since the last success, or as a failed probe |
| `CircuitBreaker.ServiceRefinesHistory` | apps/api/src/modules/safety/circuit-breaker.service.ts:73-178 | after any sequence of outcomes the windows, counters and doubling cooldown decide as the unbounded history since the last success would |
| `CircuitBreaker.OpeningIsDecidedByHistory` | apps/api/src/modules/safety/circuit-breaker.service.ts:121-140 | a failure opens the breaker exactly when the full history says so, with the cooldown of its opening |
| `CircuitBreaker.NoProbeWithoutUnisolate` | apps/api/src/modules/safety/circuit-breaker.service.ts:73-98 | without an un-isolate there is no half-open state |
| `CircuitBreaker.OpenedStaysShut` | apps/api/src/modules/safety/circuit-breaker.service.ts:73-76 | an opened provider is refused, whatever the clock, until a success or an un-isolate |
| `CircuitBreaker.ProbeIsLetThrough` | apps/api/src/modules/safety/circuit-breaker.service.ts:80-94 | a probe goes through exactly when the provider is not isolated and its cooldown is over |
| `CircuitBreaker.CircuitBreakerService.AssertClosed` | apps/api/src/modules/safety/circuit-breaker.service.ts:73-98 | the check passes exactly if the provider is not isolated and not open before its probe time, and then turns an open row half open; no other row changes |
| `CircuitBreaker.CircuitBreakerService.RecordSuccess` | apps/api/src/modules/safety/circuit-breaker.service.ts:100-119 | a success clears windows, counters, cooldown and isolation of its provider only |
| `CircuitBreaker.CircuitBreakerService.RecordFailure` | apps/api/src/modules/safety/circuit-breaker.service.ts:121-140 | a failure is counted in window and row, and opens exactly if the count is within one of its limit, the window is full or the row was half open |
| `CircuitBreaker.CircuitBreakerService.RecordAmbiguous` | apps/api/src/modules/safety/circuit-breaker.service.ts:142-153 | an ambiguous outcome is counted in its own window and row, and opens exactly if that window is full |
| `CircuitBreaker.CircuitBreakerService.TrimWindow` | apps/api/src/modules/safety/circuit-breaker.service.ts:155-159 | the filter keeps exactly the recent times, each as often as it was there |
| `CircuitBreaker.CircuitBreakerService.OpenBreaker` | apps/api/src/modules/safety/circuit-breaker.service.ts:161-177 | opening lasts twice the last cooldown within its limits, and isolates the provider |
| `SafetyMode.AutomaticExitDwells` | apps/api/src/modules/safety/safety-mode.service.ts:99-109 | the watcher alone leaves audit_compromised or emergency_freeze for normal only through release_restricted or degraded, after that mode stood unbroken for over 30 or 15 minutes, in a tick in which no rule fired |
| `SafetyMode.CleanTickExitsIff` | apps/api/src/modules/safety/containment.service.ts:131-144 | after every history of ticks whose rules fired only for the mode already on, a clean tick takes the exit exactly when the dwell has passed since that mode was first entered |
| `SafetyMode.FreezeExitsIff` | apps/api/src/modules/safety/containment.service.ts:131-146 | from either protective mode, once a rule fires release_restricted or degraded, the next clean tick leads to normal exactly if that dwell is over, and no operator is asked |
| `SafetyMode.OneCleanTickExits` | apps/api/src/modules/safety/containment.service.ts:131-139 | one such run: an exit fifteen seconds after a rule fired |
| `SafetyMode.ContainmentService.ReachesItsState` | apps/api/src/modules/safety/containment.service.ts:24-148 | the recorded events of the methods lead to the state |
| `SafetyMode.ContainmentService.EnterAuto` | apps/api/src/modules/safety/safety-mode.service.ts:87-141 | an automatic change is refused exactly from the two protective modes to normal, does nothing to the mode already on, and otherwise enters the mode now, as automatic; the cache is refreshed |
| `SafetyMode.ContainmentService.Current` | apps/api/src/modules/safety/safety-mode.service.ts:50-57 | the row returned is the cached one if it was fetched less than five seconds ago, and else the current one, which is then cached |
| `SafetyMode.ContainmentService.Tick` | apps/api/src/modules/safety/containment.service.ts:24-148 | a tick reports exactly the rules that found something and enters their modes in that order; a clean one exits exactly if the row it was shown was entered automatically and has stood for over thirty minutes restricted, or fifteen degraded |
| `SafetyMode.ContainmentService.RunRules` | apps/api/src/modules/safety/containment.service.ts:27-129 | the six rules in order, each with its threshold and its mode, spelled out |
| `AttachmentBlob.ParseUndoesLayout` | apps/api/src/modules/attachments/attachment-token-crypto.ts:62-81 | a written blob reads back as its parts, provided there is room for a tag |
| `AttachmentBlob.LayoutUndoesParse` | apps/api/src/modules/attachments/attachment-token-crypto.ts:62-81 | a blob that reads is the layout of what was read |
| `AttachmentBlob.RefusedBlobs` | apps/api/src/modules/attachments/attachment-token-crypto.ts:67-75 | a blob that cannot be read is refused by the first length its bytes do not hold |
| `AttachmentBlob.WriteUInt16BE` | apps/api/src/modules/attachments/attachments.service.ts:98-101 | a header is written exactly for lengths of sixteen bits, most significant octet first |
| `AttachmentBlob.BuildBlob` | apps/api/src/modules/attachments/attachments.service.ts:97-102 | the writer gives nonce and wrapped key, each after its length, and then the ciphertext, or throws exactly when a length does not fit |
| `AttachmentNames.SanitizeFilename` | apps/api/src/modules/attachments/attachment-mime.ts:49-64 | the loop computes the sanitized name: what is left, cut to 200, or the fallback where nothing is left |
| `AttachmentNames.MappedOne` | apps/api/src/modules/attachments/attachment-mime.ts:52-60 | what becomes of each character: control characters go, each of the nine reserved ones becomes an underscore, every other stays |
| `AttachmentNames.TrimmedIs` | apps/api/src/modules/attachments/attachment-mime.ts:61-61 | all dots at the end, and then all white space on both sides, and nothing else, are taken off |
| `AttachmentNames.SanitizedIsSafe` | apps/api/src/modules/attachments/attachment-mime.ts:42-64 | a sanitized name is not empty, at most 200 code units, and free of control, separator and reserved characters |
| `AttachmentNames.SanitizeTwice` | apps/api/src/modules/attachments/attachment-mime.ts:61-63 | sanitizing again changes a sanitized name exactly when it ends in a dot or in white space |
| `AttachmentNames.SanitizeIsNotIdempotent` | apps/api/src/modules/attachments/attachment-mime.ts:61-63 | `a. ` becomes `a.` and then `a` |
| `AttachmentNames.SanitizedWellFormedIff` | apps/api/src/modules/attachments/attachment-mime.ts:49-64 | the sanitized form of a well-formed name is well-formed exactly when it is not cut, or the cut does not fall between the halves of a surrogate pair |
| `AttachmentNames.TruncationMaySplitAPair` | apps/api/src/modules/attachments/attachment-mime.ts:62-62 | the names where it does: 199 plain code units and a pair |
| `AttachmentNames.SniffMime` | apps/api/src/modules/attachments/attachment-mime.ts:14-41 | each type is given exactly for its bytes, spelled out, GIF and RIFF compared without the top bit, and plain text exactly when no signature matches and over 95 per cent of the first 4096 bytes are printable |
| `AttachmentNames.JoinInjective` | apps/api/src/modules/attachments/attachment-mime.ts:77-84 | parts without a pipe can be told apart after joining |
| `AttachmentNames.AadTexts` | apps/api/src/modules/attachments/attachment-mime.ts:71-104 | the two forms of the string, written out |
| `AttachmentNames.AadDecides` | apps/api/src/modules/attachments/attachment-mime.ts:71-104 | for a row of pipe-free parts and any second row with a pipe-free id, pipes in its other parts included, the strings are equal exactly when both bind the same, or the second is of the first version and its bundle id repeats what the first binds, whose name is its id |
| `AttachmentNames.OlderFormRepeats` | apps/api/src/modules/attachments/attachment-mime.ts:77-104 | that exception exists: every second-version row named like its id has such a row of the first version with the same string |
| `AttachmentNames.SealAadDecides` | apps/api/src/modules/attachments/attachment-token-crypto.ts:29-40 | the strings of re-sealed keys are equal exactly for the same token index and attachment, whatever the attachments' ids |
| `AttachmentNames.SealAadText` | apps/api/src/modules/attachments/attachment-token-crypto.ts:20-37 | the string of a re-sealed key, written out |
| `AttachmentNames.EncodedAadDecides` | apps/api/src/modules/attachments/attachment-download.service.ts:257-264 | after encoding, with lone surrogates replaced, the same decision holds of the encoded parts |
| `AttachmentStore.Seal` | apps/api/src/modules/crypto/envelope.service.ts:21-36 | the parts hold the text sealed under the key and associated data, and the key is wiped also where the key service fails |
| `AttachmentStore.Open` | apps/api/src/modules/crypto/envelope.service.ts:39-53 | of parts sealed under any key and data, opening gives back the text exactly under data that encode alike and refuses under all others |
| `AttachmentStore.DeliverReturnsUpload` | apps/api/src/modules/attachments/attachment-download.service.ts:171-211 | blob, token and row as they were written deliver exactly the uploaded bytes with the row's name and type |
| `AttachmentStore.TamperedRowDeliversNothing` | apps/api/src/modules/attachments/attachment-download.service.ts:244-269 | with blob and hash untouched, a row changed in any way, pipes included, delivers exactly when what its version binds encodes the same, or it repeats it in the older form; otherwise nothing is delivered |
| `AttachmentStore.StoredRowIsTamperEvident` | apps/api/src/modules/attachments/attachment-download.service.ts:171-269 | the same of every row that an upload has stored, of every token there is for it, and of every row put in its place with its hash |
| `AttachmentStore.MisplacedTokenDeliversNothing` | apps/api/src/modules/attachments/attachment-token-crypto.ts:42-56 | a key re-sealed for one attachment does not open under another, whatever their ids |
| `AttachmentStore.ReplacedBlobDelivers` | apps/api/src/modules/attachments/attachment-download.service.ts:143-187 | a blob in place of the stored one that does not read or does not have the row's hash is refused whoever asks; one with the stored nonce and ciphertext delivers, whatever wrapped key it carries |
| `AttachmentStore.AttachmentServices.Upload` | apps/api/src/modules/attachments/attachments.service.ts:73-139 | an upload writes a blob and then a row that hold the file under its sanitized name, as the database encodes it, and its sniffed type; a failure leaves no row, and a blob only where the row was refused |
| `AttachmentStore.AttachmentServices.StoreUpload` | apps/api/src/modules/attachments/attachments.service.ts:104-134 | the blob is created and never overwritten, the row follows it, and what was written on each outcome is stated |
| `AttachmentStore.AttachmentServices.IssueOne` | apps/api/src/modules/attachments/attachment-release-issuer.service.ts:141-214 | one token is stored that opens the attachment's key; the call fails for a blob that is gone, a key service that does not answer, an insert that is refused or an index that is taken, only for these, and then stores nothing |
| `AttachmentStore.AttachmentServices.IssueForAction` | apps/api/src/modules/attachments/attachment-release-issuer.service.ts:83-139 | every attachment of the bundle gets one token that opens its key, held by its secret and for it alone wherever it still is; a failure leaves exactly the tokens before it |
| `AttachmentStore.AttachmentServices.CheckToken` | apps/api/src/modules/attachments/attachment-download.service.ts:68-124 | a token is refused as unknown, foreign, revoked, expired or used up, whichever comes first and exactly where that is so, and otherwise passes and verifies |
| `AttachmentStore.AttachmentServices.ClaimUse` | apps/api/src/modules/attachments/attachment-download.service.ts:126-145 | a use is claimed exactly of a token that is there, not revoked, not expired and not used up, and costs exactly one use |
| `AttachmentStore.AttachmentServices.Download` | apps/api/src/modules/attachments/attachment-download.service.ts:65-242 | refused before a use is claimed exactly as the fields of the row that is read say, without a use; otherwise what comes back is exactly what was uploaded under that id and costs one use, unless the token has lapsed at the claim or the blob is gone |
| `AttachmentStore.AttachmentServices.ClaimAndDeliver` | apps/api/src/modules/attachments/attachment-download.service.ts:126-211 | from the claim on, only a token that is not usable any more, or a missing blob after its use is booked, keeps the upload from its holder |
| `AttachmentTokens.RevokedIsNotUsed` | apps/api/src/modules/attachments/attachment-download.service.ts:126-145 | after a revocation no run uses the index again unless a token is stored anew under it |
| `AttachmentTokens.TokenIsUsedWithinLimit` | apps/api/src/modules/attachments/attachment-download.service.ts:126-145 | over every run a stored token is used at most as often as it allows |
| `AttachmentTokens.UsesAreLimited` | apps/api/src/modules/attachments/attachment-download.service.ts:126-145 | from any state on, uses never exceed what is left of the token, and all come before it expires |
| `Kek.PadKey` | apps/mobile/src/crypto/kek.ts:75-85 | the key is brought to one block as section 2 of RFC 2104 says, for keys of any length |
| `Kek.HmacSha256` | apps/mobile/src/crypto/kek.ts:75-103 | the loops and copies compute H(K xor opad, H(K xor ipad, text)), the pads spelled out |
| `Kek.FirstInput` | apps/mobile/src/crypto/kek.ts:60-65 | salt followed by the block number in four octets, most significant first |
| `Kek.OctetsValue` | apps/mobile/src/crypto/kek.ts:60-65 | the four octets read back, most significant first, as the number modulo 2^32 |
| `Kek.Pbkdf2Block` | apps/mobile/src/crypto/kek.ts:54-73 | the rounds xor in place to F of section 5.2 of RFC 8018 |
| `Kek.Pbkdf2` | apps/mobile/src/crypto/kek.ts:38-52 | for all passwords, salts, counts and lengths the copied blocks are the derived key of section 5.2 of RFC 8018 |
| `Kek.HexToBytes` | apps/mobile/src/crypto/kek.ts:105-113 | hexadecimal text gives back the bytes it was made from |
| `PauseBudget.StepKeepsSound` | apps/api/src/modules/contacts/contacts.service.ts:80-121 | every read, check, compare-and-swap and removal keeps used seconds equal to what was granted, within the budget, and grants apart |
| `PauseBudget.GrantsWithinBudget` | apps/api/src/modules/contacts/contacts.service.ts:80-121 | over all interleavings the granted seconds sum to pauseUsedSeconds and never exceed the budget |
| `PauseBudget.GrantsAreSpaced` | apps/api/src/modules/contacts/contacts.service.ts:90-101 | grants are half an hour apart on the request clock, so a window W holds at most floor(W / 30 min) + 1 |
| `PauseBudget.EffectsAreSpaced` | apps/api/src/modules/contacts/contacts.service.ts:90-114 | over all runs any two grants take effect at least as far apart as their half hours less the delay of the earlier commit |
| `PauseBudget.EveryDelayIsReached` | apps/api/src/modules/contacts/contacts.service.ts:100-114 | for every delay a run meets that bound with equality, down to two grants at the same moment |
| `PauseBudget.ContactsService.JudgeRequest` | apps/api/src/modules/contacts/contacts.service.ts:89-101 | refused for cooldown exactly while it lasts, then for the budget exactly if none is left, and otherwise granted the smallest of request, single limit and rest |
| `PauseBudget.ContactsService.UpdateContact` | apps/api/src/modules/contacts/contacts.service.ts:103-117 | the update takes effect exactly when both counters are still what was read, and then writes all three columns, the cooldown half an hour after the check |
| `PauseBudget.ContactsService.RequestPause` | apps/api/src/modules/contacts/contacts.service.ts:80-121 | a granted request gets the smallest of request, single limit and rest, and reports exactly what that leaves, never less than nothing; each refusal names a cause that is there, and the first two are exact |

## Left out

- ReleaseExecutor.ReleaseSystem.Run: a run of the method neither crashes nor loses a database write; crashes, throws and a failing bookkeeping transaction are steps of the machine the theorems are about, and other runs take them at every await.
- ReleaseAttempts.RelayedActionCallsOnce: that a queue told no number of attempts makes one is what its library documents; jobs an operator retries by hand are not part of the model.
- LadderSafety.NoEarlyRelease: one scenario, whose interval, grace period and step waits do not change after arming; clocks of all processes are one clock that does not go back.
- LadderEarly.MovesEarlyIff: which jobs the queue will not deliver again is an argument; how it keeps them apart is not part of the model.
- CircuitBreaker.CircuitBreakerService.RecordFailure: one process and one call at a time; counters of several processes and the time between the row update and the isolation are not modelled, nor is the five-second cache in front of the isolation list.
- AuditExport.ExportedExactlyOnce: holds of a single exporter; the worker has no lock of its own.
- AuditExport.Exporter.ExportPass: one scope; scopes share nothing but the query that lists them.
- AuditChain.LastHashCommits: the digest is a parameter; collisions among the hashed texts are excluded by name, not by an assumption about the digest. The verifier's rows come in the order of their numbers.
- CanonicalJsonLaws.CanonicalTextDecides: a finite number other than an integer below 10^21 in size stands for its printed text; cyclic values and array holes are not modelled.
- AttachmentStore.TamperedRowDeliversNothing: the parts of the stored row are pipe-free, as they are after every upload for ids without a pipe; the changed row is arbitrary but for the hash and the id it is read by. A row moved to the first version is not told apart when its bundle id repeats the whole binding and the name equals the id; that bundle ids name existing bundles is not part of this model.
- AttachmentStore.AttachmentServices.IssueOne: the wiping of the two keys is modelled for sealing and opening only, and a change of a blob other than its removal is not modelled in the shared store; a process that stops ends its method early, which others do at every await.
- AttachmentStore.AttachmentServices.Download: ciphers, key derivation, token hashing and the digest are parameters with the laws named in `RoundTrips` and `Binds`; audit records along the way are left out. Reading a tampered store is the subject of the lemmas, not of this method.
- Kek.HexToBytes: what the number parser makes of text that is not hexadecimal is not modelled; neither are the secure store and the encoding of the password.
- PauseBudget.GrantsAreSpaced: the spacing is on the clock of the check; `PauseBudget.EffectsAreSpaced` has the times of effect.
- SafetyMode.ContainmentService.Tick: what the rules find is an argument; the sibling sweep of the first rule is a step of the release machine. Provider isolation and the audit record of a mode change are not part of this model.
- Dual-control requests, their approval and expiry; login, sessions, devices and vault contents; controllers, validation and configuration: they would add single-branch checks.
- The capability matrix: a finite table; where a step depends on it the answer is left open.
- Check-in rows, abort codes, escalation attempts and the messages of the ladder: nothing in the state machine reads them back; `abort` differs from `disarm` by its code and by refusing the armed state.
- Text of idempotency keys and job ids: keys are pairs and jobs are values, which keeps apart whatever the texts keep apart.
- Liveness: nothing says that a release completes or a job is ever delivered, and the code does not promise it.
- Message bodies, rendering, provider clients, object storage and queues: foreign calls with any outcome.

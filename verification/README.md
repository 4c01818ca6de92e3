# Verification of the QAForge execution core

QAForge drives software-testing projects through human gates, runs test cases in browsers, heals
recorded scripts and reports the results. This project models the parts of it where correctness
depends on interleaving, on long histories or on a round trip, and proves what they keep.

| module | what it models |
|---|---|
| `ContinueWait` | the worker's pause at a gate: a poll of two durable Redis keys, a pub/sub channel and a timer racing an API that publishes |
| `GateProtocol` | one STLC execution after login: worker, API handlers, Redis keys and messages, step by step |
| `PreLogin` | the gates before login, where each answer queues a new job that replays the clarification loop |
| `RunHandout` | runs handed to polling local runners by a guarded write, among unguarded writes |
| `RunLifecycle` | the end of a cloud run, racing Stop and Complete |
| `FailurePipeline` | replay, retry, route, heal, verify three times, dispose |
| `ScriptHistory` | one script's whole life under recordings, heals by stale copies, and human decisions |
| `FolderClosure`, `FolderForest`, `EnsureFolders`, `FolderOutcome` | the suite folders: closure of a selection, the two-level forest, the reconciliation and what it leaves |
| `Csv`, `Xml`, `Text` | the report printers, each with a reader written from its standard |
| `RateLimit` | the request limiter over whole runs of any keys |
| `Roster` | the choice of cases for the next automation run |
| `Suite` | the manual suite, its retest and the reported totals |
| `Common` | options and sequence facts |

Concurrent code is a transition system: one step is one database or Redis access, or one API call,
and the theorems quantify over every interleaving. Code that updates rows, fields or arrays in place
is written as methods on classes or as loops, proved against the same step functions. What a browser,
a model, a router or a clock does is a parameter, so the theorems hold for any of them.

## What was found

Where a property one would expect is false of the code, the code is modelled as it is, a lemma gives
an input that shows it, and another says exactly when the property holds.

- **A second "continue after login" skips a gate.** `continueAfterLogin` is accepted at RUNNING as well
  as at AWAITING_LOGIN (`apps/api/src/executions/executions.service.ts:823-826`), and its flag then waits
  for whichever gate comes next. Accepting it is safe exactly when the wait it will release is the login
  wait, one already approved, or none (`ContinueSafeIffHarmless`). Restricting it to AWAITING_LOGIN is not
  enough, since the worker writes that status twice before it waits (`LoginStatusIsNotEnough`); accepting it
  once per execution is, as long as no message comes harmfully late (`OneContinueIsSafe`).
- **One publish can release two waits.** Setting the flag and sending the message are two commands, and
  one publish can release two waits (`SplitPublishReleasesTwice`). Over any run, releases exceed publishes
  by at most the number of late messages (`ReleasesBounded`), and sending a message can over-release
  exactly when it is late: a subscribed, unsettled wait hears it first, and neither the flag nor any trace
  of a publish is left (`SendOverReleasesIffLate`). For the gates this means that the approval of one gate,
  published in two commands, can also release the next (`SplitApprovalSkipsNextGate`, `SplitApprovalFromTheStart`), and that even a
  single continue can (`SplitContinueSkipsAGate`); sending the message is safe exactly when it is not late
  or the wait that hears it may be released (`SendSafeIffHarmless`). With atomic publishes no message is late.
- **An accepted cancel can be lost.** A poll that takes the cancel key does not always make the wait end
  cancelled: the wait can still be released exactly when the continue flag is on its way back from an earlier
  poll, a continue message is the first to be heard, or none is heard yet and one is still sent
  (`CancelWinsAtPoll`). In an execution, a continue at the login wait followed by a cancel can leave the worker
  running with no trace of the cancel (`AcceptedCancelIsLost`). Expiry apart, an accepted cancel can be lost
  exactly when something is ahead of it: the worker is in a wait that an earlier poll or message may still
  release after the key is taken, or has yet to subscribe while a message is due (`CancelLostIffAhead`).
  Before a wait settles a cancel is never lost (`CancelNeverLost`).
- **A clarification answer can be lost.** The status invites answers before the round is stored. An accepted
  answer is stored exactly when an unanswered round is (`ClarifyAnswersIffRoundIsOpen`, `EarlyAnswerIsLost`).
- **A left-over cancel key overrules Complete** (`StaleKeyOverwritesComplete`). A cloud run ends as a person
  decided for every interleaving exactly when no cancel key was left over as it started
  (`EndsAsDecidedIffNoKeyAtStart`).
- **A run that is queued again can be lost.** If its earlier claim is not yet written down it ends PENDING
  with that claim on it, and no runner takes it (`RequeueCanStrand`); if an earlier job is still running,
  the end of that job turns it to RUNNING with nobody working on it (`RequeueCanBeSwallowed`). Queueing a
  run is honoured along every later run of the runners, that is, it stays claimable until it is claimed and
  is claimed as it was queued, exactly when no earlier claim or job is outstanding and no runner is about
  to claim with an older selection (`QueueHonouredIffUndisturbed`).
- **"VERIFIED" in a runner's heal log means that verification failed** (`VerifiedLabelMeansFailed`,
  `FailedHealLabelledVerified`).
- **Failed heals are not counted.** The router speaks of two heal cycles that failed
  (`packages/shared/src/automation/qa-agent-router.ts:118`), but the count it is given grows only with heals
  that were committed and with quarantines (`HealCountCounts`): a script whose rule heal fails verification
  every time is healed by rule again and never quarantined (`FailedHealsNeverQuarantine`).
- **Approving a heal without a patch restores an old log.** A proposal held for the LLM healer keeps the log
  that was replayed; its approval gives the script that log, also when a newer one was recorded since
  (`ApprovalGivesThePatch`, `ApprovalBringsBackOldLog`).
- **Two features' subfolders can be confused.** A case is looked up under its two keys joined by two colons.
  The joined keys of two features can be equal exactly when one feature key with the separator runs into the
  other (`SubKeysCollideIffClash`); a case then lands in the other feature's subfolder (`ClashMisplaces`), and
  without such keys it lands in its own (`CasesAfterRun`).
- **The folder reconciliation depends on the order in which rows are read, once a subfolder was moved up.**
  With at most one top folder per feature key it is idempotent however the rows are read back, since no
  writer of feature keys in the repository makes a blank one (`SecondRunIdleIff`, `EnsureTwice`). Two
  overlapping runs keep the top folders unique exactly when none was missing
  (`OverlappingRunsKeepUniqueTopsIff`). Moving a subfolder to the top
  beside its parent gives a key two top folders (`MovingUpBesideItsParent`), and then a second run in
  another order can write again (`MovedSubfolderUndoesIdempotence`). What a run leaves needs no further
  writes in every order exactly when no key is blank and every top folder of a feature with several
  requirements has its subfolders (`EveryOrderIffAllTopsSplit`).
- **A CSV with one column loses its last record when that cell is empty** (`LastBlankIsLost`), and only then
  (`CsvRoundTrip`).
- **The rate limiter is not a sliding window** as its comment says: in a closed interval as long as the
  window up to twice the limit gets through, and that is reached (`AtMostTwice`, `TwiceIsReached`). From an
  instant on it keeps to the limit exactly when the limit is 0, or the bucket is still open then and is either
  full or outlives the interval (`KeepsLimitIff`, `KeyKeepsLimitIff`); a run keeps to it in any interval in
  which no window rolls over (`AtMostMaxWithoutRollover`).
- **Reported totals.** A case that fails and passes its retest is reported as one passed and one failed
  (`RetestedPassIsCountedAsFailure`), and a pass whose event cannot be published is counted as a pass and as
  a failure. Passed and failed add up to the total exactly when the latter never happened and either
  nothing failed or something failed again in the retest (`RunAndScore`).

## Model

| member | source | states |
|---|---|---|
| `ContinueWait.SettlesAtMostOnce` | apps/worker/src/redis.ts:100-171 | once settled, no later reply, message, timer or error changes how the wait ends |
| `ContinueWait.CancelWinsAtEntry` | apps/worker/src/redis.ts:88-95 | with the cancel key set on entry the wait ends cancelled in every interleaving, and a continue flag is left unspent |
| `ContinueWait.CancelWinsAtPoll` | apps/worker/src/redis.ts:100-171 | after a poll took the cancel key, with replies, messages, polls and the timer in any order, the wait can be released if and only if a continue reply or message is ahead of the cancel, or none is heard yet and a continue may still be sent |
| `ContinueWait.CancelWinsFrom` | apps/worker/src/redis.ts:100-171 | the invariant behind it: once a cancel is what the wait will learn first, no course of events releases it |
| `ContinueWait.CancelTraceStep` | apps/worker/src/redis.ts:88-171 | the last trace of a cancel goes only by cancelling the wait, by expiry, or when the wait ends otherwise after a poll took the key |
| `ContinueWait.CancelNeverLost` | apps/api/src/queue/queue.service.ts:172-188 | until the wait settles, a published cancel is in the key, a reply or the inbox for the key's lifetime |
| `ContinueWait.TokensStep` | apps/worker/src/redis.ts:88-171 | no step yields more releases and traces than it uses up, publishes and late messages give it |
| `ContinueWait.ReleasesBounded` | apps/api/src/queue/queue.service.ts:153-170 | for publishes in one step or two, over any number of waits: releases plus what is left never exceed publishes and late messages plus what was there |
| `ContinueWait.ReleasesNeverExceedPublishes` | apps/api/src/queue/queue.service.ts:153-170 | releases never exceed publishes in any run whose messages are all sent in time |
| `ContinueWait.AtomicSendsInTime` | apps/api/src/queue/queue.service.ts:153-170 | a run that never sends a message apart from its flag is such a run |
| `ContinueWait.SendOverReleasesIffLate` | apps/api/src/queue/queue.service.ts:153-170 | in any state, some continuation without further publishes releases more than was paid for if and only if the message sent now is late |
| `ContinueWait.SplitPublishReleasesTwice` | apps/api/src/queue/queue.service.ts:153-170 | with the two commands of one publish apart, an interleaving in which it releases two waits |
| `ContinueWait.LateMessageReleases` | apps/worker/src/redis.ts:156-170 | a message alone releases a wait that started after the flag was spent |
| `ContinueWait.TokenConserved` | apps/worker/src/redis.ts:93-143 | a trace of a publish is used up only by settling the wait or by expiry of the key |
| `ContinueWait.TokenKept` | apps/worker/src/redis.ts:80-172 | within the key's lifetime an unsettled wait still has a trace of the publish, over any timed run |
| `ContinueWait.ContinueNeverLost` | apps/worker/src/redis.ts:80-172 | a continue published during or less than the timeout before a wait is in the flag, a poll reply or the inbox for as long as the wait is unsettled and in time: the one-hour key outlives the half-hour wait |
| `ContinueWait.PollSettles` | apps/worker/src/redis.ts:135-143 | from a set flag one poll and its replies settle the wait, as released or cancelled |
| `ContinueWait.ContinueWaiter.TakeOnEntry` | apps/worker/src/redis.ts:88-95 | on entry the cancel key is always taken and decides first, the continue key only without it, and a key that did not decide stays; the same as the protocol's entry steps |
| `ContinueWait.ContinueWaiter.FinishOk` | apps/worker/src/redis.ts:102-112 | an unsettled wait ends released with the continue key dropped and the cancel key kept, a settled one is untouched; the same as the protocol's release |
| `ContinueWait.ContinueWaiter.FinishCancel` | apps/worker/src/redis.ts:113-123 | likewise cancelled, with the cancel key dropped and the continue key kept |
| `ContinueWait.ContinueWaiter.OnTimeout` | apps/worker/src/redis.ts:125-133 | the timer's effect is the protocol's timer step and spends neither key |
| `ContinueWait.ContinueWaiter.OnSubscribeError` | apps/worker/src/redis.ts:145-154 | a failed subscription ends an unsettled wait as failed and spends neither key |
| `ContinueWait.ContinueWaiter.Poll` | apps/worker/src/redis.ts:136-143 | one tick takes both keys, and its two replies, cancel first, say what they held |
| `ContinueWait.ContinueWaiter.OnReply` | apps/worker/src/redis.ts:137-142 | only a hit settles, as cancelled or released by its key, and only an unsettled wait; the same as the protocol's reply step |
| `ContinueWait.ContinueWaiter.OnMessage` | apps/worker/src/redis.ts:156-170 | a message settles an unsettled wait, as cancelled only for a cancel payload; the same as the protocol's message step |
| `GateProtocol.InvWait` | apps/worker/src/redis.ts:80-172 | the wait's own steps keep the invariant: a set flag or a trace of a continue is allowed only for a gate that is approved or needs no approval |
| `GateProtocol.InvWorker` | apps/worker/src/phase1-orchestrator.ts:1163-1174 | the worker's status writes, announcements and failures keep the invariant |
| `GateProtocol.InvApi` | apps/api/src/executions/executions.service.ts:486-520 | approvals, cancel, expiry, and harmless continues and messages keep the invariant |
| `GateProtocol.InvRun` | apps/worker/src/phase1-orchestrator.ts:968-1662 | the invariant over every run whose continues and messages are harmless |
| `GateProtocol.GatesNeedApproval` | apps/worker/src/phase1-orchestrator.ts:1163-1632 | in every such run the worker passes the execution, defect, automation, report and sign-off waits only after that gate's approval in this execution |
| `GateProtocol.CompletedMeansApproved` | apps/worker/src/phase1-orchestrator.ts:1163-1662 | a completed execution had all five gates approved |
| `GateProtocol.HarmfulContinueSkipsAGate` | apps/api/src/executions/executions.service.ts:819-841 | from any state of the invariant where a continue is not harmless, a run after it that passes the next gate unapproved |
| `GateProtocol.ContinueSafeIffHarmless` | apps/api/src/executions/executions.service.ts:823-841 | accepting a continue keeps every later run safe if and only if it is harmless |
| `GateProtocol.OneContinueIsSafe` | apps/api/src/executions/executions.service.ts:819-841 | with at most one continue per execution, whenever it is pressed, and no harmfully late message, no gate is passed unapproved and completion means all five were approved |
| `GateProtocol.LoginStatusIsNotEnough` | apps/worker/src/phase1-orchestrator.ts:969-1012 | a run whose continues are all accepted at AWAITING_LOGIN and which passes the execution gate unapproved |
| `GateProtocol.SendSafeIffHarmless` | apps/api/src/queue/queue.service.ts:153-170 | sending the message that is due keeps every later run safe if and only if it is not late or the wait that hears it may be released |
| `GateProtocol.SplitApprovalSkipsNextGate` | apps/api/src/executions/executions.service.ts:510-520 | a worker listening at any gate but the last: an approval in two commands after which the next gate is passed unapproved |
| `GateProtocol.SplitApprovalFromTheStart` | apps/api/src/executions/executions.service.ts:510-520 | a run from the start in which the execution gate's approval, in two commands, also releases the defect gate |
| `GateProtocol.SplitContinueSkipsAGate` | apps/api/src/executions/executions.service.ts:819-841 | a run from the start with one continue, in two commands, that passes the execution gate unapproved |
| `GateProtocol.CancelLostIffAhead` | apps/api/src/executions/executions.service.ts:262-282 | an accepted cancel can be lost, with the execution running on, if and only if something is ahead of it in the wait the worker is in |
| `GateProtocol.KeptStep` | apps/worker/src/redis.ts:80-172 | the invariant behind it: no step but expiry of a key loses a cancel that nothing is ahead of |
| `GateProtocol.AcceptedCancelIsLost` | apps/worker/src/redis.ts:113-170 | a run from the start with one continue and one accepted cancel that ends RUNNING with no trace of the cancel |
| `GateProtocol.ShapeRun` | apps/worker/src/phase1-orchestrator.ts:968-1632 | the two conditions on the state in that equivalence hold along every run |
| `GateProtocol.ApprovalReleasesItsGate` | apps/api/src/executions/executions.service.ts:486-520 | over harmless runs from the start, a gate that can be approved is the one the worker is at, and after its approval, in one command or two, along every run without cancel, failure, timeout and expiry, the worker has passed it or its own steps lead past it |
| `GateProtocol.ApprovedGateIsPassed` | apps/worker/src/redis.ts:80-172 | the same from any state with the key set, no cancel on its way and the wait open at that gate |
| `GateProtocol.ApprovalIsKept` | apps/worker/src/redis.ts:80-172 | along every run without expiry whatsoever, from a set key at a gate: until the worker leaves that wait it has the key, a reply or the message, or the wait is settled |
| `GateProtocol.GrantedPasses` | apps/worker/src/redis.ts:80-172 | from each such state a run of the worker's own steps, without timer or failure, that passes the gate |
| `GateProtocol.FiveApprovalsComplete` | apps/worker/src/phase1-orchestrator.ts:968-1662 | a run from the start with one continue and five approvals that completes with exactly these approved and all six waits passed |
| `GateProtocol.EndsForAReason` | apps/worker/src/phase1-orchestrator.ts:1163-1662 | over every run, CANCELLED only after an accepted cancel and FAILED only after a crash, a timeout or a lost subscription |
| `GateProtocol.ApiEffects` | apps/api/src/executions/executions.service.ts:262-520 | what each API step of the protocol leaves in status, approvals, keys and inbox |
| `GateProtocol.ExecutionHandlers.ResumeStlc` | apps/api/src/executions/executions.service.ts:31-50 | a gate before login queues one job and leaves the keys alone; one after login queues nothing, sets the continue key and sends the message to a wait that listens |
| `GateProtocol.ExecutionHandlers.HandleApprovePreLogin` | apps/api/src/executions/executions.service.ts:303-465 | refused with the status it has, or for want of a URL before the data stamp, and unchanged; else the stamp, one step of the protocol that publishes nothing, and one queued job |
| `GateProtocol.ExecutionHandlers.HandleApprove` | apps/api/src/executions/executions.service.ts:486-520 | each of the five gates is accepted at its own status only; an accepted approval stamps the gate, writes RUNNING, sets the continue key and sends the message, and if the worker is at that gate with its wait open, the worker's own steps can pass it; refused, nothing changes |
| `GateProtocol.ExecutionHandlers.HandleContinueAfterLogin` | apps/api/src/executions/executions.service.ts:819-841 | accepted at AWAITING_LOGIN and RUNNING only; then RUNNING, no approval, the key set and the message sent; refused, nothing changes |
| `GateProtocol.ExecutionHandlers.HandleCancel` | apps/api/src/executions/executions.service.ts:262-300 | a completed or cancelled execution is left alone; any other is CANCELLED, the cancel key set and the message sent |
| `PreLogin.InvStep` | apps/worker/src/phase1-orchestrator.ts:457-526 | each database access of the loop and each clarify call keeps the rounds contiguous, bounded and answered in order |
| `PreLogin.RoundsStayWellKept` | apps/worker/src/phase1-orchestrator.ts:457-526 | over any history of jobs and clarify calls rounds are numbered from 1 without repeat, at most three, each created after the one before had questions that were answered and not skipped, and an answer once given stays |
| `PreLogin.RoundsFromTheFirstJob` | apps/worker/src/phase1-orchestrator.ts:457-526 | the same from an execution without rounds |
| `PreLogin.ClarifyAnswersIffRoundIsOpen` | apps/api/src/executions/executions.service.ts:159-180 | an accepted clarify call answers the open round, as skipped or not, if and only if an unanswered round is stored, and changes no other |
| `PreLogin.EarlyAnswerIsLost` | apps/worker/src/phase1-orchestrator.ts:487-508 | a run in which a call accepted while the agent still asks answers nothing |
| `PreLogin.ClarifyLoop` | apps/worker/src/phase1-orchestrator.ts:457-526 | the loop's end and stored rounds, against the specification the lemmas below are about |
| `PreLogin.ClarifyFromWellKept` | apps/worker/src/phase1-orchestrator.ts:140-148 | the loop keeps the rounds well kept, only adds, and a pause leaves an unanswered round last |
| `PreLogin.LoopByLastRound` | apps/worker/src/phase1-orchestrator.ts:457-526 | on well kept rounds the loop's end depends on the last round alone: a new one is asked, that one waits, or it was the last to ask |
| `PreLogin.LoopIsUninterruptedJob` | apps/worker/src/phase1-orchestrator.ts:457-526 | the loop is one run of the interleaved protocol, so what holds over histories holds of it |
| `PreLogin.RunAttempt` | apps/worker/src/phase1-orchestrator.ts:360-972 | without the design stamp it pauses at clarification if and only if it is not reviewed and leaves a last round that waits for its answer and was stored before or has a question, with the requirements read and no case designed, and else at design with the cases designed; the rounds grow by exactly one new round just when the last one was truly answered; with the stamp it stops at the first open gate, with exactly the work of the gates passed |
| `PreLogin.LoginNeedsEveryStamp` | apps/worker/src/phase1-orchestrator.ts:370-833 | login is reached exactly when each stamp was set when loaded; otherwise the attempt stops at an open gate and has done no work beyond it |
| `PreLogin.HumanActGetsCloser` | apps/api/src/executions/executions.service.ts:149-183 | the answer to a pause closes a stamp or uses up a clarification round |
| `PreLogin.LoginWithinSixActs` | apps/worker/src/main.ts:60-88 | from queued to login: one approval per open stamp and at most three answers, whatever the agent asks |
| `RunHandout.PaidStep` | apps/api/src/runners/runners.service.ts:301-331 | no step of any client lets claims outgrow the times the run was queued |
| `RunHandout.HandoutIsExclusive` | apps/api/src/runners/runners.service.ts:282-335 | for any interleaving of runners, expiry, re-queueing and unguarded writes, jobs handed out never outnumber the times the run became PENDING |
| `RunHandout.RunnersNeverReopen` | apps/api/src/runners/runners.service.ts:611-638 | a finished run keeps its status whatever runners do at any stage of a claim or job |
| `RunHandout.QueueHonouredIffUndisturbed` | apps/api/src/runners/runners.service.ts:611-638 | queueing a run is honoured along every later run of the runners if and only if no earlier claim or job is outstanding and no runner holds an older claimable read |
| `RunHandout.QueuedStep` | apps/api/src/runners/runners.service.ts:301-331 | the invariant behind it: until the next claim the row stays as queued, and the next claim takes it |
| `RunHandout.DisturbedQueueFails` | apps/api/src/runners/runners.service.ts:318-325 | whatever is outstanding, a continuation by runners alone in which the queued run is lost or claimed with an older selection |
| `RunHandout.RequeueCanStrand` | apps/api/src/phase1/phase1.service.ts:2324-2338 | queued again between a claim's two writes: a run that ends PENDING and unclaimable after one hand-out |
| `RunHandout.RequeueCanBeSwallowed` | apps/api/src/runners/runners.service.ts:611-630 | queued again while the first job runs: RUNNING and claimed after one hand-out, with no runner and no job left |
| `RunHandout.StrandedStays` | apps/api/src/runners/runners.service.ts:301-306 | polling and expiry alone never free such a run |
| `RunHandout.RunTable.UpdateWherePending` | apps/api/src/runners/runners.service.ts:308-316 | the guarded write changes the row if and only if it was PENDING, and says so |
| `RunHandout.RunTable.ClaimNext` | apps/api/src/runners/runners.service.ts:282-335 | undisturbed, it claims the oldest PENDING local run that nobody claimed and that is bound to no user or to this one, among the runs with fewer than forty older PENDING ones, and changes no other run; or no such run is there |
| `RunHandout.CandidatesInReach` | apps/api/src/runners/runners.service.ts:289-299 | each PENDING run with fewer than forty older ones is a candidate, at the place its age gives it, and there are never more than forty |
| `RunHandout.ClaimTakes` | apps/api/src/runners/runners.service.ts:301-316 | a claim succeeds exactly when the row read was free for this user and the run is still PENDING |
| `RunHandout.RunTable.CompleteJob` | apps/api/src/runners/runners.service.ts:516-638 | a run finished before or meanwhile is left alone, any other becomes CANCELLED or RUNNING with the selection read and this runner's claim; the same as the protocol's guarded write |
| `RunLifecycle.DecisionIsFinal` | apps/worker/src/ai-execute-job.ts:615-653 | with no cancel key left over, a run ends as the person decided first, also between the last read and the last write |
| `RunLifecycle.DecisionIsFinalIffNoStaleKey` | apps/worker/src/ai-execute-job.ts:208-236 | in every run that is so exactly when the job saw no such key |
| `RunLifecycle.EndsAsDecidedIffNoKeyAtStart` | apps/worker/src/ai-execute-job.ts:208-236 | every interleaving ends as decided if and only if no cancel key was set as the job started |
| `RunLifecycle.StaleKeyOverwritesComplete` | apps/worker/src/ai-execute-job.ts:619-631 | an interleaving in which a completed run ends cancelled |
| `RunLifecycle.StopIsSeen` | apps/worker/src/ai-execute-job.ts:228-232 | after Stop, as long as the key lives, no further case is begun, and the run ends CANCELLED |
| `RunLifecycle.RunRow.FinishJob` | apps/worker/src/ai-execute-job.ts:615-653 | CANCELLED if the job was cancelled or read so, else a finished row stays and any other is RUNNING |
| `FailurePipeline.RunFailurePipeline` | apps/worker/src/failure-pipeline.ts:58-256 | for any router, healer and page: PASSED only after a successful replay of the returned log, at most one disposal, the log changes only on commit, each replay directly after its own page load, at most five replays; and with the shipped router and any classifier the whole result is the one the table of `RunsByTheTable` gives |
| `FailurePipeline.ReplayAndRoute` | apps/worker/src/failure-pipeline.ts:93-154 | a second attempt is made exactly when the router says retry, and decides with that attempt's error and a retry count of 1 |
| `FailurePipeline.HealAndVerify` | apps/worker/src/failure-pipeline.ts:184-242 | a patch is committed or held for review exactly when all three verification replays passed |
| `FailurePipeline.VerifyPatch` | apps/worker/src/failure-pipeline.ts:187-191 | three replays of the patch, each on a fresh load, ended early only by a failed load |
| `FailurePipeline.HealConcludes` | apps/worker/src/failure-pipeline.ts:192-242 | what a heal returns is sound for every outcome of the verification, and the page history proves it |
| `FailurePipeline.RunsByTheTable` | packages/shared/src/automation/qa-agent-router.ts:40-155 | with the shipped router: a second replay exactly for a timeout or an infrastructure error; after the last error, a locator or timeout failure is healed by rule exactly with no heal behind it, waits for review exactly with one behind it and approval required or as a verified patch that needs review, and is quarantined exactly with two or more; assertions are defects, infrastructure and unknown errors escalate, blank errors do nothing; no failed run ends with a retry |
| `FailurePipeline.AttemptsByClass` | apps/worker/src/failure-pipeline.ts:93-154 | the attempts and their final decision from the classes of the errors, and how often the page is loaded |
| `FailurePipeline.RoundsKeepPace` | apps/worker/src/failure-pipeline.ts:187-191 | verification rounds keep every replay directly after a load |
| `FailurePipeline.FailedVerificationNeverQuarantines` | packages/shared/src/automation/qa-agent-router.ts:40-155 | with the shipped router a heal that fails verification is passed on and never quarantined |
| `FailurePipeline.AssertionsAreDefects` | packages/shared/src/automation/qa-agent-router.ts:73-99 | an assertion failure is routed to a defect, and nothing else is |
| `ScriptHistory.ProvenanceStep` | apps/worker/src/ai-execute-job.ts:307-357 | each recording, heal, decision and release keeps every stored or copied log empty, recorded or verified |
| `ScriptHistory.EveryLogHasProvenance` | apps/api/src/runners/runners.service.ts:376-479 | over every history, with executors holding old copies, no other log is ever stored in a script or a heal log |
| `ScriptHistory.FromTheBeginning` | apps/api/src/phase1/phase1.service.ts:2464-2571 | the same from a case without a script |
| `ScriptHistory.VerifiedLabelMeansFailed` | apps/worker/src/local-runner.ts:279-304 | a runner's heal log says VERIFIED exactly when the verification failed and the script was not quarantined |
| `ScriptHistory.FailedHealLabelledVerified` | apps/worker/src/local-runner.ts:285-303 | a sound result whose patch failed a verification replay and whose heal log says VERIFIED |
| `ScriptHistory.LogIsLastSet` | apps/api/src/phase1/phase1.service.ts:2497-2571 | over every history the script holds the log that the last recording, commit, approval or re-record gave it |
| `ScriptHistory.HealRowOfReplay` | apps/worker/src/ai-execute-job.ts:307-332 | a replay writes at most one heal row, whose status says what became of the heal, with the patch or, without one, the replayed log for a heal held for review |
| `ScriptHistory.ApprovalGivesThePatch` | apps/api/src/phase1/phase1.service.ts:2497-2513 | a replay held for review, any history in which it is not decided, and its approval: the script holds that patch, or without one the log replayed then, whatever came between |
| `ScriptHistory.ApprovalBringsBackOldLog` | apps/worker/src/ai-execute-job.ts:325-328 | without a patch the approval undoes a recording made since |
| `ScriptHistory.FailedHealsChangeNothing` | apps/worker/src/ai-execute-job.ts:335-346 | any number of heals that fail verification leave the script, its heal count and its stability as they were |
| `ScriptHistory.FailedHealsNeverQuarantine` | packages/shared/src/automation/qa-agent-router.ts:112-124 | so with the shipped router a script without a committed heal is healed by rule again and never quarantined |
| `ScriptHistory.HealCountCounts` | apps/worker/src/ai-execute-job.ts:339-341 | over cloud histories without a re-record the heal count grows by the heals committed and the quarantines |
| `ScriptHistory.StabilityAfterReplay` | apps/worker/src/local-runner.ts:271-278 | the stability and heal count each kind of replay leaves |
| `ScriptHistory.VersionStep` | apps/api/src/phase1/phase1.service.ts:2502-2512 | the version counts recordings, commits and approvals of a patch, and the author is that of the last change |
| `ScriptHistory.ScriptRows.DecideHeal` | apps/api/src/phase1/phase1.service.ts:2464-2522 | only a heal awaiting review can be decided; approval gives the script the patch, the author HEALER, the next version and WATCH, a heal without a patch leaves it alone; rejection only quarantines it; the heal row says so and no other row changes |
| `ScriptHistory.ScriptRows.ReleaseQuarantine` | apps/api/src/phase1/phase1.service.ts:2524-2544 | a missing script is reported; any other is put on watch and keeps log, version, author and heal count |
| `ScriptHistory.ScriptRows.RerecordScript` | apps/api/src/phase1/phase1.service.ts:2546-2571 | a missing script is reported; any other has an empty log, MANUAL, its version, no heals counted and WATCH |
| `FolderClosure.DescendantFolderIds` | apps/api/src/phase1/tcms-support.ts:40-60 | on any parent graph, cyclic ones included, it ends with exactly the ids reachable from the roots, each once |
| `FolderClosure.IndexByParent` | apps/api/src/phase1/tcms-support.ts:44-50 | the index gives every parent its children in row order |
| `FolderClosure.Expand` | apps/api/src/phase1/tcms-support.ts:53-58 | visiting an id keeps the worklist sound and complete and makes the unvisited ids fewer |
| `FolderForest.FolderTable.Create` | apps/api/src/phase1/phase1.service.ts:1922-1960 | refused for a missing or nested parent and else the new row, with the parent's feature key; the forest stays a forest |
| `FolderForest.FolderTable.Update` | apps/api/src/phase1/phase1.service.ts:1962-2006 | every refusal in order and else the moved or renamed row; the forest stays a forest |
| `FolderForest.FolderTable.Delete` | apps/api/src/phase1/phase1.service.ts:2008-2045 | the folder and its children go, their cases move up or are deleted, other cases are untouched, and no case points at a removed folder |
| `FolderForest.FolderTable.ExpandSelection` | apps/api/src/phase1/phase1.service.ts:1056-1069 | a selection of suites expands to exactly what deleting them would remove |
| `FolderForest.DeleteRemovesDescendants` | apps/api/src/phase1/phase1.service.ts:2024-2028 | in a forest the delete query selects exactly the ids reachable from the folder |
| `FolderForest.SelectionIsUnion` | apps/api/src/phase1/tcms-support.ts:40-60 | in a forest what a selection reaches is the union over its suites |
| `EnsureFolders.Reconciler.EnsureTcmsFolders` | apps/api/src/phase1/tcms-support.ts:73-190 | for any rows in any order at both reads: one run, after which every needed top folder, subfolder and placement exists; old rows are untouched and each new one is the top folder or subfolder of a key that had none, with its keys and name; every case lies where its keys say; and nothing was written exactly when nothing was missing |
| `EnsureFolders.Reconciler.CreateTops` | apps/api/src/phase1/tcms-support.ts:100-122 | a top folder for every needed key, created, with that key's name, only for a key that had none |
| `EnsureFolders.Reconciler.NeededFeatures` | apps/api/src/phase1/tcms-support.ts:106-113 | exactly the keys in use, each with its last feature group's name or else the first case's module |
| `EnsureFolders.Reconciler.CollectRequirements` | apps/api/src/phase1/tcms-support.ts:124-141 | for every feature its own requirements, then those only its cases name, each such key once |
| `EnsureFolders.Reconciler.CreateSubs` | apps/api/src/phase1/tcms-support.ts:143-162 | one subfolder per requirement of every feature with two or more; each new row is the subfolder of a listed requirement, under the indexed top folder, that had none |
| `EnsureFolders.Reconciler.PlaceCases` | apps/api/src/phase1/tcms-support.ts:164-184 | cases with a folder keep it, others go to the last subfolder read that matches their keys, and to the feature's indexed top folder only if none matches |
| `EnsureFolders.SplitIsComplete` | apps/api/src/phase1/tcms-support.ts:143-162 | splitting the features that have requirements is all the splitting asked for |
| `EnsureFolders.EveryOrderIffAllTopsSplit` | apps/api/src/phase1/tcms-support.ts:73-104 | what a run leaves needs no more writes in every order it can be read back if and only if no key is blank and every top folder of a feature with several requirements is split; unique top folders are |
| `EnsureFolders.SecondRunIdleIff` | apps/api/src/phase1/tcms-support.ts:73-190 | of two runs with the rows permuted in between, the second writes nothing if and only if no key is blank and the top folders indexed then have their subfolders; under unique top folders, if and only if no key is blank |
| `EnsureFolders.EnsureTwice` | apps/api/src/phase1/tcms-support.ts:73-190 | the two runs made: each is one run, from the old rows and from the rows read back, and so the second is idle exactly under that condition |
| `EnsureFolders.OverlappingRunsKeepUniqueTopsIff` | apps/api/src/phase1/tcms-support.ts:115-122 | two runs that read the same rows and both add what was missing keep top folders unique if and only if no top folder was missing |
| `EnsureFolders.MovingUpKeepsUniqueTops` | apps/api/src/phase1/phase1.service.ts:1976-2004 | moving a subfolder to the top keeps top folders unique exactly when no other has its key |
| `EnsureFolders.MovingUpBesideItsParent` | apps/api/src/phase1/phase1.service.ts:1976-2004 | a subfolder the reconciliation made, moved up while its parent stands, always breaks that |
| `EnsureFolders.SecondTopUndoesIdempotence` | apps/api/src/phase1/tcms-support.ts:100-104 | a family of saturated rows that are not saturated once a second top folder without subfolders is read last |
| `EnsureFolders.MovedSubfolderUndoesIdempotence` | apps/api/src/phase1/tcms-support.ts:100-104 | the smallest such input |
| `EnsureFolders.ForestRowsAreForest` | apps/api/src/phase1/tcms-support.ts:115-162 | the rows it keeps are the forest that the folder handlers keep |
| `FolderOutcome.ListedRequirements` | apps/api/src/phase1/tcms-support.ts:124-141 | for every feature key, a requirement key is listed if and only if a requirement row of that feature has it or a case names both, trimmed; rows come first, in order, with their titles, and a key only cases name stands once and is its own title |
| `FolderOutcome.NameOfTop` | apps/api/src/phase1/tcms-support.ts:106-113 | a top folder is called as the last feature group with its key, else after the trimmed module of the first case that names it, else by the key |
| `FolderOutcome.FoldersAfterRun` | apps/api/src/phase1/tcms-support.ts:100-162 | after one run old rows stand, every feature group and every key a case names has a top folder, and each of two or more requirement keys of a feature has a folder under one |
| `FolderOutcome.NewRowsAskedFor` | apps/api/src/phase1/tcms-support.ts:115-162 | every row a run adds is the first top folder of a key in use, or the subfolder of a requirement key that is asked of a feature with two or more listed |
| `FolderOutcome.CasesAfterRun` | apps/api/src/phase1/tcms-support.ts:164-184 | a case keeps its folder, or none without a feature; else it lies in the subfolder of its own feature and requirement keys exactly if there is one, and otherwise in the feature's top folder, unless a subfolder's key clashes |
| `FolderOutcome.LastRowCounts` | apps/api/src/phase1/tcms-support.ts:100-104 | of several rows for a key the one read last is indexed, among top folders and among subfolders |
| `FolderOutcome.TwoRequirementsSplit` | apps/api/src/phase1/tcms-support.ts:143-184 | a case without a folder whose feature is asked another requirement too lies after one run in the subfolder of its own two keys, unless a key clashes or a folder for that requirement, moved in before, carries another feature's key |
| `FolderOutcome.SubKeysCollideIffClash` | apps/api/src/phase1/tcms-support.ts:164-182 | the joined keys of two features' subfolders can be equal if and only if one feature key with the separator runs into the other |
| `FolderOutcome.ClashMisplaces` | apps/api/src/phase1/tcms-support.ts:176-182 | for any two keys that clash, a case and a subfolder of the other feature it is put into |
| `Csv.CsvRoundTrip` | packages/report-engine/src/tabular.ts:4-16 | a reader of RFC 4180 section 2 recovers the headers and under each header every row's value, or nothing for a missing one, exactly when there is a column and the text does not end in a blank line; otherwise just the last record is lost |
| `Csv.GridReadsBack` | packages/report-engine/src/tabular.ts:10-16 | any grid of non-empty rows of arbitrary strings reads back, less a last row that is one empty cell |
| `Csv.LineReadsBack` | packages/report-engine/src/csv.ts:80 | one printed record reads back and leaves the text after it unread |
| `Csv.CellReadsBack` | packages/report-engine/src/csv.ts:3-9 | an escaped cell reads back, quoted or not |
| `Csv.LastBlankIsLost` | packages/report-engine/src/tabular.ts:10-16 | a family of one-column tables that lose their last record |
| `Csv.RenderCsvResults` | packages/report-engine/src/csv.ts:11-81 | the report reads back as the header and one record per finding and test case, or a summary, all twelve fields wide |
| `Csv.FindingUnderHeader` | packages/report-engine/src/csv.ts:12-44 | every field of a finding stands in the column the header names for it, and its result is empty |
| `Csv.CaseUnderHeader` | packages/report-engine/src/csv.ts:12-61 | so does every field of a test case, its priority under severity |
| `Csv.SummaryUnderHeader` | packages/report-engine/src/csv.ts:62-78 | a report of nothing is one record that says so, with the three counts in its description |
| `Text.DecimalReadsBack` | packages/report-engine/src/csv.ts:20-78 | a count is printed in digits that stand for it, without a leading zero |
| `Xml.EscapeIsSubstitution` | packages/report-engine/src/tabular.ts:49-55 | the chain of whole-string replacements is one substitution per character, with four or five entities |
| `Xml.ReplaceExtends` | packages/report-engine/src/junit.ts:3-10 | one more replacement adds one entry, provided no earlier entity contains the character: why the ampersand comes first |
| `Xml.EscapeRoundTrip` | packages/report-engine/src/junit.ts:3-10 | escaped text has no raw markup and decoding the predefined entities gives the original back, for both escapes |
| `Xml.SpreadsheetRoundTrip` | packages/report-engine/src/tabular.ts:22-47 | the headers and under each header every row's value are recovered, whatever the sheet name and the cells contain |
| `Xml.SheetNameReadsBack` | packages/report-engine/src/tabular.ts:22-47 | and so is the sheet's name |
| `RateLimit.Limiter.Handle` | apps/api/src/common/rate-limit.ts:20-41 | the bucket after the request, counted on or opened anew, other keys untouched, the answer, and the remaining count it reports |
| `RateLimit.KeysAreIndependent` | apps/api/src/common/rate-limit.ts:25-33 | a key is decided as if no other existed |
| `RateLimit.WindowAtMostMax` | apps/api/src/common/rate-limit.ts:27-40 | from the request that opens a window until it has passed at most the limit gets through |
| `RateLimit.AtMostTwice` | apps/api/src/common/rate-limit.ts:20-41 | for every key, other traffic and start, a closed interval as long as the window lets through at most twice the limit |
| `RateLimit.TwiceIsReached` | apps/api/src/common/rate-limit.ts:7-10 | for every limit and window, requests that reach that bound |
| `RateLimit.KeepsLimitIff` | apps/api/src/common/rate-limit.ts:20-41 | every later course of requests keeps to the limit in the closed interval from an instant on if and only if the limit is 0, or the bucket is still open then and full or open beyond the interval |
| `RateLimit.KeyKeepsLimitIff` | apps/api/src/common/rate-limit.ts:20-41 | the same of one key in runs of requests of any keys |
| `RateLimit.AtMostMaxWithoutRollover` | apps/api/src/common/rate-limit.ts:27-40 | an interval of any length in which no request opens a window after an earlier one lets through at most the limit |
| `Roster.ProposeRunCases` | apps/api/src/phase1/ai-generate-cases.service.ts:165-255 | every error case; a selection that is not empty, from the catalogue, without repeats, within the limit under Kanban (eight by default), each with the reason its first entry gives or the library's; the model's picks when it makes any, and else cases that match the requirements if any does, none left out that outranks one chosen |
| `Roster.ReadAnswer` | apps/api/src/phase1/ai-generate-cases.service.ts:213-230 | the picks of a readable answer, none of an unreadable one, and for each the first 240 characters of the reason in the first entry that names it |
| `Roster.PickedFacts` | apps/api/src/phase1/ai-generate-cases.service.ts:217-227 | the picks are the catalogue cases named, once each, in the order first named |
| `Roster.CutIsBestFirst` | apps/api/src/phase1/ai-generate-cases.service.ts:231-252 | no case left out of any cut of the fallback order outranks one that is in |
| `Roster.FallbackOrder` | apps/api/src/phase1/ai-generate-cases.service.ts:241-246 | the fallback order puts high before medium before every other priority and keeps the catalogue's order within each |
| `Roster.SortIsStable` | apps/api/src/phase1/ai-generate-cases.service.ts:241-245 | the fallback order keeps the catalogue's order inside every rank |
| `Roster.StableOrderIsUnique` | apps/api/src/phase1/ai-generate-cases.service.ts:241-245 | any order sorted by rank that keeps the catalogue's order inside every rank is the fallback order |
| `Roster.SortIsPermutation` | apps/api/src/phase1/ai-generate-cases.service.ts:241-246 | and has every case of the pool exactly as often |
| `Suite.Execution.RunManualSuite` | apps/worker/src/phase1-orchestrator.ts:161-289 | a case is among the failures exactly when its steps, its pass or the announcement went wrong, has a pass row exactly when steps and pass went well and a failure row exactly when it is among the failures; as many rows as both counters; passed plus failed is the cases run plus those counted twice; no result exactly when an exception escapes |
| `Suite.Execution.RunAndScore` | apps/worker/src/phase1-orchestrator.ts:1276-1520 | when scores are reported, what the first run passed and both retest counts add up to, exactly when the reported totals do, and that each failing case gets the rows of its own second run |
| `Suite.RetestedPassIsCountedAsFailure` | apps/worker/src/phase1-orchestrator.ts:1511-1520 | one case that fails and passes its retest is reported as one passed and one failed of one |
| `Suite.Conservation` | apps/worker/src/phase1-orchestrator.ts:188-288 | every case is counted once, and a pass that could not be announced twice |
| `Suite.EachIsJudged` | apps/worker/src/phase1-orchestrator.ts:188-288 | each case is judged by what happened to it and to no other |
| `Suite.RetestIsExactlyTheFailures` | apps/worker/src/phase1-orchestrator.ts:1285-1286 | looking the failures up by id gives back the failing cases, in the suite's order |
| `Suite.Execution.RetestFailures` | apps/worker/src/phase1-orchestrator.ts:1285-1297 | the failing cases run once more: one result per failure, recorded by what happens to it the second time, and the counters' sum |

## Left out

- ContinueWait.Step: the text of a message is not parsed; a message is a cancel or a continue, and a connection that reconnects is not modelled.
- GateProtocol.Next: each API handler is one step, or two where a publish is split, one job runs per execution, the queue does not retry, and a Redis command takes effect when it is issued.
- GateProtocol.Next: approvals are those given in this execution; the stamps on the project, which an earlier execution may have set, are not what the waits after login check.
- GateProtocol.ExecutionHandlers.ResumeStlc: the handlers publish in one step; publishes in two commands are steps of the protocol only.
- PreLogin.RunAttempt: what the agents produce is left out; only which phases are worked on, the rounds and the gate where the attempt stops are kept.
- PreLogin.LoginWithinSixActs: one attempt at a time and every answer given while the execution waits; a job that crashes is not counted.
- PreLogin.RunAttempt: a job whose execution is already cancelled or completed is skipped before the attempt begins (`apps/worker/src/main.ts:60-69`); that check is not part of the attempt.
- RunHandout.RunTable.ClaimNext: one undisturbed call; interference between its reads and writes is what the transition system of the same module is for.
- RunHandout.Next: the wait limit of `expireWaitingLocalJobs` is dropped, since its write leaves the status as it is.
- RunLifecycle.After: a job that ends by an error other than cancellation is left out, and so is the pause key, which only delays the loop.
- FailurePipeline.RunFailurePipeline: messages and rationale texts are left out; a replay depends on the page's whole history and the log in any way.
- FailurePipeline.RouteQaAgent: the classification of error texts is a parameter.
- ScriptHistory.Next: the counter of consecutive passes, the generated test source and test results are left out.
- FolderForest.FolderTable.Delete: sort orders and the refresh of the design document are left out.
- EnsureFolders.Reconciler.EnsureTcmsFolders: sort order is left out, and between its reads and writes nobody else writes folder rows.
- Csv.RowsToCsv: cell values are strings already; a missing value prints as nothing.
- RateLimit.Limiter.Handle: one process, and how the key is made from address, method and path is left out.
- Roster.ProposeRunCases: the text match between requirements and cases is a parameter, the model's answer is any answer, and token counts are left out.
- Suite.Execution.RunManualSuite: evidence files and the steps themselves are left out.
- `waitWhilePaused`, plan quotas, membership checks, audit logs, request parsing and `resolveRunCaseIds` beyond the expansion of suites: short checks that would add only easy members.
- Browsers, BrowserStack, the language model, Jira, Xray, TestRail, GitHub, Stripe, encryption, storage and zip building: effects outside the program.
- HTML, Word and Markdown reports, the JUnit document around its escaped texts, and the web application: presentation.
- Requirement extraction and review, retried or duplicate jobs and the older `runExecution`: no safety is claimed for them.

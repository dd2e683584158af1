# Verified model of the agents service

The service runs a fleet of agents behind a durable task queue. Tasks enter a Postgres table, one or
more workers claim them, a LangGraph thread does the work, and actions with side effects stop at an
approval interrupt until somebody answers. Around that core sit a knowledge-graph memory store, cost
caps on the Claude model, a usage breakdown and a migration runner. This project models that logic
in Dafny and proves what the code promises about it.

`dafny verify dfyconfig.toml` checks everything.

## How the model is laid out

**The queue**, bottom up:

- `TaskTables` holds the two tables and every SQL statement as a function from tables to tables.
- `TaskQueueClass.TaskQueue` is the class as the source has it; each method is proved to perform
  exactly the statement `TaskTables.Exec` describes, with the claim or list of claims it returns.
- `QueueHistory` runs those statements in any order, by any number of workers and callers, and keeps
  a history (births, insertion order, claims). Its theorems hold of every interleaving. `done` is not
  among the things that survive: `DoneIsFinalExactlyUnless` gives the exact statements that undo it.
- `QueueProgress` shows over the same runs that no unfinished row is ever stranded.
- `QueueTimers` measures how long a parked task waits, from the event that parks it to the sweep that
  notices.
- `QueueLeases` adds open claims, settled in time, late or never, and proves for every move and every
  run the exact condition under which leases stay exclusive; it exhibits a run that violates it.
- `QueueWorld` is the one-worker regime: claims, settlements, graph threads, verdicts from outside
  and the clock. Submissions, verdicts, deletes and time come between a claim and its settlement.
- `QueueStarvation` bounds how long a task in that regime can be overtaken.
- `CheckpointerClass.Checkpointer` is the graph as queue and endpoints see it, one thread per task.
- `ApprovalApi.Endpoints` is `/approval` and the admin approve and deny endpoints, each proved to be
  the world's verdict event or a refusal that changes nothing.
- `QueueRace` opens the gap between the end of a graph run and the statement that records it, and
  gives the exact condition under which what others do there does no harm.
- `QueueWorkerClass.QueueWorker` is the worker's loop over queue and checkpointer, with submissions,
  verdicts, operator deletes and time between any two of its statements, during the graph run and in
  that gap, and with the database errors the loop swallows.
  It is proved to take both through the worlds of a run of `QueueWorld`, so the theorems about those
  runs are theorems about the loop.
- `LateVerdicts` covers verdicts after expiry and resumes that raise.
- `GatedTask` joins the queue to the approval gate: where a resumed graph stops is what the gate says.

**The approval gate**: `ErrandRunner` has the node as the code has it, re-run from the top on the
whole list of stored verdicts, and a three-state machine that takes verdicts one at a time. The two
are equal on every list, and everything about what was approved before anything ran follows from the
machine. The handlers of a thread's posts then interleave step by step. `ApprovalToken` is the token
format both ends share.

**The rest**: `FleetWalk` (graph routing and its termination), `MemoryKeys`, `MemoryStoreModel`,
`MemorySearch` and `SearchValues` (the memory store), `Spend` (accumulators and caps),
`UsageBreakdown`, `SqlSplitter`. `Text` holds the Python string operations they use, `MapSums` sums
over maps.

## Assumptions

- Each SQL statement is atomic and succeeds; ids minted by `enqueue` are fresh; all statements read
  one clock that never runs backwards; `created_at` grows strictly with insertion.
- In the one-worker regime a graph run together with the row update that follows it is one event
  (`QueueRace` says what that hides), a resume together with its row update is one event, checkpointer
  reads succeed, the worker does not crash between a claim and its settlement, and `conversation_id`
  is unset. Every interrupt of the fleet is an approval request.
- A run of the graph works from what the checkpointer holds when the graph loads it, and a graph that
  finds its thread no longer paused resumes nothing. Once the node has acted, its result may be
  recorded or lost: the run may raise, the checkpoint write may fail, the process may die; then the
  interrupt may still be shown or not, and the verdict kept or not. All of that is in `ErrandRunner`
  and `GatedTask`. A handler may also die before the node acts.
- The MAC is an arbitrary function with hexadecimal output. JSON round-trips.
- Money is `real`.

## Where the code and its own comments differ

- src/agents/queue/worker.py:117-119 says that starting `_last_sweep` at zero forces a sweep on the
  first turn. It does so only once the monotonic clock has reached the interval; the model starts
  both throttles at zero and takes the clock readings as inputs.
- src/agents/queue/store.py:363-367 says a late resume cannot execute after the approval expired. The
  row indeed stays in the DLQ (`LeavingIsFinal`), but the resume looks only at the checkpointer
  (src/agents/api/approval.py:82-96): from every reachable world with a parked task, one is reachable
  in which its approval has expired and its thread has run to the end (`ExpiredApprovalsExecute`), and
  it happens exactly while the thread is paused (`ExpiredRunsExactlyWhilePaused`). For any request and
  any verdicts on which its gate calls, there is a run in which the call is issued after expiry
  (`ExpiredApprovalsCall`).
- The paused check of `/approval` and the admin endpoints does not keep two grants from both calling:
  it and the resume are separate awaits. Nor does handling posts one by one: a call whose result is
  lost before the checkpointer has it is issued again by the next post. Exactly these two things lead
  to a second call (`CalledAtMostOnceExactlyUnlessDoubled`, `TwoHandlersCallTwice`,
  `LostResultCallsTwice`).
- A verdict that arrives after the interrupt and before the worker parks the row finds the thread
  paused; if it ends the thread, the row is parked afterwards for a verdict nobody can give
  (`EarlyVerdictUncouplesExactlyIfItEnds`).
- `hmac.compare_digest` raises on a signature that is not ASCII (src/agents/nodes/errand_runner.py:139-144),
  so such a token makes the node raise instead of returning its refusal.
- A re-park after a defer uses the cluster's approval TTL and not the envelope's `ttl_seconds`
  (src/agents/api/approval.py:119-122 against src/agents/queue/worker.py:498-511). The model does the
  same.
- The request shown on a parked row stays the first one when the two-person confirmation re-parks it
  (`QueueGraphCoupling`).
- The supervisor's prompt offers `triager`, which its route map lacks: such a walk breaks instead of
  ending at the reporter (`EndsAtReporterExactlyUnless`, `BreakingWalk`). When it escalates, cancels,
  waits, or reroutes nowhere it leaves `target_agent` and `rejection` in place, so the task goes
  straight back; the walk is bounded only if such stalls are counted (`FleetWalkTerminates`,
  `StallsAreThePrice`).
- Specialists are documented to set `rejection`; at this commit no node does, and then every walk has
  at most five nodes (`NodesAsTheyStand`).
- `max_attempts` below one still gives one invocation (`RetryBound`, through `Tries`).
- A search may show a value that a get no longer returns: puts leave older observations live, the
  semantic leg reads them all, and the keyword leg reads the newest that matches. It cannot happen to
  an entity exactly if all its live observations agree (`NeverStaleExactlyIfOneValue`,
  `SecondPutLeavesAStaleItem`). The offset is applied to each leg separately (`MemorySearch.Merge`).
- The namespace filter passes the prefix to LIKE unescaped, so it is exact exactly for prefixes
  without `%`, `_` and `\` (`FilterIsExactIffLiteral`).

## Model

| member | source | states |
|---|---|---|
| TaskTables.NextIsTheOldest | src/agents/queue/store.py:146-170 | the inner SELECT finds a row whenever an unlocked claimable one exists, and the row it finds is the only candidate |
| TaskTables.RemainingMakesUpTheRest | src/agents/queue/store.py:420-428 | attempts made and attempts remaining make up the policy's number, or the default, until it is reached |
| TaskQueueClass.TaskQueue.Enqueue | src/agents/queue/store.py:91-126 | one pending row, accepted exactly if its id is new and no queued row has its idempotency key; a refused one changes nothing |
| TaskQueueClass.TaskQueue.Dequeue | src/agents/queue/store.py:128-185 | claims the oldest unlocked claimable row, bumps its attempts and sets its lease; returns None exactly when there is no such row |
| TaskQueueClass.TaskQueue.Apply | src/agents/queue/store.py:187-290 | ack, nack, park and resolve as one statement each: the named row is rewritten, nothing else; a missing id is a no-op |
| TaskQueueClass.TaskQueue.ToDlq | src/agents/queue/store.py:292-310 | moves one row to the DLQ with the error, or does nothing |
| TaskQueueClass.TaskQueue.ClaimsOf | src/agents/queue/store.py:339-351 | the list a sweep returns has exactly one claim for every moved row |
| TaskQueueClass.TaskQueue.ExpireOverdue | src/agents/queue/store.py:312-351 | moves exactly the overdue pending and claimed rows and returns exactly their claims |
| TaskQueueClass.TaskQueue.ExpireOverdueApprovals | src/agents/queue/store.py:353-392 | the same for lapsed approvals |
| TaskQueueClass.TaskQueue.DeleteDlqEntry | src/agents/api/admin.py:921-943 | removes the entry and says whether it was there |
| QueueHistory.StepKeeps | src/agents/queue/store.py:91-392 | every statement and every tick keeps the whole invariant, whoever issues it and whenever |
| QueueHistory.Conservation | src/agents/queue/store.py:292-392 | in every interleaving each accepted id is in exactly one of queue, DLQ and operator-deleted, with the envelope it was enqueued with |
| QueueHistory.ClaimExclusivity | src/agents/queue/store.py:146-185 | no two claims ever issued share a (task, attempts) pair |
| QueueHistory.ClaimsAreDistinct | src/agents/queue/store.py:146-185 | of two claims of one task the later one has the larger attempts number |
| QueueHistory.ClaimsAreCountedAndInTime | src/agents/queue/store.py:146-170 | `attempts` is an exact count of the claims issued, in queue and DLQ, and every claim was issued before the envelope's `ttl_seconds`, unless zero, had passed since it was enqueued |
| QueueHistory.LeavingIsFinal | src/agents/queue/store.py:196-269 | once out of the queue no statement brings a task back or alters its DLQ entry, and an operator's delete is final |
| QueueHistory.TtlSweepIsExact | src/agents/queue/store.py:312-351 | the TTL sweep removes exactly the pending and claimed rows whose envelope's `ttl_seconds`, other than zero, has passed since they were enqueued, leaves the others untouched and never takes a claimable one |
| QueueHistory.ApprovalSweepIsExact | src/agents/queue/store.py:353-392 | the approval sweep removes exactly the lapsed approvals and leaves the others untouched |
| QueueHistory.DoneIsFinalExactlyUnless | src/agents/queue/store.py:187-310 | a finished row stays finished under a statement exactly if it is not a nack, park or dead-lettering of that id |
| QueueLeases.FinishedTaskIsClaimedAgain | src/agents/queue/store.py:271-290 | a run in which a late nack revives a finished task and it is claimed again |
| QueueProgress.NothingIsStranded | src/agents/queue/store.py:146-170 | after any run, past the deadlines it carries every unfinished row is claimable or sweepable, a crashed worker's claim included; a pending one is stuck at no time but the instant of its deadline; a finished one is never taken on |
| QueueTimers.ParkLapsesExactly | src/agents/queue/worker.py:498-511 | after any run, a newly parked task is swept exactly once the envelope's TTL, or else the cluster's approval TTL, is exceeded |
| QueueTimers.ReparkLapsesExactly | src/agents/api/approval.py:113-128 | a re-parked task waits for the cluster's approval TTL, whatever its envelope says |
| LateVerdicts.ExpiredApprovalsExecute | src/agents/queue/store.py:353-392 | from any reachable world with a parked task, a world is reachable whose DLQ says its approval expired and whose thread has finished |
| LateVerdicts.SomeTaskGetsParked | src/agents/queue/worker.py:348-366 | such worlds with a parked task are reachable |
| LateVerdicts.ExpiredRunsExactlyWhilePaused | src/agents/api/approval.py:82-96 | a verdict on an approval-expired task runs its thread exactly while the thread is paused, and never changes the tables |
| LateVerdicts.ParkedMeansPaused | src/agents/api/approval.py:96-128 | in runs where no resume raises and hides the interrupt, a parked row always has a paused thread |
| LateVerdicts.BrokenIsLeftToTheSweep | src/agents/api/approval.py:96 | a task whose resume broke it runs no more and is not resolved: its row stays as it was until the approval sweep takes it |
| GatedTask.RowTellsTheGate | src/agents/api/approval.py:113-128 | after any run, the row of a task stopped at its gate is done exactly once the gate's end is on record; unless a result was lost, that is once the gate is through, its call was issued once exactly if the stored verdicts say so, and none while it is parked |
| GatedTask.CalledMeansApproved | src/agents/nodes/errand_runner.py:283-428 | every call ever issued for a task, lost results and repetitions included, had every grant it needed, two where the request is flagged or reads as deleting a namespace, on a token signed for its allowlisted target; unless a result was lost there was one at most, and the thread is not paused |
| GatedTask.ExpiredApprovalsCall | src/agents/queue/store.py:353-392 | for any waiting request and any verdicts on which its gate calls, a run ends with the task dead-lettered as approval-expired and its call issued |
| QueueLeases.ExclusiveExactlyUnlessTrampled | src/agents/queue/store.py:187-310 | for every move, a settlement in or out of time or any outside event, leases stay exclusive exactly if it is not an ack, nack or park of a queued task somebody else holds |
| QueueLeases.AlwaysExclusiveExactlyUnlessTrampled | src/agents/queue/store.py:146-310 | over whole runs: exclusive throughout exactly if no move does that |
| QueueLeases.LeaseExclusivity | src/agents/queue/store.py:146-185 | at every state so reached a task has at most one unexpired open claim, and its row, if queued, is claimed by that claim's worker, at its time, with its attempts number and deadline |
| QueueLeases.DisciplineNeverTramples | src/agents/queue/worker.py:315-368 | settling within the lease, resolving, and re-parking what awaits a verdict never trample |
| QueueLeases.StaleNackBreaksExclusivity | src/agents/queue/store.py:271-290 | a run that does: a stalled worker's late nack hands a held task to a third worker |
| QueueWorld.EventKeeps | src/agents/queue/worker.py:274-368 | every event of the one-worker world keeps queue row, thread, outcomes and claim in agreement, for every task |
| QueueWorld.QueueGraphCoupling | src/agents/api/approval.py:98-128 | a parked row has a paused thread, or one a raising resume broke, shows the request it first stopped at and has a deadline; such a thread has a parked row, an approval-expired DLQ entry or a deleted one; a done row holds its finished thread's output and has no deadline; a waiting row's thread is idle |
| QueueWorld.ClaimedExactlyInHand | src/agents/queue/worker.py:126-146 | a row is claimed exactly while the worker holds it |
| QueueWorld.RetryBound | src/agents/queue/store.py:420-428 | a task causes at most `max_attempts` graph invocations, and a pending row always has attempts to spare |
| QueueWorld.DeadLetteredExactlyWhenExhausted | src/agents/queue/worker.py:315-330 | an undeleted task is dead-lettered for failing exactly when it was invoked `max_attempts` times and every invocation raised |
| QueueWorld.AttemptsFollowThePolicy | src/agents/queue/store.py:420-428 | in the envelope's own number, or the default's where it has none: at most that many invocations, one if it is below one, and an undeleted task is dead-lettered for failing exactly after that many raises, with the last error |
| QueueStarvation.DebtIsPaid | src/agents/queue/store.py:147-170 | while a task waits, no event raises the older tasks' remaining claims, and every successful dequeue of another task lowers them |
| QueueStarvation.NoStarvation | src/agents/queue/store.py:271-290 | a waiting task is claimed or its deadline passes within one more successful dequeue than the older tasks have claims left, whatever is enqueued, nacked back or approved meanwhile |
| QueueStarvation.ClaimedOrExpiredAtSomeEvent | src/agents/queue/store.py:147-170 | the wait ends at an event of the run that claims the task, or after which its deadline has passed |
| QueueStarvation.WeightIsAttemptsLeft | src/agents/queue/store.py:420-428 | an older task counts for the attempts its policy leaves it, and only while it is pending or claimed and unexpired |
| QueueStarvation.DebtIsBounded | src/agents/queue/store.py:420-428 | those remaining claims number at most the older tasks times the largest number of tries |
| QueueStarvation.DequeueSucceeds | src/agents/queue/worker.py:126-146 | a free worker never idles past a waiting task: its dequeue claims one at least as old |
| QueueWorkerClass.QueueWorker.MaybeSweepExpired | src/agents/queue/worker.py:152-170 | the throttle is restamped exactly when the interval has passed, and then the world's TTL sweep happens unless the statement fails |
| QueueWorkerClass.QueueWorker.MaybeSweepExpiredApprovals | src/agents/queue/worker.py:203-225 | the same for approvals, on its own throttle |
| QueueWorkerClass.QueueWorker.HandleOne | src/agents/queue/worker.py:274-368 | the world's settlement, though others act between the end of the graph run and the statement that records it |
| QueueWorkerClass.QueueWorker.Record | src/agents/queue/worker.py:315-368 | nack or dead-letter after a raise, park at an interrupt, else ack with the result |
| QueueRace.GapIsHarmless | src/agents/queue/worker.py:348-366 | whatever others do in that gap short of a verdict on the very task, the end is the same as had it come before the run ended |
| QueueRace.EarlyVerdictUncouplesExactlyIfItEnds | src/agents/queue/worker.py:352-366 | after a verdict in the gap, row and thread agree exactly if the resumed thread did not finish |
| QueueWorkerClass.QueueWorker.Run | src/agents/queue/worker.py:126-170 | the loop takes tables, threads and clock through the world's turns, whatever others do between its statements and during the graph run, and whichever shielded statements fail, and stops after the turn that was told to |
| QueueWorkerClass.LoopIsARun | src/agents/queue/worker.py:126-146 | where the loop ends is the end of a run of the one-worker world, so every theorem about those runs holds of it |
| QueueWorkerClass.Others.Act | src/agents/api/approval.py:82-136 | submissions, verdicts, deletes and time act on queue and checkpointer as in the world |
| ApprovalApi.Endpoints.PostApproval | src/agents/api/approval.py:52-136 | refused exactly without a graph or a paused thread, and then nothing changes; otherwise the world's verdict event: re-park while still paused, resolve when finished, neither when the resume raises; without a queue only the thread changes, and the answer does not tell a thread that paused again |
| ApprovalApi.Endpoints.ResumeWithVerdict | src/agents/api/admin.py:394-481 | the four refusals (no graph, not paused, no class or target to mint from, no key) and when each applies, none of which changes anything; an accepted verdict is the world's verdict event, and a grant's token passes the runner's check for the task, the class, and the server and method the target names, exactly when none of them holds the separator |
| ApprovalApi.MintedForTheTarget | src/agents/api/admin.py:449-458 | the token minted for a target `server.method` is one for that server and that method |
| ApprovalApi.ApprovalsExecute | src/agents/api/admin.py:433-464 | as many approvals through this endpoint as the request needs, with any defers among them, and the runner issues the call |
| ApprovalToken.AcceptsExactlySigned | src/agents/nodes/errand_runner.py:115-144 | the verifier accepts exactly the tokens the signer produces for those very fields |
| ApprovalToken.RaisesExactlyOnForeignSignatures | src/agents/nodes/errand_runner.py:128-144 | the verifier raises exactly on a payload for those fields under a signature that is not ASCII |
| ApprovalToken.MintedVerifies | src/agents/api/admin.py:358-384 | a minted token passes for its own fields exactly when none of them holds the separator, whatever the nonce |
| ApprovalToken.MintedBinds | src/agents/nodes/errand_runner.py:129-144 | a minted token passes for no other task, class, server or method |
| ErrandRunner.Node | src/agents/nodes/errand_runner.py:238-458 | the two loops read the stored verdicts up to the first answer of each gate, on any list |
| ErrandRunner.ReplayIsTheMachine | src/agents/nodes/errand_runner.py:283-346 | run from the top on any list of verdicts, the node pauses, ends or raises as the machine does that took them one at a time |
| ErrandRunner.CallsExactly | src/agents/nodes/errand_runner.py:348-428 | behind the gates the call is issued exactly for the target the request spells out, allowlisted, on a token signed for this task, class, server and method, and with an undo path for class C; so cleared, nothing but the smoke run or the undo refusal comes instead |
| ErrandRunner.RefusalsInOrder | src/agents/nodes/errand_runner.py:348-400 | the first failing check decides: no method in the target, then the allowlist, then the token; then smoke |
| ErrandRunner.DecisionByDecision | src/agents/nodes/errand_runner.py:283-346 | what the node does about no, one and two decisions, with and without a grant on entry, for every request; a second decision is waited for exactly if the request is flagged, or its target or summary has "namespace" and "delete", "remove", "destroy" or "drop" in any case |
| ErrandRunner.DangerousCallsTakeTwo | src/agents/nodes/errand_runner.py:320-346 | no such request is called on fewer than two grants, one of which may have been given on entry |
| ErrandRunner.NothingPassesUnsigned | src/agents/nodes/errand_runner.py:348-417 | smoke run, undo refusal and call alike happen only for an allowlisted target on a token signed for it |
| ErrandRunner.ReplayIsAStep | src/agents/nodes/errand_runner.py:283-303 | one more stored verdict and a replay of all of them from the top is one step of the machine from the state the shorter list reached |
| ErrandRunner.DefersDoNotMatter | src/agents/nodes/errand_runner.py:299-303 | inserting or deleting defers anywhere never changes pause or outcome |
| ErrandRunner.ClosedForm | src/agents/nodes/errand_runner.py:283-346 | what the node makes of the decisions: run on enough grants, pause on too few, refuse on a denial |
| ErrandRunner.ExecutesExactlyWhenApproved | src/agents/nodes/errand_runner.py:283-428 | the call for `server.method` is issued exactly when the needed first decisions all grant, the target is that one and allowlisted, the presented token was signed for this task, class, server and method, and a class C action has an undo path |
| ErrandRunner.CalledAtMostOnce | src/agents/api/approval.py:82-96 | however handlers interleave, die, and lose results: at most one call, at any moment, if no calling run is loaded during another or after one whose result was lost |
| ErrandRunner.CalledAtMostOnceExactlyUnlessDoubled | src/agents/api/approval.py:82-96 | once no run is under way, and unless a handler died before it acted, exactly then |
| ErrandRunner.LostResultCallsTwice | src/agents/nodes/errand_runner.py:419-428 | two posts handled one after the other both call when the first one's result is lost |
| ErrandRunner.TwoHandlersCallTwice | src/agents/api/approval.py:82-96 | two grants posted together both call, past the paused check |
| ErrandRunner.LifeIsTheMachine | src/agents/api/approval.py:82-96 | with one handler at a time, whatever each run leaves, the thread is where the machine fed with the surviving verdicts is, and shows its interrupt exactly until a recorded run ends or a run hides it |
| ErrandRunner.CallsAreTheMachines | src/agents/api/approval.py:82-96 | and unless the result of a calling run is lost, the call is issued once if that machine ended by calling and never otherwise |
| ErrandRunner.AdminApprovalsExecute | src/agents/api/admin.py:433-464 | the needed number of admin approvals, with any defers among them, of an allowlisted request with the undo path it needs issues the call |
| ErrandRunner.ClassifierReadsBothTexts | src/agents/nodes/errand_runner.py:52-69 | the namespace-delete classifier is a test of target and summary separately; no signal straddles the joint, and the plural adds nothing |
| ErrandRunner.WaitForUser | src/agents/graphs/approval.py:37-62 | pauses until the first verdict that is not a defer and returns that one |
| FleetWalk.BuildRouteMaps | src/agents/graphs/fleet.py:211-255 | the three route maps hold every agent outside their exclusions under its own name, and END goes to the reporter |
| FleetWalk.EdgeIsALookup | src/agents/graphs/fleet.py:150-186 | the edge taken is the route looked up in the node's map, broken when the map lacks it |
| FleetWalk.SpecialistEdges | src/agents/graphs/fleet.py:158-177 | out of a specialist: to the supervisor exactly on a rejection, to errand-runner exactly on a proposed action without one, else to the reporter |
| FleetWalk.OtherEdges | src/agents/graphs/fleet.py:150-155 | triager and supervisor send the task to its target; without one, or with themselves as target, it goes to the reporter; the supervisor has no edge to the triager |
| FleetWalk.PinnedTasksGoThere | src/agents/nodes/triager.py:41-55 | the triager sends a task with a pinned target there |
| FleetWalk.ProposalsReachErrandRunner | src/agents/graphs/fleet.py:158-177 | in a walk that cannot go on, a proposal is followed by errand-runner, the reporter, and nothing else |
| FleetWalk.EverySpecialistCanPropose | src/agents/nodes/homelab_engineer.py:150-162 | for every specialist there is such a walk |
| FleetWalk.CascadeNeverExceedsLimit | src/agents/nodes/supervisor.py:70-77 | the cascade count never passes 2, whatever the models decide |
| FleetWalk.HopPays | src/agents/graphs/fleet.py:158-186 | every hop lowers the measure by one at least, except out of a supervisor visit that changed nothing, where it rises by one at most |
| FleetWalk.FleetWalkTerminates | src/agents/nodes/supervisor.py:48-116 | a walk, of a retried thread too, visits at most 8 nodes plus 2 per such visit; 8 if every decision below the limit reroutes with a target |
| FleetWalk.StallsAreThePrice | src/agents/nodes/supervisor.py:100-116 | the bound is attained for every number of stalls, so no bound holds that does not count them |
| FleetWalk.ReporterIsLast | src/agents/graphs/fleet.py:211-255 | reporter is the one node before END, nothing follows it, and no walk returns to the triager |
| FleetWalk.EndsAtReporterExactlyUnless | src/agents/graphs/fleet.py:180-255 | a walk that cannot go on has reached the reporter exactly if no supervisor below the limit rerouted to the triager or kept it as target |
| FleetWalk.OnlyTheDecisionBreaks | src/agents/nodes/homelab_engineer.py:150-162 | with nodes that leave the target or name errand-runner, exactly if none decided a reroute to the triager |
| FleetWalk.BreakingWalk | src/agents/nodes/supervisor.py:106-110 | a walk that breaks |
| FleetWalk.NodesAsTheyStand | src/agents/graphs/fleet.py:158-186 | when no node sets a rejection a walk visits at most five nodes, none twice, whatever the models decide |
| MemoryKeys.NamespaceRoundTrip | src/agents/memory_store.py:67-81 | decoding a stored namespace gives it back exactly for slash-free segments other than the single empty one |
| MemoryKeys.ForeignNamespaces | src/agents/memory_store.py:74-81 | a namespace outside the root is read as its slash-free segments |
| MemoryKeys.KeyRoundTrip | src/agents/memory_store.py:84-86 | decoding a stored name gives the key back exactly when it has no slash |
| MemoryKeys.NamesAreInjective | src/agents/memory_store.py:60-64 | two such addresses never share an entity |
| MemoryKeys.PrefixFilterIsExact | src/agents/memory_store.py:268-296 | for a prefix without wildcards the text filter selects exactly the namespaces the tuple prefix selects |
| MemoryKeys.FilterIsExactIffLiteral | src/agents/memory_store.py:268-296 | it is exact on all namespaces exactly when the prefix holds no `%`, `_` or backslash |
| MemoryKeys.SelectsTooMuch | src/agents/memory_store.py:268-296 | for any other prefix, a namespace that is wrongly selected |
| MemoryStoreModel.MemoryStore.Aget | src/agents/memory_store.py:163-193 | the newest live observation of the entity, if it parses |
| MemoryStoreModel.MemoryStore.Aput | src/agents/memory_store.py:195-266 | a put upserts the entity and appends; a delete marks every observation of the entity and appends nothing |
| MemoryStoreModel.GetReadsTheNewest | src/agents/memory_store.py:163-193 | a get returns a value exactly if the newest live observation of the entity of that name is that value |
| MemoryStoreModel.BehavesAsMapExactlyIfInjective | src/agents/memory_store.py:163-266 | for any set of addresses: after any puts and deletes there a get returns what a plain map would, exactly if no two of them share an entity name |
| MemoryStoreModel.LogRefinesMap | src/agents/memory_store.py:60-266 | slash-free keys and segments are such a set |
| MemoryStoreModel.HistoryOnlyGrows | src/agents/memory_store.py:195-266 | at any addresses: stored history never shrinks, never changes and is never un-deleted |
| MemoryStoreModel.SearchDecodesTheAddress | src/agents/memory_store.py:449-462 | the namespace and key decoded from a stored entity are those it was put under |
| MemoryStoreModel.SlashesCollide | src/agents/memory_store.py:60-64 | with a slash in a key two addresses share one entity, the second put replaces the first item, and the entity stays under the first one's namespace |
| MemorySearch.Merge | src/agents/memory_store.py:268-363 | the two early-exit loops return the first `limit` distinct entities of what the two limited, offset legs hold, for every limit |
| MemorySearch.SemanticComesFirst | src/agents/memory_store.py:308-363 | the semantic leg's entities come first, in its order; the keyword leg adds those it did not show, in its own, up to `limit` |
| MemorySearch.WindowIsASlice | src/agents/memory_store.py:298-310 | a leg is read from `offset` on, `limit` rows of it at most |
| MemorySearch.FirstsIsExact | src/agents/memory_store.py:310-363 | a row is among them exactly if it is the first parseable row of its entity |
| MemorySearch.FirstsAreDistinct | src/agents/memory_store.py:310-363 | no entity comes twice |
| SearchValues.FreshMeansGet | src/agents/memory_store.py:163-193 | an item is fresh exactly if a get at its address returns its value |
| SearchValues.Asearch | src/agents/memory_store.py:268-363 | from the two legs over the log to the results |
| SearchValues.KeywordIsComplete | src/agents/memory_store.py:323-350 | the keyword leg has one row, the newest match, for every entity under the prefix that has one, by entity id |
| SearchValues.KeywordItemIsLatestExactlyIfItMatches | src/agents/memory_store.py:323-350 | an item of the keyword leg comes from the latest live observation exactly if that one matches |
| SearchValues.BrowsingIsFresh | src/agents/memory_store.py:321-363 | without a query every item carries the value a get returns |
| SearchValues.NeverStaleExactlyIfOneValue | src/agents/memory_store.py:268-363 | no search shows an entity with another value than its present one exactly if all its live observations that parse agree |
| SearchValues.SecondPutLeavesAStaleItem | src/agents/memory_store.py:195-266 | after two puts a search finds the first value while a get returns the second |
| Spend.Accounts.EvictOldAgentDaily | src/agents/observability.py:408-419 | drops exactly the days before the retention window |
| Spend.Accounts.RecordLlmCall | src/agents/observability.py:265-313 | adds the cost to counter, task and agent-day, evicting first; a zero cost changes nothing |
| Spend.Accounts.GlobalClaudeSpend | src/agents/observability.py:329-364 | the loop sums exactly the Claude series |
| Spend.Accounts.BuildClaude | src/agents/llm.py:443-469 | a client is handed out exactly when no cap is reached, and the error names the broadest cap that is |
| Spend.TaskSpendIsTheSum | src/agents/observability.py:422-456 | a task's figure is the sum of its charges |
| Spend.AgentDaySpendIsTheSum | src/agents/observability.py:408-461 | under a monotone clock an agent's figure for a day is the sum of that day's charges, for every day in the window, despite evictions |
| Spend.GlobalSpendIsTheSum | src/agents/observability.py:329-364 | the global figure is the sum of the Claude charges |
| Spend.ComputeAnthropicCost | src/agents/observability.py:100-119 | the loop prices by the first row of the table that matches |
| Spend.PricesPerMillion | src/agents/observability.py:76-113 | a million input tokens cost the input price of the longest matching prefix, a million output tokens its output price; no match is free |
| Spend.CostsAddUp | src/agents/observability.py:111-113 | costs add up as token counts do |
| Spend.PartsWithinTheWhole | src/agents/observability.py:390-461 | with charges priced by the table and labelled as the factory labels them, no task's figure and no agent's figure for a day exceeds the global one |
| Spend.CapsOvershootByAtMost | src/agents/llm.py:443-469 | if each client's calls cost at most `k` before the next hand-out, no cap is ever overshot by more than `k`, past midnight included |
| UsageBreakdown.RepresentativeGroup | src/agents/api/admin.py:529-539 | the first group of the smallest rank |
| UsageBreakdown.RepresentativeIsMostEscalated | src/agents/api/admin.py:526-539 | the representative served the task, none that served is more escalated, and it is Claude exactly when Claude served |
| UsageBreakdown.RepresentativeByName | src/agents/api/admin.py:526-539 | Claude if it served, else local-spark-coder, local-spark, local-p40 in this order, else the first that served |
| UsageBreakdown.FiledWhere | src/agents/api/admin.py:567-583 | where a row is filed in both dictionaries, with and without provenance and for an unknown agent |
| UsageBreakdown.GroupBreakdown | src/agents/api/admin.py:542-587 | both maps hold under every key exactly the counts filed there, and no other key |
| UsageBreakdown.BreakdownConserves | src/agents/api/admin.py:542-587 | both maps sum to the total, and the `claude` entry of the one is the `escalated` entry of the other |
| SqlSplitter.SplitStatements | src/agents/queue/migrate.py:20-54 | the loop returns what the line-by-line specification collects |
| SqlSplitter.CommentsStartWithDashes | src/agents/queue/migrate.py:37-42 | a comment line is one with two dashes after nothing but blanks |
| SqlSplitter.StripsAreExact | src/agents/queue/migrate.py:36-47 | stripping takes off all blanks, or all semicolons, at its end and nothing else |
| SqlSplitter.LinesEndAtBreaks | src/agents/queue/migrate.py:35 | a line ends at any break character, and a carriage return with a line feed is one break |
| SqlSplitter.StatementsAreTrimmed | src/agents/queue/migrate.py:46-53 | no statement is empty, and none begins or ends with a blank |
| SqlSplitter.SplittingConserves | src/agents/queue/migrate.py:35-54 | for every input the output holds exactly the non-blank, non-semicolon characters of the lines that are not comments, in order |
| SqlSplitter.SplitInvertsJoin | src/agents/queue/migrate.py:35-54 | splitting joined well-formed statements gives them back, whether or not the last one is terminated |

## Left out

- Effects: HTTP, Postgres transport, NOTIFY, webhooks, notifications, completion posts, metrics and
  tracing; only the row updates and counters are modelled.
- `updated_at`, `served_groups` on the row, `awaiting_approval_stats`, listings, timeout tiers,
  `/admin/tasks/{id}/cancel`, the CLI, the auth middleware, the evals.
- The width of `attempts` and of the intervals: integers are unbounded.
- Worker crashes in the one-worker regime: `dequeue` does not check `max_attempts` on a reclaim, so
  `RetryBound` cannot hold across them. Crashes are covered in `QueueHistory`, `QueueProgress` and
  `QueueLeases`.
- Continued conversations (`conversation_id`), for which the worker runs one thread and checks another.
- `_find_approval_request`'s search for the first interrupt that is an approval request, and the
  curated subset stored on the row: the request is one string.
- QueueWorkerClass.QueueWorker.Run: a verdict on the very task in the gap after its graph run is not
  among the events (`QueueRace` has it); an error of the statement that records the run, which the loop
  does not shield, ends the worker and is not an event.
- QueueHistory.LeavingIsFinal: says nothing about the thread, because a late resume looks at the
  checkpointer alone and can still run it.
- ErrandRunner.Node: the smoke branch's file-system work and the result of an issued call (allowed,
  refused by the gateway, failed) are not distinguished, and lower-casing covers ASCII letters only.
- ErrandRunner.CalledAtMostOnce: a thread's life begins after its first run; the worker's own retry of
  a first run that called on a preset grant is not part of it.
- FleetWalk.FleetWalkTerminates: LangGraph's own recursion limit is not modelled, so an endless
  sequence of stalls is not cut off.
- MemoryStoreModel.LogRefinesMap: addresses with a slash in a segment or key, and the one-segment
  namespace whose segment is empty, are not in the set; used beside others they may collide
  (`SlashesCollide`), and `BehavesAsMapExactlyIfInjective` says when they do no harm.
- MemorySearch.Merge: which texts match, the order of distances and the embedding are inputs.
- `_alist_namespaces` and `_namespace_matches`, a filter and a slice over decoded namespaces.
- UsageBreakdown.GroupBreakdown: the final sort of the two dictionaries by count.
- Spend.Accounts.RecordLlmCall: token and latency counters; the cost arrives as a number.
- The model routing in `llm`, of which only the cap checks are modelled, and anything about which
  agents can reach Claude.

# Verified model of the durable execution runtime

This project models the part of the repository that must not go wrong: the
runtime that moves a task's actions through their statuses by compare-and-set
updates, with a losable message stream, leases, retries, human approvals,
replans and cancellation; the dependency graph and the undo of file
operations; and four algorithms beside it: the glob compiler, workflow mining
with its proposals, document chunking, and the audit hash chain.

`dafny verify dfyconfig.toml` checks everything.

## How it is laid out

The runtime is a transition system. `Model` holds the durable rows (task,
actions, approvals, ledger), the message stream, the workers, and every atomic
step that may change them; `Run` chains steps in any order, so a crash, a lost
or duplicated message or a late worker is just another step. `Safety`,
`Dependencies`, `Consent`, `Delivery`, `Claims` and `Successes` prove what each
step keeps, `Progress` gives the termination measure, and `Runs` draws the
conclusions for every reachable state and every run. `Stranding` says exactly
when a live task cannot go on, and `Counterexamples` holds two concrete runs
into states the design would rather rule out.

The code itself is imperative, and so are `Repos` (the row updates, as methods
of a store), `Reaper`, `Gate`, `Dispatcher`, `Scheduler`, `Worker` and
`Cancel`. Each method states its effect outright and returns, as a ghost, the
steps of `Model` that it amounts to; so whatever `Runs` proves about runs holds
of the code's own control flow. A tick is one transaction: a fault inside it
restores the rows and leaves only the reaping done before. Beside its step,
each operation says what it leaves in plain terms, by statuses, counts, leases
and file contents, so that the steps of `Model` are themselves held to
something. Between a claim and
the end of its attempt, and between the two compensation passes of a
cancellation, other steps may come.

`Graph` and `Dag` are Kahn's algorithm over in-degree maps and a queue.
`FileTools` and `Undo` are the file tools on one disk and the theorem that a
cancellation restores the start; `Rollback` discharges its hypotheses about
order for every reachable state of the runtime. `Plans` turns a plan into rows.
`Regex`, `Glob`, `GlobParsing`, `GlobMeaning` and `GlobTable` take the glob
compiler from the text of the regular expression to the documented table of
pieces, and `Policy` and `Decisions` the gate's decision from the rules to what
each of them can and cannot change; `Verify` says what PASS means. `Ordering`, `Signatures`, `Proposal`, `Mining` and
`Domination`, `Chunking` and `Sections`, and `Audit` stand alone.

Ids are positions of rows, which are created in id order. A parameter hash is
taken to be collision-free. Time is in seconds, and the day a policy rule sees
is the number of whole days.

## Where the code and its description differ

- An approval is meant to be spent by one dispatch, and a replay to ask again.
  But a claim accepts READY as well as DISPATCHED, so a message left over from an
  earlier dispatch can start a row again, an L4 row included, on an approval that
  is already consumed (`Counterexamples.LeftoverMessageRunsL4Again`). A claim runs
  what the gate let through exactly when it finds the row DISPATCHED, and the
  first claim of every row does (`Runs.ClaimsRunWhatTheGateSaw`,
  `Runs.NothingRunsUngated`).
- A failed action leaves its planned dependents non-terminal: such a task never
  completes, fails, replans or asks for help; only its deadline or a
  cancellation ends it (`Stranding.StrandedTaskNeverCompletes`,
  `Counterexamples.StrandedTaskIsReachable`). A task with nothing in flight
  sticks so exactly when every row it has not begun is doomed
  (`Stranding.IdleTaskIsStuckIff`).
- The regular expressions end in `$`, which also matches before one final
  newline; the glob theorem states exactly that.
- A character class with an empty body is neither refused nor empty: the bracket
  after it becomes a member and the class reads on through the compiled text
  (`GlobMeaning.EmptyClassReadsOn`, `GlobMeaning.TranslationMeans`).
- A write, copy or overwriting move executed twice by one action overwrites its
  own backup; `FileTools.RetriedRestoresIff` says exactly when the undo still
  restores the start.
- A move whose source is missing and whose destination exists counts as a
  replay; undoing it does not restore the start (`FileTools.RoundTripIffFound`).
- Two shapes of parameters can have the same signature key when a parameter name
  holds a separator, and then generalising drops what is not common
  (`Signatures.SeparatorsMakeKeysAmbiguous`, `Proposal.RoundTripExactIff`).
- A pattern is dropped in favour of one whose key contains its key as text, which
  need not contain it as a sequence (`Domination.DominationIsTextual`); it does
  unless a tool's name ends with the candidate's first tool
  (`Domination.ContainsIff`, `Domination.DominationIsOfPatternsIf`).
- The pass after the grace wait reports irreversible and failed actions a second
  time (`Cancel.SecondPassReportsAgain`).
- Cutting rows off the end of the audit log is not reported
  (`Audit.TruncationIsSilent`).
- A plan rejected at install is written as FAILED before the error is raised;
  whether that write survives is up to the caller's transaction.

## Model

| member | source | states |
|---|---|---|
| `Runs.ReachableInvariant` | vyomel/runtime/scheduler.py:75-210 | every state reachable under any interleaving of ticks, workers, crashes, lost or repeated messages, human decisions, replans and cancellation satisfies the whole invariant |
| `Runs.StepInvariant` | vyomel/runtime/scheduler.py:160-366 | each single atomic step keeps every part of the invariant |
| `Runs.RunInvariant` | vyomel/runtime/scheduler.py:108-142 | any finite run from a state of the invariant ends in one |
| `Runs.InitialInvariant` | vyomel/store/models.py:75-124 | a freshly created task satisfies the invariant |
| `Runs.ExecutionRespectsDependencies` | vyomel/runtime/dag.py:76-90 | in every reachable state a started action has each dependency SUCCEEDED, or UNVERIFIED if its own step tolerates that, or ROLLED_BACK under a cancelled task |
| `Runs.SuccessIsForever` | vyomel/runtime/scheduler.py:278-366 | once a task is SUCCEEDED no run changes its rows, and every row is succeeded, tolerated, or replaced |
| `Runs.NoFalseSuccess` | vyomel/runtime/worker.py:397-440 | a SUCCEEDED action always rests on recorded checks that all passed, declared ones at L2 and above |
| `Runs.NothingRunsUngated` | vyomel/runtime/dispatcher.py:95-168 | attempts are exactly claims, and the first claim of any row took the very call that a gate decision covers, with a human's decided L4 approval for these parameters at L4 |
| `Runs.ClaimsRunWhatTheGateSaw` | vyomel/store/repos.py:44-67 | of every claim ever made: a dispatch of the same stay, level and parameters covers it, with consent where that is due, exactly when the claim found the row DISPATCHED |
| `Runs.RunningIsAsClaimed` | vyomel/runtime/worker.py:228-453 | a RUNNING row runs the call its claim took, covered exactly when that claim found it DISPATCHED |
| `Runs.DispatchesAreNotReused` | vyomel/runtime/dispatcher.py:133-148 | no dispatch covers two claims |
| `Runs.DispatchesAreConsented` | vyomel/runtime/gate.py:239-325 | every dispatch stayed under the ceiling; one decided CONFIRM spent an approval of its own that covered it |
| `Runs.OneQuestionEach` | vyomel/security/approvals.py:99-105 | a waiting action has exactly one pending approval; a pending approval belongs to a row that waits or was cancelled while waiting |
| `Runs.OneClaimPerStay` | vyomel/store/repos.py:44-67 | in every reachable state no READY/DISPATCHED stay of a row was claimed twice |
| `Runs.OneExecutionPerKey` | vyomel/runtime/worker.py:283-302 | in every reachable state no two committed attempts ran a non-idempotent tool under one key, and each such key is reserved |
| `Runs.AttemptsAreBounded` | vyomel/runtime/reaper.py:26-70 | attempt_count never exceeds max(1, max_retries) |
| `Runs.LiveTaskPromotes` | vyomel/runtime/dag.py:76-90 | no deadlock: a live task with a planned row and no unacceptable finished dependency can always promote one |
| `Stranding.StrandedTaskNeverCompletes` | vyomel/runtime/scheduler.py:278-366 | a failed action with a planned dependent keeps the task unfinished in every continuation without deadline or cancellation |
| `Stranding.DoomedRowNeverStarts` | vyomel/runtime/dag.py:76-90 | a row planned behind planned rows, the last behind an unacceptable ending, never starts in any such continuation |
| `Stranding.IdleTaskIsStuckIff` | vyomel/runtime/scheduler.py:278-300 | a reachable live task with nothing in flight never moves or ends again, short of its deadline or a cancellation, if and only if no row can be promoted, if and only if every planned row is doomed; some row is then stranded |
| `Counterexamples.StrandedTaskIsReachable` | vyomel/runtime/scheduler.py:278-300 | install two rows, promote, dispatch, claim and crash the first: the state is reachable, unfinished, stranded and stuck |
| `Counterexamples.LeftoverMessageRunsL4Again` | vyomel/security/approvals.py:1-14 | an L4 row is claimed twice on one consumed approval in a reachable state, the second time with no gate decision for its stay |
| `Claims.StepKeepsTold` | vyomel/store/repos.py:44-67 | every step keeps: no stay dispatched twice, a dispatch waiting, claimed once or cancelled, a claim of DISPATCHED taking the gated call, a claim of READY coming after a gated one, RUNNING rows as claimed, attempts equal to claims |
| `Successes.StepKeepsSuccesses` | vyomel/runtime/dag.py:76-90 | every step keeps: the record of successes lists each SUCCEEDED or ROLLED_BACK row once, and none before something it transitively depends on |
| `Safety.StepKeepsRowsOk` | vyomel/store/repos.py:44-103 | every step keeps: exactly RUNNING rows hold a lease, a stored result implies a terminal status, attempts below the cap, success proven, levels under the ceiling |
| `Safety.MovesFollowTheTable` | vyomel/runtime/state.py:55-77 | every status write to an action is a row of the normative table, except a heartbeat and the claim that also accepts READY |
| `Safety.TaskStepsFollowTheTable` | vyomel/runtime/state.py:79-103 | every status write to a task is a row of its table; installing a plan takes two rows at once |
| `Safety.StepKeepsSuccessEarned` | vyomel/runtime/scheduler.py:278-349 | SUCCEEDED is only reached over satisfied rows |
| `Safety.SucceededRowsFrozen` | vyomel/runtime/state.py:135-146 | no step can touch a SUCCEEDED task or its rows |
| `Dependencies.StepKeepsGraph` | vyomel/orchestrator/plans.py:132-326 | through install and any number of replans the stored graph stays closed and acyclic |
| `Dependencies.StepKeepsRespect` | vyomel/runtime/dispatcher.py:71-93 | every step keeps the dependency condition on started rows |
| `Consent.StepKeepsQuestions` | vyomel/runtime/gate.py:239-325 | every step keeps one pending approval per waiting row and none elsewhere, cancelled rows aside |
| `Consent.StepKeepsLinear` | vyomel/security/approvals.py:107-149 | every step keeps consent linear: covered dispatches, approvals spent at most once, none spent without a dispatch |
| `Consent.NoL4WithoutConsent` | vyomel/security/policy.py:205-211 | an L4 dispatch has a decided L4 approval for exactly its parameters that no other dispatch used |
| `Consent.EscalatingEditIsNotConsent` | vyomel/orchestrator/approvals.py:138-195 | after an edit the approval covers the action exactly when the new level is not above the level that was shown |
| `Delivery.StepKeepsGated` | vyomel/runtime/dispatcher.py:170-217 | messages exist only for dispatched actions, and only those ever run |
| `Delivery.StepKeepsStaysGated` | vyomel/runtime/dispatcher.py:133-148 | a DISPATCHED stay has been through the gate with the level and parameters the row still holds, a READY stay has not |
| `Delivery.ClaimIsGatedIffDispatched` | vyomel/store/repos.py:44-67 | the claim accepts READY too: what it takes was let through by the gate in this stay, level and parameters included, exactly when the row was DISPATCHED |
| `Delivery.StepKeepsClaims` | vyomel/store/repos.py:44-67 | however messages are duplicated, no READY/DISPATCHED stay of a row is claimed twice |
| `Delivery.StepKeepsEffectsOnce` | vyomel/store/repos.py:177-187 | among committed attempts a non-idempotent tool runs at most once per idempotency key |
| `Delivery.ReservedNeverSucceeds` | vyomel/runtime/worker.py:283-302 | the branch that reports success from a reserved key with a stored result is never taken |
| `Delivery.DispatchedIsRecoverable` | vyomel/store/repos.py:128-136 | a DISPATCHED row is always an orphan recovery finds, and its message then lets an idle worker claim it |
| `Delivery.AbandonedIsReclaimable` | vyomel/store/repos.py:105-113 | a RUNNING row whose lease ran out can be reaped: READY while attempts remain, else FAILED |
| `Delivery.LeasesMatchStatus` | vyomel/store/repos.py:44-87 | READY and DISPATCHED rows hold no lease and exactly RUNNING rows hold one |
| `Progress.StepProgresses` | vyomel/runtime/worker.py:456-488 | apart from human decisions and new plans a step either writes no status and keeps the measure, or strictly lowers it |
| `Progress.LexicographicProgress` | vyomel/orchestrator/replanning.py:24-94 | replans left, then the weighted sum of attempts left, ranks and open questions, fall lexicographically with every such step |
| `Progress.StretchIsBounded` | vyomel/runtime/scheduler.py:108-142 | a stretch of any run without human decisions or new plans holds at most Measure status-writing steps |
| `Progress.ReplansAreBounded` | vyomel/orchestrator/replanning.py:31-33 | no run replans more often than max_replans |
| `Lifecycle.Index` | vyomel/runtime/state.py:105-113 | builds the lookup exactly when no two rows disagree, and then it is the table |
| `Lifecycle.ApplyActionIsTheTable` | vyomel/runtime/state.py:120-132 | the action lookup is exactly the table with its cancel rows |
| `Lifecycle.ApplyTaskIsTheTable` | vyomel/runtime/state.py:135-146 | the task lookup is exactly the table with its cancel rows |
| `Lifecycle.ActionTableIsUnambiguous` | vyomel/runtime/state.py:55-77 | the action table has one destination per status and trigger |
| `Lifecycle.TaskTableIsUnambiguous` | vyomel/runtime/state.py:79-103 | the task table has one destination per status and trigger |
| `Lifecycle.ActionsMoveForward` | vyomel/runtime/state.py:55-77 | only READY is dispatched or asked about, only DISPATCHED runs, only RUNNING succeeds or stays unverified, and of the ended statuses only SUCCEEDED is left, to be rolled back |
| `Lifecycle.TasksEndOnce` | vyomel/runtime/state.py:79-103 | a task waits, pauses and asks for help only from RUNNING and returns only there unless it ends; it succeeds only from RUNNING, and its ends are final |
| `Dag.IndexEdges` | vyomel/runtime/dag.py:43-56 | rejects exactly the lists with a dangling or self edge, otherwise counts every edge with its multiplicity |
| `Dag.Drain` | vyomel/runtime/dag.py:58-66 | the queue drain pops each id once, dependencies first, and stops only when nothing left is free |
| `Dag.ValidateAcyclic` | vyomel/runtime/dag.py:37-73 | returns normally if and only if ids are unique, the graph is closed and a topological order exists; a short count comes with a genuine cycle |
| `Dag.ReverseTopo` | vyomel/runtime/dag.py:93-113 | raises exactly when validation does; otherwise every id once, each before all it depends on |
| `Dag.ReadyIds` | vyomel/runtime/dag.py:76-90 | lists the ready nodes in input order |
| `Dag.ReadyOfMeans` | vyomel/runtime/dag.py:76-90 | listed exactly when PLANNED with every dependency acceptable to that node |
| `Dag.NoDeadlock` | vyomel/runtime/dag.py:76-90 | an acyclic list whose settled nodes are acceptable and that has a planned node has a ready one |
| `Dag.ShortDrainHasCycle` | vyomel/runtime/dag.py:68-73 | when the drain falls short, the left-over ids contain a cycle |
| `Graph.CyclePreventsOrder` | vyomel/runtime/dag.py:68-73 | a cycle rules out every topological order |
| `Graph.DependentsComeFirst` | vyomel/runtime/dag.py:93-113 | in an undo order everything an id transitively depends on comes after it |
| `Repos.Select` | vyomel/store/repos.py:105-113 | a query returns exactly the rows it describes, each once |
| `Repos.Store.constructor` | vyomel/store/models.py:75-226 | an empty store is an initial state and satisfies the invariant |
| `Repos.Store.CasStatus` | vyomel/store/repos.py:89-103 | writes the row exactly when it exists with the expected status |
| `Repos.Store.CasClaim` | vyomel/store/repos.py:44-67 | claims from DISPATCHED or READY, sets the lease and counts the attempt |
| `Repos.Store.ExtendLease` | vyomel/store/repos.py:69-87 | extends exactly a RUNNING lease of this worker |
| `Repos.Store.RewriteInvocation` | vyomel/store/repos.py:149-175 | rewrites parameters, level and key together, only while waiting |
| `Repos.Store.InsertLedger` | vyomel/store/repos.py:177-187 | reserves exactly when the key is new |
| `Repos.Store.ExpiredLeases` | vyomel/store/repos.py:105-113 | exactly the leased rows past their lease |
| `Repos.Store.OrphanDispatched` | vyomel/store/repos.py:128-136 | exactly the DISPATCHED rows without a lease |
| `Repos.Store.UsableFor` | vyomel/security/approvals.py:107-142 | the newest approval that covers the row as it now stands, if there is one |
| `Repos.Store.PendingFor` | vyomel/security/approvals.py:99-105 | a pending approval of the action exactly when one exists |
| `Reaper.Reap` | vyomel/runtime/reaper.py:26-70 | a lease is lost once its time is past: a row that was RUNNING then fails as timed out when its attempts are used up and returns to READY for a new stay otherwise; a row within its lease is as it was |
| `Reaper.ReapOne` | vyomel/runtime/reaper.py:31-69 | one expired row moves by exactly the Reap step |
| `Gate.FailReadyAction` | vyomel/runtime/gate.py:372-388 | refuses a due row by exactly the Refuse step |
| `Gate.RequireApproval` | vyomel/runtime/gate.py:239-325 | spends the newest approval a human granted for this row, these parameters and at least this level that is neither spent nor expired; without one it asks, once, about exactly this call, and the row waits |
| `Gate.Check` | vyomel/runtime/gate.py:67-121 | above the ceiling or denied, the row fails with PERMISSION_DENIED; allowed, it passes; to be confirmed, it needs an approval; it raises exactly when policy would auto-approve L4 |
| `Gate.RefuseWaiting` | vyomel/runtime/gate.py:161-225 | fails the waiting row and, if nothing is left to do, its waiting task |
| `Gate.ExpireOne` | vyomel/runtime/gate.py:210-224 | one overdue question is closed by exactly one step |
| `Gate.ExpireOverdue` | vyomel/runtime/gate.py:203-225 | silence is refusal: every pending question whose time is up becomes EXPIRED and every row that waited on one fails; all else is as it was |
| `Gate.LiveAction` | vyomel/orchestrator/approvals.py:125-136 | finds the action exactly when it exists and still waits |
| `Gate.AssertPending` | vyomel/security/approvals.py:228-241 | passes exactly for a pending approval before its deadline |
| `Gate.GrantWaiting` | vyomel/runtime/gate.py:123-159 | returns the row to READY and resumes a waiting task |
| `Gate.Approve` | vyomel/orchestrator/approvals.py:74-107 | succeeds exactly for a pending question in time about a row that still waits, with a valid edit within the ceiling; the row then returns to READY with the edited call and no delay, and otherwise nothing changes |
| `Gate.Reject` | vyomel/orchestrator/approvals.py:109-123 | succeeds exactly for a pending question in time about a row that still waits; the row fails, and a waiting task with it once every row has ended; otherwise nothing changes |
| `Dispatcher.ReadyRows` | vyomel/runtime/dispatcher.py:75-88 | the ready ids over the stored rows are exactly the promotable rows |
| `Dispatcher.ReadyIsPromotable` | vyomel/runtime/dag.py:76-90 | readiness over the node list is readiness of the rows |
| `Dispatcher.PromoteOne` | vyomel/runtime/dispatcher.py:88-92 | promotes by exactly the Promote step, or finds the row no longer planned |
| `Dispatcher.PromoteReady` | vyomel/runtime/dispatcher.py:71-93 | promotes exactly the PLANNED rows of which every dependency is SUCCEEDED, or UNVERIFIED where the row's step tolerates that |
| `Dispatcher.NothingLeftToPromote` | vyomel/runtime/scheduler.py:192-197 | after promoting and dispatching no row is left to promote |
| `Dispatcher.CountInFlight` | vyomel/runtime/dispatcher.py:241-247 | counts the DISPATCHED and RUNNING rows, overall and per concurrency key of their tools |
| `Dispatcher.FlightIsOut` | vyomel/runtime/dispatcher.py:111-114 | the count is the number of ids whose row is DISPATCHED or RUNNING |
| `Dispatcher.KeyFlightIsOut` | vyomel/runtime/dispatcher.py:241-247 | and per key the number of those whose tool has it |
| `Dispatcher.Offer` | vyomel/runtime/dispatcher.py:133-148 | gates one due row and, if allowed, commits it, by exactly the verdict's step |
| `Dispatcher.EnqueueReady` | vyomel/runtime/dispatcher.py:95-168 | the number of rows that are DISPATCHED or RUNNING never rises above max_parallel, nor that of one key above its limit, unless it was higher on entry; published ids are exactly the newly dispatched; a due row left behind met one of these numbers at its limit; only due rows were offered, and each of them is dispatched, waits for a human or was refused |
| `Dispatcher.LimitIsTheLimit` | vyomel/runtime/dispatcher.py:34-40 | one on the desktop, one in the browser, four on files, eight over HTTP, two at the model, and what the task may have for any other key |
| `Dispatcher.BoundedIsWithin` | vyomel/runtime/dispatcher.py:95-168 | the bound on the sets of rows that are out, for the task and for every key |
| `Scheduler.ResumeIfUnblocked` | vyomel/runtime/scheduler.py:213-230 | a WAITING_FOR_USER task runs again exactly when no row waits |
| `Scheduler.StartIfBegun` | vyomel/runtime/dispatcher.py:219-232 | a READY task runs exactly when some row is neither PLANNED nor READY |
| `Scheduler.BlockIfAwaitingUser` | vyomel/runtime/scheduler.py:233-246 | a RUNNING task waits exactly when some row waits and every other row has ended |
| `Scheduler.TryReplan` | vyomel/orchestrator/replanning.py:24-94 | replaces the first failed row and appends the new block exactly when the budget is left, that row is replannable and the planner has a plan; otherwise nothing changes |
| `Scheduler.EndSettled` | vyomel/runtime/scheduler.py:292-349 | a settled task that is not replanned ends by its verdict |
| `Scheduler.CompleteIfDone` | vyomel/runtime/scheduler.py:278-366 | a task that is not over is left alone; one that is over is replanned from its first failed row when replans are left, neither policy nor verifier spoke against that row and the planner has a plan; otherwise it succeeds exactly when nothing failed and nothing untolerated is unverified, needs a human exactly when something failed with no replan left, and else fails |
| `Scheduler.VerdictMeans` | vyomel/runtime/scheduler.py:278-366 | the verdict as statuses: SUCCEEDED, NEEDS_HUMAN and FAILED each exactly when |
| `Scheduler.DueMeans` | vyomel/orchestrator/replanning.py:31-41 | a replan is due exactly when the first FAILED row failed neither in verification nor for permission and replans are left |
| `Scheduler.AdvanceRows` | vyomel/runtime/scheduler.py:192-197 | the row work of a tick leaves nothing to promote and nothing to dispatch short of a full dispatcher |
| `Scheduler.AdvanceTask` | vyomel/runtime/scheduler.py:198-210 | the task work of a tick leaves no task-level step enabled |
| `Scheduler.TickTask` | vyomel/runtime/scheduler.py:160-210 | one pass drives the task to a state where neither task nor rows have a step left, short of a full dispatcher, a pending human or a plan just appended; a live task past its deadline fails and does nothing else |
| `Scheduler.Publish` | vyomel/runtime/dispatcher.py:170-217 | moves each id from the outbox to the stream after the commit |
| `Scheduler.PublishOrphans` | vyomel/runtime/scheduler.py:80-96 | adds one message for each orphan |
| `Scheduler.TickTransaction` | vyomel/runtime/scheduler.py:113-130 | the transaction either takes its steps or, on a fault, restores everything |
| `Scheduler.ReapAndCommit` | vyomel/runtime/scheduler.py:108-130 | an aborted tick has still reclaimed every expired lease and nothing else |
| `Scheduler.TickLeases` | vyomel/runtime/scheduler.py:113-130 | the transaction of a tick hands out no lease and lets none run out |
| `Scheduler.Tick` | vyomel/runtime/scheduler.py:108-142 | a tick keeps the invariant, leaves the task quiet and no lease overdue, publishes what it dispatched, and loses no message |
| `Scheduler.Recover` | vyomel/runtime/scheduler.py:75-106 | whatever was lost before, afterwards every DISPATCHED row has a message, even if the tick that follows is aborted |
| `Worker.Claim` | vyomel/runtime/worker.py:98-129 | takes a READY or DISPATCHED row: RUNNING, one attempt more, leased to this worker for its timeout; otherwise changes nothing |
| `Worker.FinishFailed` | vyomel/runtime/worker.py:491-523 | fails the row with its code and frees the lease |
| `Worker.RetryOrFinish` | vyomel/runtime/worker.py:456-488 | one retry or failure as the model's step has it; `Worker.AttemptMeans` says which |
| `Worker.FinishCancelled` | vyomel/runtime/worker.py:526-541 | cancels the running row |
| `Worker.FinishVerified` | vyomel/runtime/worker.py:397-454 | stores the verified outcome and its checks |
| `Worker.Call` | vyomel/runtime/worker.py:304-381 | each way a call can come back has its own ending; a cancellation nobody asked for is re-raised |
| `Worker.RunClaimed` | vyomel/runtime/worker.py:228-453 | the first obstacle decides the ending; the ledger is reserved only for an execution that commits |
| `Worker.AttemptMeans` | vyomel/runtime/worker.py:304-381 | over every attempt that reaches the call: READY again if and only if it timed out, or raised a retryable error that no cancellation was signalled for, and attempts are left; then without a lease, due after the delay, in a new stay, under the code; any other error or crash FAILED under its code; CANCELLED exactly under a signalled cancellation; and before the call the first obstacle in order |
| `Worker.VerdictIsJudged` | vyomel/runtime/worker.py:397-440 | an output is SUCCEEDED exactly when every postcondition was observed to hold and, at L2 and above, there was one; FAILED exactly when one was observed not to hold; else UNVERIFIED; it is stored in each case |
| `Worker.ExecuteRunning` | vyomel/runtime/worker.py:131-453 | an attempt commits exactly its ending, reservation included, or rolls everything back and leaves the row to the reaper |
| `Worker.Execute` | vyomel/runtime/worker.py:131-201 | one attempt in plain terms: a cancelled task cancels the row; turned back, the row fails under the obstacle's code; otherwise the call's ending as in `Worker.AttemptMeans`, the key reserved with it; a row no longer RUNNING is left alone |
| `Worker.EndingsAreSafe` | vyomel/runtime/worker.py:228-453 | over every possible attempt: a retry needs attempts left, a reserved key never runs again, success needs a verified output |
| `Cancel.StoredGraphAcyclic` | vyomel/runtime/cancel.py:245-256 | the undo order never raises on the graph of a reachable state |
| `Cancel.UndoOrder` | vyomel/runtime/cancel.py:245-256 | an undo order of the stored dependencies |
| `Cancel.CompensateRow` | vyomel/runtime/cancel.py:263-306 | skips, lists or compensates one row, by exactly the Compensate step |
| `Cancel.CompensateSucceeded` | vyomel/runtime/cancel.py:239-308 | one pass, step by step in the order of its list: splits exactly the rows SUCCEEDED on entry, rolls back precisely the compensated ones, and compensates every dependent before anything it transitively depends on |
| `Cancel.PassSplits` | vyomel/runtime/cancel.py:239-308 | each succeeded row is in exactly one of the three lists |
| `Cancel.CancelPending` | vyomel/runtime/cancel.py:157-167 | exactly the rows that are PLANNED, READY, DISPATCHED or WAITING_FOR_USER become CANCELLED and give up their lease; all others are as they were |
| `Cancel.Cancel` | vyomel/runtime/cancel.py:113-237 | conflicts exactly on SUCCEEDED and FAILED tasks. Of a live task no row is PLANNED, READY, DISPATCHED or WAITING_FOR_USER afterwards: each that was is CANCELLED without a lease, exactly the reversible successes whose tool would undo them are ROLLED_BACK, running and other ended rows are as they were, the report lists exactly these, and no question can be answered. A cancelled task is only reported again |
| `Cancel.NothingRestarts` | vyomel/runtime/cancel.py:113-237 | in every continuation: ended rows stay as they ended unless undone, no row is planned, dispatched or asked about again, and no approval can be decided |
| `Cancel.AfterGrace` | vyomel/runtime/cancel.py:195-212 | the pass after the grace wait undoes exactly the reversible successes whose tool would, and extends the report by its own three lists |
| `Cancel.SecondPassReportsAgain` | vyomel/runtime/cancel.py:204-211 | the second pass undoes nothing twice but reports the irreversible and failed rows again |
| `FileTools.OnlyOwnPathsChange` | vyomel/tools/fs.py:186-471 | executing or undoing an operation changes only its own files, its own backup and its own trash slot |
| `FileTools.ExecutionPerforms` | vyomel/tools/fs.py:186-465 | file by file: a write leaves the payload in place; a move leaves the source's content at the destination and no source, unless they are one; a copy leaves both; a delete leaves nothing in place and the content in the action's slot; what was overwritten is in the action's backup; and exactly when each fails |
| `FileTools.UndoKeepsNewSource` | vyomel/tools/fs.py:323-471 | undoing never overwrites a file that came back in place of the moved or deleted one |
| `FileTools.BaseNameMeans` | vyomel/tools/fs.py:434-465 | a trash slot is named after what follows the last separator |
| `FileTools.UndoRestores` | vyomel/tools/fs.py:186-471 | undoing works from any later state that looks, on the operation's own paths, as it was left |
| `FileTools.RoundTripIffFound` | vyomel/tools/fs.py:302-309 | one execution and its undoing restore every user file if and only if the operation found what it was asked to act on |
| `FileTools.RetriedRestoresIff` | vyomel/tools/fs.py:199-209 | after a second execution by the same action the undo restores the start exactly in the stated cases, since the backup was overwritten |
| `Undo.Disk.BackupExisting` | vyomel/tools/fs.py:495-506 | copies an existing destination to the action's backup |
| `Undo.Disk.RestoreBackup` | vyomel/tools/fs.py:509-521 | restores the destination from an existing backup |
| `Undo.Disk.WriteFile` | vyomel/tools/fs.py:186-216 | a payload within the limit is in place afterwards, and what it replaced is in the backup; as in `FileTools.ExecutionPerforms` |
| `Undo.Disk.MoveFile` | vyomel/tools/fs.py:298-321 | the destination holds what the source held, the source is gone, and what was replaced is in the backup; a missing source with its destination in place counts as done |
| `Undo.Disk.CopyFile` | vyomel/tools/fs.py:355-388 | source and destination hold what the source held, and what was replaced is in the backup; onto itself or from nothing it fails |
| `Undo.Disk.DeleteFile` | vyomel/tools/fs.py:434-465 | the file is gone from its place and lies in the action's slot; a missing file already in the slot counts as done, any other missing file fails |
| `Undo.Disk.Compensate` | vyomel/tools/fs.py:218-471 | the undo of each tool as the specification function says |
| `Undo.UndoOne` | vyomel/runtime/cancel.py:263-306 | undoing an action in its turn puts its files back |
| `Undo.OrderGivesTurn` | vyomel/runtime/dag.py:93-113 | the compensation order undoes everything that ran later on a shared file first |
| `Undo.CancelRestoresTheStart` | vyomel/runtime/cancel.py:239-308 | for any graph, files and consistent single executions with unrelated actions on disjoint files, compensating in the undo order gives back every original file |
| `Undo.PartialUndo` | vyomel/runtime/cancel.py:263-306 | a pass that stops early leaves each file as it was before the first undone action that touched it |
| `Undo.ExecuteAll` | vyomel/runtime/worker.py:304-335 | runs the actions one by one and stores each output |
| `Undo.CancelAll` | vyomel/runtime/cancel.py:239-308 | the loop over `reverse_topo` on the disk restores every user file |
| `Rollback.SuccessesAreConsistent` | vyomel/runtime/cancel.py:239-262 | in every reachable state the successes are listed once each, are the SUCCEEDED and ROLLED_BACK rows, and respect the stored graph |
| `Rollback.ReachableTaskIsUndoable` | vyomel/runtime/cancel.py:239-308 | after any run of the system, undoing the successes in the compensation order of the stored graph gives back every user file, given single executions that found their source and disjoint files of unrelated rows |
| `Plans.CheckDependencies` | vyomel/orchestrator/plans.py:188-197 | rejects exactly the plans that name an unknown step or action |
| `Plans.UpstreamMeans` | vyomel/orchestrator/plans.py:202-211 | an implicit dependency is exactly an action of a step that the step names |
| `Plans.MakeRow` | vyomel/orchestrator/plans.py:175-326 | refuses exactly a step or call above the ceiling and an unresolvable action; the row takes the plan's own limits before the settings', and by default the smaller of the tool's and the settings' timeouts |
| `Plans.Materialize` | vyomel/orchestrator/plans.py:175-326 | succeeds on exactly the installable plans; its rows are untouched, within the ceiling, and depend only on each other without a cycle |
| `Plans.StoredRow` | vyomel/orchestrator/plans.py:175-326 | row i carries the i-th action of the plan, as `Plans.MakeRow` says |
| `Plans.StoredEdges` | vyomel/orchestrator/plans.py:199-225 | stored edges: explicit dependencies win, otherwise every action of every step the step names |
| `Plans.MovedOrder` | vyomel/orchestrator/plans.py:213-226 | acyclicity over aliases carries over to the stored ids |
| `Plans.Install` | vyomel/orchestrator/plans.py:62-130 | installs exactly an installable plan of a CREATED task, one row per action carrying it; an invalid one fails the task, too many steps change nothing |
| `Policy.NeverAllowsL4` | vyomel/security/policy.py:205-211 | no rule set allows an L4 action |
| `Policy.DenyWins` | vyomel/security/policy.py:157-183 | a deny that applies wins wherever it stands |
| `Policy.AllowanceIsGranted` | vyomel/security/policy.py:157-183 | an allowance needs an applicable allow rule or a level default, and no applicable deny |
| `Policy.ScopedRuleDoesNotGrow` | vyomel/security/policy.py:91-98 | a level-scoped allowance is withdrawn above its scope |
| `Decisions.OutRuleIsInert` | vyomel/security/policy.py:59-98 | a rule whose tool pattern misses the tool, whose workflow pattern misses or has no workflow, one of whose arguments is absent or unmatched, whose scope is below the level or whose day has passed cannot change the answer wherever it stands |
| `Decisions.RuleIsIn` | vyomel/security/policy.py:59-98 | conversely a rule that passes all of these counts |
| `Decisions.DenyDecides` | vyomel/security/policy.py:157-183 | any deny that counts makes the answer Deny |
| `Decisions.FirstRuleDecides` | vyomel/security/policy.py:157-183 | with none, the first other rule that counts decides, but for the L4 error |
| `Decisions.DefaultDecides` | vyomel/security/policy.py:157-183 | with no rule that counts the level's default decides, and without one the answer is Deny |
| `Verify.PassMeansProven` | vyomel/verify/engine.py:88-133 | PASS exactly when all recorded checks passed, and at L2 and above at least one was declared |
| `Verify.FailureDominates` | vyomel/verify/engine.py:128-133 | the outcome is FAIL exactly when some check failed |
| `Glob.Translate` | vyomel/security/matching.py:39-76 | the compiled text is the fragments of the pattern between `^` and `$` |
| `GlobParsing.TranslationParses` | vyomel/security/matching.py:39-76 | the compiled text of any normalised pattern parses to the items of the pattern, and fails to parse exactly when a class is not closed or a span descends |
| `GlobMeaning.TranslationMeans` | vyomel/security/matching.py:39-76 | for every normalised pattern: it compiles exactly when its classes close and ascend, and then matches exactly what the direct matcher accepts, or accepts without one final newline |
| `GlobMeaning.GlobMatchMeans` | vyomel/security/matching.py:79-94 | the entry point accepts exactly what the direct matcher accepts of the whole value or, for a bare pattern, of its last segment |
| `GlobMeaning.EmptyClassReadsOn` | vyomel/security/matching.py:61-72 | an empty class reads on to the next bracket of the compiled text: `[]a]` matches `a` and `]`, the star of `[]*` crosses separators, and `[]` does not compile |
| `GlobMeaning.SeparatorsAreKept` | vyomel/security/matching.py:79-94 | without `**` and classes a match keeps the number of separators |
| `GlobMeaning.GlobMatchKeepsDepth` | vyomel/security/matching.py:79-94 | the same for the entry point, given a separator in the pattern |
| `GlobTable.LeadingSegments` | vyomel/security/matching.py:12 | `**/` is nothing, or anything up to a separator |
| `GlobTable.Anything` | vyomel/security/matching.py:13 | `**` is any text |
| `GlobTable.WithinSegment` | vyomel/security/matching.py:14 | `*` is any text without a separator |
| `GlobTable.OneCharacter` | vyomel/security/matching.py:15 | `?` is one character but a separator |
| `GlobTable.OneOf` | vyomel/security/matching.py:16 | `[abc]` is one of the characters listed |
| `GlobTable.NoneOf` | vyomel/security/matching.py:65-70 | `[!abc]` is one character that is not listed |
| `GlobTable.OneFrom` | vyomel/security/matching.py:16 | `[a-z]` is one character of the span |
| `GlobTable.Literal` | vyomel/security/matching.py:73-74 | any other text is itself |
| `GlobTable.CaseAndSlashesDoNotMatter` | vyomel/security/matching.py:30-94 | values and patterns that differ only in the case of ASCII letters and the direction of slashes give the same answer |
| `GlobTable.ExactRule` | vyomel/security/matching.py:79-94 | a path without wildcards matches itself alone, up to a final newline |
| `GlobTable.DirectoryRule` | vyomel/security/matching.py:79-94 | `dir/**` matches exactly what lies under the directory |
| `GlobTable.ExtensionRule` | vyomel/security/matching.py:79-94 | `*.ext` matches exactly the values whose last segment ends so, wherever they lie |
| `Proposal.FreshName` | vyomel/learning/proposal.py:83-89 | the disambiguation loop ends with an unused name |
| `Proposal.NewName` | vyomel/learning/proposal.py:83-89 | and never runs: two steps or keys never share a base name |
| `Proposal.GeneralizeKey` | vyomel/learning/proposal.py:75-97 | one key: dropped, kept as the common literal, or turned into a parameter |
| `Proposal.GeneralizeStep` | vyomel/learning/proposal.py:71-104 | one step: exactly the common keys, and one distinct parameter per varying value |
| `Proposal.Generalize` | vyomel/learning/proposal.py:61-105 | the whole proposal over its windows |
| `Proposal.ProposalMeans` | vyomel/learning/proposal.py:61-105 | key by key: a step has exactly the parameters every window has, the value itself where all agree and otherwise a reference to the one parameter of that step and key, with the first window's value as its example |
| `Proposal.BaseNameReads` | vyomel/learning/proposal.py:83-84 | a parameter is named by the number of its step, from one, and its key |
| `Proposal.ResolveKeepsLiterals` | vyomel/learning/proposal.py:162-169 | a literal without a hole is kept as it is |
| `Proposal.ResolveMeans` | vyomel/learning/proposal.py:162-176 | resolving fails exactly when the value asks, at any depth, for a name without a value, and otherwise leaves no hole when the values hold none |
| `Proposal.BindMeans` | vyomel/learning/proposal.py:154-176 | the error names exactly the parameters without a value; otherwise each step, in order, gets its tool and its resolved parameters |
| `Proposal.OwnValues` | vyomel/learning/proposal.py:154-176 | every window can supply its own values |
| `Proposal.GeneralizeBindRoundTrip` | vyomel/learning/proposal.py:154-176 | binding with a window's own values gives the tools of the pattern and, of that window's parameters, exactly those common to all |
| `Proposal.RoundTripExactIff` | vyomel/learning/proposal.py:61-176 | the round trip reproduces the window if and only if it has the pattern's tools and no parameter another window lacks |
| `Proposal.LiteralHoleIsLost` | vyomel/learning/proposal.py:162-167 | why literals must hold no hole |
| `Signatures.SameKeySameShape` | vyomel/learning/signatures.py:19-21 | equal keys mean equal tools and parameter names when no name holds a separator |
| `Signatures.TargetMeans` | vyomel/learning/signatures.py:68-80 | what a call is about, read off the names of its parameters in any case, the kinds in their order of precedence |
| `Signatures.TypeNamesTellKinds` | vyomel/learning/signatures.py:46-61 | two values have the same type name exactly when they are of the same kind |
| `Signatures.KeyMeans` | vyomel/learning/signatures.py:19-65 | a key is the tool, every parameter's name and type in ascending order, and the target |
| `Ordering.SortedIsUnique` | vyomel/learning/signatures.py:64-65 | a set of shapes has one ascending listing, so `sorted` is determined |
| `Ordering.LessMeans` | vyomel/learning/signatures.py:64-65 | one text is less than another when it is a proper beginning of it or smaller where they first differ |
| `Signatures.SeparatorsMakeKeysAmbiguous` | vyomel/learning/signatures.py:20-21 | without that condition a call with a parameter `a:str,b` has the key of one with `a` and `b`, and windows that differ only so are not of one shape |
| `Signatures.FindFirst` | vyomel/learning/proposal.py:53-57 | the first window of a task that matches |
| `Signatures.Occurrences` | vyomel/learning/proposal.py:42-58 | the first match of every supporting task that has one, in corpus order |
| `Signatures.PatternRoundTrip` | vyomel/learning/proposal.py:154-176 | with clean names every window of a learned pattern is reproduced exactly |
| `Mining.RecordWindow` | vyomel/learning/mining.py:64-71 | counts a key once per task, under the first window it was found with |
| `Mining.MineTask` | vyomel/learning/mining.py:57-71 | one task contributes to exactly the keys that occur in it |
| `Mining.Frequents` | vyomel/learning/mining.py:39-82 | sound and complete: every pattern is a window of allowed length of some task, and the keys are exactly those in at least min_support distinct tasks, with exact support |
| `Mining.SupportMeans` | vyomel/learning/mining.py:57-71 | a task supports a key exactly when some stretch of its actions of allowed length has the key |
| `Mining.PatternKeyJoins` | vyomel/learning/mining.py:64-66 | the key of two stretches together is theirs with the separator between |
| `Mining.DropDominated` | vyomel/learning/mining.py:90-107 | keeps exactly the patterns nothing dominates |
| `Mining.DominatesMeans` | vyomel/learning/mining.py:98-104 | a pattern prunes another exactly when it is longer, at least as frequent, and holds the other's key as text |
| `Mining.DroppedHasKeptDominator` | vyomel/learning/mining.py:90-107 | each dropped pattern has a kept one that is strictly longer, as frequent, and whose key contains its own |
| `Domination.ContainsIff` | vyomel/learning/mining.py:98-104 | for clean names one pattern key contains another exactly when some position agrees in all later keys, in shape and target, and in a first tool that ends with the candidate's |
| `Domination.PartIff` | vyomel/learning/mining.py:90-107 | where the text stands, the candidate is a true part exactly when the first tools are the same |
| `Domination.DominationIsOfPatternsIf` | vyomel/learning/mining.py:90-107 | pruning compares patterns and not only text when no tool ends with the candidate's first tool without being it |
| `Domination.DominationIsTextual` | vyomel/learning/mining.py:39-87 | a corpus of real keys, mined at the defaults, from which a pattern is dropped though no longer pattern contains it |
| `Mining.Mine` | vyomel/learning/mining.py:39-87 | exact mining followed by pruning; a threshold below one is an error |
| `Chunking.Words` | vyomel/memory/chunking.py:113-125 | exactly the maximal runs of non-space characters, in order |
| `Chunking.FindStripped` | vyomel/memory/chunking.py:79-81 | the stripped body is found where its leading space ends |
| `Chunking.SameWordCount` | vyomel/memory/chunking.py:78-90 | stripping keeps the words |
| `Chunking.SlideWindow` | vyomel/memory/chunking.py:91-110 | the k-th window starts at word 448k and holds at most 512 words, so neighbours share exactly 64; the last, and only the last, reaches the end |
| `Chunking.WindowsInNumbers` | vyomel/memory/chunking.py:91-110 | the k-th window starts at word 448 k, each but the last holds 512 words and so shares its last 64 with the next, and the last ends with the last word |
| `Chunking.EveryWordIsWindowed` | vyomel/memory/chunking.py:91-110 | every word lies in some window |
| `Chunking.WordCountIsUnique` | vyomel/memory/chunking.py:113-125 | the number of words is a property of the text |
| `Chunking.SliceHasWords` | vyomel/memory/chunking.py:95-99 | the text from one word to another holds exactly the words between |
| `Chunking.Window` | vyomel/memory/chunking.py:74-110 | nothing for a blank section, the stripped body for at most 512 words, else every window of 512 sharing exactly 64 with the next; each chunk re-observes the text, has as many words as it says, and every word is carried |
| `Sections.SplitKeepsText` | vyomel/memory/chunking.py:51 | splitting into lines loses nothing |
| `Sections.LinesEndAtBreaks` | vyomel/memory/chunking.py:51 | every line but the last ends in a break, none has one inside, and no carriage return is cut from its newline |
| `Sections.HeadingMeans` | vyomel/memory/chunking.py:52-55 | a heading is one to six hashes followed by white space; its level is their number and its title the rest without the space around it |
| `Sections.StackMeans` | vyomel/memory/chunking.py:56-60 | a heading path is exactly the headings still open, outermost first |
| `Sections.CutSections` | vyomel/memory/chunking.py:45-67 | sections cover everything but heading lines, in order, each under the path open where it starts; a headings-only text is one section |
| `Sections.ChunkText` | vyomel/memory/chunking.py:32-42 | section by section and in order, the windows of each section; every chunk re-observes the text at its offsets in one section, under its path, with as many words as it says and at most 512; every word outside heading lines is carried |
| `Audit.AuditTrail.constructor` | vyomel/security/audit.py:107-228 | an empty log verifies |
| `Audit.AuditTrail.Burn` | vyomel/security/audit.py:127-128 | a rolled-back append leaves a gap in the ids and a log that still verifies |
| `Audit.AuditTrail.Append` | vyomel/security/audit.py:111-158 | appends one row that names the last hash and carries the digest of it, its id and its body, so a log built this way always verifies |
| `Audit.AuditTrail.Verify` | vyomel/security/audit.py:183-228 | reports clean exactly when every row from the start links and reproduces, and otherwise the earliest that does not |
| `Audit.ReportFinds` | vyomel/security/audit.py:183-228 | over the rows with the start id or a later one: clean exactly when each names the hash before it and has the digest of that hash, its id and its body; otherwise the id of the earliest that does not |
| `Audit.CutMeans` | vyomel/security/audit.py:192-199 | the suffix is exactly the rows from the start id on |
| `Audit.VerifySplits` | vyomel/security/audit.py:183-228 | verifying the whole is verifying a prefix and then the suffix seeded with its last hash |
| `Audit.LastHashDetermines` | vyomel/security/audit.py:78-104 | with a collision-free digest two verifying logs with the same last hash are equal row for row |
| `Audit.TamperingShows` | vyomel/security/audit.py:183-228 | any change that keeps the last hash is reported |
| `Audit.TruncationIsSilent` | vyomel/security/audit.py:183-228 | cutting rows off the end is not reported |

## Left out

- Stale workers: a worker whose lease was reclaimed is assumed to take no further step, since result writes are not fenced by the lease owner as the heartbeat is.
- Several tasks at once: rows of one task only; keys reserved by other tasks are an arbitrary initial ledger.
- Step rows and their statuses, plan versions, dead letters and timestamps that no decision reads.
- PAUSED: no modelled code enters it.
- Leader election, autoclaim of stream messages, and the local agent bridge: a message may be lost, repeated or delivered late in any case.
- Contents of audit payloads, redaction, metrics, tracing, logging, episodes and the mining that follows a completed task.
- The planner: a replan is any plan that `Plans.Materialize` accepts, or an error that aborts the tick; `planner` error handling and prompts are left out.
- Classification of an invocation and its idempotency key: whatever the registry, the schema and the classifier return is a parameter (`resolve`, an edit's `Call`).
- Retry jitter: the delay is any whole number of seconds up to the cap of thirty.
- Individual verifiers, file evidence and non-file tools: arbitrary outcomes.
- Policy parsing, egress rules, escalation rules and the `show` lists; case folding and backslashes are modelled for ASCII.
- Patterns that do not compile (a class that nothing closes once an empty body made it read on, or a descending span) are taken to match nothing; the code raises on them. `GlobMeaning.TranslationMeans` says exactly which they are.
- Directories, parents, symbolic links and metadata in the file tools; an empty trash slot is not told apart from a missing one. A path is its own text: resolution and aliasing are left out.
- Sorting of mined patterns and of the keys of a step: the results are stated for any order. Python's equality of `1`, `1.0` and `True` inside nested values is not modelled.
- A hole whose name is not a string: the code would look up its text.
- Cancel.Cancel: covers the first pass only; the grace wait and the second pass are `Cancel.AfterGrace`, so that worker steps can come between.
- Scheduler.Recover: the stream's own pending-entries claim is not modelled.

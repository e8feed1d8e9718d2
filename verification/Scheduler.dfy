/** One scheduler tick, publication after commit, and startup recovery
    (vyomel/runtime/scheduler.py, vyomel/orchestrator/replanning.py). */
module Scheduler {
  import opened Wrappers
  import opened Lifecycle
  import opened Policy
  import opened Model
  import opened Repos
  import opened Graph
  import opened Runs
  import Dependencies
  import Dispatcher
  import Delivery
  import Gate
  import R = Reaper

  /** What makes the code abandon a tick's transaction. */
  datatype Fault = PolicyRaised(violation: Violation) | PlannerRaised

  /** The planner's answer to a failure: no replan gate, an error, or a plan. */
  datatype Planner = NoPlanner | Raises | Plans(rows: seq<Action>)

  ghost predicate PlannerOk(s: State, p: Planner) {
    p.Plans? ==> FreshPlan(p.rows, |s.actions|, s.cfg.ceiling)
  }

  /** The task statuses a tick looks at (`runnable`). */
  predicate Runnable(status: TaskStatus) {
    status.TaskReady? || status.TaskRunning? || status.TaskWaiting?
  }

  /** The steps that the transaction of a tick is made of. */
  predicate TickStep(step: Step) {
    || (step.Act? && (step.move.Promote? || step.move.Lapse? || Dispatcher.OffersRow(step)))
    || step.LapseOnly? || step.Replan? || step.StartTask? || step.ResumeTask? || step.BlockTask?
    || step.ExpireTask? || step.FailTask? || step.NeedHuman? || step.SucceedTask?
  }

  ghost predicate AllTick(steps: seq<Step>) {
    forall step <- steps :: TickStep(step)
  }

  /** No lease has run out. */
  ghost predicate NoOverdue(s: State) {
    forall i | 0 <= i < |s.actions| :: !Overdue(s.actions[i], s.now)
  }

  lemma TickStepLeases(s: State, step: Step)
    requires Enabled(s, step) && TickStep(step) && NoOverdue(s)
    ensures NoOverdue(Apply(s, step))
  {
    hide Live, Settled, DecisionFor, Usable, Closed, Orderable;
  }

  /** The transaction of a tick hands out no lease and lets none run out. */
  lemma {:induction false} TickLeases(s: State, steps: seq<Step>, t: State)
    requires Run(s, steps, t) && AllTick(steps) && NoOverdue(s)
    ensures NoOverdue(t)
    decreases |steps|
  {
    if steps != [] {
      assert steps[0] in steps;
      TickStepLeases(s, steps[0]);
      TickLeases(Apply(s, steps[0]), steps[1..], t);
    }
  }

  predicate HasEnded(r: Action) {
    r.status in {Succeeded, Unverified, Failed, RolledBack, Cancelled}
  }

  // ------------------------------------------------------------------ task moves

  /** `_resume_if_unblocked`. */
  method ResumeIfUnblocked(db: Store) returns (ghost steps: seq<Step>)
    requires db.actions != []
    modifies db`task
    ensures Run(old(db.Snap()), steps, db.Snap()) && AllTick(steps)
    ensures db.task == if Enabled(old(db.Snap()), ResumeTask)
                       then old(db.task).(status := TaskRunning) else old(db.task)
    ensures db.task.status == if old(db.task).status == TaskWaiting
                                 && forall i | 0 <= i < |db.actions| :: db.actions[i].status != WaitingForUser
                              then TaskRunning else old(db.task).status
  {
    steps := [];
    if db.task.status.TaskWaiting? && !AnyStatus(db.actions, WaitingForUser) {
      ghost var s := db.Snap();
      db.task := db.task.(status := TaskRunning);
      RunNothing(s);
      RunSnoc(s, [], s, ResumeTask);
      steps := [ResumeTask];
    }
  }

  /** `maybe_start_task`, once something is no longer PLANNED or READY. */
  method StartIfBegun(db: Store) returns (ghost steps: seq<Step>)
    modifies db`task
    ensures Run(old(db.Snap()), steps, db.Snap()) && AllTick(steps)
    ensures db.task == if Enabled(old(db.Snap()), StartTask) then old(db.task).(status := TaskRunning) else old(db.task)
    ensures db.task.status == if old(db.task).status == TaskReady
                                 && exists i | 0 <= i < |db.actions| :: db.actions[i].status !in {Planned, Ready}
                              then TaskRunning else old(db.task).status
  {
    steps := [];
    if exists i | 0 <= i < |db.actions| :: !db.actions[i].status.Planned? && !db.actions[i].status.Ready? {
      if db.task.status.TaskReady? {
        ghost var s := db.Snap();
        db.task := db.task.(status := TaskRunning);
        RunNothing(s);
        RunSnoc(s, [], s, StartTask);
        steps := [StartTask];
      }
    }
  }

  /** `_block_if_awaiting_user`. */
  method BlockIfAwaitingUser(db: Store) returns (ghost steps: seq<Step>)
    modifies db`task
    ensures Run(old(db.Snap()), steps, db.Snap()) && AllTick(steps)
    ensures db.task == if Enabled(old(db.Snap()), BlockTask) then old(db.task).(status := TaskWaiting) else old(db.task)
    ensures db.task.status == if old(db.task).status == TaskRunning
                                 && (exists i | 0 <= i < |db.actions| :: db.actions[i].status == WaitingForUser)
                                 && (forall i | 0 <= i < |db.actions| ::
                                       db.actions[i].status == WaitingForUser || HasEnded(db.actions[i]))
                              then TaskWaiting else old(db.task).status
  {
    steps := [];
    if db.task.status.TaskRunning? && !AllTerminal(db.actions) {
      if forall i | 0 <= i < |db.actions| :: db.actions[i].status.Terminal() || db.actions[i].status.WaitingForUser? {
        ghost var s := db.Snap();
        db.task := db.task.(status := TaskWaiting);
        RunNothing(s);
        RunSnoc(s, [], s, BlockTask);
        steps := [BlockTask];
      }
    }
  }

  // ----------------------------------------------------------------- replan or end

  predicate IsFirstFailed(actions: seq<Action>, f: Id) {
    IsFailed(actions, f) && forall i | 0 <= i < f :: !actions[i].status.Failed?
  }

  method FirstFailed(actions: seq<Action>) returns (f: Option<Id>)
    ensures f.Some? ==> IsFirstFailed(actions, f.value)
    ensures f.None? ==> !AnyStatus(actions, Failed)
  {
    for i := 0 to |actions|
      invariant forall j | 0 <= j < i :: !actions[j].status.Failed?
    {
      if actions[i].status.Failed? { return Some(i); }
    }
    return None;
  }

  /** The failed row cancelled, the fresh block behind, and nothing else. */
  ghost predicate Replanned(before: seq<Action>, after: seq<Action>, rows: seq<Action>) {
    exists f :: IsFirstFailed(before, f) && Replannable(before[f])
                && after == before[f := before[f].(status := Cancelled, cause := Some(ByReplan))] + rows
  }

  /** What `try_replan` asks before it turns to the planner. */
  ghost predicate ReplanDue(s: State) {
    s.task.replanCount < s.cfg.maxReplans && exists f :: IsFirstFailed(s.actions, f) && Replannable(s.actions[f])
  }

  /** `try_replan`: at most `max_replans` times, never over a refused or disproved
      action; the failed row is cancelled by a bare CAS and a fresh block appended. */
  method TryReplan(db: Store, planner: Planner) returns (r: Result<bool, Fault>, ghost steps: seq<Step>)
    requires Settled(db.Snap()) && PlannerOk(db.Snap(), planner)
    modifies db`task, db`actions
    ensures Run(old(db.Snap()), steps, db.Snap()) && AllTick(steps)
    ensures r.Err? <==> ReplanDue(old(db.Snap())) && planner.Raises?
    ensures r == Ok(true) <==> ReplanDue(old(db.Snap())) && planner.Plans?
    ensures r != Ok(true) ==> db.Snap() == old(db.Snap())
    ensures r == Ok(true) ==>
              && db.task == old(db.task).(replanCount := old(db.task).replanCount + 1)
              && planner.Plans? && Replanned(old(db.actions), db.actions, planner.rows)
  {
    hide Run, FreshPlan, Settled;
    ghost var s := db.Snap();
    steps := [];
    RunNothing(s);
    if db.task.replanCount >= db.cfg.maxReplans { return Ok(false), []; }
    var failed := FirstFailed(db.actions);
    if failed.None? { return Ok(false), []; }
    var f := failed.value;
    if db.actions[f].error == Some(VerificationFailed) || db.actions[f].error == Some(PermissionDenied) {
      return Ok(false), [];
    }
    match planner {
      case NoPlanner => return Ok(false), [];
      case Raises => return Err(PlannerRaised), [];
      case Plans(rows) =>
        var _ := db.CasStatus(f, Failed, db.actions[f].(status := Cancelled, cause := Some(ByReplan)));
        db.actions := db.actions + rows;
        db.task := db.task.(replanCount := db.task.replanCount + 1);
        RunSnoc(s, [], s, Replan(f, rows));
        steps := [] + [Replan(f, rows)];
        return Ok(true), steps;
    }
  }

  /** The failed row that the planner is asked about: the first, when neither the policy nor
      the verifier has spoken against it and replans are left. */
  ghost predicate AsksPlanner(s: State, f: Id) {
    && s.task.replanCount < s.cfg.maxReplans
    && 0 <= f < |s.actions| && s.actions[f].status == Failed
    && (forall j | 0 <= j < f :: s.actions[j].status != Failed)
    && s.actions[f].error !in {Some(VerificationFailed), Some(PermissionDenied)}
  }

  lemma DueMeans(s: State)
    ensures ReplanDue(s) <==> exists f :: AsksPlanner(s, f)
    ensures forall rows, t: seq<Action> | ReplanDue(s) && Replanned(s.actions, t, rows) ::
              exists f :: AsksPlanner(s, f) && t == Superseded(s.actions, f) + rows
  {
    if ReplanDue(s) {
      var f :| IsFirstFailed(s.actions, f) && Replannable(s.actions[f]);
      assert AsksPlanner(s, f);
    }
    if f :| AsksPlanner(s, f) {
      assert IsFirstFailed(s.actions, f);
    }
    forall rows, t: seq<Action> | ReplanDue(s) && Replanned(s.actions, t, rows)
      ensures exists f :: AsksPlanner(s, f) && t == Superseded(s.actions, f) + rows
    {
      var f :| IsFirstFailed(s.actions, f) && Replannable(s.actions[f])
               && t == s.actions[f := s.actions[f].(status := Cancelled, cause := Some(ByReplan))] + rows;
      assert AsksPlanner(s, f);
    }
  }

  /** The rows with one of them given up for a new plan. */
  function Superseded(rows: seq<Action>, f: Id): seq<Action>
    requires 0 <= f < |rows|
  {
    rows[f := rows[f].(status := Cancelled, cause := Some(ByReplan))]
  }

  /** A task whose rows have all ended. */
  ghost predicate IsOver(s: State) {
    s.task.status == TaskRunning && s.actions != [] && forall i | 0 <= i < |s.actions| :: HasEnded(s.actions[i])
  }

  ghost predicate SomeFailed(s: State) {
    exists i | 0 <= i < |s.actions| :: s.actions[i].status == Failed
  }

  ghost predicate SomeUnproven(s: State) {
    exists i | 0 <= i < |s.actions| :: s.actions[i].status == Unverified && !s.actions[i].spec.tolerates
  }

  /** How a task whose rows have all ended ends itself: it succeeds exactly when nothing
      failed and nothing is left unproven that may not be, a human is needed exactly when
      something failed and no replan is left, and otherwise it fails. */
  ghost predicate EndsAs(s: State, status: TaskStatus) {
    && (status == TaskSucceeded <==> !SomeFailed(s) && !SomeUnproven(s))
    && (status == TaskNeedsHuman <==> SomeFailed(s) && s.cfg.maxReplans <= s.task.replanCount)
    && status in {TaskSucceeded, TaskNeedsHuman, TaskFailed}
  }

  lemma VerdictMeans(s: State)
    ensures EndsAs(s, Verdict(s))
  {
    if Untolerated(s.actions) {
      var i :| 0 <= i < |s.actions| && s.actions[i].status.Unverified? && !s.actions[i].spec.tolerates;
      assert s.actions[i].status == Unverified;
    }
  }

  method EndTask(db: Store, ghost step: Step, status: TaskStatus) returns (ghost steps: seq<Step>)
    requires (step.FailTask? || step.NeedHuman? || step.SucceedTask? || step.ExpireTask?)
             && status == TaskStatusAfter(step)
    requires Enabled(db.Snap(), step)
    modifies db`task
    ensures steps == [step] && Run(old(db.Snap()), steps, db.Snap()) && AllTick(steps)
            && db.task == old(db.task).(status := status)
  {
    ghost var s := db.Snap();
    db.task := db.task.(status := status);
    RunNothing(s);
    RunSnoc(s, [], s, step);
    steps := [] + [step];
  }

  predicate Untolerated(actions: seq<Action>) {
    exists i | 0 <= i < |actions| :: actions[i].status.Unverified? && !actions[i].spec.tolerates
  }

  /** How a settled task ends when it is not replanned. */
  function Verdict(s: State): TaskStatus {
    if AnyStatus(s.actions, Failed) then (if s.task.replanCount >= s.cfg.maxReplans then TaskNeedsHuman else TaskFailed)
    else if Untolerated(s.actions) then TaskFailed
    else TaskSucceeded
  }

  lemma FailureEnabled(s: State)
    requires Settled(s) && AnyStatus(s.actions, Failed)
    ensures if s.task.replanCount < s.cfg.maxReplans then Enabled(s, FailTask) else Enabled(s, NeedHuman)
  {
  }

  lemma UntoleratedEnabled(s: State)
    requires Settled(s) && !AnyStatus(s.actions, Failed) && Untolerated(s.actions)
    ensures Enabled(s, FailTask)
  {
    var i :| 0 <= i < |s.actions| && s.actions[i].status.Unverified? && !s.actions[i].spec.tolerates;
    assert !Tolerated(s.actions[i]);
  }

  lemma SuccessEnabled(s: State)
    requires Settled(s) && !AnyStatus(s.actions, Failed) && !Untolerated(s.actions)
    ensures Enabled(s, SucceedTask)
  {
    forall i | 0 <= i < |s.actions| ensures Tolerated(s.actions[i]) {}
  }

  method EndSettled(db: Store) returns (ghost steps: seq<Step>)
    requires Settled(db.Snap())
    modifies db`task
    ensures Run(old(db.Snap()), steps, db.Snap()) && AllTick(steps)
            && db.task == old(db.task).(status := Verdict(old(db.Snap())))
  {
    hide Run, Enabled, Settled, AnyStatus, Untolerated;
    if AnyStatus(db.actions, Failed) {
      FailureEnabled(db.Snap());
      if db.task.replanCount < db.cfg.maxReplans { steps := EndTask(db, FailTask, TaskFailed); }
      else { steps := EndTask(db, NeedHuman, TaskNeedsHuman); }
    } else if Untolerated(db.actions) {
      UntoleratedEnabled(db.Snap());
      steps := EndTask(db, FailTask, TaskFailed);
    } else {
      SuccessEnabled(db.Snap());
      steps := EndTask(db, SucceedTask, TaskSucceeded);
    }
  }

  lemma DueHasFailure(s: State)
    ensures ReplanDue(s) ==> AnyStatus(s.actions, Failed) && s.task.replanCount < s.cfg.maxReplans
  {
  }

  /** `_complete_if_done`: an unsettled task is left alone; a settled one is replanned
      or ends by its verdict. */
  method CompleteIfDone(db: Store, planner: Planner) returns (r: Result<(), Fault>, ghost steps: seq<Step>)
    requires db.actions != [] && PlannerOk(db.Snap(), planner)
    modifies db`task, db`actions
    ensures Run(old(db.Snap()), steps, db.Snap()) && AllTick(steps)
    ensures r.Ok? && !Settled(old(db.Snap())) ==> db.Snap() == old(db.Snap())
    ensures r.Err? <==> Settled(old(db.Snap())) && ReplanDue(old(db.Snap())) && planner.Raises?
    ensures r.Ok? && Settled(old(db.Snap())) ==>
              if ReplanDue(old(db.Snap())) && planner.Plans? then
                db.task == old(db.task).(replanCount := old(db.task).replanCount + 1)
                && Replanned(old(db.actions), db.actions, planner.rows)
              else db.task == old(db.task).(status := Verdict(old(db.Snap()))) && db.actions == old(db.actions)
    ensures !IsOver(old(db.Snap())) ==> r.Ok? && db.Snap() == old(db.Snap())
    ensures r.Err? <==> IsOver(old(db.Snap())) && planner.Raises? && exists f :: AsksPlanner(old(db.Snap()), f)
    ensures IsOver(old(db.Snap())) && planner.Plans? && (exists f :: AsksPlanner(old(db.Snap()), f)) ==>
              && db.task == old(db.task).(replanCount := old(db.task).replanCount + 1)
              && exists f ::
                   AsksPlanner(old(db.Snap()), f) && db.actions == Superseded(old(db.actions), f) + planner.rows
    ensures IsOver(old(db.Snap())) && (planner.NoPlanner? || !exists f :: AsksPlanner(old(db.Snap()), f)) ==>
              EndsAs(old(db.Snap()), db.task.status) && db.actions == old(db.actions)
  {
    hide Run, Enabled, FreshPlan, Replanned, Verdict, AsksPlanner, EndsAs, ReplanDue, Superseded;
    ghost var s := db.Snap();
    DueHasFailure(s);
    DueMeans(s);
    VerdictMeans(s);
    steps := [];
    RunNothing(s);
    if !AllTerminal(db.actions) || !db.task.status.TaskRunning? { return Ok(()), []; }
    if AnyStatus(db.actions, Failed) && db.task.replanCount < db.cfg.maxReplans {
      var replanned;
      replanned, steps := TryReplan(db, planner);
      if replanned.Err? { return Err(replanned.error), steps; }
      if replanned.value { return Ok(()), steps; }
    }
    steps := EndSettled(db);
    return Ok(()), steps;
  }

  // -------------------------------------------------------------------- one tick

  /** No task-level step of the scheduler is left to take, the deadline apart. */
  ghost predicate Quiet(s: State) {
    && !Enabled(s, StartTask) && !Enabled(s, ResumeTask) && !Enabled(s, BlockTask)
    && !Enabled(s, FailTask) && !Enabled(s, NeedHuman) && !Enabled(s, SucceedTask)
  }

  /** No row-level step either, short of a full or saturated dispatcher. */
  ghost predicate Exhausted(s: State, published: seq<Id>, inFlight: nat) {
    && (forall i :: !Dispatcher.Promotable(s, i))
    && (|published| == Dispatcher.Slots(s.cfg, inFlight) || Dispatcher.LeftBehindSaturated(s, |s.actions|))
  }

  /** Every DISPATCHED row was so before or is about to be published. */
  ghost predicate Accounted(before: seq<Action>, after: seq<Action>, published: seq<Id>) {
    forall i | 0 <= i < |after| && after[i].status.Dispatched? ::
      i in published || (i < |before| && before[i].status.Dispatched?)
  }

  /** The row work of a tick: promote, then dispatch. */
  method AdvanceRows(db: Store) returns (r: Result<seq<Id>, Violation>, ghost steps: seq<Step>)
    requires Live(db.Snap()) && Dispatcher.InRange(db.actions)
    modifies db`actions, db`approvals, db`outbox, db`log
    ensures Run(old(db.Snap()), steps, db.Snap()) && AllTick(steps) && (r.Ok? ==> |db.actions| == |old(db.actions)|)
    ensures r.Ok? ==> db.outbox == old(db.outbox) + multiset(r.value) && Accounted(old(db.actions), db.actions, r.value)
    ensures r.Ok? ==> Exhausted(db.Snap(), r.value, Dispatcher.FlightCount(old(db.actions)))
  {
    hide Run, Dispatcher.Bounded, Dispatcher.LeftBehindSaturated;
    ghost var s := db.Snap();
    var _, promoting := Dispatcher.PromoteReady(db);
    ghost var t := db.Snap();
    PromotionKeepsFlight(s, t);
    ghost var offering;
    r, offering := Dispatcher.EnqueueReady(db);
    steps := promoting + offering;
    RunConcat(s, promoting, t, offering, db.Snap());
    if r.Ok? { Dispatcher.NothingLeftToPromote(s, t, db.Snap(), r.value); }
  }

  lemma {:induction false} PromotionKeepsFlight(s: State, t: State)
    requires |t.actions| == |s.actions|
    requires forall i | 0 <= i < |t.actions| ::
             t.actions[i] == s.actions[i] || (s.actions[i].status.Planned? && t.actions[i].status.Ready?)
    ensures Dispatcher.FlightCount(t.actions) == Dispatcher.FlightCount(s.actions)
    decreases |s.actions|
  {
    if s.actions != [] {
      PromotionKeepsFlight(s.(actions := s.actions[..|s.actions| - 1]), t.(actions := t.actions[..|t.actions| - 1]));
    }
  }

  /** The task work of a tick: start, block, then replan or end. */
  method AdvanceTask(db: Store, planner: Planner) returns (r: Result<(), Fault>, ghost steps: seq<Step>)
    requires Live(db.Snap()) && db.actions != [] && PlannerOk(db.Snap(), planner)
    modifies db`task, db`actions
    ensures Run(old(db.Snap()), steps, db.Snap()) && AllTick(steps)
    ensures r.Ok? ==> Quiet(db.Snap()) && Accounted(old(db.actions), db.actions, [])
    ensures r.Ok? && db.task.replanCount == old(db.task).replanCount ==> db.actions == old(db.actions)
  {
    hide Run, Enabled, FreshPlan, Settled, Verdict, Quiet, Replanned, Accounted, AsksPlanner, EndsAs, IsOver;
    hide Superseded, HasEnded;
    ghost var s := db.Snap();
    ghost var starting := StartIfBegun(db);
    ghost var t := db.Snap();
    ghost var blocking := BlockIfAwaitingUser(db);
    ghost var u := db.Snap();
    ghost var ending;
    r, ending := CompleteIfDone(db, planner);
    RunConcat(s, starting, t, blocking, u);
    RunConcat(s, starting + blocking, u, ending, db.Snap());
    steps := starting + blocking + ending;
    if r.Ok? { TickIsQuiet(s, t, u, db.Snap(), planner); }
  }

  lemma TickIsQuiet(s: State, t: State, u: State, v: State, planner: Planner)
    requires Live(s) && s.actions != [] && PlannerOk(s, planner)
    requires t == s.(task := if Enabled(s, StartTask) then s.task.(status := TaskRunning) else s.task)
    requires u == t.(task := if Enabled(t, BlockTask) then t.task.(status := TaskWaiting) else t.task)
    requires !Settled(u) ==> v == u
    requires Settled(u) ==>
              || (v.task == u.task.(status := Verdict(u)) && v.actions == u.actions)
              || (v.task == u.task.(replanCount := u.task.replanCount + 1) && planner.Plans?
                  && Replanned(u.actions, v.actions, planner.rows))
    ensures Quiet(v) && Accounted(s.actions, v.actions, [])
    ensures v.task.replanCount == s.task.replanCount ==> v.actions == s.actions
  {
    hide Enabled, FreshPlan, Quiet, Replanned, Accounted, Verdict, PlannerOk;
    NothingPublished(s.actions);
    if !Settled(u) {
      BlockedIsQuiet(s, t, u);
    } else if v.task.replanCount == u.task.replanCount {
      VerdictEnds(u);
      VerdictIsQuiet(v);
    } else {
      PlannedRowFirst(s, planner);
      ReplannedRows(s, v.actions, planner);
      ReplannedIsQuiet(v, |u.actions|);
    }
  }

  lemma VerdictEnds(u: State)
    ensures Verdict(u).TaskSucceeded? || Verdict(u).TaskFailed? || Verdict(u).TaskNeedsHuman?
  {
  }

  lemma ReplannedRows(s: State, after: seq<Action>, planner: Planner)
    requires PlannerOk(s, planner) && planner.Plans? && Replanned(s.actions, after, planner.rows)
    ensures |after| == |s.actions| + |planner.rows| > |s.actions| && after[|s.actions|] == planner.rows[0]
    ensures Accounted(s.actions, after, [])
  {
    var f :| IsFailed(s.actions, f) && Replannable(s.actions[f])
             && after == s.actions[f := s.actions[f].(status := Cancelled, cause := Some(ByReplan))] + planner.rows;
    forall i | |s.actions| <= i < |after|
      ensures after[i].status.Planned?
    {
      assert after[i] == planner.rows[i - |s.actions|];
    }
  }

  lemma PlannedRowFirst(s: State, planner: Planner)
    requires PlannerOk(s, planner) && planner.Plans?
    ensures planner.rows != [] && planner.rows[0].status.Planned?
  {
  }

  lemma ReplannedIsQuiet(v: State, i: int)
    requires v.task.status.TaskRunning? && IsAction(v, i) && v.actions[i].status.Planned?
    ensures Quiet(v)
  {
  }

  lemma VerdictIsQuiet(v: State)
    requires v.task.status.TaskSucceeded? || v.task.status.TaskFailed? || v.task.status.TaskNeedsHuman?
    ensures Quiet(v)
  {
  }

  lemma BlockedIsQuiet(s: State, t: State, u: State)
    requires Live(s) && s.actions != []
    requires t == s.(task := if Enabled(s, StartTask) then s.task.(status := TaskRunning) else s.task)
    requires u == t.(task := if Enabled(t, BlockTask) then t.task.(status := TaskWaiting) else t.task)
    requires !Settled(u)
    ensures Quiet(u)
  {
    if Enabled(t, BlockTask) {
      var i :| 0 <= i < |t.actions| && !t.actions[i].status.Terminal();
      assert t.actions[i].status == WaitingForUser;
    }
  }

  /** The work of a tick on a live task: rows first, then the task. */
  method AdvanceLive(db: Store, planner: Planner) returns (r: Result<seq<Id>, Fault>, ghost steps: seq<Step>)
    requires Live(db.Snap()) && db.actions != [] && Dispatcher.InRange(db.actions) && PlannerOk(db.Snap(), planner)
    modifies db`task, db`actions, db`approvals, db`outbox, db`log
    ensures Run(old(db.Snap()), steps, db.Snap()) && AllTick(steps)
    ensures r.Ok? ==> db.outbox == old(db.outbox) + multiset(r.value) && Accounted(old(db.actions), db.actions, r.value)
    ensures r.Ok? ==> Quiet(db.Snap())
    ensures r.Ok? && db.task.replanCount == old(db.task).replanCount ==>
              Exhausted(db.Snap(), r.value, Dispatcher.FlightCount(old(db.actions)))
  {
    hide Run, Enabled, FreshPlan, Quiet, Exhausted, Accounted, Dispatcher.InRange;
    ghost var s := db.Snap();
    var advanced;
    ghost var advancing;
    advanced, advancing := AdvanceRows(db);
    ghost var u := db.Snap();
    if advanced.Err? { return Err(PolicyRaised(advanced.error)), advancing; }
    assert PlannerOk(u, planner);
    var done;
    ghost var ending;
    done, ending := AdvanceTask(db, planner);
    steps := advancing + ending;
    RunConcat(s, advancing, u, ending, db.Snap());
    if done.Err? { return Err(done.error), steps; }
    AccountedTogether(s.actions, u.actions, db.actions, advanced.value, []);
    assert advanced.value + [] == advanced.value;
    if db.actions == u.actions { SameRowsExhausted(u, db.Snap(), advanced.value, Dispatcher.FlightCount(s.actions)); }
    return Ok(advanced.value), steps;
  }

  /** `_tick_task`. A live task past its deadline fails and does nothing else;
      otherwise the tick runs until neither task nor rows have a step left, short
      of a full dispatcher, a pending human, or a plan it has only just appended. */
  method TickTask(db: Store, planner: Planner) returns (r: Result<seq<Id>, Fault>, ghost steps: seq<Step>)
    requires Runnable(db.task.status) && Dispatcher.InRange(db.actions) && PlannerOk(db.Snap(), planner)
    modifies db`task, db`actions, db`approvals, db`outbox, db`log
    ensures Run(old(db.Snap()), steps, db.Snap()) && AllTick(steps)
    ensures r.Ok? ==> db.outbox == old(db.outbox) + multiset(r.value) && Accounted(old(db.actions), db.actions, r.value)
    ensures r.Ok? ==> Quiet(db.Snap())
    ensures Enabled(old(db.Snap()), ExpireTask) ==>
            r == Ok([]) && db.task.status.TaskFailed? && db.actions == old(db.actions)
    ensures db.cfg.deadline.Some? && db.cfg.deadline.value <= db.now
            && old(db.task).status in {TaskReady, TaskRunning} ==>
              r == Ok([]) && db.task.status == TaskFailed && db.actions == old(db.actions)
    ensures r.Ok? && Live(db.Snap()) && db.task.replanCount == old(db.task).replanCount ==>
              db.actions == [] || Exhausted(db.Snap(), r.value, Dispatcher.FlightCount(old(db.actions)))
  {
    hide Run, Enabled, FreshPlan, Quiet, Exhausted, Accounted, AnyStatus, Dispatcher.InRange;
    ghost var s := db.Snap();
    RunNothing(s);
    NothingPublished(s.actions);
    if db.cfg.deadline.Some? && db.now >= db.cfg.deadline.value
        && (db.task.status.TaskReady? || db.task.status.TaskRunning?) {
      DeadlineEnabled(s);
      steps := EndTask(db, ExpireTask, TaskFailed);
      EndedIsQuiet(db.Snap());
      return Ok([]), steps;
    }
    DeadlineEnabled(s);
    if db.actions == [] {
      EmptyIsQuiet(s);
      return Ok([]), [];
    }
    ghost var resuming := ResumeIfUnblocked(db);
    ghost var t := db.Snap();
    if db.task.status.TaskWaiting? {
      WaitingIsQuiet(s, t);
      return Ok([]), resuming;
    }
    ghost var working;
    r, working := AdvanceLive(db, planner);
    steps := resuming + working;
    RunConcat(s, resuming, t, working, db.Snap());
  }

  lemma NothingPublished(actions: seq<Action>)
    ensures Accounted(actions, actions, [])
  {
  }

  lemma AccountedTogether(before: seq<Action>, middle: seq<Action>, after: seq<Action>, xs: seq<Id>, ys: seq<Id>)
    requires Accounted(before, middle, xs) && Accounted(middle, after, ys) && |before| <= |middle|
    ensures Accounted(before, after, xs + ys)
  {
  }

  lemma SweepAccounted(s: State, t: State)
    requires Gate.Swept(s, t, |s.approvals|) && Dispatcher.InRange(s.actions)
    ensures |t.actions| == |s.actions| && Dispatcher.InRange(t.actions) && Accounted(s.actions, t.actions, [])
  {
    forall i, k | 0 <= i < |t.actions| && 0 <= k < |t.actions[i].spec.dependsOn|
      ensures 0 <= t.actions[i].spec.dependsOn[k] < |t.actions|
    {
      assert t.actions[i].spec == s.actions[i].spec;
    }
  }

  lemma DeadlineEnabled(s: State)
    ensures Enabled(s, ExpireTask) <==> Live(s) && s.cfg.deadline.Some? && s.now >= s.cfg.deadline.value
  {
  }

  lemma EndedIsQuiet(s: State)
    requires s.task.status.TaskFailed?
    ensures Quiet(s)
  {
  }

  lemma EmptyIsQuiet(s: State)
    requires s.actions == []
    ensures Quiet(s)
  {
  }

  lemma WaitingIsQuiet(s: State, t: State)
    requires s.actions != [] && t.task.status.TaskWaiting?
    requires t == s.(task := if Enabled(s, ResumeTask) then s.task.(status := TaskRunning) else s.task)
    ensures Quiet(t)
  {
  }

  lemma SameRowsExhausted(u: State, v: State, published: seq<Id>, inFlight: nat)
    requires v == u.(task := v.task)
    ensures Exhausted(u, published, inFlight) <==> Exhausted(v, published, inFlight)
  {
    assert forall i :: Dispatcher.Promotable(u, i) <==> Dispatcher.Promotable(v, i);
  }

  // ----------------------------------------------------------- publish and recover

  method PublishOne(db: Store, a: Id, ghost s: State, ghost steps: seq<Step>)
    requires a in db.outbox && Run(s, steps, db.Snap())
    modifies db`outbox, db`stream
    ensures Run(s, steps + [Model.Publish(a)], db.Snap())
    ensures db.outbox == old(db.outbox) - multiset{a} && db.stream == old(db.stream) + multiset{a}
  {
    hide Run;
    ghost var before := db.Snap();
    db.outbox := db.outbox - multiset{a};
    db.stream := db.stream + multiset{a};
    RunSnoc(s, steps, before, Model.Publish(a));
  }

  ghost predicate Moved(s: State, items: seq<Id>, k: int, outbox: multiset<Id>, stream: multiset<Id>) {
    0 <= k <= |items| && multiset(items) <= s.outbox
    && outbox == s.outbox - multiset(items[..k]) && stream == s.stream + multiset(items[..k])
  }

  lemma MovedNext(s: State, items: seq<Id>, k: nat, outbox: multiset<Id>, stream: multiset<Id>)
    requires k < |items| && Moved(s, items, k, outbox, stream)
    ensures items[k] in outbox && Moved(s, items, k + 1, outbox - multiset{items[k]}, stream + multiset{items[k]})
  {
    PrefixFits(items, k, s.outbox);
  }

  lemma MovedAll(s: State, items: seq<Id>, outbox: multiset<Id>, stream: multiset<Id>)
    requires Moved(s, items, |items|, outbox, stream)
    ensures outbox == s.outbox - multiset(items) && stream == s.stream + multiset(items)
  {
    assert items[..|items|] == items;
  }

  /** `publish`, after the commit: each id leaves the outbox for the stream. */
  method Publish(db: Store, items: seq<Id>) returns (ghost steps: seq<Step>)
    requires multiset(items) <= db.outbox
    modifies db`outbox, db`stream
    ensures Run(old(db.Snap()), steps, db.Snap())
    ensures db.outbox == old(db.outbox) - multiset(items) && db.stream == old(db.stream) + multiset(items)
  {
    ghost var s := db.Snap();
    assert Moved(s, items, 0, db.outbox, db.stream);
    hide Run, Moved;
    RunNothing(s);
    steps := [];
    for k := 0 to |items|
      invariant Run(s, steps, db.Snap()) && Moved(s, items, k, db.outbox, db.stream)
    {
      MovedNext(s, items, k, db.outbox, db.stream);
      PublishOne(db, items[k], s, steps);
      steps := steps + [Model.Publish(items[k])];
    }
    MovedAll(s, items, db.outbox, db.stream);
  }

  lemma PrefixFits(items: seq<Id>, k: nat, outbox: multiset<Id>)
    requires k < |items| && multiset(items) <= outbox
    ensures items[k] in outbox - multiset(items[..k])
    ensures outbox - multiset(items[..k]) - multiset{items[k]} == outbox - multiset(items[..k + 1])
    ensures multiset(items[..k + 1]) == multiset(items[..k]) + multiset{items[k]}
  {
    PrefixCounts(items, k);
    var a, b := multiset(items[..k]), multiset{items[k]};
    assert a + b <= outbox;
  }

  lemma PrefixCounts(items: seq<Id>, k: nat)
    requires k < |items|
    ensures multiset(items[..k + 1]) == multiset(items[..k]) + multiset{items[k]} <= multiset(items)
  {
    assert items[..k + 1] == items[..k] + [items[k]];
    assert items == items[..k + 1] + items[k + 1..];
  }

  /** Publishing again what a crash or the stream may have lost. */
  method PublishOrphans(db: Store, orphans: seq<Id>) returns (ghost steps: seq<Step>)
    requires Selects(orphans, db.actions, IsOrphan)
    modifies db`stream
    ensures Run(old(db.Snap()), steps, db.Snap())
    ensures db.stream == old(db.stream) + multiset(orphans)
  {
    hide Run;
    ghost var s := db.Snap();
    RunNothing(s);
    steps := [];
    for k := 0 to |orphans|
      invariant Run(s, steps, db.Snap()) && db.stream == s.stream + multiset(orphans[..k])
    {
      assert orphans[k] in orphans && orphans[..k + 1] == orphans[..k] + [orphans[k]];
      ghost var before := db.Snap();
      db.stream := db.stream + multiset{orphans[k]};
      RunSnoc(s, steps, before, Republish(orphans[k]));
      steps := steps + [Republish(orphans[k])];
    }
    assert orphans[..|orphans|] == orphans;
  }

  /** The transaction of a tick: expired questions, then the task. A fault rolls all
      of it back. */
  method TickTransaction(db: Store, planner: Planner) returns (r: Result<seq<Id>, Fault>, ghost steps: seq<Step>)
    requires Dispatcher.InRange(db.actions) && PlannerOk(db.Snap(), planner)
    modifies db`task, db`actions, db`approvals, db`outbox, db`log
    ensures Run(old(db.Snap()), steps, db.Snap()) && AllTick(steps)
    ensures r.Err? ==> db.Snap() == old(db.Snap())
    ensures r.Ok? ==> db.outbox == old(db.outbox) + multiset(r.value) && Accounted(old(db.actions), db.actions, r.value)
    ensures r.Ok? ==> Quiet(db.Snap())
  {
    hide Run, Quiet, Enabled, Gate.Swept, Gate.SilenceIsRefusal, Accounted, FreshPlan;
    hide Dispatcher.InRange;
    var task, actions, approvals, outbox := db.task, db.actions, db.approvals, db.outbox;
    ghost var s := db.Snap();
    ghost var expiring := Gate.ExpireOverdue(db);
    ghost var t := db.Snap();
    SweepAccounted(s, t);
    if !Runnable(db.task.status) {
      IdleIsQuiet(t);
      return Ok([]), expiring;
    }
    ghost var ticking;
    r, ticking := TickTask(db, planner);
    steps := expiring + ticking;
    RunConcat(s, expiring, t, ticking, db.Snap());
    if r.Ok? {
      AccountedTogether(s.actions, t.actions, db.actions, [], r.value);
      assert [] + r.value == r.value;
    }
    if r.Err? {
      db.task, db.actions, db.approvals, db.outbox, db.log := task, actions, approvals, outbox, s.log;
      steps := [];
      RunNothing(s);
    }
  }

  lemma IdleIsQuiet(s: State)
    requires !Runnable(s.task.status)
    ensures Quiet(s)
  {
  }

  /** Every expired lease given up, and nothing else changed. */
  ghost predicate OnlyReaped(before: seq<Action>, after: seq<Action>, now: Time) {
    |after| == |before| && forall i | 0 <= i < |after| :: after[i] == R.ReapRow(before[i], now)
  }

  /** The part of a tick up to its commit. */
  method ReapAndCommit(db: Store, planner: Planner) returns (batch: Result<seq<Id>, Fault>, ghost steps: seq<Step>)
    requires db.Valid() && PlannerOk(db.Snap(), planner)
    modifies db
    ensures db.Valid() && Run(old(db.Snap()), steps, db.Snap()) && db.stream == old(db.stream)
    ensures batch.Ok? ==>
              Quiet(db.Snap()) && NoOverdue(db.Snap())
              && db.outbox == old(db.outbox) + multiset(batch.value)
              && Accounted(old(db.actions), db.actions, batch.value)
    ensures batch.Err? ==>
              db.task == old(db.task) && db.approvals == old(db.approvals)
              && OnlyReaped(old(db.actions), db.actions, old(db.now))
              && Accounted(old(db.actions), db.actions, [])
  {
    hide Run, Quiet, Enabled, Invariant, Accounted, FreshPlan, R.ReapRow, Dispatcher.InRange, AllTick, Overdue;
    ghost var s := db.Snap();
    var _, reaping := R.Reap(db);
    ghost var t := db.Snap();
    assert NoOverdue(t);
    ValidInRange(s, reaping, t);
    ReapAccounted(s.actions, t.actions, db.now);
    ghost var ticking;
    batch, ticking := TickTransaction(db, planner);
    steps := reaping + ticking;
    RunConcat(s, reaping, t, ticking, db.Snap());
    RunInvariant(s, steps, db.Snap());
    TickLeases(t, ticking, db.Snap());
    if batch.Ok? {
      AccountedTogether(s.actions, t.actions, db.actions, [], batch.value);
      assert [] + batch.value == batch.value;
    }
  }

  lemma ReapAccounted(before: seq<Action>, after: seq<Action>, now: Time)
    requires OnlyReaped(before, after, now)
    ensures Accounted(before, after, [])
  {
  }

  /** `tick`: reap, one transaction, then publish. Even a tick that a fault aborted
      has reclaimed every expired lease. */
  method Tick(db: Store, planner: Planner) returns (r: Result<nat, Fault>, ghost steps: seq<Step>)
    requires db.Valid() && PlannerOk(db.Snap(), planner)
    modifies db
    ensures db.Valid() && Run(old(db.Snap()), steps, db.Snap())
    ensures r.Ok? ==> Quiet(db.Snap()) && NoOverdue(db.Snap())
    ensures r.Ok? ==> |db.stream| == |old(db.stream)| + r.value && db.outbox == old(db.outbox)
    ensures r.Err? ==> db.task == old(db.task) && db.approvals == old(db.approvals) && db.stream == old(db.stream)
                       && OnlyReaped(old(db.actions), db.actions, old(db.now))
    ensures old(db.stream) <= db.stream
    ensures Delivered(old(db.actions), db.actions, db.stream)
  {
    hide Run, Quiet, Enabled, Invariant, Accounted, Delivered, FreshPlan, OnlyReaped, Overdue;
    ghost var s := db.Snap();
    var batch;
    batch, steps := ReapAndCommit(db, planner);
    ghost var u := db.Snap();
    if batch.Err? {
      TickDelivers(s.actions, u.actions, [], db.stream);
      return Err(batch.error), steps;
    }
    ghost var publishing := Publish(db, batch.value);
    RunConcat(s, steps, u, publishing, db.Snap());
    steps := steps + publishing;
    RunInvariant(s, steps, db.Snap());
    PublishedIsQuiet(u, db.Snap());
    TickDelivers(s.actions, u.actions, batch.value, db.stream);
    return Ok(|batch.value|), steps;
  }

  /** No DISPATCHED row is new without a message for it. */
  ghost predicate Delivered(before: seq<Action>, after: seq<Action>, stream: multiset<Id>) {
    forall i | 0 <= i < |after| && after[i].status.Dispatched? ::
      i in stream || (i < |before| && before[i].status.Dispatched?)
  }

  lemma TickDelivers(before: seq<Action>, after: seq<Action>, published: seq<Id>, stream: multiset<Id>)
    requires Accounted(before, after, published) && multiset(published) <= stream
    ensures Delivered(before, after, stream) && |multiset(published)| == |published|
  {
    forall i | 0 <= i < |after| && after[i].status.Dispatched?
      ensures i in stream || (i < |before| && before[i].status.Dispatched?)
    {
      if i in published { assert i in multiset(published); }
    }
  }

  lemma ValidInRange(s: State, steps: seq<Step>, t: State)
    requires Invariant(s) && Run(s, steps, t)
    ensures Invariant(t) && Dispatcher.InRange(t.actions)
  {
    RunInvariant(s, steps, t);
    Dispatcher.GraphOkInRange(t);
  }

  lemma PublishedIsQuiet(u: State, v: State)
    requires Quiet(u) && v == u.(outbox := v.outbox, stream := v.stream)
    ensures Quiet(v)
  {
  }

  /** `recover`: whatever was lost before the restart, every DISPATCHED row has a
      message afterwards, even when the tick that follows is aborted. */
  method Recover(db: Store, planner: Planner) returns (r: Result<nat, Fault>, ghost steps: seq<Step>)
    requires db.Valid() && PlannerOk(db.Snap(), planner)
    modifies db
    ensures db.Valid() && Run(old(db.Snap()), steps, db.Snap())
    ensures forall a | IsAction(db.Snap(), a) && db.actions[a].status.Dispatched? :: a in db.stream
    ensures r.Ok? ==> Quiet(db.Snap()) && NoOverdue(db.Snap())
  {
    hide Run, Quiet, Enabled, Invariant, NoOverdue;
    ghost var s := db.Snap();
    var _, reaping := R.Reap(db);
    ghost var t := db.Snap();
    ValidInRange(s, reaping, t);
    var orphans := db.OrphanDispatched();
    ghost var republishing := PublishOrphans(db, orphans);
    ghost var u := db.Snap();
    RunConcat(s, reaping, t, republishing, u);
    ValidInRange(s, reaping + republishing, u);
    OrphansCovered(u, orphans);
    ghost var ticking;
    r, ticking := Tick(db, planner);
    steps := reaping + republishing + ticking;
    RunConcat(s, reaping + republishing, u, ticking, db.Snap());
  }

  lemma OrphansCovered(u: State, orphans: seq<Id>)
    requires Invariant(u) && Selects(orphans, u.actions, IsOrphan)
    ensures forall a | IsAction(u, a) && u.actions[a].status.Dispatched? :: a in orphans
  {
    forall a | IsAction(u, a) && u.actions[a].status.Dispatched? ensures a in orphans {
      Delivery.LeasesMatchStatus(u, a);
    }
  }
}

/** Row by row safety: leases, attempt bounds, verified success, and the
    conformance of every step to the transition table. */
module Safety {
  import opened Wrappers
  import opened Lifecycle
  import opened Policy
  import opened Verify
  import opened Model

  /** No row is ever tried more often than this. */
  function AttemptCap(r: Action): nat {
    if r.spec.maxRetries == 0 then 1 else r.spec.maxRetries
  }

  predicate RowOk(r: Action, taskCancelled: bool, ceiling: Capability) {
    && (r.lease.Some? <==> r.status.Running?)
    && (r.result ==> r.status.Terminal())
    && r.attempts <= AttemptCap(r)
    && (!r.status.Terminal() && !r.status.Running? ==> r.attempts < AttemptCap(r))
    && (r.status.Succeeded? || r.status.RolledBack? ==> Proven(r.call.level, r.checks))
    && (r.status.RolledBack? ==> taskCancelled)
    && (r.status.Cancelled? <==> r.cause.Some?)
    && (r.cause == Some(ByTask) ==> taskCancelled)
    && r.call.level <= ceiling
  }

  predicate TaskIsCancelled(s: State) {
    s.task.status.TaskCancelled?
  }

  ghost predicate RowsOk(s: State) {
    forall i | 0 <= i < |s.actions| :: RowOk(s.actions[i], TaskIsCancelled(s), s.cfg.ceiling)
  }

  lemma EndingKeepsRowOk(s: State, r: Action, e: Ending)
    requires r.status.Running? && EndingOk(s, r, e) && RowOk(r, TaskIsCancelled(s), s.cfg.ceiling)
    ensures RowOk(FinishRow(s, r, e), TaskIsCancelled(s), s.cfg.ceiling)
  {
    if e.Executed? && e.execution.Returned? {
      PassMeansProven(r.call.level, e.execution.observed);
    }
  }

  lemma MoveKeepsRowOk(s: State, a: Id, m: Move)
    requires MoveOk(s, a, m) && RowOk(s.actions[a], TaskIsCancelled(s), s.cfg.ceiling)
    ensures RowOk(MoveRow(s, a, m), TaskIsCancelled(s), s.cfg.ceiling)
  {
    if m.Finish? {
      EndingKeepsRowOk(s, s.actions[a], m.ending);
    }
  }

  /** A cancelled task stays cancelled. */
  lemma CancelledTaskStays(s: State, step: Step)
    requires Enabled(s, step) && TaskIsCancelled(s)
    ensures TaskIsCancelled(Apply(s, step))
  {
  }

  lemma StepKeepsRowsOk(s: State, step: Step)
    requires RowsOk(s) && Enabled(s, step)
    ensures RowsOk(Apply(s, step))
  {
    if step.Act? { ActKeepsRowsOk(s, step.a, step.move); }
    else { OtherStepKeepsRowsOk(s, step); }
  }

  lemma ActKeepsRowsOk(s: State, a: Id, m: Move)
    requires RowsOk(s) && MoveOk(s, a, m)
    ensures RowsOk(ApplyMove(s, a, m))
  {
    hide RowOk, MoveRow, MoveTask, MoveLog;
    MoveKeepsRowOk(s, a, m);
    MoveLeavesTaskUncancelled(s, a, m);
    forall i | 0 <= i < |s.actions| ensures RowOk(ApplyMove(s, a, m).actions[i], TaskIsCancelled(s), s.cfg.ceiling) {
      assert RowOk(s.actions[i], TaskIsCancelled(s), s.cfg.ceiling);
    }
  }

  lemma OtherStepKeepsRowsOk(s: State, step: Step)
    requires RowsOk(s) && Enabled(s, step) && !step.Act?
    ensures RowsOk(Apply(s, step))
  {
    if TaskIsCancelled(s) { CancelledTaskStays(s, step); }
    if step.Install? || step.Replan? || step.CancelTask? {
      RowStepKeepsRowsOk(s, step);
    } else {
      hide RowOk;
    }
  }

  lemma RowStepKeepsRowsOk(s: State, step: Step)
    requires RowsOk(s) && Enabled(s, step) && (step.Install? || step.Replan? || step.CancelTask?)
    ensures RowsOk(Apply(s, step))
  {
  }

  lemma MoveLeavesTaskUncancelled(s: State, a: Id, m: Move)
    requires MoveOk(s, a, m)
    ensures TaskIsCancelled(ApplyMove(s, a, m)) == TaskIsCancelled(s)
  {
  }

  // ------------------------------------------------------- the transition table

  function EndingTrigger(status: ActionStatus): ActionTrigger {
    match status
    case Succeeded => VerificationPass
    case Unverified => VerificationNoMethod
    case Ready => ToolFailedRetryable
    case Cancelled => ActionTaskCancelled
    case _ => ToolFailedTerminal
  }

  /** The trigger under which a move is reported to `apply_action`. */
  function TriggerOf(s: State, a: Id, m: Move): ActionTrigger
    requires MoveOk(s, a, m)
  {
    match m
    case Promote => DependenciesSatisfied
    case Enqueue(_, _) => Enqueued
    case Ask => PolicyConfirm
    case Refuse => PolicyDeny
    case Grant(_, _) => ApprovalGranted
    case Decline(_) => ApprovalRejected
    case Lapse(_) => ApprovalRejected
    case Claim(_) => WorkerClaimed
    case Heartbeat(_) => WorkerClaimed
    case Reap => if MoveRow(s, a, m).status.Failed? then ToolFailedTerminal else LeaseExpired
    case Compensate => Compensated
    case Finish(_, _) =>
      EndingTrigger(MoveRow(s, a, m).status)
  }

  lemma EndingsFollowTheTable(s: State, r: Action, e: Ending)
    requires r.status.Running? && EndingOk(s, r, e)
    ensures ApplyAction(Running, EndingTrigger(FinishRow(s, r, e).status)) == Some(FinishRow(s, r, e).status)
  {
    EndingStatuses(s, r, e);
  }

  lemma EndingStatuses(s: State, r: Action, e: Ending)
    requires r.status.Running? && EndingOk(s, r, e)
    ensures var status := FinishRow(s, r, e).status;
            status.Succeeded? || status.Unverified? || status.Ready? || status.Cancelled? || status.Failed?
  {
  }

  /** Every move is a row of the normative table, except the two that bypass it:
      a heartbeat changes no status, and a claim also accepts READY. */
  lemma MovesFollowTheTable(s: State, a: Id, m: Move)
    requires MoveOk(s, a, m)
    ensures var before := s.actions[a].status; var after := MoveRow(s, a, m).status;
            || ApplyAction(before, TriggerOf(s, a, m)) == Some(after)
            || (m.Heartbeat? && before == after)
            || (m.Claim? && before == Ready && after == Running)
  {
    if m.Finish? {
      EndingsFollowTheTable(s, s.actions[a], m.ending);
    }
  }

  predicate TaskStepFollowsTable(s: State, t: State, trigger: TaskTrigger) {
    ApplyTask(s.task.status, trigger) == Some(t.task.status)
  }

  lemma TaskLookups(status: TaskStatus)
    ensures status.TaskCreated? ==> ApplyTask(status, PlanRequested) == Some(TaskPlanning)
    ensures status.TaskReady? ==>
              ApplyTask(status, FirstDispatch) == Some(TaskRunning)
              && ApplyTask(status, Deadline) == Some(TaskFailed)
    ensures status.TaskWaiting? ==>
              ApplyTask(status, TaskApprovalGranted) == Some(TaskRunning)
                  && ApplyTask(status, TaskApprovalRejected) == Some(TaskFailed)
    ensures status.TaskRunning? ==>
              && ApplyTask(status, ApprovalNeeded) == Some(TaskWaiting)
              && ApplyTask(status, Deadline) == Some(TaskFailed)
              && ApplyTask(status, RequiredFailed) == Some(TaskFailed)
              && ApplyTask(status, ReplanExhausted) == Some(TaskNeedsHuman)
              && ApplyTask(status, AllSucceeded) == Some(TaskSucceeded)
    ensures status.TaskNeedsHuman? ==> ApplyTask(status, HumanReplied) == Some(TaskRunning)
    ensures !status.Terminal() ==> ApplyTask(status, TaskCancel) == Some(TaskCancelled)
  {
  }

  lemma MoveFollowsTaskTable(s: State, a: Id, m: Move)
    requires MoveOk(s, a, m)
    ensures ApplyMove(s, a, m).task.status == s.task.status
            || TaskStepFollowsTable(s, ApplyMove(s, a, m),
                                    if m.Grant? then TaskApprovalGranted else TaskApprovalRejected)
  {
    hide MoveOk, ApplyTask, MoveRow, MoveApprovals, MoveLog;
    TaskLookups(s.task.status);
  }

  lemma EndFollowsTaskTable(s: State, step: Step)
    requires Enabled(s, step) && (step.ExpireTask? || step.FailTask? || step.NeedHuman? || step.SucceedTask?)
    ensures exists trigger :: TaskStepFollowsTable(s, Apply(s, step), trigger)
  {
    hide ApplyTask;
    TaskLookups(s.task.status);
    var t := Apply(s, step);
    assert step.ExpireTask? ==> TaskStepFollowsTable(s, t, Deadline);
    assert step.FailTask? ==> TaskStepFollowsTable(s, t, RequiredFailed);
    assert step.NeedHuman? ==> TaskStepFollowsTable(s, t, ReplanExhausted);
    assert step.SucceedTask? ==> TaskStepFollowsTable(s, t, AllSucceeded);
  }

  /** A status write to the task is a row of its table; installing a plan takes two rows in one transaction. */
  lemma TaskStepsFollowTheTable(s: State, step: Step)
    requires Enabled(s, step)
    ensures var t := Apply(s, step);
            || t.task.status == s.task.status
            || (exists trigger :: TaskStepFollowsTable(s, t, trigger))
            || (step.Install? && step.activate && s.task.status.TaskCreated? && t.task.status.TaskReady?)
            || (step.RejectPlan? && s.task.status.TaskCreated? && t.task.status.TaskFailed?)
  {
    hide ApplyTask;
    TaskLookups(s.task.status);
    var t := Apply(s, step);
    if step.Act? { MoveFollowsTaskTable(s, step.a, step.move); }
    else if step.ExpireTask? || step.FailTask? || step.NeedHuman? || step.SucceedTask? { EndFollowsTaskTable(s, step); }
    else {
      assert step.Install? && !step.activate ==> TaskStepFollowsTable(s, t, PlanRequested);
      assert step.StartTask? ==> TaskStepFollowsTable(s, t, FirstDispatch);
      assert step.ResumeTask? ==> TaskStepFollowsTable(s, t, TaskApprovalGranted);
      assert step.BlockTask? ==> TaskStepFollowsTable(s, t, ApprovalNeeded);
      assert step.ReplyTask? ==> TaskStepFollowsTable(s, t, HumanReplied);
      assert step.CancelTask? ==> TaskStepFollowsTable(s, t, TaskCancel);
    }
  }

  // -------------------------------------------------------------- no false success

  /** Nothing left to do and nothing unproven. */
  predicate Satisfied(r: Action) {
    || r.status.Succeeded?
    || (r.status.Unverified? && r.spec.tolerates)
    || (r.status.Cancelled? && r.cause != Some(ByTask))
  }

  ghost predicate SuccessIsEarned(s: State) {
    s.task.status.TaskSucceeded? ==> forall i | 0 <= i < |s.actions| :: Satisfied(s.actions[i])
  }

  lemma StepKeepsSuccessEarned(s: State, step: Step)
    requires RowsOk(s) && SuccessIsEarned(s) && Enabled(s, step)
    ensures SuccessIsEarned(Apply(s, step))
  {
    var t := Apply(s, step);
    if t.task.status.TaskSucceeded? {
      if s.task.status.TaskSucceeded? {
        SucceededRowsFrozen(s, step);
      } else {
        assert step.SucceedTask?;
        forall i | 0 <= i < |s.actions| ensures Satisfied(s.actions[i]) {
          assert s.actions[i].status.Terminal() && s.actions[i].status != Failed && Tolerated(s.actions[i]);
          assert RowOk(s.actions[i], TaskIsCancelled(s), s.cfg.ceiling);
        }
      }
    }
  }

  lemma FrozenRow(s: State, a: Id, m: Move)
    requires s.task.status.TaskSucceeded? && IsAction(s, a) && Satisfied(s.actions[a])
    ensures !MoveOk(s, a, m)
  {
  }

  /** In a SUCCEEDED task no step can touch an action or the task. */
  lemma SucceededRowsFrozen(s: State, step: Step)
    requires s.task.status.TaskSucceeded? && SuccessIsEarned(s) && Enabled(s, step)
    ensures Apply(s, step).task == s.task && Apply(s, step).actions == s.actions
  {
    if step.Act? {
      FrozenRow(s, step.a, step.move);
      assert false;
    }
  }
}

/** Bounded autonomy over whole runs: a measure that every step taken without a
    human decision or a new plan strictly lowers. */
module Progress {
  import opened Wrappers
  import opened Lifecycle
  import opened Model
  import opened Safety

  // ------------------------------------------------------------------ the measure

  function StatusRank(status: ActionStatus): nat {
    match status
    case Planned => 5
    case Running => 4
    case Ready => 3
    case Dispatched => 2
    case WaitingForUser => 2
    case Succeeded => 1
    case Failed => 1
    case _ => 0
  }

  /** A claim costs an attempt, which outweighs the higher rank of RUNNING. */
  function RowWork(r: Action): int {
    3 * (AttemptCap(r) - r.attempts) + StatusRank(r.status)
  }

  function Work(actions: seq<Action>): int {
    if actions == [] then 0 else Work(actions[..|actions| - 1]) + RowWork(actions[|actions| - 1])
  }

  function OpenQuestions(approvals: seq<Approval>): nat {
    if approvals == [] then 0
    else OpenQuestions(approvals[..|approvals| - 1]) + if approvals[|approvals| - 1].status.Pending? then 1 else 0
  }

  /** Blocking on a question and resuming from it must both go down. */
  function TaskRank(status: TaskStatus, asking: bool): nat {
    match status
    case TaskCreated => 5
    case TaskPlanning => 4
    case TaskReady => 4
    case TaskRunning => if asking then 3 else 2
    case TaskWaiting => if asking then 2 else 3
    case TaskPaused => 2
    case TaskNeedsHuman => 1
    case _ => 0
  }

  function Measure(s: State): int {
    7 * Work(s.actions) + TaskRank(s.task.status, AnyStatus(s.actions, WaitingForUser)) + OpenQuestions(s.approvals)
  }

  /** A decision by the user that lets work go on, or a newly written plan. */
  predicate Restarts(step: Step) {
    step.ReplyTask? || step.Install? || step.Replan? || (step.Act? && step.move.Grant?)
  }

  /** Steps that write no status: messages, clocks, leases and lost workers. */
  predicate Neutral(step: Step) {
    || (step.Act? && step.move.Heartbeat?)
    || step.Publish? || step.Republish? || step.DropOutbox? || step.LoseMessage? || step.DuplicateMessage?
    || step.WorkerDies? || step.Advance?
  }

  // ------------------------------------------------------------------------- sums

  lemma {:induction false} WorkUpdate(actions: seq<Action>, a: nat, r: Action)
    requires a < |actions|
    ensures Work(actions[a := r]) == Work(actions) - RowWork(actions[a]) + RowWork(r)
  {
    var n := |actions| - 1;
    if a == n {
      assert actions[a := r][..n] == actions[..n];
    } else {
      assert actions[a := r][..n] == actions[..n][a := r];
      WorkUpdate(actions[..n], a, r);
    }
  }

  lemma {:induction false} WorkMonotone(xs: seq<Action>, ys: seq<Action>)
    requires |xs| == |ys| && forall i | 0 <= i < |xs| :: RowWork(ys[i]) <= RowWork(xs[i])
    ensures Work(ys) <= Work(xs)
  {
    if xs != [] {
      WorkMonotone(xs[..|xs| - 1], ys[..|ys| - 1]);
    }
  }

  lemma {:induction false} WorkNonNegative(actions: seq<Action>)
    requires forall i | 0 <= i < |actions| :: actions[i].attempts <= AttemptCap(actions[i])
    ensures Work(actions) >= 0
  {
    if actions != [] { WorkNonNegative(actions[..|actions| - 1]); }
  }

  lemma {:induction false} QuestionsUpdate(approvals: seq<Approval>, p: nat, q: Approval)
    requires p < |approvals|
    ensures OpenQuestions(approvals[p := q]) ==
            OpenQuestions(approvals) - (if approvals[p].status.Pending? then 1 else 0)
                + (if q.status.Pending? then 1 else 0)
  {
    var n := |approvals| - 1;
    if p == n {
      assert approvals[p := q][..n] == approvals[..n];
    } else {
      assert approvals[p := q][..n] == approvals[..n][p := q];
      QuestionsUpdate(approvals[..n], p, q);
    }
  }

  // ------------------------------------------------------------- every step goes down

  lemma EndingLowersRow(s: State, r: Action, e: Ending)
    requires r.status.Running? && EndingOk(s, r, e)
    ensures RowWork(FinishRow(s, r, e)) < RowWork(r)
  {
    EndingStatuses(s, r, e);
    EndingKeepsAttempts(s, r, e);
  }

  lemma EndingKeepsAttempts(s: State, r: Action, e: Ending)
    ensures FinishRow(s, r, e).attempts == r.attempts && FinishRow(s, r, e).spec == r.spec
  {
  }

  lemma MoveLowersRow(s: State, a: Id, m: Move)
    requires MoveOk(s, a, m) && RowOk(s.actions[a], TaskIsCancelled(s), s.cfg.ceiling)
    requires !m.Grant? && !m.Heartbeat?
    ensures RowWork(MoveRow(s, a, m)) < RowWork(s.actions[a])
  {
    if m.Finish? { EndingLowersRow(s, s.actions[a], m.ending); }
  }

  lemma MoveQuestions(s: State, a: Id, m: Move)
    requires MoveOk(s, a, m)
    ensures OpenQuestions(MoveApprovals(s, a, m)) <= OpenQuestions(s.approvals) + (if m.Ask? then 1 else 0)
  {
    match m {
      case Enqueue(_, ap) =>
        if ap.Some? { QuestionsUpdate(s.approvals, ap.value, MoveApprovals(s, a, m)[ap.value]); }
      case Ask =>
        if !HasPending(s, a) {
          assert MoveApprovals(s, a, m)[..|s.approvals|] == s.approvals;
        }
      case Grant(ap, _) => QuestionsUpdate(s.approvals, ap, MoveApprovals(s, a, m)[ap]);
      case Decline(ap) => QuestionsUpdate(s.approvals, ap, MoveApprovals(s, a, m)[ap]);
      case Lapse(ap) => QuestionsUpdate(s.approvals, ap, MoveApprovals(s, a, m)[ap]);
      case _ =>
    }
  }

  lemma MoveRank(s: State, a: Id, m: Move)
    requires MoveOk(s, a, m) && !m.Grant?
    ensures var t := ApplyMove(s, a, m);
            TaskRank(t.task.status, AnyStatus(t.actions, WaitingForUser)) <=
            TaskRank(s.task.status, AnyStatus(s.actions, WaitingForUser)) + 1
  {
  }

  lemma MoveProgresses(s: State, a: Id, m: Move)
    requires RowsOk(s) && MoveOk(s, a, m) && !m.Grant? && !m.Heartbeat?
    ensures Measure(ApplyMove(s, a, m)) < Measure(s)
  {
    MoveLowersRow(s, a, m);
    WorkUpdate(s.actions, a, MoveRow(s, a, m));
    MoveQuestions(s, a, m);
    MoveRank(s, a, m);
  }

  lemma HeartbeatIsNeutral(s: State, a: Id, w: WorkerId)
    requires MoveOk(s, a, Heartbeat(w))
    ensures Measure(ApplyMove(s, a, Heartbeat(w))) == Measure(s)
  {
    var t := ApplyMove(s, a, Heartbeat(w));
    WorkUpdate(s.actions, a, MoveRow(s, a, Heartbeat(w)));
    forall i | 0 <= i < |s.actions| ensures t.actions[i].status == s.actions[i].status {}
    assert AnyStatus(t.actions, WaitingForUser) == AnyStatus(s.actions, WaitingForUser);
  }

  lemma CancelProgresses(s: State)
    requires RowsOk(s) && Enabled(s, CancelTask)
    ensures Measure(Apply(s, CancelTask)) < Measure(s)
  {
    hide RowOk, AnyStatus, Work, OpenQuestions;
    forall i | 0 <= i < |s.actions| ensures RowWork(CancelRow(s.actions[i])) <= RowWork(s.actions[i]) {}
    WorkMonotone(s.actions, CancelRows(s.actions));
  }

  lemma TaskStepProgresses(s: State, step: Step)
    requires Enabled(s, step) && !Restarts(step) && !Neutral(step)
    requires !step.Act? && !step.CancelTask? && !step.LapseOnly?
    ensures Measure(Apply(s, step)) < Measure(s)
  {
    if step.BlockTask? {
      var i :| 0 <= i < |s.actions| && !s.actions[i].status.Terminal();
      assert s.actions[i].status == WaitingForUser;
    }
  }

  lemma LapseOnlyProgresses(s: State, ap: Id)
    requires Enabled(s, LapseOnly(ap))
    ensures Measure(Apply(s, LapseOnly(ap))) < Measure(s)
  {
    QuestionsUpdate(s.approvals, ap, Apply(s, LapseOnly(ap)).approvals[ap]);
  }

  lemma NeutralKeepsMeasure(s: State, step: Step)
    requires Enabled(s, step) && Neutral(step)
    ensures Measure(Apply(s, step)) == Measure(s)
  {
    if step.Act? { HeartbeatIsNeutral(s, step.a, step.move.worker); }
  }

  /** Apart from human decisions and new plans, every step either writes no status
      and leaves the measure alone, or strictly lowers it. */
  lemma StepProgresses(s: State, step: Step)
    requires RowsOk(s) && Enabled(s, step) && !Restarts(step)
    ensures if Neutral(step) then Measure(Apply(s, step)) == Measure(s) else Measure(Apply(s, step)) < Measure(s)
  {
    hide RowsOk, Measure, MoveOk, ApplyMove, Live, Settled;
    if Neutral(step) { NeutralKeepsMeasure(s, step); }
    else if step.Act? { MoveProgresses(s, step.a, step.move); }
    else if step.CancelTask? { CancelProgresses(s); }
    else if step.LapseOnly? { LapseOnlyProgresses(s, step.ap); }
    else { TaskStepProgresses(s, step); }
  }

  lemma MeasureNonNegative(s: State)
    requires RowsOk(s)
    ensures Measure(s) >= 0
  {
    forall i | 0 <= i < |s.actions| ensures s.actions[i].attempts <= AttemptCap(s.actions[i]) {
      assert RowOk(s.actions[i], TaskIsCancelled(s), s.cfg.ceiling);
    }
    WorkNonNegative(s.actions);
  }

  function Progressing(steps: seq<Step>): nat {
    if steps == [] then 0 else (if Neutral(steps[0]) then 0 else 1) + Progressing(steps[1..])
  }

  /** However rows, workers and messages behave, a stretch without a human decision
      or a new plan holds at most `Measure` status-writing steps. */
  lemma {:induction false} StretchIsBounded(s: State, steps: seq<Step>, t: State)
    requires RowsOk(s) && Run(s, steps, t) && forall step <- steps :: !Restarts(step)
    ensures RowsOk(t) && Progressing(steps) + Measure(t) <= Measure(s)
    ensures Progressing(steps) <= Measure(s)
    decreases |steps|
  {
    if steps == [] {
      MeasureNonNegative(s);
    } else {
      var step := steps[0];
      assert step in steps;
      StepKeepsRowsOk(s, step);
      StepProgresses(s, step);
      StretchIsBounded(Apply(s, step), steps[1..], t);
      MeasureNonNegative(t);
    }
  }

  // ---------------------------------------------------------------------- replans

  function Replans(steps: seq<Step>): nat {
    if steps == [] then 0 else (if steps[0].Replan? then 1 else 0) + Replans(steps[1..])
  }

  predicate BudgetKept(s: State) {
    s.task.replanCount <= s.cfg.maxReplans
  }

  /** No run replans more often than its budget, whatever humans decide in between. */
  lemma {:induction false} ReplansAreBounded(s: State, steps: seq<Step>, t: State)
    requires BudgetKept(s) && Run(s, steps, t)
    ensures BudgetKept(t) && t.cfg == s.cfg
    ensures s.task.replanCount + Replans(steps) == t.task.replanCount
    ensures Replans(steps) <= s.cfg.maxReplans
    decreases |steps|
  {
    if steps != [] {
      StepReplans(s, steps[0]);
      ReplansAreBounded(Apply(s, steps[0]), steps[1..], t);
    }
  }

  /** What only people and the planner's first plan do. */
  predicate HumanActs(step: Step) {
    step.ReplyTask? || step.Install? || (step.Act? && step.move.Grant?)
  }

  /** The termination measure of the whole system: apart from human decisions and from
      steps that write no status, every step lowers, lexicographically, the replans left
      and then the weighted sum over attempts left, row ranks, open questions and task rank. */
  lemma LexicographicProgress(s: State, step: Step)
    requires RowsOk(s) && BudgetKept(s) && Enabled(s, step) && !HumanActs(step) && !Neutral(step)
    ensures var t := Apply(s, step);
            var left, left' := s.cfg.maxReplans - s.task.replanCount, t.cfg.maxReplans - t.task.replanCount;
            0 <= left' && (left' < left || (left' == left && 0 <= Measure(t) < Measure(s)))
  {
    StepReplans(s, step);
    if !step.Replan? {
      StepProgresses(s, step);
      StepKeepsRowsOk(s, step);
      MeasureNonNegative(Apply(s, step));
    }
  }

  lemma StepReplans(s: State, step: Step)
    requires BudgetKept(s) && Enabled(s, step)
    ensures BudgetKept(Apply(s, step)) && Apply(s, step).cfg == s.cfg
    ensures Apply(s, step).task.replanCount == s.task.replanCount + if step.Replan? then 1 else 0
  {
  }
}

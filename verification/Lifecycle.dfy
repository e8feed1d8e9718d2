/** The status vocabularies (vyomel/core/types.py) and the two transition
    tables with their lookup (vyomel/runtime/state.py). */
module Lifecycle {
  import opened Wrappers

  datatype ActionStatus =
    | Planned | Ready | Dispatched | Running | WaitingForUser
    | Succeeded | Unverified | Failed | RolledBack | Cancelled
  {
    predicate Terminal() {
      Succeeded? || Unverified? || Failed? || RolledBack? || Cancelled?
    }
  }

  /** What a dependent takes from a dependency. */
  predicate Acceptable(status: ActionStatus, toleratesUnverified: bool) {
    status.Succeeded? || (toleratesUnverified && status.Unverified?)
  }

  datatype TaskStatus =
    | TaskCreated | TaskPlanning | TaskReady | TaskRunning | TaskWaiting | TaskPaused
    | TaskSucceeded | TaskFailed | TaskCancelled | TaskNeedsHuman
  {
    predicate Terminal() {
      TaskSucceeded? || TaskFailed? || TaskCancelled?
    }
  }

  datatype ActionTrigger =
    | DependenciesSatisfied | ActionTaskCancelled | PolicyConfirm | PolicyDeny | Enqueued
    | ApprovalGranted | ApprovalRejected | WorkerClaimed | LeaseExpired | VerificationPass
    | VerificationNoMethod | ToolFailedTerminal | ToolFailedRetryable | Compensated

  datatype TaskTrigger =
    | PlanRequested | PlanInvalid | PlanValidated | FirstDispatch | ApprovalNeeded
    | TaskApprovalGranted | TaskApprovalRejected | Paused | Resumed | ReplanExhausted
    | AllSucceeded | RequiredFailed | TaskCancel | Deadline | HumanReplied

  datatype Row<S, T> = Row(source: S, dest: S, trigger: T)

  /** The rows written out in the table; every non-terminal status is also cancellable. */
  const ACTION_MOVES: set<Row<ActionStatus, ActionTrigger>> := {
    Row(Planned, Ready, DependenciesSatisfied),
    Row(Ready, WaitingForUser, PolicyConfirm),
    Row(Ready, Failed, PolicyDeny),
    Row(Ready, Dispatched, Enqueued),
    Row(WaitingForUser, Ready, ApprovalGranted),
    Row(WaitingForUser, Failed, ApprovalRejected),
    Row(Dispatched, Running, WorkerClaimed),
    Row(Dispatched, Ready, LeaseExpired),
    Row(Running, Succeeded, VerificationPass),
    Row(Running, Unverified, VerificationNoMethod),
    Row(Running, Failed, ToolFailedTerminal),
    Row(Running, Ready, ToolFailedRetryable),
    Row(Running, Ready, LeaseExpired),
    Row(Succeeded, RolledBack, Compensated)}

  const TASK_MOVES: set<Row<TaskStatus, TaskTrigger>> := {
    Row(TaskCreated, TaskPlanning, PlanRequested),
    Row(TaskPlanning, TaskFailed, PlanInvalid),
    Row(TaskPlanning, TaskReady, PlanValidated),
    Row(TaskReady, TaskRunning, FirstDispatch),
    Row(TaskRunning, TaskWaiting, ApprovalNeeded),
    Row(TaskWaiting, TaskRunning, TaskApprovalGranted),
    Row(TaskWaiting, TaskFailed, TaskApprovalRejected),
    Row(TaskRunning, TaskPaused, Paused),
    Row(TaskPaused, TaskRunning, Resumed),
    Row(TaskRunning, TaskNeedsHuman, ReplanExhausted),
    Row(TaskNeedsHuman, TaskRunning, HumanReplied),
    Row(TaskRunning, TaskSucceeded, AllSucceeded),
    Row(TaskRunning, TaskFailed, RequiredFailed),
    Row(TaskRunning, TaskFailed, Deadline),
    Row(TaskReady, TaskFailed, Deadline)}

  const ACTION_TRANSITIONS: set<Row<ActionStatus, ActionTrigger>> :=
    ACTION_MOVES + (set s: ActionStatus | !s.Terminal() :: Row(s, Cancelled, ActionTaskCancelled))

  const TASK_TRANSITIONS: set<Row<TaskStatus, TaskTrigger>> :=
    TASK_MOVES + (set s: TaskStatus | !s.Terminal() :: Row(s, TaskCancelled, TaskCancel))

  /** Two rows that disagree on the destination of one source and trigger. */
  ghost predicate Ambiguous<S(!new), T(!new)>(rows: set<Row<S, T>>) {
    exists a, b | a in rows && b in rows :: a.source == b.source && a.trigger == b.trigger && a.dest != b.dest
  }

  ghost predicate IsIndexOf<S(!new), T(!new)>(index: map<(S, T), S>, rows: set<Row<S, T>>) {
    && (forall r <- rows :: (r.source, r.trigger) in index && index[(r.source, r.trigger)] == r.dest)
    && (forall k <- index :: Row(k.0, index[k], k.1) in rows)
  }

  /** `_index`: fill a dictionary row by row, or stop at the first clash. */
  method Index<S(==,!new), T(==,!new)>(rows: set<Row<S, T>>) returns (r: Result<map<(S, T), S>, Row<S, T>>)
    ensures r.Ok? <==> !Ambiguous(rows)
    ensures r.Ok? ==> IsIndexOf(r.value, rows)
    ensures r.Err? ==> r.error in rows
  {
    var indexed: map<(S, T), S> := map[];
    var todo := rows;
    while todo != {}
      invariant todo <= rows
      invariant IsIndexOf(indexed, rows - todo)
      decreases todo
    {
      var row :| row in todo;
      var key := (row.source, row.trigger);
      if key in indexed && indexed[key] != row.dest {
        assert Row(key.0, indexed[key], key.1) in rows - todo;
        return Err(row);
      }
      indexed := indexed[key := row.dest];
      todo := todo - {row};
    }
    assert rows - todo == rows;
    return Ok(indexed);
  }

  /** `apply_action`: the destination, or None where the code raises. */
  function ApplyAction(current: ActionStatus, trigger: ActionTrigger): (dest: Option<ActionStatus>)
    ensures dest.Some? ==> !current.Terminal() || (current.Succeeded? && dest.value.RolledBack?)
    ensures dest.Some? && dest.value.Succeeded? ==> trigger.VerificationPass?
  {
    match (current, trigger)
    case (Planned, DependenciesSatisfied) => Some(Ready)
    case (Ready, PolicyConfirm) => Some(WaitingForUser)
    case (Ready, PolicyDeny) => Some(Failed)
    case (Ready, Enqueued) => Some(Dispatched)
    case (WaitingForUser, ApprovalGranted) => Some(Ready)
    case (WaitingForUser, ApprovalRejected) => Some(Failed)
    case (Dispatched, WorkerClaimed) => Some(Running)
    case (Dispatched, LeaseExpired) => Some(Ready)
    case (Running, VerificationPass) => Some(Succeeded)
    case (Running, VerificationNoMethod) => Some(Unverified)
    case (Running, ToolFailedTerminal) => Some(Failed)
    case (Running, ToolFailedRetryable) => Some(Ready)
    case (Running, LeaseExpired) => Some(Ready)
    case (Succeeded, Compensated) => Some(RolledBack)
    case (_, ActionTaskCancelled) => if current.Terminal() then None else Some(Cancelled)
    case _ => None
  }

  /** `apply_task`. */
  function ApplyTask(current: TaskStatus, trigger: TaskTrigger): (dest: Option<TaskStatus>)
    ensures dest.Some? ==> !current.Terminal()
  {
    match (current, trigger)
    case (TaskCreated, PlanRequested) => Some(TaskPlanning)
    case (TaskPlanning, PlanInvalid) => Some(TaskFailed)
    case (TaskPlanning, PlanValidated) => Some(TaskReady)
    case (TaskReady, FirstDispatch) => Some(TaskRunning)
    case (TaskRunning, ApprovalNeeded) => Some(TaskWaiting)
    case (TaskWaiting, TaskApprovalGranted) => Some(TaskRunning)
    case (TaskWaiting, TaskApprovalRejected) => Some(TaskFailed)
    case (TaskRunning, Paused) => Some(TaskPaused)
    case (TaskPaused, Resumed) => Some(TaskRunning)
    case (TaskRunning, ReplanExhausted) => Some(TaskNeedsHuman)
    case (TaskNeedsHuman, HumanReplied) => Some(TaskRunning)
    case (TaskRunning, AllSucceeded) => Some(TaskSucceeded)
    case (TaskRunning, RequiredFailed) => Some(TaskFailed)
    case (TaskRunning, Deadline) => Some(TaskFailed)
    case (TaskReady, Deadline) => Some(TaskFailed)
    case (_, TaskCancel) => if current.Terminal() then None else Some(TaskCancelled)
    case _ => None
  }

  lemma ActionMovesFromLookup(s: ActionStatus, d: ActionStatus, t: ActionTrigger)
    requires ApplyAction(s, t) == Some(d) && t != ActionTaskCancelled
    ensures Row(s, d, t) in ACTION_MOVES
  {
  }

  lemma ActionLookupFromMoves(row: Row<ActionStatus, ActionTrigger>)
    requires row in ACTION_MOVES
    ensures ApplyAction(row.source, row.trigger) == Some(row.dest) && row.trigger != ActionTaskCancelled
  {
  }

  lemma TaskMovesFromLookup(s: TaskStatus, d: TaskStatus, t: TaskTrigger)
    requires ApplyTask(s, t) == Some(d) && t != TaskCancel
    ensures Row(s, d, t) in TASK_MOVES
  {
  }

  lemma TaskLookupFromMoves(row: Row<TaskStatus, TaskTrigger>)
    requires row in TASK_MOVES
    ensures ApplyTask(row.source, row.trigger) == Some(row.dest) && row.trigger != TaskCancel
  {
  }

  /** The lookup functions are exactly the tables. */
  lemma ApplyActionIsTheTable(s: ActionStatus, d: ActionStatus, t: ActionTrigger)
    ensures ApplyAction(s, t) == Some(d) <==> Row(s, d, t) in ACTION_TRANSITIONS
  {
    if t == ActionTaskCancelled {
      if Row(s, d, t) in ACTION_MOVES { ActionLookupFromMoves(Row(s, d, t)); }
    } else {
      if ApplyAction(s, t) == Some(d) { ActionMovesFromLookup(s, d, t); }
      if Row(s, d, t) in ACTION_MOVES { ActionLookupFromMoves(Row(s, d, t)); }
    }
  }

  lemma ApplyTaskIsTheTable(s: TaskStatus, d: TaskStatus, t: TaskTrigger)
    ensures ApplyTask(s, t) == Some(d) <==> Row(s, d, t) in TASK_TRANSITIONS
  {
    if t == TaskCancel {
      if Row(s, d, t) in TASK_MOVES { TaskLookupFromMoves(Row(s, d, t)); }
    } else {
      if ApplyTask(s, t) == Some(d) { TaskMovesFromLookup(s, d, t); }
      if Row(s, d, t) in TASK_MOVES { TaskLookupFromMoves(Row(s, d, t)); }
    }
  }

  /** The life of an action: only READY is dispatched or asked about, only DISPATCHED runs, only
      RUNNING succeeds or stays unverified, and nothing that has ended moves again but a
      success that is undone. */
  lemma ActionsMoveForward(s: ActionStatus, d: ActionStatus, t: ActionTrigger)
    requires Row(s, d, t) in ACTION_TRANSITIONS
    ensures d != Planned && (d == Dispatched || d == WaitingForUser ==> s == Ready)
    ensures d == Running ==> s == Dispatched
    ensures d == Succeeded || d == Unverified ==> s == Running
    ensures d == Ready ==> s in {Planned, WaitingForUser, Dispatched, Running}
    ensures d == Failed ==> s in {Ready, WaitingForUser, Running}
    ensures d == RolledBack <==> s == Succeeded
    ensures s !in {Unverified, Failed, RolledBack, Cancelled}
    ensures d == Cancelled <==> t == ActionTaskCancelled
  {
    hide ACTION_TRANSITIONS;
    ApplyActionIsTheTable(s, d, t);
  }

  /** The life of a task: it waits, pauses and asks for help only from RUNNING and returns only
      there, unless it ends; it succeeds only from RUNNING; and its ends are final. */
  lemma TasksEndOnce(s: TaskStatus, d: TaskStatus, t: TaskTrigger)
    requires Row(s, d, t) in TASK_TRANSITIONS
    ensures d in {TaskSucceeded, TaskWaiting, TaskPaused, TaskNeedsHuman} ==> s == TaskRunning
    ensures s in {TaskWaiting, TaskPaused, TaskNeedsHuman} ==> d in {TaskRunning, TaskFailed, TaskCancelled}
    ensures s in {TaskPaused, TaskNeedsHuman} ==> d != TaskFailed
    ensures d == TaskRunning ==> s in {TaskReady, TaskWaiting, TaskPaused, TaskNeedsHuman}
    ensures d == TaskReady ==> s == TaskPlanning
    ensures d != TaskCreated && (d == TaskPlanning ==> s == TaskCreated)
    ensures s !in {TaskSucceeded, TaskFailed, TaskCancelled}
    ensures d == TaskCancelled <==> t == TaskCancel
  {
    hide TASK_TRANSITIONS;
    ApplyTaskIsTheTable(s, d, t);
  }

  lemma LookupIsUnambiguous<S(!new), T(!new)>(rows: set<Row<S, T>>, lookup: (S, T) -> Option<S>)
    requires forall r <- rows :: lookup(r.source, r.trigger) == Some(r.dest)
    ensures !Ambiguous(rows)
  {
  }

  /** Hence neither table is ambiguous, and `Index` builds both lookups without raising. */
  lemma ActionTableIsUnambiguous()
    ensures !Ambiguous(ACTION_TRANSITIONS)
  {
    hide ApplyAction, Ambiguous;
    forall r | r in ACTION_TRANSITIONS ensures ApplyAction(r.source, r.trigger) == Some(r.dest) {
      ApplyActionIsTheTable(r.source, r.dest, r.trigger);
    }
    LookupIsUnambiguous(ACTION_TRANSITIONS, ApplyAction);
  }

  lemma TaskTableIsUnambiguous()
    ensures !Ambiguous(TASK_TRANSITIONS)
  {
    hide ApplyTask, Ambiguous;
    forall r | r in TASK_TRANSITIONS ensures ApplyTask(r.source, r.trigger) == Some(r.dest) {
      ApplyTaskIsTheTable(r.source, r.dest, r.trigger);
    }
    LookupIsUnambiguous(TASK_TRANSITIONS, ApplyTask);
  }
}

/** The durable rows, the message stream and the workers of the execution
    runtime, and every atomic step that can change them. One task is modelled;
    an id is the position of a row, and rows are created in id order. */
module Model {
  import opened Wrappers
  import opened Lifecycle
  import opened Policy
  import opened Verify
  import opened Graph

  type Id = int
  type Time = int
  type Key = string
  type WorkerId = string

  // ----------------------------------------------------------------------- rows

  datatype ErrorCode =
    | TimedOut | Conflict | Unsupported | InvalidParameters | PreconditionFailed
    | PermissionDenied | VerificationFailed | Internal | ToolCode(code: string)

  datatype Lease = Lease(owner: WorkerId, until: Time)

  /** Why a row is CANCELLED; kept for the statements below, not stored by the code. */
  datatype Cause = ByTask | ByReplan | ByShutdown

  /** What a plan fixes for good. */
  datatype Spec = Spec(tool: string, dependsOn: seq<Id>, tolerates: bool, reversible: bool, maxRetries: nat,
                       timeout: nat)

  /** What an approved edit rewrites together. */
  datatype Call = Call(parameters: Parameters, level: Capability, key: Key)

  datatype Action = Action(
    spec: Spec, call: Call,
    status: ActionStatus, attempts: nat, lease: Option<Lease>, availableAt: Option<Time>,
    result: bool, checks: seq<Check>, error: Option<ErrorCode>,
    stay: nat, cause: Option<Cause>)

  datatype ApprovalStatus = Pending | Approved | Modified | Rejected | Expired

  /** `digest` is the parameter hash, taken to be collision-free. */
  datatype Approval = Approval(action: Id, level: Capability, digest: Parameters, status: ApprovalStatus,
                               expiresAt: Time, consumedAt: Option<Time>)

  datatype Task = Task(status: TaskStatus, replanCount: nat)

  datatype ToolInfo = ToolInfo(idempotent: bool, concurrencyKey: Option<string>)

  datatype Config = Config(policy: Policy, workflow: Option<string>, registry: map<string, ToolInfo>,
                           ceiling: Capability,
                           deadline: Option<Time>, maxParallel: nat, maxReplans: nat, approvalTtl: nat)

  /** One READY to DISPATCHED move. */
  datatype Dispatch = Dispatch(action: Id, stay: nat, level: Capability, digest: Parameters, decision: Decision,
                               approval: Option<Id>, at: Time)

  /** A claim: which READY/DISPATCHED stay of the row it ended, the call it set out to
      run, and whether it found the row DISPATCHED. */
  datatype Claimed = Claimed(action: Id, stay: nat, level: Capability, digest: Parameters, dispatched: bool)

  /** History that the statements talk about; the code keeps it only as audit records.
      `executed` are the keys of committed non-idempotent executions, `succeeded` the
      rows in the order in which they became SUCCEEDED. */
  datatype Log = Log(dispatches: seq<Dispatch>, claims: seq<Claimed>, executed: seq<Key>, succeeded: seq<Id>)

  datatype State = State(cfg: Config, task: Task, actions: seq<Action>, approvals: seq<Approval>, ledger: set<Key>,
                         outbox: multiset<Id>, stream: multiset<Id>, busy: map<WorkerId, Id>, now: Time, log: Log)

  // ---------------------------------------------------------------------- steps

  /** How a tool call ends. */
  datatype Execution =
    | RanOut
    | ToolFailed(code: ErrorCode, retryable: bool)
    | Crashed
    | Stopped(cause: Cause)
    | Returned(observed: seq<Outcome>)

  /** How an attempt ends: the exits of `_execute` and `_run_claimed`. */
  datatype Ending =
    | CancelSeen
    | UnknownTool
    | BadParameters
    | PreflightRefused
    | AlreadyReserved
    | Executed(execution: Execution, delay: nat)

  /** What can happen to one row. */
  datatype Move =
    | Promote
    | Enqueue(decision: Decision, approval: Option<Id>)
    | Ask
    | Refuse
    | Grant(ap: Id, edit: Option<Call>)
    | Decline(ap: Id)
    | Lapse(ap: Id)
    | Claim(worker: WorkerId)
    | Heartbeat(worker: WorkerId)
    | Reap
    | Finish(worker: WorkerId, ending: Ending)
    | Compensate

  datatype Step =
    | Act(a: Id, move: Move)
    | LapseOnly(ap: Id)
    | Install(rows: seq<Action>, activate: bool)
    | RejectPlan
    | Replan(failed: Id, rows: seq<Action>)
    | StartTask | ResumeTask | BlockTask | ExpireTask | FailTask | NeedHuman | SucceedTask | ReplyTask | CancelTask
    | Publish(a: Id) | Republish(a: Id) | DropOutbox | LoseMessage(a: Id) | DuplicateMessage(a: Id)
    | WorkerDies(worker: WorkerId)
    | Advance(to: Time)

  const BACKOFF_CAP: nat := 30

  predicate IsAction(s: State, a: Id) {
    0 <= a < |s.actions|
  }

  predicate IsApproval(s: State, ap: Id) {
    0 <= ap < |s.approvals|
  }

  /** The scheduler only advances rows of a READY or RUNNING task. */
  predicate Live(s: State) {
    s.task.status.TaskReady? || s.task.status.TaskRunning?
  }

  predicate DependenciesMet(s: State, r: Action) {
    forall k | 0 <= k < |r.spec.dependsOn| ::
      IsAction(s, r.spec.dependsOn[k]) && Acceptable(s.actions[r.spec.dependsOn[k]].status, r.spec.tolerates)
  }

  function DecisionFor(s: State, r: Action): Result<Decision, Violation> {
    Evaluate(s.cfg.policy, Request(r.spec.tool, r.call.level, r.call.parameters, s.cfg.workflow), s.now / 86400)
  }

  predicate Due(s: State, r: Action) {
    r.status.Ready? && (r.availableAt.None? || r.availableAt.value <= s.now)
  }

  predicate Covers(s: State, p: Approval, a: Id, r: Action) {
    && p.action == a
    && (p.status.Approved? || p.status.Modified?)
    && p.consumedAt.None?
    && p.digest == r.call.parameters
    && p.level >= r.call.level
    && p.expiresAt > s.now
  }

  /** `usable_for`: the newest approval that covers the row as it now stands. */
  function Usable(s: State, a: Id, r: Action, n: nat): (u: Option<Id>)
    requires n <= |s.approvals|
    ensures u.Some? ==> 0 <= u.value < n && Covers(s, s.approvals[u.value], a, r)
    ensures u.None? ==> forall i | 0 <= i < n :: !Covers(s, s.approvals[i], a, r)
  {
    if n == 0 then None
    else if Covers(s, s.approvals[n - 1], a, r) then Some(n - 1)
    else Usable(s, a, r, n - 1)
  }

  /** `pending_for`. */
  predicate HasPending(s: State, a: Id) {
    exists i | 0 <= i < |s.approvals| :: s.approvals[i].action == a && s.approvals[i].status.Pending?
  }

  predicate AllTerminal(actions: seq<Action>) {
    forall i | 0 <= i < |actions| :: actions[i].status.Terminal()
  }

  predicate AnyStatus(actions: seq<Action>, status: ActionStatus) {
    exists i | 0 <= i < |actions| :: actions[i].status == status
  }

  predicate NonIdempotent(s: State, r: Action) {
    r.spec.tool in s.cfg.registry && !s.cfg.registry[r.spec.tool].idempotent
  }

  predicate EndingOk(s: State, r: Action, e: Ending) {
    match e
    case CancelSeen => s.task.status.TaskCancelled?
    case UnknownTool => r.spec.tool !in s.cfg.registry
    case BadParameters => r.spec.tool in s.cfg.registry
    case PreflightRefused => r.spec.tool in s.cfg.registry
    case AlreadyReserved => NonIdempotent(s, r) && r.call.key in s.ledger
    case Executed(x, delay) =>
      && r.spec.tool in s.cfg.registry
      && (NonIdempotent(s, r) ==> r.call.key !in s.ledger)
      && delay <= BACKOFF_CAP
      && (x.Stopped? ==> x.cause == (if s.task.status.TaskCancelled? then ByTask else ByShutdown))
  }

  predicate MoveOk(s: State, a: Id, m: Move) {
    IsAction(s, a) &&
    var r := s.actions[a];
    match m
    case Promote => Live(s) && r.status.Planned? && DependenciesMet(s, r)
    case Enqueue(d, ap) =>
      && Live(s) && Due(s, r) && r.call.level <= s.cfg.ceiling && DecisionFor(s, r) == Ok(d)
      && ((d == Allow && ap.None?) || (d == Confirm && ap.Some? && ap == Usable(s, a, r, |s.approvals|)))
    case Ask =>
      && Live(s) && Due(s, r) && r.call.level <= s.cfg.ceiling && DecisionFor(s, r) == Ok(Confirm)
      && Usable(s, a, r, |s.approvals|).None?
    case Refuse => Live(s) && Due(s, r) && (r.call.level > s.cfg.ceiling || DecisionFor(s, r) == Ok(Deny))
    case Grant(ap, edit) =>
      && IsApproval(s, ap) && s.approvals[ap].action == a && s.approvals[ap].status.Pending?
      && s.approvals[ap].expiresAt > s.now && r.status.WaitingForUser?
      && (edit.Some? ==> edit.value.level <= s.cfg.ceiling)
    case Decline(ap) =>
      && IsApproval(s, ap) && s.approvals[ap].action == a && s.approvals[ap].status.Pending?
      && s.approvals[ap].expiresAt > s.now && r.status.WaitingForUser?
    case Lapse(ap) =>
      && IsApproval(s, ap) && s.approvals[ap].action == a && s.approvals[ap].status.Pending?
      && s.approvals[ap].expiresAt <= s.now && r.status.WaitingForUser?
    case Claim(w) => a in s.stream && w !in s.busy && (r.status.Ready? || r.status.Dispatched?)
    case Heartbeat(w) => r.status.Running? && r.lease.Some? && r.lease.value.owner == w
    case Reap => (r.status.Dispatched? || r.status.Running?) && r.lease.Some? && r.lease.value.until < s.now
    case Finish(w, e) =>
      && w in s.busy && s.busy[w] == a
      && r.status.Running? && r.lease.Some? && r.lease.value.owner == w && EndingOk(s, r, e)
    case Compensate => s.task.status.TaskCancelled? && r.status.Succeeded? && r.spec.reversible
  }

  // ------------------------------------------------------------- one row's effect

  function FailedRow(r: Action, code: ErrorCode): Action {
    r.(status := Failed, lease := None, error := Some(code))
  }

  /** `_retry_or_fail`. */
  function RetryOrFail(r: Action, now: Time, code: ErrorCode, retryable: bool, delay: nat): Action {
    if retryable && r.attempts < r.spec.maxRetries then
      r.(status := Ready, lease := None, error := Some(code), availableAt := Some(now + delay), stay := r.stay + 1)
    else FailedRow(r, code)
  }

  function FinishRow(s: State, r: Action, e: Ending): Action {
    match e
    case CancelSeen => r.(status := Cancelled, lease := None, cause := Some(ByTask))
    case UnknownTool => FailedRow(r, Unsupported)
    case BadParameters => FailedRow(r, InvalidParameters)
    case PreflightRefused => FailedRow(r, PreconditionFailed)
    case AlreadyReserved => if r.result then r.(status := Succeeded) else FailedRow(r, Conflict)
    case Executed(x, delay) =>
      match x
      case RanOut => RetryOrFail(r, s.now, TimedOut, true, delay)
      case ToolFailed(code, retryable) => RetryOrFail(r, s.now, code, retryable, delay)
      case Crashed => FailedRow(r, Internal)
      case Stopped(cause) => r.(status := Cancelled, lease := None, cause := Some(cause))
      case Returned(observed) =>
        var report := VerifyResult(r.call.level, observed);
        var r' := r.(result := true, checks := report.checks, lease := None);
        match report.outcome
        case Pass => r'.(status := Succeeded, error := None)
        case NoMethod => r'.(status := Unverified)
        case Fail => r'.(status := Failed, error := Some(VerificationFailed))
  }

  function MoveRow(s: State, a: Id, m: Move): Action
    requires MoveOk(s, a, m)
  {
    var r := s.actions[a];
    match m
    case Promote => r.(status := Ready, stay := r.stay + 1)
    case Enqueue(_, _) => r.(status := Dispatched, lease := None)
    case Ask => r.(status := WaitingForUser)
    case Refuse => FailedRow(r, PermissionDenied)
    case Grant(_, edit) =>
      var r' := if edit.Some? then r.(call := edit.value) else r;
      r'.(status := Ready, availableAt := None, error := None, stay := r.stay + 1)
    case Decline(_) => FailedRow(r, PermissionDenied)
    case Lapse(_) => FailedRow(r, PermissionDenied)
    case Claim(w) => r.(status := Running, lease := Some(Lease(w, s.now + r.spec.timeout)), attempts := r.attempts + 1)
    case Heartbeat(w) => r.(lease := Some(Lease(w, s.now + r.spec.timeout)))
    case Reap =>
      if r.status.Running? && r.attempts >= r.spec.maxRetries then FailedRow(r, TimedOut)
      else r.(status := Ready, lease := None, stay := if r.status.Running? then r.stay + 1 else r.stay)
    case Finish(_, e) => FinishRow(s, r, e)
    case Compensate => r.(status := RolledBack)
  }

  // ------------------------------------------------------- the rest of one move

  function MoveApprovals(s: State, a: Id, m: Move): seq<Approval>
    requires MoveOk(s, a, m)
  {
    match m
    case Enqueue(_, ap) =>
      if ap.Some? then s.approvals[ap.value := s.approvals[ap.value].(consumedAt := Some(s.now))] else s.approvals
    case Ask =>
      if HasPending(s, a) then s.approvals
      else
        var r := s.actions[a];
        s.approvals + [Approval(a, r.call.level, r.call.parameters, Pending, s.now + s.cfg.approvalTtl, None)]
    case Grant(ap, edit) =>
      var p := s.approvals[ap];
      s.approvals[ap := if edit.Some? then p.(status := Modified, digest := edit.value.parameters)
                        else p.(status := Approved)]
    case Decline(ap) => s.approvals[ap := s.approvals[ap].(status := Rejected)]
    case Lapse(ap) => s.approvals[ap := s.approvals[ap].(status := Expired)]
    case _ => s.approvals
  }

  predicate Executes(s: State, a: Id, m: Move)
    requires IsAction(s, a)
  {
    m.Finish? && m.ending.Executed? && NonIdempotent(s, s.actions[a])
  }

  function ClaimOf(a: Id, r: Action): Claimed {
    Claimed(a, r.stay, r.call.level, r.call.parameters, r.status.Dispatched?)
  }

  function MoveLog(s: State, a: Id, m: Move): Log
    requires MoveOk(s, a, m)
  {
    var r := s.actions[a];
    match m
    case Enqueue(d, ap) =>
      s.log.(dispatches := s.log.dispatches + [Dispatch(a, r.stay, r.call.level, r.call.parameters, d, ap, s.now)])
    case Claim(_) => s.log.(claims := s.log.claims + [ClaimOf(a, r)])
    case Finish(_, e) =>
      s.log.(executed := if Executes(s, a, m) then s.log.executed + [r.call.key] else s.log.executed,
             succeeded := if FinishRow(s, r, e).status.Succeeded? then s.log.succeeded + [a] else s.log.succeeded)
    case _ => s.log
  }

  /** A grant resumes a waiting task; a refusal fails it once nothing is left to do. */
  function MoveTask(s: State, actions: seq<Action>, m: Move): Task {
    if !s.task.status.TaskWaiting? then s.task
    else
      match m
      case Grant(_, _) => s.task.(status := TaskRunning)
      case Decline(_) => if AllTerminal(actions) then s.task.(status := TaskFailed) else s.task
      case Lapse(_) => if AllTerminal(actions) then s.task.(status := TaskFailed) else s.task
      case _ => s.task
  }

  function ApplyMove(s: State, a: Id, m: Move): State
    requires MoveOk(s, a, m)
  {
    var actions := s.actions[a := MoveRow(s, a, m)];
    s.(actions := actions,
       approvals := MoveApprovals(s, a, m),
       task := MoveTask(s, actions, m),
       ledger := if Executes(s, a, m) then s.ledger + {s.actions[a].call.key} else s.ledger,
       outbox := if m.Enqueue? then s.outbox + multiset{a} else s.outbox,
       busy := if m.Claim? then s.busy[m.worker := a] else if m.Finish? then s.busy - {m.worker} else s.busy,
       log := MoveLog(s, a, m))
  }

  // ------------------------------------------------------------------ task steps

  function DependencyGraph(actions: seq<Action>): Graph<Id> {
    map i: int | 0 <= i < |actions| :: actions[i].spec.dependsOn
  }

  function EntriesAt(rows: seq<Action>, base: nat, i: Id): seq<Id> {
    if 0 <= i - base < |rows| then rows[i - base].spec.dependsOn else []
  }

  /** The edges among rows appended at position `base`. */
  function BlockGraph(rows: seq<Action>, base: nat): Graph<Id> {
    map i: int | base <= i < base + |rows| :: EntriesAt(rows, base, i)
  }

  predicate FreshRow(r: Action, ceiling: Capability) {
    && r.status.Planned? && r.attempts == 0 && r.lease.None? && r.availableAt.None?
    && !r.result && r.checks == [] && r.error.None? && r.stay == 0 && r.cause.None?
    && r.call.level <= ceiling
  }

  /** Rows as `_materialize` writes them: untouched, within the ceiling, and
      depending only on each other without a cycle. */
  ghost predicate FreshPlan(rows: seq<Action>, base: nat, ceiling: Capability) {
    && rows != []
    && (forall i | 0 <= i < |rows| :: FreshRow(rows[i], ceiling))
    && Closed(BlockGraph(rows, base)) && Orderable(BlockGraph(rows, base))
  }

  predicate CancelNow(status: ActionStatus) {
    status.Planned? || status.Ready? || status.Dispatched? || status.WaitingForUser?
  }

  function CancelRow(r: Action): Action {
    if CancelNow(r.status) then r.(status := Cancelled, lease := None, cause := Some(ByTask)) else r
  }

  function CancelRows(actions: seq<Action>): (r: seq<Action>)
    ensures |r| == |actions| && forall i | 0 <= i < |actions| :: r[i] == CancelRow(actions[i])
  {
    seq(|actions|, i requires 0 <= i < |actions| => CancelRow(actions[i]))
  }

  predicate Replannable(r: Action) {
    r.status.Failed? && r.error != Some(VerificationFailed) && r.error != Some(PermissionDenied)
  }

  /** `failed[0]` of `try_replan`; the query fixes no order, so it may be any failed row. */
  predicate IsFailed(actions: seq<Action>, f: Id) {
    0 <= f < |actions| && actions[f].status.Failed?
  }

  predicate Tolerated(r: Action) {
    r.status.Unverified? ==> r.spec.tolerates
  }

  /** All rows terminal in a RUNNING task: the entry of `_complete_if_done`. */
  predicate Settled(s: State) {
    s.task.status.TaskRunning? && s.actions != [] && AllTerminal(s.actions)
  }

  ghost predicate Enabled(s: State, step: Step) {
    match step
    case Act(a, m) => MoveOk(s, a, m)
    case LapseOnly(ap) =>
      && IsApproval(s, ap) && s.approvals[ap].status.Pending? && s.approvals[ap].expiresAt <= s.now
      && !(IsAction(s, s.approvals[ap].action) && s.actions[s.approvals[ap].action].status.WaitingForUser?)
    case Install(rows, _) => s.task.status.TaskCreated? && s.actions == [] && FreshPlan(rows, 0, s.cfg.ceiling)
    case RejectPlan => s.task.status.TaskCreated?
    case Replan(f, rows) =>
      && Settled(s) && s.task.replanCount < s.cfg.maxReplans
      && IsFailed(s.actions, f) && Replannable(s.actions[f]) && FreshPlan(rows, |s.actions|, s.cfg.ceiling)
    case StartTask =>
      && s.task.status.TaskReady?
      && exists i | 0 <= i < |s.actions| :: !s.actions[i].status.Planned? && !s.actions[i].status.Ready?
    case ResumeTask => s.task.status.TaskWaiting? && s.actions != [] && !AnyStatus(s.actions, WaitingForUser)
    case BlockTask =>
      && s.task.status.TaskRunning? && !AllTerminal(s.actions)
      && forall i | 0 <= i < |s.actions| :: s.actions[i].status.Terminal() || s.actions[i].status.WaitingForUser?
    case ExpireTask => Live(s) && s.cfg.deadline.Some? && s.now >= s.cfg.deadline.value
    case FailTask =>
      Settled(s) &&
      if AnyStatus(s.actions, Failed) then s.task.replanCount < s.cfg.maxReplans
      else exists i | 0 <= i < |s.actions| :: !Tolerated(s.actions[i])
    case NeedHuman => Settled(s) && AnyStatus(s.actions, Failed) && s.task.replanCount >= s.cfg.maxReplans
    case SucceedTask =>
      Settled(s) && !AnyStatus(s.actions, Failed) && forall i | 0 <= i < |s.actions| :: Tolerated(s.actions[i])
    case ReplyTask => s.task.status.TaskNeedsHuman?
    case CancelTask => !s.task.status.Terminal()
    case Publish(a) => a in s.outbox
    case Republish(a) => IsAction(s, a) && s.actions[a].status.Dispatched? && s.actions[a].lease.None?
    case DropOutbox => true
    case LoseMessage(a) => a in s.stream
    case DuplicateMessage(a) => a in s.stream
    case WorkerDies(w) => w in s.busy
    case Advance(to) => to >= s.now
  }

  function TaskStatusAfter(step: Step): TaskStatus {
    match step
    case Install(_, activate) => if activate then TaskReady else TaskPlanning
    case RejectPlan => TaskFailed
    case StartTask => TaskRunning
    case ResumeTask => TaskRunning
    case BlockTask => TaskWaiting
    case ExpireTask => TaskFailed
    case FailTask => TaskFailed
    case NeedHuman => TaskNeedsHuman
    case SucceedTask => TaskSucceeded
    case ReplyTask => TaskRunning
    case _ => TaskCancelled
  }

  ghost function Apply(s: State, step: Step): State
    requires Enabled(s, step)
  {
    match step
    case Act(a, m) => ApplyMove(s, a, m)
    case LapseOnly(ap) => s.(approvals := s.approvals[ap := s.approvals[ap].(status := Expired)])
    case Install(rows, _) => s.(task := s.task.(status := TaskStatusAfter(step)), actions := rows)
    case Replan(f, rows) =>
      s.(task := s.task.(replanCount := s.task.replanCount + 1),
         actions := s.actions[f := s.actions[f].(status := Cancelled, cause := Some(ByReplan))] + rows)
    case CancelTask => s.(task := s.task.(status := TaskCancelled), actions := CancelRows(s.actions))
    case Publish(a) => s.(outbox := s.outbox - multiset{a}, stream := s.stream + multiset{a})
    case Republish(a) => s.(stream := s.stream + multiset{a})
    case DropOutbox => s.(outbox := multiset{})
    case LoseMessage(a) => s.(stream := s.stream - multiset{a})
    case DuplicateMessage(a) => s.(stream := s.stream + multiset{a})
    case WorkerDies(w) => s.(busy := s.busy - {w})
    case Advance(to) => s.(now := to)
    case _ => s.(task := s.task.(status := TaskStatusAfter(step)))
  }

  /** The steps, each enabled where it is taken, lead from s to t. */
  ghost predicate Run(s: State, steps: seq<Step>, t: State)
    decreases |steps|
  {
    if steps == [] then t == s
    else Enabled(s, steps[0]) && Run(Apply(s, steps[0]), steps[1..], t)
  }

  ghost predicate Initial(s: State) {
    && s.task == Task(TaskCreated, 0) && s.actions == [] && s.approvals == []
    && s.outbox == multiset{} && s.stream == multiset{} && s.busy == map[]
    && s.log == Log([], [], [], [])
  }

  ghost predicate Reachable(t: State) {
    exists s, steps :: Initial(s) && Run(s, steps, t)
  }

  /** Only three steps besides a row's own move write rows, and none of them writes the log. */
  predicate WritesRows(step: Step) {
    step.Install? || step.Replan? || step.CancelTask?
  }

  lemma OtherStepFrame(s: State, step: Step)
    requires Enabled(s, step) && !step.Act?
    ensures Apply(s, step).log == s.log
    ensures !WritesRows(step) ==> Apply(s, step).actions == s.actions
  {
    hide Live, Settled, AllTerminal, AnyStatus, FreshPlan, Tolerated;
  }

  lemma {:induction false} RunConcat(s: State, xs: seq<Step>, t: State, ys: seq<Step>, u: State)
    requires Run(s, xs, t) && Run(t, ys, u)
    ensures Run(s, xs + ys, u)
    decreases |xs|
  {
    hide Enabled, Apply;
    if xs == [] {
      assert xs + ys == ys;
    } else {
      var next := Apply(s, xs[0]);
      assert (xs + ys)[0] == xs[0] && (xs + ys)[1..] == xs[1..] + ys;
      RunConcat(next, xs[1..], t, ys, u);
    }
  }

  lemma RunSnoc(s: State, xs: seq<Step>, t: State, step: Step)
    requires Run(s, xs, t) && Enabled(t, step)
    ensures Run(s, xs + [step], Apply(t, step))
  {
    hide Enabled, Apply;
    assert [step][1..] == [];
    assert Run(t, [step], Apply(t, step));
    RunConcat(s, xs, t, [step], Apply(t, step));
  }

  lemma RunNothing(s: State)
    ensures Run(s, [], s)
  {
  }

  lemma RunAct(s: State, xs: seq<Step>, t: State, a: Id, m: Move, u: State)
    requires Run(s, xs, t) && MoveOk(t, a, m) && u == ApplyMove(t, a, m)
    ensures Run(s, xs + [Act(a, m)], u)
  {
    hide Run, ApplyMove, MoveOk;
    RunSnoc(s, xs, t, Act(a, m));
  }
}

/** One attempt of a worker: claim, execute, verify, persist
    (vyomel/runtime/worker.py). The claim commits on its own, so any other step
    may come between `Claim` and `Execute`. */
module Worker {
  import opened Wrappers
  import opened Lifecycle
  import opened Verify
  import opened Model
  import opened Repos

  /** How the awaited tool call comes back. */
  datatype CallOutcome =
    | Overran
    | Interrupted
    | Raised(code: ErrorCode, retryable: bool)
    | Blew
    | Output(observed: seq<Outcome>)

  /** Everything the attempt meets outside the database: whether the parameters
      still validate, the preflight, the call, the two cancellation tokens, and the
      jittered backoff. */
  datatype Attempt = Attempt(valid: bool, preflight: bool, outcome: CallOutcome, signalled: bool, stopping: bool,
                             delay: nat)

  function CauseNow(s: State): Cause {
    if s.task.status.TaskCancelled? then ByTask else ByShutdown
  }

  /** How a call is taken; None is a cancellation nobody asked for, which is re-raised. */
  function ExecutionOf(s: State, at: Attempt): Option<Execution> {
    match at.outcome
    case Overran => Some(RanOut)
    case Interrupted => if at.signalled || at.stopping then Some(Stopped(CauseNow(s))) else None
    case Raised(code, retryable) => Some(if at.signalled then Stopped(CauseNow(s)) else ToolFailed(code, retryable))
    case Blew => Some(Crashed)
    case Output(observed) => Some(Returned(observed))
  }

  /** The first obstacle decides. */
  function EndingOf(s: State, r: Action, at: Attempt): Option<Ending> {
    if r.spec.tool !in s.cfg.registry then Some(UnknownTool)
    else if !at.valid then Some(BadParameters)
    else if !at.preflight then Some(PreflightRefused)
    else if NonIdempotent(s, r) && r.call.key in s.ledger then Some(AlreadyReserved)
    else
      match ExecutionOf(s, at)
      case None => None
      case Some(x) => Some(Executed(x, at.delay))
  }

  // ------------------------------------------------- what an attempt makes of its row

  /** FAILED under this code, with the lease given up and nothing else changed. */
  predicate FailsWith(r: Action, r': Action, code: ErrorCode) {
    r' == r.(status := Failed, lease := None, error := Some(code))
  }

  /** The first thing in the way of the call, as the row and the attempt have it. */
  ghost predicate TurnedBack(s: State, r: Action, at: Attempt, r': Action) {
    if r.spec.tool !in s.cfg.registry then FailsWith(r, r', Unsupported)
    else if !at.valid then FailsWith(r, r', InvalidParameters)
    else if !at.preflight then FailsWith(r, r', PreconditionFailed)
    else !r.result ==> FailsWith(r, r', Model.Conflict)
  }

  /** Nothing stands in the way: the tool is known, the parameters validate, the preflight
      passes, and a tool that may not be repeated has its key still free. */
  predicate ReachesCall(s: State, r: Action, at: Attempt) {
    && r.spec.tool in s.cfg.registry && at.valid && at.preflight
    && (s.cfg.registry[r.spec.tool].idempotent || r.call.key !in s.ledger)
  }

  /** How a call that was made ends its row, read off the attempt. */
  ghost predicate CallEnds(s: State, r: Action, at: Attempt, r': Action) {
    // Retried: on a timeout or a retryable error nobody cancelled, while attempts last.
    && (r'.status.Ready? <==>
          && r.attempts < r.spec.maxRetries
          && (at.outcome.Overran? || (at.outcome.Raised? && at.outcome.retryable && !at.signalled)))
    && (r'.status.Ready? ==>
          && r'.lease.None? && r'.availableAt == Some(s.now + at.delay) && r'.stay == r.stay + 1
          && r'.error == Some(if at.outcome.Overran? then TimedOut else at.outcome.code)
          && r'.attempts == r.attempts && r'.spec == r.spec && r'.call == r.call)
    // Failed: any other timeout, error or crash, under its own code.
    && (at.outcome.Overran? && !r'.status.Ready? ==> FailsWith(r, r', TimedOut))
    && (at.outcome.Raised? && !at.signalled && !r'.status.Ready? ==> FailsWith(r, r', at.outcome.code))
    && (at.outcome.Blew? ==> FailsWith(r, r', Internal))
    // Cancelled: an interruption or an error under a cancellation, of the task or of the worker.
    && (r'.status.Cancelled? <==>
          (at.outcome.Raised? && at.signalled) || (at.outcome.Interrupted? && (at.signalled || at.stopping)))
    && (r'.status.Cancelled? ==> r'.lease.None? && r' == r.(status := Cancelled, lease := None, cause := r'.cause))
    && (at.outcome.Interrupted? && !at.signalled && !at.stopping ==> r' == r)
    // Verified: by what the declared postconditions observed.
    && (at.outcome.Output? ==> Judged(r, at.outcome.observed, r'))
  }

  /** A result is SUCCEEDED when every postcondition was observed to hold, and without any
      below L2; FAILED when one was observed not to; UNVERIFIED otherwise. It is stored in
      each case. */
  ghost predicate Judged(r: Action, observed: seq<Outcome>, r': Action) {
    && (r'.status.Failed? <==> Fail in observed)
    && (r'.status.Succeeded? <==>
          if observed == [] then r.call.level < 2 else forall o <- observed :: o == Pass)
    && (r'.status.Failed? || r'.status.Succeeded? || r'.status.Unverified?)
    && r'.result && r'.lease.None? && (r'.status.Failed? ==> r'.error == Some(VerificationFailed))
    && (r'.status.Succeeded? ==> r'.error == None) && (r'.status.Unverified? ==> r'.error == r.error)
    && |r'.checks| == (if observed == [] then 1 else |observed|)
    && (forall i | 0 <= i < |observed| :: r'.checks[i] == Check(observed[i], true))
    && r' == r.(status := r'.status, result := true, checks := r'.checks, lease := None, error := r'.error)
  }

  lemma VerdictIsJudged(s: State, r: Action, observed: seq<Outcome>)
    ensures Judged(r, observed, FinishRow(s, r, Executed(Returned(observed), 0)))
  {
    var checks := Declared(observed);
    forall o: Outcome ensures AnyOutcome(checks, o) <==> o in observed {
      if AnyOutcome(checks, o) {
        var i :| 0 <= i < |checks| && checks[i].outcome == o;
        assert observed[i] == o;
      }
      if o in observed {
        var i :| 0 <= i < |observed| && observed[i] == o;
        assert checks[i].outcome == o;
      }
    }
    assert forall o <- observed :: o == Pass || o == Fail || o == NoMethod;
  }

  lemma AttemptMeans(s: State, r: Action, at: Attempt)
    requires r.status.Running?
    ensures var r' := if EndingOf(s, r, at).Some? then FinishRow(s, r, EndingOf(s, r, at).value) else r;
            if ReachesCall(s, r, at) then CallEnds(s, r, at, r') else TurnedBack(s, r, at, r')
  {
    if ReachesCall(s, r, at) && at.outcome.Output? {
      hide VerifyResult;
      VerdictIsJudged(s, r, at.outcome.observed);
    }
  }

  lemma ReservationMeans(s: State, r: Action, at: Attempt)
    ensures EndingOf(s, r, at).Some? ==>
              (EndingOf(s, r, at).value.Executed? && NonIdempotent(s, r) <==>
               ReachesCall(s, r, at) && !s.cfg.registry[r.spec.tool].idempotent)
  {
  }

  /** The claim's own transaction. */
  method Claim(db: Store, worker: WorkerId, a: Id) returns (claimed: bool)
    requires a in db.stream && worker !in db.busy
    modifies db`actions, db`busy, db`log
    ensures claimed <==> MoveOk(old(db.Snap()), a, Model.Claim(worker))
    ensures db.Snap() == if claimed then ApplyMove(old(db.Snap()), a, Model.Claim(worker)) else old(db.Snap())
    ensures claimed <==>
              0 <= a < |old(db.actions)| && (old(db.actions)[a].status.Ready? || old(db.actions)[a].status.Dispatched?)
    ensures claimed ==>
              var r := old(db.actions)[a];
              db.actions == old(db.actions)[a := r.(status := Running, attempts := r.attempts + 1,
                                                    lease := Some(Lease(worker, db.now + r.spec.timeout)))]
  {
    if !(0 <= a < |db.actions|) { return false; }
    var timeout := db.actions[a].spec.timeout;
    ghost var r := db.actions[a];
    claimed := db.CasClaim(a, worker, db.now + timeout);
    if claimed {
      db.busy := db.busy[worker := a];
      db.log := db.log.(claims := db.log.claims + [ClaimOf(a, r)]);
    }
  }

  /** The attempt a worker is about to execute. Its row may have left RUNNING since the
      claim; if it has not, the lease is still this worker's. */
  ghost predicate Attempts(s: State, worker: WorkerId, a: Id) {
    && worker in s.busy && s.busy[worker] == a && IsAction(s, a)
    && (s.actions[a].status.Running? ==> s.actions[a].lease.Some? && s.actions[a].lease.value.owner == worker)
  }

  ghost predicate Holds(s: State, worker: WorkerId, a: Id) {
    && worker in s.busy && s.busy[worker] == a && IsAction(s, a)
    && s.actions[a].status.Running? && s.actions[a].lease.Some? && s.actions[a].lease.value.owner == worker
  }

  method FinishFailed(db: Store, a: Id, code: ErrorCode)
    requires IsAction(db.Snap(), a) && db.actions[a].status.Running?
    modifies db`actions
    ensures db.actions == old(db.actions)[a := FailedRow(old(db.actions)[a], code)]
  {
    var _ := db.CasStatus(a, Running, FailedRow(db.actions[a], code));
  }

  /** `_retry_or_fail`. */
  method RetryOrFinish(db: Store, a: Id, code: ErrorCode, retryable: bool, delay: nat)
    requires IsAction(db.Snap(), a) && db.actions[a].status.Running?
    modifies db`actions
    ensures db.actions == old(db.actions)[a := RetryOrFail(old(db.actions)[a], db.now, code, retryable, delay)]
  {
    var r := db.actions[a];
    if retryable && r.attempts < r.spec.maxRetries {
      var _ := db.CasStatus(a, Running,
        r.(status := Ready, lease := None, error := Some(code), availableAt := Some(db.now + delay),
           stay := r.stay + 1));
    } else {
      FinishFailed(db, a, code);
    }
  }

  method FinishCancelled(db: Store, a: Id)
    requires IsAction(db.Snap(), a) && db.actions[a].status.Running?
    modifies db`actions
    ensures db.actions == old(db.actions)[a := old(db.actions)[a].(status := Cancelled, lease := None,
            cause := Some(CauseNow(old(db.Snap()))))]
  {
    var cause := if db.task.status.TaskCancelled? then ByTask else ByShutdown;
    var _ := db.CasStatus(a, Running, db.actions[a].(status := Cancelled, lease := None, cause := Some(cause)));
  }

  /** Verify what came back and store the outcome. */
  method FinishVerified(db: Store, a: Id, observed: seq<Outcome>)
    requires IsAction(db.Snap(), a) && db.actions[a].status.Running?
    modifies db`actions
    ensures db.actions == old(db.actions)[a := FinishRow(old(db.Snap()), old(db.actions)[a],
            Executed(Returned(observed), 0))]
  {
    var r := db.actions[a];
    var report := VerifyResult(r.call.level, observed);
    var stored := r.(result := true, checks := report.checks, lease := None);
    match report.outcome {
      case Pass => var _ := db.CasStatus(a, Running, stored.(status := Succeeded, error := None));
      case NoMethod => var _ := db.CasStatus(a, Running, stored.(status := Unverified));
      case Fail => var _ := db.CasStatus(a, Running, stored.(status := Failed, error := Some(VerificationFailed)));
    }
  }

  /** The call and what is made of it; false re-raises. */
  method Call(db: Store, a: Id, at: Attempt) returns (ended: bool)
    requires IsAction(db.Snap(), a) && db.actions[a].status.Running?
    modifies db`actions
    ensures ended <==> ExecutionOf(old(db.Snap()), at).Some?
    ensures db.actions == if ended then old(db.actions)[a := FinishRow(old(db.Snap()), old(db.actions)[a],
            Executed(ExecutionOf(old(db.Snap()), at).value, at.delay))]
                          else old(db.actions)
  {
    match at.outcome {
      case Overran => RetryOrFinish(db, a, TimedOut, true, at.delay);
      case Interrupted =>
        if at.signalled || at.stopping { FinishCancelled(db, a); }
        else { return false; }
      case Raised(code, retryable) =>
        if at.signalled { FinishCancelled(db, a); }
        else { RetryOrFinish(db, a, code, retryable, at.delay); }
      case Blew => FinishFailed(db, a, Internal);
      case Output(observed) => FinishVerified(db, a, observed);
    }
    return true;
  }

  /** `_run_claimed` up to its commit. False leaves the rollback to the caller. */
  method RunClaimed(db: Store, a: Id, at: Attempt) returns (ended: bool)
    requires IsAction(db.Snap(), a) && db.actions[a].status.Running?
    modifies db`actions, db`ledger
    ensures ended <==> EndingOf(old(db.Snap()), old(db.actions)[a], at).Some?
    ensures ended ==>
              var r := old(db.actions)[a];
              var e := EndingOf(old(db.Snap()), r, at).value;
              && db.actions == old(db.actions)[a := FinishRow(old(db.Snap()), r, e)]
              && db.ledger == if e.Executed? && NonIdempotent(old(db.Snap()), r) then old(db.ledger) + {r.call.key}
                 else old(db.ledger)
  {
    var r := db.actions[a];
    if r.spec.tool !in db.cfg.registry {
      FinishFailed(db, a, Unsupported);
      return true;
    }
    if !at.valid {
      FinishFailed(db, a, InvalidParameters);
      return true;
    }
    if !at.preflight {
      FinishFailed(db, a, PreconditionFailed);
      return true;
    }
    if !db.cfg.registry[r.spec.tool].idempotent {
      var reserved := db.InsertLedger(r.call.key);
      if !reserved {
        assert db.ledger == old(db.ledger);
        if r.result {
          var _ := db.CasStatus(a, Running, r.(status := Succeeded));
        } else {
          FinishFailed(db, a, Model.Conflict);
        }
        return true;
      }
    }
    ghost var s := db.Snap();
    SameExecution(old(db.Snap()), s, at, r);
    ended := Call(db, a, at);
  }

  lemma SameExecution(s: State, t: State, at: Attempt, r: Action)
    requires t == s.(ledger := t.ledger)
    ensures ExecutionOf(s, at) == ExecutionOf(t, at)
    ensures forall e :: FinishRow(s, r, e) == FinishRow(t, r, e)
  {
  }

  /** `_execute` past its first check: the attempt commits the ending its obstacles
      dictate, side-effect reservation included, or rolls everything back and leaves the
      row to the reaper. */
  method ExecuteRunning(db: Store, worker: WorkerId, a: Id, at: Attempt) returns (ended: bool, ghost step: Step)
    requires Holds(db.Snap(), worker, a) && at.delay <= BACKOFF_CAP
    modifies db`actions, db`ledger, db`busy, db`log
    ensures Enabled(old(db.Snap()), step) && db.Snap() == Apply(old(db.Snap()), step)
    ensures old(db.task).status.TaskCancelled? ==> ended && step == Act(a, Finish(worker, CancelSeen))
    ensures !old(db.task).status.TaskCancelled? ==>
              var e := EndingOf(old(db.Snap()), old(db.actions)[a], at);
              (ended <==> e.Some?) && step == (if e.Some? then Act(a, Finish(worker, e.value)) else WorkerDies(worker))
  {
    ghost var s := db.Snap();
    var actions, ledger := db.actions, db.ledger;
    if db.task.status.TaskCancelled? {
      FinishCancelled(db, a);
      step := Act(a, Finish(worker, CancelSeen));
      db.busy := db.busy - {worker};
      return true, step;
    }
    ghost var e := EndingOf(s, s.actions[a], at);
    ended := RunClaimed(db, a, at);
    db.busy := db.busy - {worker};
    if ended {
      EndingHolds(s, worker, a, at);
      step := Act(a, Finish(worker, e.value));
      db.log := MoveLog(s, a, Finish(worker, e.value));
    } else {
      db.actions, db.ledger := actions, ledger;
      step := WorkerDies(worker);
    }
  }

  /** `_execute`: one attempt. A row that is no longer RUNNING is left alone. */
  method Execute(db: Store, worker: WorkerId, a: Id, at: Attempt) returns (ended: bool, ghost step: Step)
    requires Attempts(db.Snap(), worker, a) && at.delay <= BACKOFF_CAP
    modifies db`actions, db`ledger, db`busy, db`log
    ensures Enabled(old(db.Snap()), step) && db.Snap() == Apply(old(db.Snap()), step)
    ensures !old(db.actions)[a].status.Running? ==> !ended && step == WorkerDies(worker)
    ensures old(db.actions)[a].status.Running? && old(db.task).status.TaskCancelled? ==>
              ended && step == Act(a, Finish(worker, CancelSeen))
    ensures old(db.actions)[a].status.Running? && !old(db.task).status.TaskCancelled? ==>
              var e := EndingOf(old(db.Snap()), old(db.actions)[a], at);
              (ended <==> e.Some?) && step == (if e.Some? then Act(a, Finish(worker, e.value)) else WorkerDies(worker))
    ensures AttemptLeaves(old(db.Snap()), a, at, ended, db.actions, db.ledger)
  {
    ghost var s := db.Snap();
    if db.actions[a].status.Running? {
      hide EndingOf, AttemptLeaves, ApplyMove, MoveOk;
      ended, step := ExecuteRunning(db, worker, a, at);
      RunningLeaves(s, worker, a, at, ended, step, db.Snap());
    } else {
      db.busy := db.busy - {worker};
      ended, step := false, WorkerDies(worker);
    }
  }

  /** What an attempt leaves behind: of every row but its own nothing changes, its own ends
      by what the attempt met, and the key of a tool that may not be repeated is reserved by
      a call that commits. */
  ghost predicate AttemptLeaves(s: State, a: Id, at: Attempt, ended: bool, rows: seq<Action>, ledger: set<Key>)
    requires IsAction(s, a)
  {
    var r := s.actions[a];
    && |rows| == |s.actions| && rows == s.actions[a := rows[a]]
    && (if !r.status.Running? then rows[a] == r
        else if s.task.status.TaskCancelled? then
          rows[a] == r.(status := Cancelled, lease := None, cause := Some(ByTask))
        else if ReachesCall(s, r, at) then CallEnds(s, r, at, rows[a])
        else TurnedBack(s, r, at, rows[a]))
    && ledger == s.ledger + if r.status.Running? && !s.task.status.TaskCancelled? && ReachesCall(s, r, at) && ended
                               && !s.cfg.registry[r.spec.tool].idempotent then {r.call.key} else {}
  }

  lemma RunningLeaves(s: State, worker: WorkerId, a: Id, at: Attempt, ended: bool, step: Step, t: State)
    requires Holds(s, worker, a) && Enabled(s, step) && t == Apply(s, step)
    requires s.task.status.TaskCancelled? ==> ended && step == Act(a, Finish(worker, CancelSeen))
    requires !s.task.status.TaskCancelled? ==>
               var e := EndingOf(s, s.actions[a], at);
               (ended <==> e.Some?) && step == (if e.Some? then Act(a, Finish(worker, e.value)) else WorkerDies(worker))
    ensures AttemptLeaves(s, a, at, ended, t.actions, t.ledger)
  {
    hide CallEnds, TurnedBack, ReachesCall, EndingOf, EndingOk, MoveTask, MoveLog, MoveApprovals;
    AttemptMeans(s, s.actions[a], at);
    ReservationMeans(s, s.actions[a], at);
    if s.task.status.TaskCancelled? { SeenIsCancelled(s, s.actions[a]); } else { hide FinishRow; }
  }

  lemma SeenIsCancelled(s: State, r: Action)
    ensures FinishRow(s, r, CancelSeen) == r.(status := Cancelled, lease := None, cause := Some(ByTask))
  {
  }

  lemma EndingHolds(s: State, worker: WorkerId, a: Id, at: Attempt)
    requires Holds(s, worker, a) && at.delay <= BACKOFF_CAP && EndingOf(s, s.actions[a], at).Some?
    ensures MoveOk(s, a, Finish(worker, EndingOf(s, s.actions[a], at).value))
  {
  }

  /** Nothing an attempt meets can make a retry unbounded, a failed check a success,
      or a reserved key run again: stated over every possible attempt. */
  lemma EndingsAreSafe(s: State, r: Action, at: Attempt)
    requires r.status.Running? && EndingOf(s, r, at).Some?
    ensures var e := EndingOf(s, r, at).value;
            var r' := FinishRow(s, r, e);
            && (r'.status.Ready? ==> r.attempts < r.spec.maxRetries && at.valid && at.preflight)
            && (NonIdempotent(s, r) && r.call.key in s.ledger && !r.result ==> r'.status.Failed?)
            && (e.Executed? && NonIdempotent(s, r) ==> r.call.key !in s.ledger)
            && (r'.status.Succeeded? && !r.result ==> at.outcome.Output? && Proven(r.call.level, r'.checks))
  {
    var e := EndingOf(s, r, at).value;
    if e.Executed? && e.execution.Returned? { PassMeansProven(r.call.level, e.execution.observed); }
  }
}

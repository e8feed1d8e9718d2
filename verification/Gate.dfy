/** The gate between READY and DISPATCHED, and the decisions a human records on
    its questions (vyomel/runtime/gate.py, vyomel/orchestrator/approvals.py). */
module Gate {
  import opened Wrappers
  import opened Lifecycle
  import opened Policy
  import opened Model
  import opened Repos

  datatype Verdict = Allowed(decision: Decision, approval: Option<Id>) | Asked | Refused

  function MoveOf(v: Verdict): Move {
    match v
    case Allowed(d, ap) => Enqueue(d, ap)
    case Asked => Ask
    case Refused => Refuse
  }

  /** `_fail_ready_action`. */
  method FailReadyAction(db: Store, a: Id)
    requires MoveOk(db.Snap(), a, Refuse)
    modifies db`actions
    ensures db.Snap() == ApplyMove(old(db.Snap()), a, Refuse)
  {
    var _ := db.CasStatus(a, Ready, FailedRow(db.actions[a], PermissionDenied));
  }

  /** The newest approval that can be spent on the row is marked consumed, and nothing else. */
  ghost predicate SpendsNewest(before: seq<Approval>, after: seq<Approval>, a: Id, r: Action, now: Time, v: Verdict) {
    exists i | 0 <= i < |before| ::
      && v == Allowed(Confirm, Some(i)) && Spendable(before[i], a, r, now)
      && (forall j | i < j < |before| :: !Spendable(before[j], a, r, now))
      && after == before[i := before[i].(consumedAt := Some(now))]
  }

  /** One question is open: the one already asked, or a new one about exactly this call. */
  ghost predicate AsksOnce(before: seq<Approval>, after: seq<Approval>, a: Id, r: Action, now: Time, ttl: nat) {
    if exists i | 0 <= i < |before| :: before[i].action == a && before[i].status == Pending then after == before
    else after == before + [Approval(a, r.call.level, r.call.parameters, Pending, now + ttl, None)]
  }

  /** `_require_approval`: spend a covering approval, or ask and wait. */
  method RequireApproval(db: Store, a: Id) returns (v: Verdict)
    requires Live(db.Snap()) && IsAction(db.Snap(), a) && Due(db.Snap(), db.actions[a])
    requires db.actions[a].call.level <= db.cfg.ceiling && DecisionFor(db.Snap(), db.actions[a]) == Ok(Confirm)
    modifies db`actions, db`approvals
    ensures !v.Refused? && MoveOk(old(db.Snap()), a, MoveOf(v))
    ensures v.Allowed? ==> db.actions == old(db.actions) && db.approvals == MoveApprovals(old(db.Snap()), a, MoveOf(v))
    ensures v.Asked? ==> db.Snap() == ApplyMove(old(db.Snap()), a, Ask)
    ensures v.Allowed? <==> exists i | 0 <= i < |old(db.approvals)| ::
              Spendable(old(db.approvals)[i], a, old(db.actions)[a], db.now)
    ensures v.Allowed? ==> SpendsNewest(old(db.approvals), db.approvals, a, old(db.actions)[a], db.now, v)
    ensures v.Asked? ==> AsksOnce(old(db.approvals), db.approvals, a, old(db.actions)[a], db.now, db.cfg.approvalTtl)
    ensures v.Asked? ==> db.actions == old(db.actions)[a := old(db.actions)[a].(status := WaitingForUser)]
  {
    var r := db.actions[a];
    var usable := db.UsableFor(a);
    if usable.Some? {
      var i := usable.value;
      db.approvals := db.approvals[i := db.approvals[i].(consumedAt := Some(db.now))];
      return Allowed(Confirm, usable);
    }
    var existing := db.PendingFor(a);
    if existing.None? {
      var question := Approval(a, r.call.level, r.call.parameters, Pending, db.now + db.cfg.approvalTtl, None);
      db.approvals := db.approvals + [question];
    }
    var _ := db.CasStatus(a, Ready, r.(status := WaitingForUser));
    return Asked;
  }

  /** `check`: any verdict but an allowance has already moved the row out of READY.
      Err is the policy's refusal to auto-approve L4. */
  method Check(db: Store, a: Id) returns (r: Result<Verdict, Violation>)
    requires Live(db.Snap()) && IsAction(db.Snap(), a) && Due(db.Snap(), db.actions[a])
    modifies db`actions, db`approvals
    ensures r.Err? <==>
              old(db.actions)[a].call.level <= db.cfg.ceiling
              && DecisionFor(old(db.Snap()), old(db.actions)[a]).Err?
    ensures r.Err? ==> db.Snap() == old(db.Snap())
    ensures r.Ok? ==> MoveOk(old(db.Snap()), a, MoveOf(r.value))
    ensures r.Ok? && r.value.Allowed? ==>
              db.actions == old(db.actions) && db.approvals == MoveApprovals(old(db.Snap()), a, MoveOf(r.value))
    ensures r.Ok? && !r.value.Allowed? ==> db.Snap() == ApplyMove(old(db.Snap()), a, MoveOf(r.value))
    ensures r.Ok? ==>
              var row := old(db.actions)[a];
              var request := Request(row.spec.tool, row.call.level, row.call.parameters, db.cfg.workflow);
              var decided := Evaluate(db.cfg.policy, request, db.now / 86400);
              && (r.value.Refused? <==> row.call.level > db.cfg.ceiling || decided == Ok(Deny))
              && (r.value == Allowed(Allow, None) <==> row.call.level <= db.cfg.ceiling && decided == Ok(Allow))
              && (r.value.Asked? || (r.value.Allowed? && r.value.decision == Confirm) <==>
                    row.call.level <= db.cfg.ceiling && decided == Ok(Confirm))
    ensures r.Ok? && r.value.Refused? ==>
              db.approvals == old(db.approvals)
              && db.actions == old(db.actions)[a := old(db.actions)[a].(status := Failed, lease := None,
                                                                        error := Some(PermissionDenied))]
  {
    var row := db.actions[a];
    if row.call.level > db.cfg.ceiling {
      FailReadyAction(db, a);
      return Ok(Refused);
    }
    var request := Request(row.spec.tool, row.call.level, row.call.parameters, db.cfg.workflow);
    var decision := Evaluate(db.cfg.policy, request, db.now / 86400);
    if decision.Err? { return Err(decision.error); }
    match decision.value {
      case Deny =>
        FailReadyAction(db, a);
        return Ok(Refused);
      case Allow => return Ok(Allowed(Allow, None));
      case Confirm =>
        var v := RequireApproval(db, a);
        return Ok(v);
    }
  }

  // ------------------------------------------------------------ refusal and expiry

  /** `refuse`, after the approval itself has been closed with `status`. */
  method RefuseWaiting(db: Store, a: Id)
    requires IsAction(db.Snap(), a) && db.actions[a].status.WaitingForUser?
    modifies db`actions, db`task
    ensures db.actions == old(db.actions)[a := FailedRow(old(db.actions)[a], PermissionDenied)]
    ensures db.task == if old(db.task).status.TaskWaiting? && AllTerminal(db.actions)
                       then old(db.task).(status := TaskFailed) else old(db.task)
  {
    var _ := db.CasStatus(a, WaitingForUser, FailedRow(db.actions[a], PermissionDenied));
    if db.task.status.TaskWaiting? {
      if AllTerminal(db.actions) {
        db.task := db.task.(status := TaskFailed);
      }
    }
  }

  predicate IsOverdue(p: Approval, now: Time) {
    p.status.Pending? && p.expiresAt <= now
  }

  method ExpireOne(db: Store, ap: Id) returns (ghost step: Step)
    requires IsApproval(db.Snap(), ap) && IsOverdue(db.approvals[ap], db.now)
    modifies db`actions, db`approvals, db`task
    ensures Enabled(old(db.Snap()), step) && db.Snap() == Apply(old(db.Snap()), step)
    ensures step == LapseOnly(ap) || step == Act(old(db.approvals)[ap].action, Lapse(ap))
    ensures db.approvals == old(db.approvals)[ap := old(db.approvals)[ap].(status := Expired)]
    ensures |db.actions| == |old(db.actions)|
    ensures forall i | 0 <= i < |db.actions| ::
              db.actions[i] == if i == old(db.approvals)[ap].action && old(db.actions)[i].status.WaitingForUser?
                               then FailedRow(old(db.actions)[i], PermissionDenied) else old(db.actions)[i]
  {
    var p := db.approvals[ap];
    db.approvals := db.approvals[ap := p.(status := Expired)];
    if 0 <= p.action < |db.actions| && db.actions[p.action].status.WaitingForUser? {
      step := Act(p.action, Lapse(ap));
      RefuseWaiting(db, p.action);
    } else {
      step := LapseOnly(ap);
    }
  }

  ghost predicate AskedTooLong(approvals: seq<Approval>, a: Id, now: Time, n: int) {
    exists p | 0 <= p < n && p < |approvals| :: approvals[p].action == a && IsOverdue(approvals[p], now)
  }

  /** Questions before `k` are swept: the overdue ones closed, and the rows that waited
      on one failed. */
  ghost predicate Swept(s: State, t: State, k: int) {
    && |t.approvals| == |s.approvals| && |t.actions| == |s.actions| && t.now == s.now
    && (forall p | 0 <= p < |t.approvals| ::
          t.approvals[p] == if p < k && IsOverdue(s.approvals[p], s.now)
                            then s.approvals[p].(status := Expired) else s.approvals[p])
    && (forall i | 0 <= i < |t.actions| ::
          t.actions[i] == if s.actions[i].status.WaitingForUser? && AskedTooLong(s.approvals, i, s.now, k)
                          then FailedRow(s.actions[i], PermissionDenied) else s.actions[i])
  }

  lemma AskedNext(s: State, k: nat, i: Id)
    requires k < |s.approvals|
    ensures AskedTooLong(s.approvals, i, s.now, k + 1) <==>
            AskedTooLong(s.approvals, i, s.now, k) || (s.approvals[k].action == i && IsOverdue(s.approvals[k], s.now))
  {
  }

  lemma SweptNext(s: State, t: State, k: nat, u: State)
    requires k < |s.approvals| && Swept(s, t, k) && u.now == t.now
    requires IsOverdue(t.approvals[k], t.now) ==>
               && u.approvals == t.approvals[k := t.approvals[k].(status := Expired)] && |u.actions| == |t.actions|
               && forall i | 0 <= i < |u.actions| ::
                    u.actions[i] == if i == t.approvals[k].action && t.actions[i].status.WaitingForUser?
                                    then FailedRow(t.actions[i], PermissionDenied) else t.actions[i]
    requires !IsOverdue(t.approvals[k], t.now) ==> u == t
    ensures Swept(s, u, k + 1)
  {
    hide AskedTooLong;
    forall i | 0 <= i < |u.actions|
      ensures u.actions[i] == if s.actions[i].status.WaitingForUser? && AskedTooLong(s.approvals, i, s.now, k + 1)
                              then FailedRow(s.actions[i], PermissionDenied) else s.actions[i]
    {
      AskedNext(s, k, i);
    }
  }

  /** Every question whose time is up is closed as EXPIRED and every row that waited on one
      is refused; all other questions and rows are as they were. */
  ghost predicate SilenceIsRefusal(s: State, t: State) {
    && |t.approvals| == |s.approvals| && |t.actions| == |s.actions|
    && (forall p | 0 <= p < |s.approvals| ::
          t.approvals[p] == if s.approvals[p].status == Pending && s.approvals[p].expiresAt <= s.now
                            then s.approvals[p].(status := Expired) else s.approvals[p])
    && (forall i | 0 <= i < |s.actions| ::
          t.actions[i] ==
          if s.actions[i].status == WaitingForUser
             && exists p | 0 <= p < |s.approvals| ::
                  s.approvals[p].action == i && s.approvals[p].status == Pending && s.approvals[p].expiresAt <= s.now
          then s.actions[i].(status := Failed, lease := None, error := Some(PermissionDenied)) else s.actions[i])
  }

  /** `expire_overdue`: silence is never consent. Every overdue question is closed
      and the rows that waited on one fail; nothing else changes. */
  method ExpireOverdue(db: Store) returns (ghost steps: seq<Step>)
    modifies db`actions, db`approvals, db`task
    ensures Run(old(db.Snap()), steps, db.Snap())
    ensures forall step <- steps :: step.LapseOnly? || (step.Act? && step.move.Lapse?)
    ensures Swept(old(db.Snap()), db.Snap(), |old(db.approvals)|)
    ensures SilenceIsRefusal(old(db.Snap()), db.Snap())
  {
    ghost var s0 := db.Snap();
    assert Swept(s0, s0, 0);
    hide Run, Swept, Enabled, Apply;
    RunNothing(s0);
    steps := [];
    for k := 0 to |db.approvals|
      invariant forall step <- steps :: step.LapseOnly? || (step.Act? && step.move.Lapse?)
      invariant Run(s0, steps, db.Snap()) && Swept(s0, db.Snap(), k) && |db.approvals| == |s0.approvals|
    {
      ghost var before := db.Snap();
      if IsOverdue(db.approvals[k], db.now) {
        ghost var step := ExpireOne(db, k);
        RunSnoc(s0, steps, before, step);
        steps := steps + [step];
      }
      SweptNext(s0, before, k, db.Snap());
    }
    SweptMeans(s0, db.Snap());
  }

  lemma SweptMeans(s: State, t: State)
    requires Swept(s, t, |s.approvals|)
    ensures SilenceIsRefusal(s, t)
  {
    forall i | 0 <= i < |s.actions|
      ensures AskedTooLong(s.approvals, i, s.now, |s.approvals|) <==>
              exists p | 0 <= p < |s.approvals| ::
                s.approvals[p].action == i && s.approvals[p].status == Pending && s.approvals[p].expiresAt <= s.now
    {
      if AskedTooLong(s.approvals, i, s.now, |s.approvals|) {
        var p :| 0 <= p < |s.approvals| && s.approvals[p].action == i && IsOverdue(s.approvals[p], s.now);
        assert s.approvals[p].action == i && s.approvals[p].status == Pending;
      }
      if p :| 0 <= p < |s.approvals| && s.approvals[p].action == i && s.approvals[p].status == Pending
              && s.approvals[p].expiresAt <= s.now {
        assert IsOverdue(s.approvals[p], s.now);
      }
    }
  }

  // -------------------------------------------------------------- human decisions

  /** An edit as `_rewrite` finds it: absent, not valid for the tool, or re-classified. */
  datatype Edit = NoEdit | Invalid | Edited(call: Call)

  function CallOf(e: Edit): Option<Call> {
    if e.Edited? then Some(e.call) else None
  }

  datatype Conflict = NoSuchApproval | NoSuchAction | NotWaiting | BadEdit | AboveCeiling | AlreadyDecided | TooLate

  /** `_live_action`. */
  method LiveAction(db: Store, ap: Id) returns (r: Result<Id, Conflict>)
    ensures r.Ok? <==> IsApproval(db.Snap(), ap) && IsAction(db.Snap(), db.approvals[ap].action)
                       && db.actions[db.approvals[ap].action].status.WaitingForUser?
    ensures r.Ok? ==> r.value == db.approvals[ap].action
  {
    if !(0 <= ap < |db.approvals|) { return Err(NoSuchApproval); }
    var a := db.approvals[ap].action;
    if !(0 <= a < |db.actions|) { return Err(NoSuchAction); }
    if !db.actions[a].status.WaitingForUser? { return Err(NotWaiting); }
    return Ok(a);
  }

  /** `_assert_pending`: a decision that comes after the deadline loses, even when
      the sweeper has not run yet. */
  method AssertPending(db: Store, ap: Id) returns (r: Result<(), Conflict>)
    requires IsApproval(db.Snap(), ap)
    ensures r.Ok? <==> db.approvals[ap].status.Pending? && db.approvals[ap].expiresAt > db.now
  {
    if !db.approvals[ap].status.Pending? { return Err(AlreadyDecided); }
    if db.approvals[ap].expiresAt <= db.now { return Err(TooLate); }
    return Ok(());
  }

  /** `grant` and `_resume_task`. */
  method GrantWaiting(db: Store, a: Id)
    requires IsAction(db.Snap(), a) && db.actions[a].status.WaitingForUser?
    modifies db`actions, db`task
    ensures var r := old(db.actions)[a];
            db.actions == old(db.actions)[a := r.(status := Ready, availableAt := None, error := None,
                                                  stay := r.stay + 1)]
    ensures db.task == if old(db.task).status.TaskWaiting? then old(db.task).(status := TaskRunning) else old(db.task)
  {
    var r := db.actions[a];
    var _ := db.CasStatus(a, WaitingForUser,
                          r.(status := Ready, availableAt := None, error := None, stay := r.stay + 1));
    if db.task.status.TaskWaiting? {
      db.task := db.task.(status := TaskRunning);
    }
  }

  /** A question that is still open and in time, about a row that still waits on it. */
  ghost predicate CanAnswer(s: State, ap: Id) {
    && 0 <= ap < |s.approvals| && s.approvals[ap].status == Pending && s.now < s.approvals[ap].expiresAt
    && 0 <= s.approvals[ap].action < |s.actions| && s.actions[s.approvals[ap].action].status == WaitingForUser
  }

  /** `approve`, with or without an edit. An edit is stored before the approval is
      known to be decidable, so every refusal rolls the transaction back. */
  method Approve(db: Store, ap: Id, edit: Edit) returns (r: Result<(), Conflict>)
    modifies db`actions, db`approvals, db`task
    ensures r.Ok? <==> !edit.Invalid? && IsApproval(old(db.Snap()), ap)
                       && MoveOk(old(db.Snap()), old(db.approvals)[ap].action, Grant(ap, CallOf(edit)))
    ensures r.Ok? ==> db.Snap() == ApplyMove(old(db.Snap()), old(db.approvals)[ap].action, Grant(ap, CallOf(edit)))
    ensures r.Err? ==> db.Snap() == old(db.Snap())
    ensures r.Ok? <==>
              && CanAnswer(old(db.Snap()), ap) && !edit.Invalid?
              && (edit.Edited? ==> edit.call.level <= db.cfg.ceiling)
    ensures r.Ok? ==>
              var p := old(db.approvals)[ap];
              var row := old(db.actions)[p.action];
              && db.approvals == old(db.approvals)[
                   ap := if edit.Edited? then p.(status := Modified, digest := edit.call.parameters)
                         else p.(status := Approved)]
              && db.actions == old(db.actions)[
                   p.action := row.(call := if edit.Edited? then edit.call else row.call, status := Ready,
                                    availableAt := None, error := None, stay := row.stay + 1)]
              && db.task.status == if old(db.task).status.TaskWaiting? then TaskRunning else old(db.task).status
  {
    var actions := db.actions;
    var live := LiveAction(db, ap);
    if live.Err? { return Err(live.error); }
    var a := live.value;
    if edit.Invalid? { return Err(BadEdit); }
    if edit.Edited? {
      if edit.call.level > db.cfg.ceiling { return Err(AboveCeiling); }
      var _ := db.RewriteInvocation(a, edit.call);
    }
    var pending := AssertPending(db, ap);
    if pending.Err? {
      db.actions := actions;
      return Err(pending.error);
    }
    var p := db.approvals[ap];
    db.approvals := db.approvals[ap := if edit.Edited? then p.(status := Modified, digest := edit.call.parameters)
                                       else p.(status := Approved)];
    GrantWaiting(db, a);
    return Ok(());
  }

  /** `reject`. */
  method Reject(db: Store, ap: Id) returns (r: Result<(), Conflict>)
    modifies db`actions, db`approvals, db`task
    ensures r.Ok? <==>
              IsApproval(old(db.Snap()), ap)
              && MoveOk(old(db.Snap()), old(db.approvals)[ap].action, Decline(ap))
    ensures r.Ok? ==> db.Snap() == ApplyMove(old(db.Snap()), old(db.approvals)[ap].action, Decline(ap))
    ensures r.Err? ==> db.Snap() == old(db.Snap())
    ensures r.Ok? <==> CanAnswer(old(db.Snap()), ap)
    ensures r.Ok? ==>
              var p := old(db.approvals)[ap];
              var row := old(db.actions)[p.action];
              && db.approvals == old(db.approvals)[ap := p.(status := Rejected)]
              && db.actions == old(db.actions)[
                   p.action := row.(status := Failed, lease := None, error := Some(PermissionDenied))]
              && db.task.status ==
                 if old(db.task).status.TaskWaiting?
                    && forall i | 0 <= i < |db.actions| :: db.actions[i].status.Terminal()
                 then TaskFailed else old(db.task).status
  {
    var live := LiveAction(db, ap);
    if live.Err? { return Err(live.error); }
    var pending := AssertPending(db, ap);
    if pending.Err? { return Err(pending.error); }
    db.approvals := db.approvals[ap := db.approvals[ap].(status := Rejected)];
    RefuseWaiting(db, live.value);
    return Ok(());
  }
}

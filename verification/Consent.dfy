/** Human consent over whole runs: approvals are used linearly, and nothing
    dangerous is dispatched without one. */
module Consent {
  import opened Wrappers
  import opened Lifecycle
  import opened Policy
  import opened Model

  predicate Decided(p: Approval) {
    p.status.Approved? || p.status.Modified?
  }

  // ---------------------------------------------------------- pending questions

  ghost predicate PendingHasAsker(s: State) {
    forall p | 0 <= p < |s.approvals| :: s.approvals[p].status.Pending? ==>
      IsAction(s, s.approvals[p].action) &&
      (s.actions[s.approvals[p].action].status.WaitingForUser? || s.actions[s.approvals[p].action].status.Cancelled?)
  }

  ghost predicate OnePendingEach(s: State) {
    forall p, q | 0 <= p < q < |s.approvals| ::
      s.approvals[p].status.Pending? && s.approvals[q].status.Pending? ==>
          s.approvals[p].action != s.approvals[q].action
  }

  ghost predicate AskersArePending(s: State) {
    forall a | 0 <= a < |s.actions| :: s.actions[a].status.WaitingForUser? ==> HasPending(s, a)
  }

  /** Each WAITING_FOR_USER row has exactly one PENDING approval, and a PENDING
      approval belongs to a row that waits or was cancelled while waiting. */
  ghost predicate QuestionsOk(s: State) {
    PendingHasAsker(s) && OnePendingEach(s) && AskersArePending(s)
  }

  lemma NoPendingUnlessAsked(s: State, a: Id)
    requires PendingHasAsker(s) && IsAction(s, a)
    requires !s.actions[a].status.WaitingForUser? && !s.actions[a].status.Cancelled?
    ensures !HasPending(s, a)
  {
  }

  /** The rows other than `a`, and the approvals of other rows, are as before. */
  ghost predicate OnlyTouches(s: State, t: State, a: Id) {
    && IsAction(s, a) && |t.actions| == |s.actions| && |t.approvals| >= |s.approvals|
    && (forall i | 0 <= i < |s.actions| && i != a :: t.actions[i] == s.actions[i])
    && (forall p | 0 <= p < |s.approvals| ::
          t.approvals[p].action == s.approvals[p].action &&
          (s.approvals[p].action != a ==> t.approvals[p] == s.approvals[p]))
    && (forall p | |s.approvals| <= p < |t.approvals| :: t.approvals[p].action == a)
  }

  lemma OthersKeepPending(s: State, t: State, a: Id)
    requires OnlyTouches(s, t, a) && QuestionsOk(s)
    requires forall p | 0 <= p < |t.approvals| && t.approvals[p].action == a && t.approvals[p].status.Pending? ::
               t.actions[a].status.WaitingForUser? || t.actions[a].status.Cancelled?
    requires forall p, q | 0 <= p < q < |t.approvals| && t.approvals[p].action == a && t.approvals[q].action == a ::
               !(t.approvals[p].status.Pending? && t.approvals[q].status.Pending?)
    requires t.actions[a].status.WaitingForUser? ==> HasPending(t, a)
    ensures QuestionsOk(t)
  {
    forall i | 0 <= i < |t.actions| && t.actions[i].status.WaitingForUser? && i != a ensures HasPending(t, i) {
      assert HasPending(s, i);
      var p :| 0 <= p < |s.approvals| && s.approvals[p].action == i && s.approvals[p].status.Pending?;
      assert t.approvals[p] == s.approvals[p];
    }
  }

  lemma MoveOnlyTouches(s: State, a: Id, m: Move)
    requires MoveOk(s, a, m)
    ensures OnlyTouches(s, ApplyMove(s, a, m), a)
  {
  }

  lemma AnswerClosesQuestion(s: State, a: Id, m: Move)
    requires QuestionsOk(s) && MoveOk(s, a, m) && (m.Grant? || m.Decline? || m.Lapse?)
    ensures QuestionsOk(ApplyMove(s, a, m))
  {
    var t := ApplyMove(s, a, m);
    MoveOnlyTouches(s, a, m);
    forall p | 0 <= p < |t.approvals| && t.approvals[p].action == a ensures !t.approvals[p].status.Pending? {
      if p != m.ap {
        assert t.approvals[p] == s.approvals[p];
        assert !(s.approvals[p].status.Pending?) by { if p < m.ap { assert p != m.ap; } }
      }
    }
    OthersKeepPending(s, t, a);
  }

  lemma AskOpensQuestion(s: State, a: Id)
    requires QuestionsOk(s) && MoveOk(s, a, Ask)
    ensures QuestionsOk(ApplyMove(s, a, Ask))
  {
    var t := ApplyMove(s, a, Ask);
    MoveOnlyTouches(s, a, Ask);
    NoPendingUnlessAsked(s, a);
    assert t.approvals[|s.approvals|].action == a && t.approvals[|s.approvals|].status.Pending?;
    OthersKeepPending(s, t, a);
  }

  lemma OtherMoveKeepsQuestions(s: State, a: Id, m: Move)
    requires QuestionsOk(s) && MoveOk(s, a, m) && !m.Grant? && !m.Decline? && !m.Lapse? && !m.Ask?
    ensures QuestionsOk(ApplyMove(s, a, m))
  {
    var t := ApplyMove(s, a, m);
    MoveOnlyTouches(s, a, m);
    NoPendingUnlessAsked(s, a);
    assert !t.actions[a].status.WaitingForUser?;
    forall p | 0 <= p < |t.approvals| && t.approvals[p].action == a ensures !t.approvals[p].status.Pending? {
      assert !s.approvals[p].status.Pending?;
    }
    OthersKeepPending(s, t, a);
  }

  lemma StepKeepsQuestions(s: State, step: Step)
    requires QuestionsOk(s) && Enabled(s, step)
    ensures QuestionsOk(Apply(s, step))
  {
    hide QuestionsOk, MoveOk, ApplyMove;
    if step.Act? { MoveKeepsQuestions(s, step.a, step.move); }
    else if step.LapseOnly? { LapseOnlyKeepsQuestions(s, step.ap); }
    else { RowStepKeepsQuestions(s, step); }
  }

  lemma MoveKeepsQuestions(s: State, a: Id, m: Move)
    requires QuestionsOk(s) && MoveOk(s, a, m)
    ensures QuestionsOk(ApplyMove(s, a, m))
  {
    hide QuestionsOk, MoveOk, ApplyMove;
    if m.Ask? { AskOpensQuestion(s, a); }
    else if m.Grant? || m.Decline? || m.Lapse? { AnswerClosesQuestion(s, a, m); }
    else { OtherMoveKeepsQuestions(s, a, m); }
  }

  lemma RowStepKeepsQuestions(s: State, step: Step)
    requires QuestionsOk(s) && Enabled(s, step) && !step.Act? && !step.LapseOnly?
    ensures QuestionsOk(Apply(s, step))
  {
    hide QuestionsOk;
    if step.Install? { InstallKeepsQuestions(s, step.rows, step.activate); }
    else if step.Replan? { ReplanKeepsQuestions(s, step.failed, step.rows); }
    else if step.CancelTask? { CancelKeepsQuestions(s); }
    else { SameRowsKeepQuestions(s, Apply(s, step)); }
  }

  lemma SameRowsKeepQuestions(s: State, t: State)
    requires QuestionsOk(s) && t.actions == s.actions && t.approvals == s.approvals
    ensures QuestionsOk(t)
  {
    forall i | 0 <= i < |t.actions| && t.actions[i].status.WaitingForUser? ensures HasPending(t, i) {
      assert HasPending(s, i);
      var p :| 0 <= p < |s.approvals| && s.approvals[p].action == i && s.approvals[p].status.Pending?;
      assert t.approvals[p].action == i && t.approvals[p].status.Pending?;
    }
  }

  lemma InstallKeepsQuestions(s: State, rows: seq<Action>, activate: bool)
    requires QuestionsOk(s) && Enabled(s, Install(rows, activate))
    ensures QuestionsOk(Apply(s, Install(rows, activate)))
  {
    RowsKeepQuestions(s, Apply(s, Install(rows, activate)));
  }

  lemma ReplanKeepsQuestions(s: State, f: Id, rows: seq<Action>)
    requires QuestionsOk(s) && Enabled(s, Replan(f, rows))
    ensures QuestionsOk(Apply(s, Replan(f, rows)))
  {
    NoPendingUnlessAsked(s, f);
    RowsKeepQuestions(s, Apply(s, Replan(f, rows)));
  }

  lemma CancelKeepsQuestions(s: State)
    requires QuestionsOk(s) && Enabled(s, CancelTask)
    ensures QuestionsOk(Apply(s, CancelTask))
  {
    forall i | 0 <= i < |s.actions| && CancelNow(s.actions[i].status) && !s.actions[i].status.WaitingForUser?
      ensures !HasPending(s, i)
    {
      NoPendingUnlessAsked(s, i);
    }
    RowsKeepQuestions(s, Apply(s, CancelTask));
  }

  lemma LapseOnlyKeepsQuestions(s: State, ap: Id)
    requires QuestionsOk(s) && Enabled(s, LapseOnly(ap))
    ensures QuestionsOk(Apply(s, LapseOnly(ap)))
  {
    var t := Apply(s, LapseOnly(ap));
    forall i | 0 <= i < |t.actions| && t.actions[i].status.WaitingForUser? ensures HasPending(t, i) {
      assert HasPending(s, i);
      var p :| 0 <= p < |s.approvals| && s.approvals[p].action == i && s.approvals[p].status.Pending?;
      assert t.approvals[p] == s.approvals[p];
    }
  }

  lemma RowsKeepQuestions(s: State, t: State)
    requires QuestionsOk(s) && t.approvals == s.approvals && |s.actions| <= |t.actions|
    requires forall i | 0 <= i < |s.actions| ::
               t.actions[i].status == s.actions[i].status
               || (t.actions[i].status.Cancelled? && (s.actions[i].status.WaitingForUser? || !HasPending(s, i)))
               || (!t.actions[i].status.WaitingForUser? && !HasPending(s, i))
    requires forall i | |s.actions| <= i < |t.actions| :: !t.actions[i].status.WaitingForUser?
    ensures QuestionsOk(t)
  {
    forall p | 0 <= p < |t.approvals| && t.approvals[p].status.Pending?
      ensures IsAction(t, t.approvals[p].action)
      ensures t.actions[t.approvals[p].action].status.WaitingForUser?
              || t.actions[t.approvals[p].action].status.Cancelled?
    {
      var a := s.approvals[p].action;
      assert IsAction(s, a) && HasPending(s, a);
    }
    forall i | 0 <= i < |t.actions| && t.actions[i].status.WaitingForUser? ensures HasPending(t, i) {
      assert HasPending(s, i);
      var p :| 0 <= p < |s.approvals| && s.approvals[p].action == i && s.approvals[p].status.Pending?;
      assert t.approvals[p].action == i && t.approvals[p].status.Pending?;
    }
  }

  // ------------------------------------------------------------- spent consent

  /** What one dispatch record promises about the approval it names. */
  predicate DispatchOk(approvals: seq<Approval>, ceiling: Capability, d: Dispatch) {
    && d.level <= ceiling
    && d.decision != Deny
    && (d.decision == Allow ==> d.level < 4 && d.approval.None?)
    && (d.decision == Confirm ==>
          d.approval.Some? && 0 <= d.approval.value < |approvals| &&
          var p := approvals[d.approval.value];
          && p.action == d.action && Decided(p) && p.consumedAt == Some(d.at)
          && p.digest == d.digest && p.level >= d.level && p.expiresAt > d.at)
  }

  ghost predicate DispatchesCovered(s: State) {
    forall k | 0 <= k < |s.log.dispatches| :: DispatchOk(s.approvals, s.cfg.ceiling, s.log.dispatches[k])
  }

  ghost predicate SpentOnce(s: State) {
    forall j, k | 0 <= j < k < |s.log.dispatches| ::
      s.log.dispatches[j].approval.Some? ==> s.log.dispatches[j].approval != s.log.dispatches[k].approval
  }

  ghost predicate Spent(s: State, p: Id) {
    exists k | 0 <= k < |s.log.dispatches| :: s.log.dispatches[k].approval == Some(p)
  }

  ghost predicate ConsumedMeansSpent(s: State) {
    forall p | 0 <= p < |s.approvals| :: s.approvals[p].consumedAt.Some? ==> Decided(s.approvals[p]) && Spent(s, p)
  }

  /** Each dispatch decided CONFIRM has its own approval, decided, unexpired, of
      equal digest and of at least the action's level; and no approval is spent
      without such a dispatch. */
  ghost predicate ConsentIsLinear(s: State) {
    DispatchesCovered(s) && SpentOnce(s) && ConsumedMeansSpent(s)
  }

  /** Approvals evolve without disturbing what is already spent. */
  predicate ApprovalKept(p: Approval, q: Approval) {
    p.consumedAt.Some? ==> q == p
  }

  lemma EnqueueSpends(s: State, a: Id, d: Decision, ap: Option<Id>)
    requires ConsentIsLinear(s) && MoveOk(s, a, Enqueue(d, ap))
    ensures ConsentIsLinear(ApplyMove(s, a, Enqueue(d, ap)))
  {
    var m := Enqueue(d, ap);
    var t := ApplyMove(s, a, m);
    var n := |s.log.dispatches|;
    var r := s.actions[a];
    if r.call.level == 4 {
      NeverAllowsL4(s.cfg.policy, Request(r.spec.tool, r.call.level, r.call.parameters, s.cfg.workflow), s.now / 86400);
    }
    forall k | 0 <= k < |t.log.dispatches| ensures DispatchOk(t.approvals, t.cfg.ceiling, t.log.dispatches[k]) {
      if k < n {
        assert t.log.dispatches[k] == s.log.dispatches[k];
        assert DispatchOk(s.approvals, s.cfg.ceiling, s.log.dispatches[k]);
      }
    }
    forall j, k | 0 <= j < k < |t.log.dispatches| && t.log.dispatches[j].approval.Some?
      ensures t.log.dispatches[j].approval != t.log.dispatches[k].approval
    {
      assert t.log.dispatches[j] == s.log.dispatches[j];
      assert DispatchOk(s.approvals, s.cfg.ceiling, s.log.dispatches[j]);
    }
    forall p | 0 <= p < |t.approvals| && t.approvals[p].consumedAt.Some?
      ensures Decided(t.approvals[p]) && Spent(t, p)
    {
      if ap == Some(p) {
        assert t.log.dispatches[n].approval == Some(p);
      } else {
        assert Spent(s, p);
        var k :| 0 <= k < n && s.log.dispatches[k].approval == Some(p);
        assert t.log.dispatches[k].approval == Some(p);
      }
    }
  }

  /** Anything that dispatches nothing and leaves spent approvals alone keeps linearity. */
  lemma QuietKeepsLinear(s: State, t: State)
    requires ConsentIsLinear(s)
    requires t.log.dispatches == s.log.dispatches && t.cfg == s.cfg && |s.approvals| <= |t.approvals|
    requires forall p | 0 <= p < |s.approvals| ::
               ApprovalKept(s.approvals[p], t.approvals[p]) && (t.approvals[p].consumedAt == s.approvals[p].consumedAt)
    requires forall p | |s.approvals| <= p < |t.approvals| :: t.approvals[p].consumedAt.None?
    ensures ConsentIsLinear(t)
  {
    forall k | 0 <= k < |t.log.dispatches| ensures DispatchOk(t.approvals, t.cfg.ceiling, t.log.dispatches[k]) {
      assert DispatchOk(s.approvals, s.cfg.ceiling, s.log.dispatches[k]);
    }
    forall p | 0 <= p < |t.approvals| && t.approvals[p].consumedAt.Some?
      ensures Decided(t.approvals[p]) && Spent(t, p)
    {
      assert Spent(s, p);
      var k :| 0 <= k < |s.log.dispatches| && s.log.dispatches[k].approval == Some(p);
      assert t.log.dispatches[k].approval == Some(p);
    }
  }

  lemma StepKeepsLinear(s: State, step: Step)
    requires ConsentIsLinear(s) && Enabled(s, step)
    ensures ConsentIsLinear(Apply(s, step))
  {
    if step.Act? && step.move.Enqueue? {
      EnqueueSpends(s, step.a, step.move.decision, step.move.approval);
    } else if step.Act? {
      QuietMove(s, step.a, step.move);
    } else if step.LapseOnly? {
      assert s.approvals[step.ap].consumedAt.Some? ==> Decided(s.approvals[step.ap]);
      QuietKeepsLinear(s, Apply(s, step));
    } else {
      QuietStep(s, step);
      QuietKeepsLinear(s, Apply(s, step));
    }
  }

  lemma QuietStep(s: State, step: Step)
    requires Enabled(s, step) && !step.Act? && !step.LapseOnly?
    ensures Apply(s, step).log == s.log && Apply(s, step).cfg == s.cfg && Apply(s, step).approvals == s.approvals
  {
  }

  lemma QuietMove(s: State, a: Id, m: Move)
    requires ConsentIsLinear(s) && MoveOk(s, a, m) && !m.Enqueue?
    ensures ConsentIsLinear(ApplyMove(s, a, m))
  {
    if m.Grant? || m.Decline? || m.Lapse? {
      assert s.approvals[m.ap].consumedAt.Some? ==> Decided(s.approvals[m.ap]);
    }
    QuietKeepsLinear(s, ApplyMove(s, a, m));
  }

  /** Every L4 dispatch in the log was consented to by a human, on an approval of its own. */
  lemma NoL4WithoutConsent(s: State, k: nat)
    requires ConsentIsLinear(s) && k < |s.log.dispatches| && s.log.dispatches[k].level == 4
    ensures var d := s.log.dispatches[k];
            && d.decision == Confirm && d.approval.Some? && 0 <= d.approval.value < |s.approvals|
            && Decided(s.approvals[d.approval.value]) && s.approvals[d.approval.value].level == 4
            && s.approvals[d.approval.value].digest == d.digest
            && forall j | 0 <= j < |s.log.dispatches| && j != k :: s.log.dispatches[j].approval != d.approval
  {
    assert DispatchOk(s.approvals, s.cfg.ceiling, s.log.dispatches[k]);
    forall j | 0 <= j < |s.log.dispatches| && j != k
      ensures s.log.dispatches[j].approval != s.log.dispatches[k].approval
    {
      if j < k {} else {}
    }
  }

  /** An edit that re-classifies the action above the level that was shown leaves the
      very approval that carried it useless: the gate has to ask again. */
  lemma EscalatingEditIsNotConsent(s: State, a: Id, ap: Id, edit: Call)
    requires MoveOk(s, a, Grant(ap, Some(edit)))
    ensures var t := ApplyMove(s, a, Grant(ap, Some(edit)));
            t.approvals[ap].status.Modified? && t.actions[a].status.Ready?
            && (t.approvals[ap].consumedAt.None? ==>
                (Covers(t, t.approvals[ap], a, t.actions[a]) <==> edit.level <= s.approvals[ap].level))
  {
  }
}

/** Messages, claims and side effects: what survives crashes, stream loss and
    duplicate delivery. */
module Delivery {
  import opened Wrappers
  import opened Lifecycle
  import opened Model
  import opened Safety

  // --------------------------------------------------------- gate before execution

  ghost predicate EverDispatched(s: State, a: Id) {
    exists k | 0 <= k < |s.log.dispatches| :: s.log.dispatches[k].action == a
  }

  /** Evidence in the row that the action has left the gate at least once. */
  predicate ShowsDispatch(r: Action) {
    r.attempts > 0 || r.status.Dispatched? || r.status.Running? || r.status.Succeeded? || r.status.Unverified?
        || r.status.RolledBack?
  }

  /** Only dispatched actions have messages, and only they have ever run. */
  ghost predicate GatedFirst(s: State) {
    && (forall a :: a in s.outbox || a in s.stream ==> IsAction(s, a) && EverDispatched(s, a))
    && (forall a | 0 <= a < |s.actions| :: ShowsDispatch(s.actions[a]) ==> EverDispatched(s, a))
  }

  lemma DispatchesGrow(s: State, step: Step, a: Id)
    requires Enabled(s, step) && EverDispatched(s, a)
    ensures EverDispatched(Apply(s, step), a)
  {
    var k :| 0 <= k < |s.log.dispatches| && s.log.dispatches[k].action == a;
    assert Apply(s, step).log.dispatches[k] == s.log.dispatches[k];
  }

  lemma MoveShowsDispatch(s: State, a: Id, m: Move)
    requires MoveOk(s, a, m)
    ensures ShowsDispatch(MoveRow(s, a, m)) ==> ShowsDispatch(s.actions[a]) || m.Enqueue? || m.Claim?
  {
  }

  lemma MoveKeepsGated(s: State, a: Id, m: Move)
    requires GatedFirst(s) && MoveOk(s, a, m)
    ensures GatedFirst(ApplyMove(s, a, m))
  {
    var t := ApplyMove(s, a, m);
    MoveShowsDispatch(s, a, m);
    if m.Enqueue? {
      assert t.log.dispatches[|s.log.dispatches|].action == a;
      assert EverDispatched(t, a);
    }
    forall b | EverDispatched(s, b) ensures EverDispatched(t, b) { DispatchesGrow(s, Act(a, m), b); }
  }

  lemma StepKeepsGated(s: State, step: Step)
    requires RowsOk(s) && GatedFirst(s) && Enabled(s, step)
    ensures GatedFirst(Apply(s, step))
  {
    var t := Apply(s, step);
    if step.Act? {
      MoveKeepsGated(s, step.a, step.move);
    } else {
      forall b | EverDispatched(s, b) ensures EverDispatched(t, b) { DispatchesGrow(s, step, b); }
      assert |s.actions| <= |t.actions|;
      forall a | a in t.outbox || a in t.stream ensures IsAction(t, a) && EverDispatched(t, a) {
        assert a in s.outbox || a in s.stream || (step.Republish? && a == step.a);
        if step.Republish? { assert ShowsDispatch(s.actions[step.a]); }
      }
      forall a | 0 <= a < |t.actions| && ShowsDispatch(t.actions[a]) ensures EverDispatched(t, a) {
        OtherStepShowsNothing(s, step, a);
      }
    }
  }

  lemma OtherStepShowsNothing(s: State, step: Step, a: Id)
    requires Enabled(s, step) && !step.Act? && IsAction(Apply(s, step), a)
    ensures ShowsDispatch(Apply(s, step).actions[a]) ==> IsAction(s, a) && ShowsDispatch(s.actions[a])
  {
  }

  // ------------------------------------------------------- which claims were gated

  ghost predicate StayDispatched(s: State, a: Id, stay: nat) {
    exists k | 0 <= k < |s.log.dispatches| :: s.log.dispatches[k].action == a && s.log.dispatches[k].stay == stay
  }

  /** The dispatch ended the same READY stay and was decided on the same call. */
  predicate DispatchedAs(d: Dispatch, c: Claimed) {
    d.action == c.action && d.stay == c.stay && d.level == c.level && d.digest == c.digest
  }

  ghost predicate CallDispatched(s: State, c: Claimed) {
    exists k | 0 <= k < |s.log.dispatches| :: DispatchedAs(s.log.dispatches[k], c)
  }

  predicate DispatchInPast(actions: seq<Action>, d: Dispatch) {
    && 0 <= d.action < |actions|
    && d.stay <= actions[d.action].stay
    && (d.stay == actions[d.action].stay ==> !actions[d.action].status.Planned? && !actions[d.action].status.Ready?)
  }

  /** A READY stay has not been through the gate yet; a DISPATCHED one has, with the
      level and the parameters that the row still holds. */
  ghost predicate StaysGated(s: State) {
    && (forall k | 0 <= k < |s.log.dispatches| :: DispatchInPast(s.actions, s.log.dispatches[k]))
    && (forall a | 0 <= a < |s.actions| ::
          s.actions[a].status.Dispatched? ==> CallDispatched(s, ClaimOf(a, s.actions[a])))
  }

  predicate GateKept(before: Action, after: Action) {
    && before.stay <= after.stay
    && (before.stay == after.stay ==>
          (before.status.Planned? || before.status.Ready? || !(after.status.Planned? || after.status.Ready?)))
    && (after.status.Dispatched? ==>
          before.status.Dispatched? && before.stay == after.stay && before.call == after.call)
  }

  lemma EndingKeepsGate(s: State, r: Action, e: Ending)
    requires r.status.Running? && EndingOk(s, r, e)
    ensures GateKept(r, FinishRow(s, r, e))
  {
  }

  lemma MoveKeepsGate(s: State, a: Id, m: Move)
    requires MoveOk(s, a, m) && RowOk(s.actions[a], TaskIsCancelled(s), s.cfg.ceiling) && !m.Enqueue?
    ensures GateKept(s.actions[a], MoveRow(s, a, m))
  {
    if m.Finish? { EndingKeepsGate(s, s.actions[a], m.ending); }
  }

  lemma RecordStays(s: State, t: State, c: Claimed)
    requires CallDispatched(s, c) && s.log.dispatches <= t.log.dispatches
    ensures CallDispatched(t, c)
  {
    var k :| 0 <= k < |s.log.dispatches| && DispatchedAs(s.log.dispatches[k], c);
    assert t.log.dispatches[k] == s.log.dispatches[k];
  }

  lemma StaysSurvive(s: State, t: State)
    requires StaysGated(s) && t.log.dispatches == s.log.dispatches && |s.actions| <= |t.actions|
    requires forall i | 0 <= i < |s.actions| :: GateKept(s.actions[i], t.actions[i])
    requires forall i | |s.actions| <= i < |t.actions| :: !t.actions[i].status.Dispatched?
    ensures StaysGated(t)
  {
    forall k | 0 <= k < |t.log.dispatches| ensures DispatchInPast(t.actions, t.log.dispatches[k]) {
      var d := s.log.dispatches[k];
      assert DispatchInPast(s.actions, d);
      assert GateKept(s.actions[d.action], t.actions[d.action]);
    }
    forall a | 0 <= a < |t.actions| && t.actions[a].status.Dispatched?
      ensures CallDispatched(t, ClaimOf(a, t.actions[a]))
    {
      assert GateKept(s.actions[a], t.actions[a]);
      RecordStays(s, t, ClaimOf(a, s.actions[a]));
    }
  }

  lemma EnqueueGates(s: State, a: Id, m: Move)
    requires StaysGated(s) && MoveOk(s, a, m) && m.Enqueue?
    ensures StaysGated(ApplyMove(s, a, m))
  {
    var t := ApplyMove(s, a, m);
    var n := |s.log.dispatches|;
    assert DispatchedAs(t.log.dispatches[n], ClaimOf(a, t.actions[a]));
    forall k | 0 <= k < |t.log.dispatches| ensures DispatchInPast(t.actions, t.log.dispatches[k]) {
      if k < n {
        assert t.log.dispatches[k] == s.log.dispatches[k];
        assert DispatchInPast(s.actions, s.log.dispatches[k]);
      }
    }
    forall b | 0 <= b < |t.actions| && t.actions[b].status.Dispatched? && b != a
      ensures CallDispatched(t, ClaimOf(b, t.actions[b]))
    {
      RecordStays(s, t, ClaimOf(b, s.actions[b]));
    }
  }

  lemma StepKeepsStaysGated(s: State, step: Step)
    requires RowsOk(s) && StaysGated(s) && Enabled(s, step)
    ensures StaysGated(Apply(s, step))
  {
    if step.Act? && step.move.Enqueue? {
      EnqueueGates(s, step.a, step.move);
    } else if step.Act? {
      MoveKeepsGate(s, step.a, step.move);
      StaysSurvive(s, Apply(s, step));
    } else {
      OtherStepKeepsGate(s, step);
      StaysSurvive(s, Apply(s, step));
    }
  }

  lemma OtherStepKeepsGate(s: State, step: Step)
    requires Enabled(s, step) && !step.Act?
    ensures Apply(s, step).log == s.log && |s.actions| <= |Apply(s, step).actions|
    ensures forall i | 0 <= i < |s.actions| :: GateKept(s.actions[i], Apply(s, step).actions[i])
    ensures forall i | |s.actions| <= i < |Apply(s, step).actions| :: !Apply(s, step).actions[i].status.Dispatched?
  {
    OtherStepFrame(s, step);
    if WritesRows(step) { RowStepKeepsGate(s, step); } else { hide Enabled, Apply; }
  }

  lemma RowStepKeepsGate(s: State, step: Step)
    requires Enabled(s, step) && WritesRows(step)
    ensures |s.actions| <= |Apply(s, step).actions|
    ensures forall i | 0 <= i < |s.actions| :: GateKept(s.actions[i], Apply(s, step).actions[i])
    ensures forall i | |s.actions| <= i < |Apply(s, step).actions| :: !Apply(s, step).actions[i].status.Dispatched?
  {
    hide Live, Settled, AllTerminal, AnyStatus, Tolerated;
  }

  /** A claim accepts READY as well as DISPATCHED. It runs the call that the gate let
      through in this very stay exactly when it finds the row DISPATCHED. */
  lemma ClaimIsGatedIffDispatched(s: State, a: Id, w: WorkerId)
    requires StaysGated(s) && MoveOk(s, a, Claim(w))
    ensures CallDispatched(s, ClaimOf(a, s.actions[a])) <==> s.actions[a].status.Dispatched?
    ensures StayDispatched(s, a, s.actions[a].stay) <==> s.actions[a].status.Dispatched?
  {
    var c := ClaimOf(a, s.actions[a]);
    if CallDispatched(s, c) {
      var k :| 0 <= k < |s.log.dispatches| && DispatchedAs(s.log.dispatches[k], c);
      assert s.log.dispatches[k].action == a && s.log.dispatches[k].stay == s.actions[a].stay;
    }
    if StayDispatched(s, a, s.actions[a].stay) {
      var k :| 0 <= k < |s.log.dispatches| && s.log.dispatches[k].action == a
        && s.log.dispatches[k].stay == s.actions[a].stay;
      assert DispatchInPast(s.actions, s.log.dispatches[k]);
    }
  }

  // -------------------------------------------------------------- one claim a stay

  predicate InStay(r: Action) {
    r.status.Ready? || r.status.Dispatched?
  }

  predicate ClaimSpent(actions: seq<Action>, c: Claimed) {
    && 0 <= c.action < |actions|
    && c.stay <= actions[c.action].stay
    && (c.stay == actions[c.action].stay ==> !InStay(actions[c.action]))
  }

  predicate SameStay(c: Claimed, d: Claimed) {
    c.action == d.action && c.stay == d.stay
  }

  ghost predicate ClaimsOk(s: State) {
    && (forall k | 0 <= k < |s.log.claims| :: ClaimSpent(s.actions, s.log.claims[k]))
    && (forall j, k | 0 <= j < k < |s.log.claims| :: !SameStay(s.log.claims[j], s.log.claims[k]))
  }

  predicate StayKept(before: Action, after: Action) {
    && before.stay <= after.stay
    && (before.stay == after.stay && InStay(after) ==> InStay(before))
  }

  lemma EndingKeepsStay(s: State, r: Action, e: Ending)
    requires r.status.Running? && EndingOk(s, r, e)
    ensures StayKept(r, FinishRow(s, r, e))
  {
  }

  lemma MoveKeepsStay(s: State, a: Id, m: Move)
    requires MoveOk(s, a, m)
    ensures StayKept(s.actions[a], MoveRow(s, a, m))
  {
    if m.Finish? { EndingKeepsStay(s, s.actions[a], m.ending); }
  }

  lemma ClaimsSurvive(s: State, t: State)
    requires ClaimsOk(s) && t.log.claims == s.log.claims && |s.actions| <= |t.actions|
    requires forall i | 0 <= i < |s.actions| :: StayKept(s.actions[i], t.actions[i])
    ensures ClaimsOk(t)
  {
    forall k | 0 <= k < |t.log.claims| ensures ClaimSpent(t.actions, t.log.claims[k]) {
      var c := s.log.claims[k];
      assert ClaimSpent(s.actions, c);
      assert StayKept(s.actions[c.action], t.actions[c.action]);
    }
  }

  lemma ClaimIsNew(s: State, a: Id, w: WorkerId)
    requires ClaimsOk(s) && MoveOk(s, a, Claim(w))
    ensures ClaimsOk(ApplyMove(s, a, Claim(w)))
  {
    var t := ApplyMove(s, a, Claim(w));
    var n := |s.log.claims|;
    forall k | 0 <= k < |t.log.claims| ensures ClaimSpent(t.actions, t.log.claims[k]) {
      if k < n {
        assert t.log.claims[k] == s.log.claims[k];
        assert ClaimSpent(s.actions, s.log.claims[k]);
      }
    }
    forall j, k | 0 <= j < k < |t.log.claims| ensures !SameStay(t.log.claims[j], t.log.claims[k]) {
      assert t.log.claims[j] == s.log.claims[j];
      assert ClaimSpent(s.actions, s.log.claims[j]);
    }
  }

  /** However often a message is duplicated or redelivered, no READY/DISPATCHED
      stay of a row is claimed twice. */
  lemma StepKeepsClaims(s: State, step: Step)
    requires ClaimsOk(s) && Enabled(s, step)
    ensures ClaimsOk(Apply(s, step))
  {
    var t := Apply(s, step);
    if step.Act? && step.move.Claim? {
      ClaimIsNew(s, step.a, step.move.worker);
    } else if step.Act? {
      MoveKeepsStay(s, step.a, step.move);
      ClaimsSurvive(s, t);
    } else {
      OtherStepKeepsStay(s, step);
      ClaimsSurvive(s, t);
    }
  }

  lemma OtherStepKeepsStay(s: State, step: Step)
    requires Enabled(s, step) && !step.Act?
    ensures Apply(s, step).log == s.log && |s.actions| <= |Apply(s, step).actions|
    ensures forall i | 0 <= i < |s.actions| :: StayKept(s.actions[i], Apply(s, step).actions[i])
  {
  }

  // ----------------------------------------------------------------- side effects

  /** Committed executions of non-idempotent tools: each key at most once, each reserved. */
  ghost predicate EffectsOnce(s: State) {
    && (forall j, k | 0 <= j < k < |s.log.executed| :: s.log.executed[j] != s.log.executed[k])
    && (forall k | 0 <= k < |s.log.executed| :: s.log.executed[k] in s.ledger)
  }

  lemma StepKeepsEffectsOnce(s: State, step: Step)
    requires EffectsOnce(s) && Enabled(s, step)
    ensures EffectsOnce(Apply(s, step))
    ensures s.ledger <= Apply(s, step).ledger && s.log.executed <= Apply(s, step).log.executed
  {
    if step.Act? && Executes(s, step.a, step.move) {
      ExecutionIsNew(s, step.a, step.move);
    }
  }

  lemma ExecutionIsNew(s: State, a: Id, m: Move)
    requires EffectsOnce(s) && MoveOk(s, a, m) && Executes(s, a, m)
    ensures EffectsOnce(ApplyMove(s, a, m))
    ensures ApplyMove(s, a, m).log.executed == s.log.executed + [s.actions[a].call.key]
  {
    assert s.actions[a].call.key !in s.ledger;
  }

  /** A reservation without a committed result is never replayed: the branch that
      would report success from a stored result is never taken. */
  lemma ReservedNeverSucceeds(s: State, a: Id, w: WorkerId)
    requires RowsOk(s) && MoveOk(s, a, Finish(w, AlreadyReserved))
    ensures MoveRow(s, a, Finish(w, AlreadyReserved)) == FailedRow(s.actions[a], Conflict)
  {
    assert RowOk(s.actions[a], TaskIsCancelled(s), s.cfg.ceiling);
  }

  // --------------------------------------------------------------- nothing is lost

  /** Whatever was lost, a DISPATCHED row is an orphan that recovery republishes, and
      its message then lets any idle worker claim it. */
  lemma DispatchedIsRecoverable(s: State, a: Id, w: WorkerId)
    requires RowsOk(s) && IsAction(s, a) && s.actions[a].status.Dispatched? && w !in s.busy
    ensures Enabled(s, Republish(a))
    ensures var t := Apply(s, Republish(a));
            Enabled(t, Act(a, Claim(w))) && Apply(t, Act(a, Claim(w))).actions[a].status.Running?
  {
    assert RowOk(s.actions[a], TaskIsCancelled(s), s.cfg.ceiling);
  }

  /** A RUNNING row whose worker is gone is reclaimed once its lease runs out:
      back to READY while attempts remain, FAILED otherwise. */
  lemma AbandonedIsReclaimable(s: State, a: Id, later: Time)
    requires RowsOk(s) && IsAction(s, a) && s.actions[a].status.Running?
    requires later >= s.now && s.actions[a].lease.Some? && s.actions[a].lease.value.until < later
    ensures Enabled(s, Advance(later))
    ensures var t := Apply(s, Advance(later));
            Enabled(t, Act(a, Reap)) &&
            var r := Apply(t, Act(a, Reap)).actions[a];
            r.lease.None? &&
            (if s.actions[a].attempts < s.actions[a].spec.maxRetries then r.status.Ready? else r.status.Failed?)
  {
  }

  /** READY and DISPATCHED rows hold no lease and RUNNING rows hold one. */
  lemma LeasesMatchStatus(s: State, a: Id)
    requires RowsOk(s) && IsAction(s, a)
    ensures InStay(s.actions[a]) ==> s.actions[a].lease.None?
    ensures s.actions[a].status.Running? <==> s.actions[a].lease.Some?
  {
    assert RowOk(s.actions[a], TaskIsCancelled(s), s.cfg.ceiling);
  }
}

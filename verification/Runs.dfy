/** The whole-run theorems: what holds in every reachable state, and what a run
    can never undo. */
module Runs {
  import opened Wrappers
  import opened Lifecycle
  import Policy
  import opened Model
  import opened Safety
  import opened Dependencies
  import opened Consent
  import opened Delivery
  import opened Claims
  import opened Successes
  import opened Progress

  ghost predicate Invariant(s: State) {
    && RowsOk(s) && SuccessIsEarned(s)
    && GraphOk(s) && DependenciesRespected(s)
    && QuestionsOk(s) && ConsentIsLinear(s)
    && GatedFirst(s) && StaysGated(s) && ClaimsOk(s) && ClaimsTold(s)
    && EffectsOnce(s) && SuccessesOk(s) && BudgetKept(s)
  }

  lemma InitialInvariant(s: State)
    requires Initial(s)
    ensures Invariant(s)
  {
    assert Graph.TopologicalOrder(DependencyGraph(s.actions), []);
  }

  lemma StepInvariant(s: State, step: Step)
    requires Invariant(s) && Enabled(s, step)
    ensures Invariant(Apply(s, step))
  {
    StepKeepsRowsOk(s, step);
    StepKeepsSuccessEarned(s, step);
    StepKeepsGraph(s, step);
    StepKeepsRespect(s, step);
    StepKeepsQuestions(s, step);
    StepKeepsLinear(s, step);
    StepKeepsGated(s, step);
    StepKeepsStaysGated(s, step);
    StepKeepsClaims(s, step);
    StepKeepsTold(s, step);
    StepKeepsSuccesses(s, step);
    StepKeepsEffectsOnce(s, step);
    StepReplans(s, step);
  }

  lemma {:induction false} RunInvariant(s: State, steps: seq<Step>, t: State)
    requires Invariant(s) && Run(s, steps, t)
    ensures Invariant(t)
    decreases |steps|
  {
    if steps != [] {
      StepInvariant(s, steps[0]);
      RunInvariant(Apply(s, steps[0]), steps[1..], t);
    }
  }

  /** Every reachable state, under any interleaving of ticks, workers, crashes, lost
      or repeated messages, human decisions, replans and cancellation. */
  lemma ReachableInvariant(t: State)
    requires Reachable(t)
    ensures Invariant(t)
  {
    var s, steps :| Initial(s) && Run(s, steps, t);
    InitialInvariant(s);
    RunInvariant(s, steps, t);
  }

  // --------------------------------------------------------------------- safety

  /** An action that has started never runs ahead of its dependencies. */
  lemma ExecutionRespectsDependencies(t: State, a: Id, d: Id)
    requires Reachable(t) && IsAction(t, a) && Started(t.actions[a]) && d in t.actions[a].spec.dependsOn
    ensures IsAction(t, d)
    ensures t.actions[d].status.Succeeded?
            || (t.actions[d].status.Unverified? && t.actions[a].spec.tolerates)
            || (t.actions[d].status.RolledBack? && t.task.status.TaskCancelled?)
  {
    ReachableInvariant(t);
    var r := t.actions[a];
    assert RowGrounded(t.actions, t.task.status.TaskCancelled?, r);
    var k :| 0 <= k < |r.spec.dependsOn| && r.spec.dependsOn[k] == d;
    assert Grounded(t.actions, t.task.status.TaskCancelled?, r.spec.tolerates, r.spec.dependsOn[k]);
  }

  /** A task reports SUCCEEDED only over proven, tolerated or replaced work, and
      nothing that follows can change its rows. */
  lemma {:induction false} SuccessIsForever(s: State, steps: seq<Step>, t: State)
    requires Invariant(s) && s.task.status.TaskSucceeded? && Run(s, steps, t)
    ensures t.task.status.TaskSucceeded? && t.actions == s.actions
    ensures forall i | 0 <= i < |t.actions| :: Satisfied(t.actions[i])
    decreases |steps|
  {
    if steps != [] {
      SucceededRowsFrozen(s, steps[0]);
      StepInvariant(s, steps[0]);
      SuccessIsForever(Apply(s, steps[0]), steps[1..], t);
    }
  }

  /** SUCCEEDED always rests on recorded checks: all passed, never none, and above L1
      all of them declared postconditions. */
  lemma NoFalseSuccess(t: State, a: Id)
    requires Reachable(t) && IsAction(t, a)
    requires t.actions[a].status.Succeeded? || t.actions[a].status.RolledBack?
    ensures Verify.Proven(t.actions[a].call.level, t.actions[a].checks)
  {
    ReachableInvariant(t);
    assert RowOk(t.actions[a], TaskIsCancelled(t), t.cfg.ceiling);
  }

  /** The decision on this dispatch was about exactly the call that the claim took: under
      the ceiling and allowed, or confirmed by an approval of its own; at L4 always by
      a human's decided L4 approval for these very parameters. */
  ghost predicate CoveredBy(s: State, c: Claimed, d: Dispatch) {
    && DispatchedAs(d, c) && DispatchOk(s.approvals, s.cfg.ceiling, d)
    && (c.level == 4 ==>
          d.approval.Some? && 0 <= d.approval.value < |s.approvals| &&
          var p := s.approvals[d.approval.value];
          p.action == c.action && Decided(p) && p.level == 4 && p.digest == c.digest)
  }

  ghost predicate Covered(s: State, c: Claimed) {
    exists k | 0 <= k < |s.log.dispatches| :: CoveredBy(s, c, s.log.dispatches[k])
  }

  lemma CallIsCovered(t: State, c: Claimed)
    requires Invariant(t) && CallDispatched(t, c)
    ensures Covered(t, c)
  {
    var k :| 0 <= k < |t.log.dispatches| && DispatchedAs(t.log.dispatches[k], c);
    assert DispatchOk(t.approvals, t.cfg.ceiling, t.log.dispatches[k]);
    assert CoveredBy(t, c, t.log.dispatches[k]);
  }

  /** Of every claim ever made: the gate had let through the call it took exactly when it
      found the row DISPATCHED; what a claim of a READY row took was never decided on in
      that stay. */
  lemma ClaimsRunWhatTheGateSaw(t: State, k: nat)
    requires Reachable(t) && k < |t.log.claims|
    ensures t.log.claims[k].dispatched <==> Covered(t, t.log.claims[k])
    ensures t.log.claims[k].dispatched <==> StayDispatched(t, t.log.claims[k].action, t.log.claims[k].stay)
  {
    ReachableInvariant(t);
    var c := t.log.claims[k];
    if c.dispatched { CallIsCovered(t, c); }
    if Covered(t, c) {
      var j :| 0 <= j < |t.log.dispatches| && CoveredBy(t, c, t.log.dispatches[j]);
      assert t.log.dispatches[j].action == c.action && t.log.dispatches[j].stay == c.stay;
    }
  }

  /** A RUNNING row runs the call that its claim took, whatever else has happened since. */
  lemma RunningIsAsClaimed(t: State, a: Id) returns (k: nat)
    requires Reachable(t) && IsAction(t, a) && t.actions[a].status.Running?
    ensures k < |t.log.claims| && Took(t.log.claims[k], a, t.actions[a])
    ensures t.log.claims[k].dispatched <==> Covered(t, t.log.claims[k])
  {
    ReachableInvariant(t);
    assert TakenBy(t, a, t.actions[a]);
    k :| 0 <= k < |t.log.claims| && Took(t.log.claims[k], a, t.actions[a]);
    ClaimsRunWhatTheGateSaw(t, k);
  }

  lemma {:induction false} FirstClaim(claims: seq<Claimed>, a: Id) returns (k: nat)
    requires ClaimCount(claims, a) > 0
    ensures k < |claims| && claims[k].action == a && forall j | 0 <= j < k :: claims[j].action != a
  {
    var init := claims[..|claims| - 1];
    if ClaimCount(init, a) > 0 { k := FirstClaim(init, a); }
    else {
      k := |claims| - 1;
      if j :| 0 <= j < k && claims[j].action == a { SomeClaim(init, a, j); }
    }
  }

  lemma {:induction false} SomeClaim(claims: seq<Claimed>, a: Id, j: nat)
    requires j < |claims| && claims[j].action == a
    ensures ClaimCount(claims, a) > 0
  {
    if j < |claims| - 1 { SomeClaim(claims[..|claims| - 1], a, j); }
  }

  /** No row runs before the gate has let it through: attempts are claims, and the first
      claim of any row took a call that was decided on, with consent at L4. */
  lemma NothingRunsUngated(t: State, a: Id) returns (k: nat)
    requires Reachable(t) && IsAction(t, a) && t.actions[a].attempts > 0
    ensures t.actions[a].attempts == ClaimCount(t.log.claims, a)
    ensures k < |t.log.claims| && t.log.claims[k].action == a && Covered(t, t.log.claims[k])
    ensures forall j | 0 <= j < k :: t.log.claims[j].action != a
  {
    ReachableInvariant(t);
    k := FirstClaim(t.log.claims, a);
    assert t.log.claims[k].dispatched || DispatchedBefore(t, k);
    ClaimsRunWhatTheGateSaw(t, k);
  }

  /** A dispatch is claimed at most once, and never by another call than its own. */
  lemma DispatchesAreNotReused(t: State, j: nat, k: nat)
    requires Reachable(t) && j < k < |t.log.claims| && t.log.claims[j].dispatched && t.log.claims[k].dispatched
    ensures forall d | 0 <= d < |t.log.dispatches| ::
              !(DispatchedAs(t.log.dispatches[d], t.log.claims[j])
                  && DispatchedAs(t.log.dispatches[d], t.log.claims[k]))
  {
    ReachableInvariant(t);
    assert !SameStay(t.log.claims[j], t.log.claims[k]);
  }

  /** Every dispatch ever made stayed under the ceiling, and one decided CONFIRM spent an
      approval of its own: decided, unexpired then, for these parameters and this level. */
  lemma DispatchesAreConsented(t: State, j: nat, k: nat)
    requires Reachable(t) && j < |t.log.dispatches| && k < |t.log.dispatches| && j != k
    ensures DispatchOk(t.approvals, t.cfg.ceiling, t.log.dispatches[k])
    ensures t.log.dispatches[k].decision == Policy.Confirm ==> t.log.dispatches[k].approval.Some?
    ensures t.log.dispatches[k].approval.Some? ==> t.log.dispatches[j].approval != t.log.dispatches[k].approval
  {
    ReachableInvariant(t);
    if j < k {
      assert t.log.dispatches[j].approval.Some? ==> t.log.dispatches[j].approval != t.log.dispatches[k].approval;
    }
  }

  /** A row waits for the user exactly when it has one question open, and never two. */
  lemma OneQuestionEach(t: State, a: Id)
    requires Reachable(t) && IsAction(t, a)
    ensures t.actions[a].status.WaitingForUser? ==> HasPending(t, a)
    ensures HasPending(t, a) ==> t.actions[a].status.WaitingForUser? || t.actions[a].status.Cancelled?
    ensures forall p, q | 0 <= p < q < |t.approvals| && t.approvals[p].action == a && t.approvals[q].action == a ::
              !(t.approvals[p].status.Pending? && t.approvals[q].status.Pending?)
  {
    ReachableInvariant(t);
  }

  /** However messages were lost, repeated or delivered late: no READY/DISPATCHED stay of
      a row was ever claimed twice. */
  lemma OneClaimPerStay(t: State, j: nat, k: nat)
    requires Reachable(t) && j < k < |t.log.claims|
    ensures !SameStay(t.log.claims[j], t.log.claims[k])
  {
    ReachableInvariant(t);
  }

  /** Among the attempts that committed, no two executed a non-idempotent tool under the
      same key, and every such key is reserved. */
  lemma OneExecutionPerKey(t: State, j: nat, k: nat)
    requires Reachable(t) && j < k < |t.log.executed|
    ensures t.log.executed[j] != t.log.executed[k] && t.log.executed[j] in t.ledger && t.log.executed[k] in t.ledger
  {
    ReachableInvariant(t);
  }

  /** Retries are bounded in every reachable state. */
  lemma AttemptsAreBounded(t: State, a: Id)
    requires Reachable(t) && IsAction(t, a)
    ensures t.actions[a].attempts <= AttemptCap(t.actions[a])
  {
    ReachableInvariant(t);
    assert RowOk(t.actions[a], TaskIsCancelled(t), t.cfg.ceiling);
  }

  // ------------------------------------------------------------------ no deadlock

  /** Whatever stands between a planned row and readiness is itself only planned. */
  ghost predicate NothingBlocks(t: State) {
    forall i, k | 0 <= i < |t.actions| && 0 <= k < |t.actions[i].spec.dependsOn| ::
      t.actions[i].status.Planned? ==>
        var d := t.actions[i].spec.dependsOn[k];
        IsAction(t, d) && (t.actions[d].status.Planned? || Acceptable(t.actions[d].status, t.actions[i].spec.tolerates))
  }

  /** A live task with a planned row, and no row that finished unacceptably for its
      dependents, can always promote one. */
  lemma LiveTaskPromotes(t: State)
    requires Reachable(t) && Live(t) && NothingBlocks(t)
    requires exists i | 0 <= i < |t.actions| :: t.actions[i].status.Planned?
    ensures exists a :: Enabled(t, Act(a, Promote))
  {
    ReachableInvariant(t);
    var g := DependencyGraph(t.actions);
    var order :| Graph.TopologicalOrder(g, order);
    var i :| 0 <= i < |t.actions| && t.actions[i].status.Planned?;
    assert i in g;
    var p :| 0 <= p < |order| && order[p] == i;
    var a := EarliestPlanned(t, order, p);
    assert Enabled(t, Act(a, Promote));
  }

  lemma {:induction false} EarliestPlanned(t: State, order: seq<Id>, p: nat) returns (a: Id)
    requires Live(t) && NothingBlocks(t) && Graph.TopologicalOrder(DependencyGraph(t.actions), order)
    requires p < |order| && IsAction(t, order[p]) && t.actions[order[p]].status.Planned?
    ensures MoveOk(t, a, Promote)
    decreases p
  {
    a := order[p];
    var g, r := DependencyGraph(t.actions), t.actions[a];
    assert a in g && g[a] == r.spec.dependsOn;
    if !DependenciesMet(t, r) {
      var k :| 0 <= k < |r.spec.dependsOn| &&
               !(IsAction(t, r.spec.dependsOn[k])
                   && Acceptable(t.actions[r.spec.dependsOn[k]].status, r.spec.tolerates));
      var d := r.spec.dependsOn[k];
      assert d in g[order[p]] && d in order[..p];
      var q :| 0 <= q < p && order[q] == d;
      a := EarliestPlanned(t, order, q);
    }
  }
}

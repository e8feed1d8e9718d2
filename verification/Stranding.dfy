/** When a live task cannot go on: planned rows behind a dependency that ended in a way
    they do not accept. */
module Stranding {
  import opened Wrappers
  import opened Lifecycle
  import Graph
  import opened Model
  import opened Dependencies
  import opened Runs

  /** A planned row behind a dependency that ended in a way it does not accept. */
  ghost predicate Stranded(rows: seq<Action>, a: Id, d: Id) {
    && 0 <= a < |rows| && 0 <= d < |rows| && d in rows[a].spec.dependsOn && rows[a].status.Planned?
    && rows[d].status.Terminal() && !Acceptable(rows[d].status, rows[a].spec.tolerates)
  }

  predicate Unfinished(s: State) {
    s.task.status.TaskReady? || s.task.status.TaskRunning? || s.task.status.TaskWaiting?
  }

  /** Neither the deadline nor a cancellation. */
  ghost predicate OnItsOwn(steps: seq<Step>) {
    forall step <- steps :: !step.ExpireTask? && !step.CancelTask?
  }

  // ------------------------------------------------------------ a stranded row stays

  lemma StrandedCannotMove(s: State, a: Id, d: Id, b: Id, m: Move)
    requires Stranded(s.actions, a, d) && Unfinished(s) && MoveOk(s, b, m)
    ensures b != d && b != a
  {
    var k :| 0 <= k < |s.actions[a].spec.dependsOn| && s.actions[a].spec.dependsOn[k] == d;
  }

  lemma StepKeepsStranded(s: State, a: Id, d: Id, step: Step)
    requires Stranded(s.actions, a, d) && Unfinished(s) && Enabled(s, step) && !step.ExpireTask? && !step.CancelTask?
    ensures Stranded(Apply(s, step).actions, a, d) && Unfinished(Apply(s, step))
    ensures |Apply(s, step).actions| == |s.actions|
    ensures !step.Act? ==> Apply(s, step).actions == s.actions
  {
    assert !AllTerminal(s.actions) && s.actions != [];
    if step.Act? {
      StrandedCannotMove(s, a, d, step.a, step.move);
      var t := Apply(s, step);
      assert t.actions[a] == s.actions[a] && !AllTerminal(t.actions);
    }
  }

  /** A failed action leaves its planned dependents non-terminal for good: such a
      task neither completes, nor fails, nor replans, nor asks for help. Only its
      deadline or a cancellation ends it. */
  lemma {:induction false} StrandedTaskNeverCompletes(s: State, a: Id, d: Id, steps: seq<Step>, t: State)
    requires Stranded(s.actions, a, d) && Unfinished(s) && Run(s, steps, t) && OnItsOwn(steps)
    ensures Stranded(t.actions, a, d) && Unfinished(t)
    decreases |steps|
  {
    if steps != [] {
      assert steps[0] in steps;
      StepKeepsStranded(s, a, d, steps[0]);
      StrandedTaskNeverCompletes(Apply(s, steps[0]), a, d, steps[1..], t);
    }
  }

  // ------------------------------------------------------------------- doomed rows

  ghost predicate PlannedWalk(rows: seq<Action>, walk: seq<Id>) {
    && Graph.IsWalk(DependencyGraph(rows), walk)
    && forall i | 0 <= i < |walk| :: 0 <= walk[i] < |rows| && rows[walk[i]].status.Planned?
  }

  ghost predicate DoomedBy(rows: seq<Action>, a: Id, walk: seq<Id>, d: Id) {
    PlannedWalk(rows, walk) && walk[0] == a && Stranded(rows, walk[|walk| - 1], d)
  }

  /** Stranded, or planned behind planned rows the last of which is. */
  ghost predicate Doomed(rows: seq<Action>, a: Id) {
    exists walk, d :: DoomedBy(rows, a, walk, d)
  }

  lemma DoomedCannotStart(s: State, a: Id)
    requires Doomed(s.actions, a)
    ensures IsAction(s, a) && s.actions[a].status.Planned? && !DependenciesMet(s, s.actions[a])
  {
    var walk, d :| DoomedBy(s.actions, a, walk, d);
    var r := s.actions[a];
    if |walk| == 1 {
      var k :| 0 <= k < |r.spec.dependsOn| && r.spec.dependsOn[k] == d;
    } else {
      assert walk[0] in DependencyGraph(s.actions) && walk[0 + 1] in DependencyGraph(s.actions)[walk[0]];
      var k :| 0 <= k < |r.spec.dependsOn| && r.spec.dependsOn[k] == walk[1];
      assert s.actions[walk[1]].status.Planned?;
    }
  }

  lemma TailIsDoomed(s: State, a: Id, walk: seq<Id>, d: Id, i: nat)
    requires DoomedBy(s.actions, a, walk, d) && i < |walk|
    ensures Doomed(s.actions, walk[i])
  {
    var tail := walk[i..];
    forall k | 0 <= k < |tail| - 1
      ensures tail[k] in DependencyGraph(s.actions) && tail[k + 1] in DependencyGraph(s.actions)[tail[k]]
    {
      assert walk[i + k] in DependencyGraph(s.actions) && walk[(i + k) + 1] in DependencyGraph(s.actions)[walk[i + k]];
    }
    assert DoomedBy(s.actions, walk[i], tail, d);
  }

  lemma DoomedRowsUnmoved(s: State, a: Id, b: Id, m: Move)
    requires Doomed(s.actions, a) && MoveOk(s, b, m)
    ensures b != a
  {
    DoomedCannotStart(s, a);
  }

  lemma StepKeepsDoomed(s: State, a: Id, walk: seq<Id>, d: Id, step: Step)
    requires DoomedBy(s.actions, a, walk, d) && Unfinished(s) && Enabled(s, step) && !step.ExpireTask?
             && !step.CancelTask?
    ensures DoomedBy(Apply(s, step).actions, a, walk, d) && Unfinished(Apply(s, step))
  {
    var t := Apply(s, step);
    StepKeepsStranded(s, walk[|walk| - 1], d, step);
    if step.Act? {
      MoveKeepsEdges(s, step.a, step.move);
      SameEdges(s.actions, t.actions);
      forall i | 0 <= i < |walk| ensures t.actions[walk[i]] == s.actions[walk[i]] {
        TailIsDoomed(s, a, walk, d, i);
        DoomedRowsUnmoved(s, walk[i], step.a, step.move);
      }
    }
  }

  /** A doomed row never starts, whatever its task and the other rows go on to do. */
  lemma {:induction false} DoomedRowNeverStarts(s: State, a: Id, steps: seq<Step>, t: State)
    requires Doomed(s.actions, a) && Unfinished(s) && Run(s, steps, t) && OnItsOwn(steps)
    ensures Doomed(t.actions, a) && t.actions[a].status.Planned? && Unfinished(t)
    decreases |steps|
  {
    if steps != [] {
      assert steps[0] in steps;
      var walk, d :| DoomedBy(s.actions, a, walk, d);
      StepKeepsDoomed(s, a, walk, d, steps[0]);
      DoomedRowNeverStarts(Apply(s, steps[0]), a, steps[1..], t);
    } else {
      DoomedCannotStart(s, a);
    }
  }

  // --------------------------------------------------------- exactly when a task sticks

  /** Nothing is in flight, and some row has not begun. */
  ghost predicate Idle(rows: seq<Action>) {
    && (forall i | 0 <= i < |rows| :: rows[i].status.Planned? || rows[i].status.Terminal())
    && exists i | 0 <= i < |rows| :: rows[i].status.Planned?
  }

  ghost predicate AllDoomed(rows: seq<Action>) {
    forall i | 0 <= i < |rows| && rows[i].status.Planned? :: Doomed(rows, i)
  }

  /** No run that spares the deadline and a cancellation ever moves a row or ends the task. */
  ghost predicate StuckForever(s: State) {
    forall steps, u :: Run(s, steps, u) && OnItsOwn(steps) ==> u.actions == s.actions && Live(u)
  }

  /** Following unmet dependencies down an order from a planned row of an idle task ends
      at a row that can be promoted, or shows the row doomed. */
  lemma {:induction false} BlockedIsDoomed(t: State, order: seq<Id>, p: nat)
    requires Live(t) && Idle(t.actions) && Graph.Closed(DependencyGraph(t.actions))
    requires Graph.TopologicalOrder(DependencyGraph(t.actions), order)
    requires p < |order| && IsAction(t, order[p]) && t.actions[order[p]].status.Planned?
    requires forall b :: !MoveOk(t, b, Promote)
    ensures Doomed(t.actions, order[p])
    decreases p
  {
    var a, g := order[p], DependencyGraph(t.actions);
    var r := t.actions[a];
    assert a in g && g[a] == r.spec.dependsOn;
    assert !MoveOk(t, a, Promote);
    var k :| 0 <= k < |r.spec.dependsOn| &&
             !(IsAction(t, r.spec.dependsOn[k]) && Acceptable(t.actions[r.spec.dependsOn[k]].status, r.spec.tolerates));
    var d := r.spec.dependsOn[k];
    assert d in g[a] && d in g;
    if t.actions[d].status.Terminal() {
      assert DoomedBy(t.actions, a, [a], d);
    } else {
      assert d in g[order[p]] && d in order[..p];
      var q :| 0 <= q < p && order[q] == d;
      BlockedIsDoomed(t, order, q);
      var walk, e :| DoomedBy(t.actions, d, walk, e);
      StepBefore(t, a, d, walk, e);
    }
  }

  lemma StepBefore(t: State, a: Id, d: Id, walk: seq<Id>, e: Id)
    requires DoomedBy(t.actions, d, walk, e) && IsAction(t, a) && t.actions[a].status.Planned?
             && d in t.actions[a].spec.dependsOn
    ensures Doomed(t.actions, a)
  {
    var longer, g := [a] + walk, DependencyGraph(t.actions);
    forall i | 0 <= i < |longer| - 1 ensures longer[i] in g && longer[i + 1] in g[longer[i]] {
      if i > 0 { assert walk[i - 1] in g && walk[(i - 1) + 1] in g[walk[i - 1]]; }
    }
    assert DoomedBy(t.actions, a, longer, e);
  }

  lemma RestingRowMoves(s: State, b: Id, m: Move)
    requires Live(s) && MoveOk(s, b, m) && (s.actions[b].status.Planned? || s.actions[b].status.Terminal())
    ensures m.Promote? && s.actions[b].status.Planned? && DependenciesMet(s, s.actions[b])
  {
    hide DecisionFor, Usable, Covers, DependenciesMet, EndingOk;
  }

  lemma NothingToMove(s: State, b: Id, m: Move)
    requires Live(s) && Idle(s.actions) && AllDoomed(s.actions)
    ensures !MoveOk(s, b, m)
  {
    hide MoveOk, Live, Doomed, DependenciesMet;
    if MoveOk(s, b, m) {
      MovesAreOfRows(s, b, m);
      RestingRowMoves(s, b, m);
      DoomedCannotStart(s, b);
    }
  }

  lemma MovesAreOfRows(s: State, b: Id, m: Move)
    requires MoveOk(s, b, m)
    ensures IsAction(s, b)
  {
  }

  lemma IdleIsUnsettled(s: State)
    requires Idle(s.actions)
    ensures s.actions != [] && !AllTerminal(s.actions)
  {
  }

  lemma TaskStepsLeaveIdleRows(s: State, step: Step)
    requires Live(s) && s.actions != [] && !AllTerminal(s.actions)
    requires Enabled(s, step) && !step.Act? && !step.ExpireTask? && !step.CancelTask? && !step.BlockTask?
    ensures Apply(s, step).actions == s.actions && Live(Apply(s, step))
  {
    hide AllTerminal, AnyStatus, FreshPlan, Tolerated;
  }

  lemma IdleIsNotBlocked(s: State)
    requires Idle(s.actions)
    ensures !Enabled(s, BlockTask)
  {
  }

  lemma DoomedTaskStandsStill(s: State, step: Step)
    requires Live(s) && Idle(s.actions) && AllDoomed(s.actions) && Enabled(s, step) && !step.ExpireTask?
             && !step.CancelTask?
    ensures Apply(s, step).actions == s.actions && Live(Apply(s, step))
  {
    hide Idle, AllDoomed, Live, MoveOk, AllTerminal;
    IdleIsUnsettled(s);
    IdleIsNotBlocked(s);
    if step.Act? { NothingToMove(s, step.a, step.move); }
    else { TaskStepsLeaveIdleRows(s, step); }
  }

  lemma {:induction false} DoomedTaskIsStuck(s: State, steps: seq<Step>, t: State)
    requires Live(s) && Idle(s.actions) && AllDoomed(s.actions) && Run(s, steps, t) && OnItsOwn(steps)
    ensures t.actions == s.actions && Live(t)
    decreases |steps|
  {
    hide Live, Idle, AllDoomed, Enabled, Apply;
    if steps != [] {
      assert steps[0] in steps;
      DoomedTaskStandsStill(s, steps[0]);
      DoomedTaskIsStuck(Apply(s, steps[0]), steps[1..], t);
    }
  }

  lemma PromotionMoves(t: State, b: Id)
    requires MoveOk(t, b, Promote)
    ensures !StuckForever(t)
  {
    var u := Apply(t, Act(b, Promote));
    assert [Act(b, Promote)][1..] == [];
    assert Run(t, [Act(b, Promote)], u);
    assert OnItsOwn([Act(b, Promote)]);
    assert u.actions[b].status != t.actions[b].status;
  }

  lemma StoredOrder(t: State) returns (order: seq<Id>)
    requires Reachable(t)
    ensures Graph.Closed(DependencyGraph(t.actions)) && Graph.TopologicalOrder(DependencyGraph(t.actions), order)
  {
    ReachableInvariant(t);
    order :| Graph.TopologicalOrder(DependencyGraph(t.actions), order);
  }

  lemma NothingPromotesMeansDoomed(t: State)
    requires Reachable(t) && Live(t) && Idle(t.actions) && forall b :: !MoveOk(t, b, Promote)
    ensures AllDoomed(t.actions)
  {
    hide Reachable, MoveOk, Live, Doomed;
    var order := StoredOrder(t);
    forall i | 0 <= i < |t.actions| && t.actions[i].status.Planned? ensures Doomed(t.actions, i) {
      assert i in DependencyGraph(t.actions);
      var p :| 0 <= p < |order| && order[p] == i;
      BlockedIsDoomed(t, order, p);
    }
  }

  lemma SomeRowIsStranded(t: State)
    requires Idle(t.actions) && AllDoomed(t.actions)
    ensures exists a, d :: Stranded(t.actions, a, d)
  {
    hide Stranded, PlannedWalk, Graph.IsWalk;
    var i :| 0 <= i < |t.actions| && t.actions[i].status.Planned?;
    assert Doomed(t.actions, i);
    var walk, d :| DoomedBy(t.actions, i, walk, d);
  }

  lemma DoomedMeansStuck(t: State)
    requires Live(t) && Idle(t.actions) && AllDoomed(t.actions)
    ensures StuckForever(t)
  {
    hide Run, Live, OnItsOwn, Idle, AllDoomed;
    forall steps, u | Run(t, steps, u) && OnItsOwn(steps) ensures u.actions == t.actions && Live(u) {
      DoomedTaskIsStuck(t, steps, u);
    }
  }

  /** An idle live task sticks for good exactly when nothing can be promoted, which is
      exactly when every row that has not begun is doomed; and then one is stranded. */
  lemma IdleTaskIsStuckIff(t: State)
    requires Reachable(t) && Live(t) && Idle(t.actions)
    ensures StuckForever(t) <==> AllDoomed(t.actions)
    ensures StuckForever(t) <==> forall b :: !MoveOk(t, b, Promote)
    ensures StuckForever(t) ==> exists a, d :: Stranded(t.actions, a, d)
  {
    hide Reachable, Live, Idle, AllDoomed, StuckForever, MoveOk, Stranded;
    if b :| MoveOk(t, b, Promote) {
      PromotionMoves(t, b);
      if AllDoomed(t.actions) { NothingToMove(t, b, Promote); }
    } else {
      NothingPromotesMeansDoomed(t);
      DoomedMeansStuck(t);
      SomeRowIsStranded(t);
    }
  }
}

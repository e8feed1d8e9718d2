/** The order in which rows became SUCCEEDED agrees with the stored graph, through
    retries, replans and cancellation. */
module Successes {
  import opened Wrappers
  import opened Lifecycle
  import opened Graph
  import opened Model
  import opened Dependencies

  predicate Done(r: Action) {
    r.status.Succeeded? || r.status.RolledBack?
  }

  /** The record lists each SUCCEEDED or ROLLED_BACK row once and nothing else. */
  ghost predicate SuccessesListed(s: State) {
    && NoDuplicates(s.log.succeeded)
    && (forall a <- s.log.succeeded :: IsAction(s, a))
    && (forall a | 0 <= a < |s.actions| :: a in s.log.succeeded <==> Done(s.actions[a]))
  }

  /** Nothing succeeded before something it transitively depends on. */
  ghost predicate SuccessesOrdered(s: State) {
    forall i, j | 0 <= i < j < |s.log.succeeded| ::
      !Reaches(DependencyGraph(s.actions), s.log.succeeded[i], s.log.succeeded[j])
  }

  ghost predicate SuccessesOk(s: State) {
    SuccessesListed(s) && SuccessesOrdered(s)
  }

  /** Everything a started row transitively depends on has ended acceptably. */
  lemma {:induction false} WalkHasEnded(s: State, walk: seq<Id>, n: nat)
    requires DependenciesRespected(s) && IsWalk(DependencyGraph(s.actions), walk)
    requires IsAction(s, walk[0]) && Started(s.actions[walk[0]]) && 0 < n < |walk|
    ensures IsAction(s, walk[n])
    ensures var r := s.actions[walk[n]]; Done(r) || r.status.Unverified?
    decreases n
  {
    if n > 1 { WalkHasEnded(s, walk, n - 1); }
    var g, c := DependencyGraph(s.actions), s.task.status.TaskCancelled?;
    var r := s.actions[walk[n - 1]];
    assert walk[n - 1] in g && walk[(n - 1) + 1] in g[walk[n - 1]];
    assert RowGrounded(s.actions, c, r);
    var k :| 0 <= k < |r.spec.dependsOn| && r.spec.dependsOn[k] == walk[n];
    assert Grounded(s.actions, c, r.spec.tolerates, r.spec.dependsOn[k]);
  }

  lemma RunningIsUnreached(s: State, a: Id, b: Id)
    requires DependenciesRespected(s) && IsAction(s, a) && Done(s.actions[a])
    requires IsAction(s, b) && s.actions[b].status.Running?
    ensures !Reaches(DependencyGraph(s.actions), a, b)
  {
    var g := DependencyGraph(s.actions);
    if Reaches(g, a, b) {
      var walk :| IsWalk(g, walk) && |walk| >= 2 && walk[0] == a && walk[|walk| - 1] == b;
      WalkHasEnded(s, walk, |walk| - 1);
      assert false;
    }
  }

  lemma EndingCompletes(s: State, r: Action, e: Ending)
    requires r.status.Running? && EndingOk(s, r, e)
    ensures Done(FinishRow(s, r, e)) <==> FinishRow(s, r, e).status.Succeeded?
  {
  }

  lemma MoveCompletes(s: State, a: Id, m: Move)
    requires MoveOk(s, a, m)
    ensures IsAction(s, a)
    ensures var r := MoveRow(s, a, m);
            MoveLog(s, a, m).succeeded ==
            if !Done(s.actions[a]) && Done(r) then s.log.succeeded + [a] else s.log.succeeded
    ensures Done(s.actions[a]) ==> Done(MoveRow(s, a, m))
    ensures Done(MoveRow(s, a, m)) && !Done(s.actions[a]) ==> s.actions[a].status.Running?
  {
    if m.Finish? { EndingCompletes(s, s.actions[a], m.ending); }
  }

  lemma MoveKeepsSuccesses(s: State, a: Id, m: Move)
    requires DependenciesRespected(s) && SuccessesOk(s) && MoveOk(s, a, m)
    ensures SuccessesOk(ApplyMove(s, a, m))
  {
    hide MoveOk, MoveRow, MoveLog, MoveTask, MoveApprovals, Executes, Reaches, DependenciesRespected;
    var t := ApplyMove(s, a, m);
    MoveCompletes(s, a, m);
    MoveKeepsEdges(s, a, m);
    Dependencies.SameEdges(s.actions, t.actions);
    forall i, j | 0 <= i < j < |t.log.succeeded|
      ensures t.log.succeeded[i] != t.log.succeeded[j]
      ensures !Reaches(DependencyGraph(t.actions), t.log.succeeded[i], t.log.succeeded[j])
    {
      var b := s.log.succeeded[i];
      assert t.log.succeeded[i] == b && b in s.log.succeeded;
      if j < |s.log.succeeded| {
        assert t.log.succeeded[j] == s.log.succeeded[j];
      } else {
        RunningIsUnreached(s, b, a);
      }
    }
  }

  /** A walk from a node of a closed graph never leaves it for what was added around it. */
  lemma {:induction false} WalkStays(g: Graph<Id>, u: Graph<Id>, walk: seq<Id>, n: nat)
    requires Closed(g) && forall i <- g :: i in u && u[i] == g[i]
    requires IsWalk(u, walk) && walk[0] in g && n < |walk|
    ensures walk[n] in g
    decreases n
  {
    if n > 0 {
      WalkStays(g, u, walk, n - 1);
      assert walk[n - 1] in u && walk[(n - 1) + 1] in u[walk[n - 1]];
    }
  }

  lemma ReachesStays(g: Graph<Id>, u: Graph<Id>, a: Id, b: Id)
    requires Closed(g) && forall i <- g :: i in u && u[i] == g[i]
    requires a in g && Reaches(u, a, b)
    ensures Reaches(g, a, b)
  {
    var walk :| IsWalk(u, walk) && |walk| >= 2 && walk[0] == a && walk[|walk| - 1] == b;
    forall n | 0 <= n < |walk| - 1 ensures walk[n] in g && walk[n + 1] in g[walk[n]] {
      WalkStays(g, u, walk, n);
    }
    assert IsWalk(g, walk);
  }

  lemma GrownRowsKeepSuccesses(s: State, t: State)
    requires GraphOk(s) && SuccessesOk(s) && t.log == s.log && |s.actions| <= |t.actions|
    requires forall i | 0 <= i < |s.actions| ::
               Done(s.actions[i]) == Done(t.actions[i]) && s.actions[i].spec == t.actions[i].spec
    requires forall i | |s.actions| <= i < |t.actions| :: !Done(t.actions[i])
    ensures SuccessesOk(t)
  {
    var g, u := DependencyGraph(s.actions), DependencyGraph(t.actions);
    forall i, j | 0 <= i < j < |t.log.succeeded| ensures !Reaches(u, t.log.succeeded[i], t.log.succeeded[j]) {
      assert s.log.succeeded[i] in s.log.succeeded && s.log.succeeded[i] in g;
      if Reaches(u, t.log.succeeded[i], t.log.succeeded[j]) {
        ReachesStays(g, u, s.log.succeeded[i], s.log.succeeded[j]);
      }
    }
  }

  lemma OtherStepCompletesNothing(s: State, step: Step)
    requires Enabled(s, step) && !step.Act?
    ensures Apply(s, step).log == s.log && |s.actions| <= |Apply(s, step).actions|
    ensures forall i | 0 <= i < |s.actions| ::
              Done(s.actions[i]) == Done(Apply(s, step).actions[i])
                  && s.actions[i].spec == Apply(s, step).actions[i].spec
    ensures forall i | |s.actions| <= i < |Apply(s, step).actions| :: !Done(Apply(s, step).actions[i])
  {
    OtherStepFrame(s, step);
    if WritesRows(step) { RowStepCompletesNothing(s, step); } else { hide Enabled, Apply; }
  }

  lemma RowStepCompletesNothing(s: State, step: Step)
    requires Enabled(s, step) && WritesRows(step)
    ensures |s.actions| <= |Apply(s, step).actions|
    ensures forall i | 0 <= i < |s.actions| ::
              Done(s.actions[i]) == Done(Apply(s, step).actions[i])
                  && s.actions[i].spec == Apply(s, step).actions[i].spec
    ensures forall i | |s.actions| <= i < |Apply(s, step).actions| :: !Done(Apply(s, step).actions[i])
  {
    hide Live, Settled, AllTerminal, AnyStatus, Tolerated;
  }

  lemma StepKeepsSuccesses(s: State, step: Step)
    requires GraphOk(s) && DependenciesRespected(s) && SuccessesOk(s) && Enabled(s, step)
    ensures SuccessesOk(Apply(s, step))
  {
    hide GraphOk, DependenciesRespected, SuccessesOk;
    if step.Act? {
      MoveKeepsSuccesses(s, step.a, step.move);
    } else {
      OtherStepCompletesNothing(s, step);
      GrownRowsKeepSuccesses(s, Apply(s, step));
    }
  }
}

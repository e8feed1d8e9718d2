/** The hypotheses of the undo theorem, discharged by the runtime: whatever order workers,
    retries and crashes led to, the successes of a task can be undone in the compensation
    order (vyomel/runtime/cancel.py, vyomel/runtime/scheduler.py). */
module Rollback {
  import opened Model
  import opened Graph
  import opened FileTools
  import opened Undo
  import opened Claims
  import Successes
  import Runs

  /** The file operations of the rows that succeeded, in the order in which they did. */
  ghost predicate AreTheSuccesses(t: State, runs: seq<Ran>) {
    |runs| == |t.log.succeeded| && forall i | 0 <= i < |runs| :: runs[i].id == t.log.succeeded[i]
  }

  /** In every reachable state the successes come once each, are the SUCCEEDED and the
      ROLLED_BACK rows, and none comes before something it transitively depends on. A row
      that took one attempt was claimed once. */
  lemma SuccessesAreConsistent(t: State, runs: seq<Ran>)
    requires Reachable(t) && AreTheSuccesses(t, runs)
    ensures OncePerId(runs) && Consistent(DependencyGraph(t.actions), runs)
    ensures forall i | 0 <= i < |runs| :: IsAction(t, runs[i].id)
    ensures forall a | 0 <= a < |t.actions| ::
              (exists i | 0 <= i < |runs| :: runs[i].id == a) <==> Successes.Done(t.actions[a])
    ensures forall a | 0 <= a < |t.actions| && t.actions[a].attempts == 1 :: ClaimCount(t.log.claims, a) == 1
  {
    hide Reaches;
    Runs.ReachableInvariant(t);
    forall i | 0 <= i < |runs| ensures IsAction(t, runs[i].id) { assert t.log.succeeded[i] in t.log.succeeded; }
    forall a | 0 <= a < |t.actions|
      ensures (exists i | 0 <= i < |runs| :: runs[i].id == a) <==> Successes.Done(t.actions[a])
    {
      if i :| 0 <= i < |runs| && runs[i].id == a { assert t.log.succeeded[i] in t.log.succeeded; }
      if a in t.log.succeeded {
        var i :| 0 <= i < |t.log.succeeded| && t.log.succeeded[i] == a;
        assert runs[i].id == a;
      }
    }
  }

  /** Hence, after any run of the system: if each success ran its file operation once, found
      its source, and shares files only with rows it depends on or that depend on it, then
      undoing them in the compensation order of the stored graph gives back every user file. */
  lemma ReachableTaskIsUndoable(t: State, files: Files, runs: seq<Ran>, order: seq<Id>, stored: map<Id, (Op, Output)>)
    requires Reachable(t) && AreTheSuccesses(t, runs)
    requires AllFound(files, runs) && Recorded(files, runs, stored)
    requires UnrelatedAreDisjoint(DependencyGraph(t.actions), runs)
    requires CompensationOrder(DependencyGraph(t.actions), order)
    ensures SameForUser(Undone(After(files, runs, |runs|), order, stored, |order|), files)
  {
    hide Reachable, AreTheSuccesses, AllFound, Recorded, UnrelatedAreDisjoint, CompensationOrder, Consistent;
    SuccessesAreConsistent(t, runs);
    forall j | 0 <= j < |runs| ensures runs[j].id in DependencyGraph(t.actions) { assert IsAction(t, runs[j].id); }
    CancelRestoresTheStart(DependencyGraph(t.actions), files, runs, order, stored);
  }
}

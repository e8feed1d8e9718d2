/** The stored graph stays closed and acyclic, and execution respects it. */
module Dependencies {
  import opened Wrappers
  import opened Lifecycle
  import opened Graph
  import opened Model

  // ------------------------------------------------------------ the stored graph

  ghost predicate GraphOk(s: State) {
    Closed(DependencyGraph(s.actions)) && Orderable(DependencyGraph(s.actions))
  }

  lemma SameEdges(xs: seq<Action>, ys: seq<Action>)
    requires |xs| == |ys| && forall i | 0 <= i < |xs| :: xs[i].spec.dependsOn == ys[i].spec.dependsOn
    ensures DependencyGraph(xs) == DependencyGraph(ys)
  {
    var g, h := DependencyGraph(xs), DependencyGraph(ys);
    assert g.Keys == h.Keys;
    forall i | i in g ensures g[i] == h[i] {}
  }

  lemma AppendedEdges(xs: seq<Action>, rows: seq<Action>, i: Id)
    ensures i in DependencyGraph(xs + rows) <==> i in DependencyGraph(xs) || i in BlockGraph(rows, |xs|)
    ensures i in DependencyGraph(xs) ==> DependencyGraph(xs + rows)[i] == DependencyGraph(xs)[i]
    ensures i in BlockGraph(rows, |xs|) ==> DependencyGraph(xs + rows)[i] == BlockGraph(rows, |xs|)[i]
  {
  }

  /** Appending a block that depends only on itself keeps both properties. */
  lemma AppendKeepsGraph(xs: seq<Action>, rows: seq<Action>)
    requires Closed(DependencyGraph(xs)) && Orderable(DependencyGraph(xs))
    requires Closed(BlockGraph(rows, |xs|)) && Orderable(BlockGraph(rows, |xs|))
    ensures Closed(DependencyGraph(xs + rows)) && Orderable(DependencyGraph(xs + rows))
  {
    var g, h, u := DependencyGraph(xs), BlockGraph(rows, |xs|), DependencyGraph(xs + rows);
    forall i ensures (i in u <==> i in g || i in h) && (i in g ==> u[i] == g[i]) && (i in h ==> u[i] == h[i]) {
      AppendedEdges(xs, rows, i);
    }
    var o1 :| TopologicalOrder(g, o1);
    var o2 :| TopologicalOrder(h, o2);
    ConcatIsOrder(g, h, u, o1, o2);
  }

  lemma ConcatIsOrder(g: Graph<Id>, h: Graph<Id>, u: Graph<Id>, o1: seq<Id>, o2: seq<Id>)
    requires g.Keys !! h.Keys && Closed(g) && Closed(h)
    requires forall i :: (i in u <==> i in g || i in h) && (i in g ==> u[i] == g[i]) && (i in h ==> u[i] == h[i])
    requires TopologicalOrder(g, o1) && TopologicalOrder(h, o2)
    ensures TopologicalOrder(u, o1 + o2)
  {
    var o := o1 + o2;
    assert Lists(o, u.Keys) by {
      forall i, j | 0 <= i < j < |o| ensures o[i] != o[j] {
        if i < |o1| <= j { assert o[i] in g && o[j] in h; }
      }
      forall x | x in u.Keys ensures x in o { if x in g { assert x in o1; } else { assert x in o2; } }
    }
    forall i, d | 0 <= i < |o| && o[i] in u && d in u[o[i]] ensures d in o[..i] {
      if i < |o1| {
        assert o[..i] == o1[..i] && o[i] == o1[i] && o1[i] in g;
        assert d in g[o1[i]];
        assert d in o1[..i];
      } else {
        var j := i - |o1|;
        assert o[..i] == o1 + o2[..j] && o[i] == o2[j] && o2[j] in h;
        assert d in h[o2[j]];
        assert d in o2[..j];
      }
    }
  }

  lemma EndingKeepsEdges(s: State, r: Action, e: Ending)
    ensures FinishRow(s, r, e).spec == r.spec
  {
  }

  lemma MoveKeepsEdges(s: State, a: Id, m: Move)
    requires MoveOk(s, a, m)
    ensures MoveRow(s, a, m).spec == s.actions[a].spec
  {
    if m.Finish? { EndingKeepsEdges(s, s.actions[a], m.ending); }
  }

  lemma BlockAtZero(rows: seq<Action>)
    ensures BlockGraph(rows, 0) == DependencyGraph(rows)
  {
    var g, h := BlockGraph(rows, 0), DependencyGraph(rows);
    assert g.Keys == h.Keys;
    forall i | i in g ensures g[i] == h[i] {}
  }

  /** Through install and any number of replans the stored graph stays closed and
      acyclic, so `reverse_topo` never raises on it. */
  lemma StepKeepsGraph(s: State, step: Step)
    requires GraphOk(s) && Enabled(s, step)
    ensures GraphOk(Apply(s, step))
  {
    match step {
      case Act(a, m) =>
        MoveKeepsEdges(s, a, m);
        SameEdges(s.actions, s.actions[a := MoveRow(s, a, m)]);
      case Install(rows, _) => BlockAtZero(rows);
      case Replan(f, rows) =>
        var xs := s.actions[f := s.actions[f].(status := Cancelled, cause := Some(ByReplan))];
        SameEdges(s.actions, xs);
        AppendKeepsGraph(xs, rows);
      case CancelTask => SameEdges(s.actions, CancelRows(s.actions));
      case _ =>
    }
  }

  // ----------------------------------------------------- execution respects edges

  /** Past PLANNED, other than by cancellation. */
  predicate Started(r: Action) {
    !r.status.Planned? && !r.status.Cancelled?
  }

  predicate Grounded(actions: seq<Action>, taskCancelled: bool, tolerates: bool, d: Id) {
    0 <= d < |actions| &&
    (Acceptable(actions[d].status, tolerates) || (actions[d].status.RolledBack? && taskCancelled))
  }

  predicate RowGrounded(actions: seq<Action>, taskCancelled: bool, r: Action) {
    Started(r) ==> forall k | 0 <= k < |r.spec.dependsOn| ::
        Grounded(actions, taskCancelled, r.spec.tolerates, r.spec.dependsOn[k])
  }

  ghost predicate DependenciesRespected(s: State) {
    forall i | 0 <= i < |s.actions| :: RowGrounded(s.actions, s.task.status.TaskCancelled?, s.actions[i])
  }

  /** What a status change may do to the rows that rely on it. */
  predicate Harmless(before: ActionStatus, after: ActionStatus, taskCancelled: bool) {
    && (before.Succeeded? ==> after.Succeeded? || (after.RolledBack? && taskCancelled))
    && (before.Unverified? ==> after.Unverified?)
    && (before.RolledBack? ==> after.RolledBack?)
  }

  lemma MoveIsHarmless(s: State, a: Id, m: Move)
    requires MoveOk(s, a, m)
    ensures Harmless(s.actions[a].status, MoveRow(s, a, m).status, s.task.status.TaskCancelled?)
    ensures Started(MoveRow(s, a, m)) ==> Started(s.actions[a]) || m.Promote?
  {
  }

  ghost predicate Evolved(xs: seq<Action>, ys: seq<Action>, taskCancelled: bool) {
    |xs| <= |ys| && forall i | 0 <= i < |xs| :: Harmless(xs[i].status, ys[i].status, taskCancelled)
  }

  lemma GroundedAfter(xs: seq<Action>, before: bool, ys: seq<Action>, after: bool, r: Action)
    requires Evolved(xs, ys, after) && (before ==> after)
    requires RowGrounded(xs, before, r)
    ensures RowGrounded(ys, after, r)
  {
    if Started(r) {
      forall k | 0 <= k < |r.spec.dependsOn| ensures Grounded(ys, after, r.spec.tolerates, r.spec.dependsOn[k]) {
        var d := r.spec.dependsOn[k];
        assert Grounded(xs, before, r.spec.tolerates, d);
        assert Harmless(xs[d].status, ys[d].status, after);
      }
    }
  }

  lemma MoveKeepsRespect(s: State, a: Id, m: Move)
    requires DependenciesRespected(s) && MoveOk(s, a, m)
    ensures DependenciesRespected(ApplyMove(s, a, m))
  {
    var t := ApplyMove(s, a, m);
    var cancelled := s.task.status.TaskCancelled?;
    MoveIsHarmless(s, a, m);
    MoveKeepsEdges(s, a, m);
    assert t.task.status.TaskCancelled? == cancelled;
    assert Evolved(s.actions, t.actions, cancelled);
    forall i | 0 <= i < |t.actions| ensures RowGrounded(t.actions, cancelled, t.actions[i]) {
      assert RowGrounded(s.actions, cancelled, s.actions[i]);
      GroundedAfter(s.actions, cancelled, t.actions, cancelled, s.actions[i]);
      if i == a && Started(t.actions[a]) && !Started(s.actions[a]) {
        PromotedIsGrounded(s, a, m);
        GroundedAfter(s.actions, cancelled, t.actions, cancelled, MoveRow(s, a, m));
      }
    }
  }

  lemma PromotedIsGrounded(s: State, a: Id, m: Move)
    requires MoveOk(s, a, m) && m.Promote?
    ensures RowGrounded(s.actions, s.task.status.TaskCancelled?, MoveRow(s, a, m))
  {
    var r := s.actions[a];
    forall k | 0 <= k < |r.spec.dependsOn|
      ensures Grounded(s.actions, s.task.status.TaskCancelled?, r.spec.tolerates, r.spec.dependsOn[k])
    {}
  }

  lemma ReplanKeepsRespect(s: State, f: Id, rows: seq<Action>)
    requires DependenciesRespected(s) && Enabled(s, Replan(f, rows))
    ensures DependenciesRespected(Apply(s, Replan(f, rows)))
  {
    var t := Apply(s, Replan(f, rows));
    assert Evolved(s.actions, t.actions, false);
    forall i | 0 <= i < |t.actions| ensures RowGrounded(t.actions, false, t.actions[i]) {
      if i < |s.actions| && i != f {
        assert t.actions[i] == s.actions[i];
        GroundedAfter(s.actions, false, t.actions, false, s.actions[i]);
      } else if i >= |s.actions| {
        assert t.actions[i] == rows[i - |s.actions|];
      }
    }
  }

  /** In every step: a row past PLANNED has each dependency succeeded, unverified
      where its own step tolerates that, or rolled back under a cancelled task. */
  lemma StepKeepsRespect(s: State, step: Step)
    requires DependenciesRespected(s) && Enabled(s, step)
    ensures DependenciesRespected(Apply(s, step))
  {
    var t := Apply(s, step);
    match step {
      case Act(a, m) => MoveKeepsRespect(s, a, m);
      case Replan(f, rows) => ReplanKeepsRespect(s, f, rows);
      case CancelTask =>
        forall i | 0 <= i < |t.actions| ensures RowGrounded(t.actions, true, t.actions[i]) {
          GroundedAfter(s.actions, s.task.status.TaskCancelled?, t.actions, true, s.actions[i]);
        }
      case _ =>
    }
  }
}

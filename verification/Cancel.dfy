/** Cancellation and ordered compensation (vyomel/runtime/cancel.py). */
module Cancel {
  import opened Wrappers
  import opened Lifecycle
  import opened Model
  import opened Repos
  import opened Runs
  import Dag
  import Dependencies
  import Dispatcher
  import Gate
  import Graph

  /** A compensation pass: what was undone, what cannot be, and what failed to. */
  datatype Pass = Pass(compensated: seq<Id>, irreversible: seq<Id>, failed: seq<Id>)

  datatype Report = Report(pass: Pass, stillRunning: seq<Id>)

  datatype CancelError = AlreadyTerminal(status: TaskStatus)

  // ------------------------------------------------------------- the stored graph

  lemma StoredGraph(actions: seq<Action>)
    ensures Dag.UniqueIds(Dispatcher.Nodes(actions))
    ensures Dag.GraphOf(Dispatcher.Nodes(actions)).Keys == DependencyGraph(actions).Keys
    ensures forall i, d | 0 <= i < |actions| :: d in Dag.GraphOf(Dispatcher.Nodes(actions))[i] <==>
            d in actions[i].spec.dependsOn
  {
    var nodes := Dispatcher.Nodes(actions);
    var g := Dag.GraphOf(nodes);
    forall i ensures i in Dag.Ids(nodes) <==> 0 <= i < |actions| {
      if 0 <= i < |actions| { assert nodes[i] in nodes; }
    }
    forall i, d | 0 <= i < |actions| ensures d in g[i] <==> d in actions[i].spec.dependsOn {
      Dag.GraphOfMeans(nodes, i, d);
      if d in actions[i].spec.dependsOn { assert nodes[i] in nodes; }
    }
  }

  /** `reverse_topo` never raises on the graph of a reachable state. */
  lemma StoredGraphAcyclic(s: State)
    requires Dependencies.GraphOk(s)
    ensures Dag.Acyclic(Dispatcher.Nodes(s.actions))
    ensures Graph.SameEdges(Dag.GraphOf(Dispatcher.Nodes(s.actions)), DependencyGraph(s.actions))
  {
    StoredGraph(s.actions);
    var g, h := DependencyGraph(s.actions), Dag.GraphOf(Dispatcher.Nodes(s.actions));
    var order :| Graph.TopologicalOrder(g, order);
    forall i, d | i in g ensures d in g[i] <==> d in h[i] { assert g[i] == s.actions[i].spec.dependsOn; }
    Graph.OrdersTransfer(g, h, order);
    forall id, d | id in h && d in h[id] ensures d in h { assert d in g[id]; }
  }

  // ----------------------------------------------------------------- compensation

  /** Positions in the undo order, so that a list's order can be read off. */
  ghost predicate InOrder(list: seq<Id>, order: seq<Id>, at: seq<nat>, k: nat) {
    && |at| == |list| && k <= |order|
    && (forall i | 0 <= i < |at| :: at[i] < k && order[at[i]] == list[i])
    && (forall i, j | 0 <= i < j < |at| :: at[i] < at[j])
  }

  /** The ids among the first k of the order that belong in a list. */
  ghost predicate Holds(list: seq<Id>, order: seq<Id>, k: nat, wanted: set<Id>)
    requires k <= |order|
  {
    && (forall x :: x in list <==> x in order[..k] && x in wanted)
    && exists at :: InOrder(list, order, at, k)
  }

  lemma HoldsNext(list: seq<Id>, order: seq<Id>, k: nat, wanted: set<Id>)
    requires k < |order| && Graph.NoDuplicates(order) && Holds(list, order, k, wanted)
    ensures Holds(if order[k] in wanted then list + [order[k]] else list, order, k + 1, wanted)
  {
    var at :| InOrder(list, order, at, k);
    var x := order[k];
    assert order[..k + 1] == order[..k] + [x];
    if x in wanted { assert InOrder(list + [x], order, at + [k], k + 1); }
    else { assert InOrder(list, order, at, k + 1); }
  }

  /** Whether a row goes into the list for this reversibility and this luck. */
  predicate Belongs(r: Action, isBroken: bool, reversible: bool, fails: bool) {
    r.status.Succeeded? && r.spec.reversible == reversible && (reversible ==> isBroken == fails)
  }

  function Wanted(actions: seq<Action>, reversible: bool, fails: bool, broken: set<Id>): set<Id> {
    set i | 0 <= i < |actions| && Belongs(actions[i], i in broken, reversible, fails)
  }

  /** Each list holds its share of the rows SUCCEEDED on entry once, dependents
      before anything they transitively depend on. */
  ghost predicate Sorted(list: seq<Id>, wanted: set<Id>, g: Graph.Graph<Id>) {
    && Graph.Lists(list, wanted)
    && forall i, j | 0 <= i < |list| && 0 <= j < |list| && Graph.Reaches(g, list[i], list[j]) :: i < j
  }

  lemma HoldsAll(list: seq<Id>, order: seq<Id>, wanted: set<Id>, g: Graph.Graph<Id>)
    requires Graph.CompensationOrder(g, order) && wanted <= g.Keys && Holds(list, order, |order|, wanted)
    ensures Sorted(list, wanted, g)
  {
    var at :| InOrder(list, order, at, |order|);
    assert order[..|order|] == order;
    forall x | x in wanted ensures x in list { assert x in order; }
    assert Graph.NoDuplicates(list) by {
      forall i, j | 0 <= i < j < |list| ensures list[i] != list[j] { assert at[i] < at[j]; }
    }
    forall i, j | 0 <= i < |list| && 0 <= j < |list| && Graph.Reaches(g, list[i], list[j]) ensures i < j {
      var walk :| Graph.IsWalk(g, walk) && |walk| >= 2 && walk[0] == list[i] && walk[|walk| - 1] == list[j];
      Graph.DependentsComeFirst(g, order, walk, at[i], |walk| - 1);
      var q :| at[i] < q < |order| && order[q] == list[j];
      assert q == at[j];
    }
  }

  lemma OrderPoint(actions: seq<Action>, order: seq<Id>, k: nat)
    requires Graph.CompensationOrder(DependencyGraph(actions), order) && k < |order|
    ensures 0 <= order[k] < |actions| && order[k] !in order[..k] && order[..k + 1] == order[..k] + [order[k]]
    ensures Graph.NoDuplicates(order)
  {
    assert order[k] in order;
  }

  function RollBack(r: Action): Action {
    r.(status := RolledBack)
  }

  /** One id of the order: skip it, list it as irreversible, or compensate it;
      `broken` holds the ids whose tool refuses to compensate. */
  method CompensateRow(db: Store, a: Id, broken: set<Id>, pass: Pass) returns (pass': Pass, ghost step: Option<Step>)
    requires db.task.status.TaskCancelled? && IsAction(db.Snap(), a)
    modifies db`actions
    ensures var r := old(db.actions)[a];
            && pass'.compensated == pass.compensated + (if Belongs(r, a in broken, true, false) then [a] else [])
            && pass'.irreversible == pass.irreversible + (if Belongs(r, a in broken, false, false) then [a] else [])
            && pass'.failed == pass.failed + (if Belongs(r, a in broken, true, true) then [a] else [])
            && (step.Some? <==> Belongs(r, a in broken, true, false))
            && db.actions == if step.Some? then old(db.actions)[a := RollBack(r)] else old(db.actions)
    ensures step.Some? ==> MoveOk(old(db.Snap()), a, Compensate) && step.value == Act(a, Compensate)
                           && db.Snap() == ApplyMove(old(db.Snap()), a, Compensate)
  {
    var r := db.actions[a];
    pass', step := pass, None;
    if r.status.Succeeded? {
      if !r.spec.reversible {
        pass' := pass.(irreversible := pass.irreversible + [a]);
      } else if a in broken {
        pass' := pass.(failed := pass.failed + [a]);
      } else {
        var _ := db.CasStatus(a, Succeeded, r.(status := RolledBack));
        pass' := pass.(compensated := pass.compensated + [a]);
        step := Some(Act(a, Compensate));
      }
    }
  }

  ghost predicate PassSoFar(actions: seq<Action>, order: seq<Id>, k: nat, broken: set<Id>, pass: Pass)
    requires k <= |order|
  {
    && Holds(pass.compensated, order, k, Wanted(actions, true, false, broken))
    && Holds(pass.irreversible, order, k, Wanted(actions, false, false, broken))
    && Holds(pass.failed, order, k, Wanted(actions, true, true, broken))
  }

  lemma PassStarts(actions: seq<Action>, order: seq<Id>, broken: set<Id>)
    ensures PassSoFar(actions, order, 0, broken, Pass([], [], []))
  {
    assert InOrder([], order, [], 0);
  }

  lemma PassNext(rows: seq<Action>, r: Action, order: seq<Id>, k: nat, broken: set<Id>, pass: Pass, pass': Pass)
    requires k < |order| && Graph.NoDuplicates(order) && PassSoFar(rows, order, k, broken, pass)
    requires 0 <= order[k] < |rows| && r == rows[order[k]]
    requires pass'.compensated == pass.compensated
             + (if Belongs(r, order[k] in broken, true, false) then [order[k]] else [])
    requires pass'.irreversible == pass.irreversible
             + (if Belongs(r, order[k] in broken, false, false) then [order[k]] else [])
    requires pass'.failed == pass.failed + (if Belongs(r, order[k] in broken, true, true) then [order[k]] else [])
    ensures PassSoFar(rows, order, k + 1, broken, pass')
  {
    hide Holds, Belongs, Graph.NoDuplicates;
    HoldsNext(pass.compensated, order, k, Wanted(rows, true, false, broken));
    HoldsNext(pass.irreversible, order, k, Wanted(rows, false, false, broken));
    HoldsNext(pass.failed, order, k, Wanted(rows, true, true, broken));
    assert pass.compensated + [] == pass.compensated && pass.irreversible + [] == pass.irreversible
      && pass.failed + [] == pass.failed;
  }

  /** What one pass reports about the rows it found. */
  ghost predicate PassOk(actions: seq<Action>, broken: set<Id>, pass: Pass) {
    var g := DependencyGraph(actions);
    && Sorted(pass.compensated, Wanted(actions, true, false, broken), g)
    && Sorted(pass.irreversible, Wanted(actions, false, false, broken), g)
    && Sorted(pass.failed, Wanted(actions, true, true, broken), g)
  }

  /** The steps of a pass, in the order of its compensated list. */
  function CompensateSteps(ids: seq<Id>): (steps: seq<Step>)
    ensures |steps| == |ids| && forall k | 0 <= k < |ids| :: steps[k] == Act(ids[k], Compensate)
  {
    seq(|ids|, k requires 0 <= k < |ids| => Act(ids[k], Compensate))
  }

  method UndoOrder(db: Store) returns (order: seq<Id>)
    requires Dependencies.GraphOk(db.Snap())
    ensures Graph.CompensationOrder(DependencyGraph(db.actions), order)
  {
    hide Dag.Acyclic, Dependencies.GraphOk, Graph.CompensationOrder;
    StoredGraphAcyclic(db.Snap());
    var reversed := Dag.ReverseTopo(Dispatcher.Nodes(db.actions));
    Graph.OrdersTransfer(Dag.GraphOf(Dispatcher.Nodes(db.actions)), DependencyGraph(db.actions), reversed.value);
    return reversed.value;
  }

  /** `_compensate_succeeded`: one pass. The rows SUCCEEDED on entry are split exactly
      into the three lists, precisely the compensated ones become ROLLED_BACK, and
      every dependent is compensated before anything it transitively depends on. */
  method CompensateSucceeded(db: Store, broken: set<Id>) returns (pass: Pass, ghost steps: seq<Step>)
    requires db.task.status.TaskCancelled? && Dependencies.GraphOk(db.Snap())
    modifies db`actions
    ensures Run(old(db.Snap()), steps, db.Snap()) && steps == CompensateSteps(pass.compensated)
    ensures PassOk(old(db.actions), broken, pass) && |db.actions| == |old(db.actions)|
    ensures forall i | 0 <= i < |db.actions| ::
              db.actions[i] == if i in pass.compensated then RollBack(old(db.actions)[i]) else old(db.actions)[i]
  {
    hide Run, Wanted, Belongs, PassSoFar, PassOk, Dependencies.GraphOk, Graph.CompensationOrder, Graph.NoDuplicates;
    hide ApplyMove, MoveOk, DependencyGraph;
    ghost var s0 := db.Snap();
    RunNothing(s0);
    var rows := db.actions;
    var order := UndoOrder(db);
    PassStarts(rows, order, broken);
    pass, steps := Pass([], [], []), [];
    for k := 0 to |order|
      invariant steps == CompensateSteps(pass.compensated)
      invariant Run(s0, steps, db.Snap()) && PassSoFar(rows, order, k, broken, pass)
      invariant |db.actions| == |rows|
      invariant forall i | 0 <= i < |rows| ::
                db.actions[i] == if i in pass.compensated then RollBack(rows[i]) else rows[i]
      invariant forall i <- pass.compensated :: i in order[..k]
    {
      OrderPoint(rows, order, k);
      ghost var before := db.Snap();
      var pass0 := pass;
      ghost var step;
      pass, step := CompensateRow(db, order[k], broken, pass);
      PassNext(rows, before.actions[order[k]], order, k, broken, pass0, pass);
      if step.Some? {
        RunAct(s0, steps, before, order[k], Compensate, db.Snap());
        steps := steps + [step.value];
      }
    }
    PassEnds(rows, order, broken, pass);
  }

  lemma PassEnds(rows: seq<Action>, order: seq<Id>, broken: set<Id>, pass: Pass)
    requires Graph.CompensationOrder(DependencyGraph(rows), order) && PassSoFar(rows, order, |order|, broken, pass)
    ensures PassOk(rows, broken, pass)
  {
    var g := DependencyGraph(rows);
    HoldsAll(pass.compensated, order, Wanted(rows, true, false, broken), g);
    HoldsAll(pass.irreversible, order, Wanted(rows, false, false, broken), g);
    HoldsAll(pass.failed, order, Wanted(rows, true, true, broken), g);
  }

  /** The three lists split the succeeded rows: each in exactly one of them. */
  lemma PassSplits(actions: seq<Action>, broken: set<Id>, pass: Pass, x: Id)
    requires PassOk(actions, broken, pass)
    ensures (0 <= x < |actions| && actions[x].status.Succeeded?) <==>
            x in pass.compensated || x in pass.irreversible || x in pass.failed
    ensures !(x in pass.compensated && x in pass.irreversible) && !(x in pass.compensated && x in pass.failed)
            && !(x in pass.irreversible && x in pass.failed)
  {
  }

  // ----------------------------------------------------------------- cancellation

  function WithStatus(actions: seq<Action>, status: ActionStatus): (ids: seq<Id>)
    ensures forall i :: i in ids <==> 0 <= i < |actions| && actions[i].status == status
  {
    if actions == [] then []
    else
      var n := |actions| - 1;
      WithStatus(actions[..n], status) + if actions[n].status == status then [n] else []
  }

  /** `_report_from`, for a task that was cancelled before. */
  function ReportFrom(actions: seq<Action>): Report {
    Report(Pass(WithStatus(actions, RolledBack), WithStatus(actions, Succeeded), []), WithStatus(actions, Running))
  }

  /** A row that has not started and has not ended. */
  predicate Unstarted(r: Action) {
    r.status in {Planned, Ready, Dispatched, WaitingForUser}
  }

  /** The loop over `_CANCEL_NOW`: running rows are signalled, not seized. */
  method CancelPending(db: Store)
    modifies db`actions
    ensures db.actions == CancelRows(old(db.actions))
    ensures |db.actions| == |old(db.actions)|
    ensures forall i | 0 <= i < |db.actions| ::
              db.actions[i] == if Unstarted(old(db.actions)[i])
                               then old(db.actions)[i].(status := Cancelled, lease := None, cause := Some(ByTask))
                               else old(db.actions)[i]
  {
    ghost var rows := db.actions;
    for i := 0 to |db.actions|
      invariant |db.actions| == |rows|
      invariant forall j | 0 <= j < |rows| :: db.actions[j] == if j < i then CancelRow(rows[j]) else rows[j]
    {
      var r := db.actions[i];
      if CancelNow(r.status) {
        var _ := db.CasStatus(i, r.status, r.(status := Cancelled, lease := None, cause := Some(ByTask)));
      }
    }
  }

  /** What `cancel` leaves of each row: nothing that had not started can start,
      running work keeps its lease, and finished work stays unless it was undone. */
  predicate CancelledRow(before: Action, after: Action, undone: bool) {
    if CancelNow(before.status) then after == CancelRow(before)
    else if undone then before.status.Succeeded? && after == RollBack(before)
    else after == before
  }

  /** A success that a cancellation undoes. */
  predicate Undone(r: Action, i: Id, compensate: bool, broken: set<Id>) {
    r.status == Succeeded && compensate && r.spec.reversible && i !in broken
  }

  /** The rows after a cancellation that undid what it could: every row that had not started
      is CANCELLED and holds no lease, exactly the reversible successes whose tool would undo
      them are ROLLED_BACK, and everything else, running or ended, is as it was. */
  ghost predicate Stopped(before: seq<Action>, after: seq<Action>, compensate: bool, broken: set<Id>) {
    && |after| == |before|
    && forall i | 0 <= i < |before| ::
         after[i] == if Unstarted(before[i]) then before[i].(status := Cancelled, lease := None, cause := Some(ByTask))
                     else if Undone(before[i], i, compensate, broken) then before[i].(status := RolledBack)
                     else before[i]
  }

  /** The report: what was undone, what nothing can undo, what should have been undone
      and was not, and what is still running. Without compensation every success is
      listed as not undone. */
  ghost predicate Reports(before: seq<Action>, compensate: bool, broken: set<Id>, report: Report) {
    forall i ::
      var succeeded := 0 <= i < |before| && before[i].status == Succeeded;
      && (i in report.pass.compensated <==> succeeded && Undone(before[i], i, compensate, broken))
      && (i in report.pass.irreversible <==> succeeded && !(compensate && before[i].spec.reversible))
      && (i in report.pass.failed <==> succeeded && compensate && before[i].spec.reversible && i in broken)
      && (i in report.stillRunning <==> 0 <= i < |before| && before[i].status == Running)
  }

  /** `cancel` up to the grace wait. */
  method Cancel(db: Store, compensate: bool, broken: set<Id>)
    returns (r: Result<Report, CancelError>, ghost steps: seq<Step>)
    requires db.Valid()
    modifies db`task, db`actions
    ensures db.Valid() && Run(old(db.Snap()), steps, db.Snap())
    ensures r.Err? <==> old(db.task).status.TaskSucceeded? || old(db.task).status.TaskFailed?
    ensures r.Err? || old(db.task).status.TaskCancelled? ==> db.Snap() == old(db.Snap())
    ensures r.Ok? ==> db.task.status.TaskCancelled? && r.value.stillRunning == WithStatus(db.actions, Running)
    ensures r.Ok? && old(db.task).status.TaskCancelled? ==> r.value == ReportFrom(db.actions)
    ensures r.Ok? && !old(db.task).status.TaskCancelled? ==>
              && |db.actions| == |old(db.actions)|
              && (forall i | 0 <= i < |db.actions| ::
                  CancelledRow(old(db.actions)[i], db.actions[i], i in r.value.pass.compensated))
              && steps == [CancelTask] + CompensateSteps(r.value.pass.compensated)
              && (compensate ==> PassOk(CancelRows(old(db.actions)), broken, r.value.pass))
              && (!compensate ==> r.value.pass == Pass([], WithStatus(old(db.actions), Succeeded), []))
    ensures r.Ok? && !old(db.task).status.TaskCancelled? ==>
              && Stopped(old(db.actions), db.actions, compensate, broken)
              && Reports(old(db.actions), compensate, broken, r.value)
              && forall i | 0 <= i < |db.actions| :: !Unstarted(db.actions[i])
    ensures r.Ok? && old(db.task).status.TaskCancelled? ==> Recalls(db.actions, r.value)
    ensures r.Ok? && !old(db.task).status.TaskCancelled? ==> forall ap :: !Gate.CanAnswer(db.Snap(), ap)
  {
    hide Run, Invariant, PassOk, Enabled, WithStatus, Dependencies.GraphOk, Stopped, Reports, Recalls, CancelRows;
    ghost var s := db.Snap();
    RunNothing(s);
    if db.task.status.TaskCancelled? {
      ReportRecalls(db.actions);
      return Ok(ReportFrom(db.actions)), [];
    }
    if db.task.status.Terminal() { return Err(AlreadyTerminal(db.task.status)), []; }
    db.task := db.task.(status := TaskCancelled);
    CancelPending(db);
    ghost var t := db.Snap();
    CancelTaken(s, t);
    var pass;
    ghost var undoing := [];
    if compensate {
      pass, undoing := CompensateSucceeded(db, broken);
      CompensatedSucceeded(t.actions, broken, pass);
    } else {
      SameSucceeded(s.actions);
      RunNothing(t);
      pass := Pass([], WithStatus(db.actions, Succeeded), []);
    }
    steps := [CancelTask] + undoing;
    RunConcat(s, [CancelTask], t, undoing, db.Snap());
    RunInvariant(s, steps, db.Snap());
    var report := Report(pass, WithStatus(db.actions, Running));
    CancelStops(s.actions, db.actions, compensate, broken, report);
    return Ok(report), steps;
  }

  /** What a repeated cancellation tells: the rows as they now stand. */
  ghost predicate Recalls(rows: seq<Action>, report: Report) {
    && report.pass.failed == []
    && forall i ::
         && (i in report.pass.compensated <==> 0 <= i < |rows| && rows[i].status == RolledBack)
         && (i in report.pass.irreversible <==> 0 <= i < |rows| && rows[i].status == Succeeded)
         && (i in report.stillRunning <==> 0 <= i < |rows| && rows[i].status == Running)
  }

  lemma ReportRecalls(rows: seq<Action>)
    ensures Recalls(rows, ReportFrom(rows))
  {
    hide WithStatus;
  }

  lemma CancelStops(before: seq<Action>, after: seq<Action>, compensate: bool, broken: set<Id>, report: Report)
    requires |after| == |before|
    requires forall i | 0 <= i < |after| :: CancelledRow(before[i], after[i], i in report.pass.compensated)
    requires compensate ==> PassOk(CancelRows(before), broken, report.pass)
    requires !compensate ==> report.pass == Pass([], WithStatus(before, Succeeded), [])
    requires report.stillRunning == WithStatus(after, Running)
    ensures Stopped(before, after, compensate, broken) && Reports(before, compensate, broken, report)
    ensures forall i | 0 <= i < |after| :: !Unstarted(after[i])
  {
    hide WithStatus;
  }

  lemma CancelTaken(s: State, t: State)
    requires Invariant(s) && !s.task.status.Terminal()
    requires t == s.(task := s.task.(status := TaskCancelled), actions := CancelRows(s.actions))
    ensures Run(s, [CancelTask], t) && Invariant(t) && Dependencies.GraphOk(t)
  {
    RunNothing(s);
    RunSnoc(s, [], s, CancelTask);
    assert [] + [CancelTask] == [CancelTask];
    RunInvariant(s, [CancelTask], t);
  }

  lemma CompensatedSucceeded(actions: seq<Action>, broken: set<Id>, pass: Pass)
    requires PassOk(actions, broken, pass)
    ensures forall i <- pass.compensated :: 0 <= i < |actions| && actions[i].status.Succeeded?
  {
  }

  lemma {:induction false} SameSucceeded(actions: seq<Action>)
    ensures WithStatus(CancelRows(actions), Succeeded) == WithStatus(actions, Succeeded)
    decreases |actions|
  {
    if actions != [] {
      var n := |actions| - 1;
      assert CancelRows(actions)[..n] == CancelRows(actions[..n]);
      SameSucceeded(actions[..n]);
    }
  }

  /** A row that can only end: RUNNING, sent back to READY by a lost worker, or ended. */
  predicate OnlyEnds(r: Action) {
    r.status == Running || r.status == Ready || r.status.Terminal()
  }

  lemma CancelledStep(s: State, step: Step)
    requires Enabled(s, step) && s.task.status.TaskCancelled?
    requires forall i | 0 <= i < |s.actions| :: OnlyEnds(s.actions[i])
    ensures var t := Apply(s, step);
            && t.task == s.task && |t.actions| == |s.actions|
            && forall i | 0 <= i < |t.actions| ::
                 && OnlyEnds(t.actions[i])
                 && (s.actions[i].status.Terminal() ==>
                       t.actions[i] == s.actions[i]
                       || (s.actions[i].status == Succeeded && t.actions[i] == s.actions[i].(status := RolledBack)))
  {
    hide Usable, DecisionFor, FreshPlan, AllTerminal, AnyStatus;
  }

  /** Whatever happens after a cancellation, the rows that had ended stay ended as they were
      unless they are undone, no row is planned, asked about or dispatched again, and no
      question about the task can be answered. */
  lemma {:induction false} NothingRestarts(s: State, steps: seq<Step>, t: State)
    requires Run(s, steps, t) && s.task.status.TaskCancelled?
    requires forall i | 0 <= i < |s.actions| :: OnlyEnds(s.actions[i])
    ensures t.task == s.task && |t.actions| == |s.actions|
    ensures forall i | 0 <= i < |t.actions| :: OnlyEnds(t.actions[i])
    ensures forall i | 0 <= i < |t.actions| && s.actions[i].status.Terminal() ::
              t.actions[i] == s.actions[i]
              || (s.actions[i].status == Succeeded && t.actions[i] == s.actions[i].(status := RolledBack))
    ensures forall ap :: !Gate.CanAnswer(t, ap)
    decreases |steps|
  {
    hide Enabled, Apply;
    if steps != [] {
      CancelledStep(s, steps[0]);
      NothingRestarts(Apply(s, steps[0]), steps[1..], t);
    }
  }

  /** After the grace wait: a second pass over what succeeded in the meantime. */
  method AfterGrace(db: Store, report: Report, broken: set<Id>) returns (final: Report, ghost steps: seq<Step>)
    requires db.Valid() && db.task.status.TaskCancelled?
    modifies db`actions
    ensures db.Valid() && Run(old(db.Snap()), steps, db.Snap())
    ensures exists pass :: PassOk(old(db.actions), broken, pass) && steps == CompensateSteps(pass.compensated)
              && final.pass == Pass(report.pass.compensated + pass.compensated,
                                    report.pass.irreversible + pass.irreversible,
                                    report.pass.failed + pass.failed)
    ensures final.stillRunning == WithStatus(db.actions, Running) && |db.actions| == |old(db.actions)|
    ensures forall i | 0 <= i < |db.actions| ::
              db.actions[i] == if Undone(old(db.actions)[i], i, true, broken)
                               then old(db.actions)[i].(status := RolledBack) else old(db.actions)[i]
  {
    hide Run, Invariant, PassOk, WithStatus;
    ghost var s := db.Snap();
    ValidGraph(s);
    var pass;
    pass, steps := CompensateSucceeded(db, broken);
    RunInvariant(s, steps, db.Snap());
    PassUndoes(s.actions, broken, pass);
    final := Report(Pass(report.pass.compensated + pass.compensated, report.pass.irreversible + pass.irreversible,
                         report.pass.failed + pass.failed),
                    WithStatus(db.actions, Running));
  }

  lemma PassUndoes(rows: seq<Action>, broken: set<Id>, pass: Pass)
    requires PassOk(rows, broken, pass)
    ensures forall i :: i in pass.compensated <==> 0 <= i < |rows| && Undone(rows[i], i, true, broken)
  {
  }

  lemma ValidGraph(s: State)
    requires Invariant(s)
    ensures Dependencies.GraphOk(s)
  {
  }

  /** The second pass undoes nothing twice, but reports again everything the first
      pass found irreversible or failed to undo. */
  lemma SecondPassReportsAgain(xs: seq<Action>, ys: seq<Action>, broken: set<Id>, first: Pass, second: Pass, x: Id)
    requires PassOk(xs, broken, first) && |xs| <= |ys| && PassOk(ys, broken, second)
    requires forall i | 0 <= i < |xs| && xs[i].status.Succeeded? ::
               ys[i] == if i in first.compensated then RollBack(xs[i]) else xs[i]
    ensures x in first.compensated ==> x !in second.compensated && x !in second.irreversible && x !in second.failed
    ensures x in first.irreversible ==> x in second.irreversible
    ensures x in first.failed ==> x in second.failed
  {
    PassSplits(xs, broken, first, x);
    PassSplits(ys, broken, second, x);
  }
}

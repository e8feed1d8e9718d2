/** From a validated plan to stored rows: alias dependencies, implicit step edges,
    the cycle check and the ceiling (vyomel/core/plan_spec.py,
    vyomel/orchestrator/plans.py). */
module Plans {
  import opened Wrappers
  import opened Lifecycle
  import opened Policy
  import opened Model
  import opened Repos
  import opened Runs
  import Dag
  import Graph

  datatype ActionSpec = ActionSpec(alias: string, tool: string, parameters: Parameters, dependsOn: seq<string>,
                                   maxRetries: Option<nat>, timeout: Option<nat>)

  datatype StepSpec = StepSpec(alias: string, actions: seq<ActionSpec>, dependsOn: seq<string>, tolerates: bool,
                               required: Option<Capability>)

  type Plan = seq<StepSpec>

  /** An action with the step it stands in, in plan order. */
  datatype Item = Item(step: StepSpec, action: ActionSpec)

  function ItemsOf(step: StepSpec): (items: seq<Item>)
    ensures |items| == |step.actions| && forall i | 0 <= i < |items| :: items[i] == Item(step, step.actions[i])
  {
    seq(|step.actions|, i requires 0 <= i < |step.actions| => Item(step, step.actions[i]))
  }

  function Flat(plan: Plan): seq<Item> {
    if plan == [] then [] else Flat(plan[..|plan| - 1]) + ItemsOf(plan[|plan| - 1])
  }

  lemma {:induction false} FlatMeans(plan: Plan, item: Item)
    ensures item in Flat(plan) <==> item.step in plan && item.action in item.step.actions
  {
    if plan != [] {
      var init, last := plan[..|plan| - 1], plan[|plan| - 1];
      FlatMeans(init, item);
      assert plan == init + [last];
      if item.step == last && item.action in last.actions {
        var i :| 0 <= i < |last.actions| && last.actions[i] == item.action;
        assert ItemsOf(last)[i] == item;
      }
    }
  }

  /** What parsing a plan has already established (`HandwrittenPlan`). */
  ghost predicate WellFormed(plan: Plan) {
    && plan != [] && (forall s <- plan :: s.actions != [])
    && (forall i, j | 0 <= i < j < |plan| :: plan[i].alias != plan[j].alias)
    && (forall i, j | 0 <= i < j < |Flat(plan)| :: Flat(plan)[i].action.alias != Flat(plan)[j].action.alias)
  }

  /** What the registry, the schema and the classifier make of an action. */
  datatype Resolved = Resolved(call: Call, reversible: bool, timeout: nat)

  datatype PlanError =
    | TooManySteps
    | UnknownStep(step: string, dep: string)
    | UnknownAction(action: string, dep: string)
    | Malformed(fault: Dag.PlanFault<string>)
    | StepAboveCeiling(step: string)
    | Unresolvable(action: string)
    | ActionAboveCeiling(action: string)
    | NotCreated

  // ----------------------------------------------------------------- dependencies

  function StepAliases(plan: Plan): set<string> {
    set s <- plan :: s.alias
  }

  function ActionAliases(plan: Plan): set<string> {
    set item <- Flat(plan) :: item.action.alias
  }

  predicate AllIn(deps: seq<string>, known: set<string>) {
    forall d <- deps :: d in known
  }

  /** The aliases of every action of the steps listed in `deps`, in plan order. */
  function Upstream(plan: Plan, deps: seq<string>): seq<string> {
    if plan == [] then []
    else
      var last := plan[|plan| - 1];
      Upstream(plan[..|plan| - 1], deps) + if last.alias in deps then AliasesOf(last) else []
  }

  function AliasesOf(step: StepSpec): (r: seq<string>)
    ensures |r| == |step.actions| && forall i | 0 <= i < |r| :: r[i] == step.actions[i].alias
  {
    seq(|step.actions|, i requires 0 <= i < |step.actions| => step.actions[i].alias)
  }

  /** Explicit dependencies win; otherwise those of the step. */
  function DepsOf(plan: Plan, item: Item): seq<string> {
    if item.action.dependsOn != [] then item.action.dependsOn
    else if item.step.dependsOn != [] then Upstream(plan, item.step.dependsOn)
    else []
  }

  lemma {:induction false} UpstreamMeans(plan: Plan, deps: seq<string>, alias: string)
    ensures alias in Upstream(plan, deps) <==>
            exists item <- Flat(plan) :: item.action.alias == alias && item.step.alias in deps
  {
    if plan != [] {
      var init, last := plan[..|plan| - 1], plan[|plan| - 1];
      UpstreamMeans(init, deps, alias);
      if alias in AliasesOf(last) {
        var i :| 0 <= i < |last.actions| && last.actions[i].alias == alias;
        assert ItemsOf(last)[i] in Flat(plan);
      }
      forall item | item in Flat(plan) && item.action.alias == alias && item.step.alias in deps
        ensures alias in Upstream(plan, deps)
      {
        if item in ItemsOf(last) {
          var i :| 0 <= i < |last.actions| && ItemsOf(last)[i] == item;
          assert AliasesOf(last)[i] == alias;
        }
      }
    }
  }

  /** What the first loop of `_materialize` rejects. */
  ghost predicate DependenciesKnown(plan: Plan) {
    && (forall s <- plan :: AllIn(s.dependsOn, StepAliases(plan)))
    && (forall item <- Flat(plan) :: AllIn(item.action.dependsOn, ActionAliases(plan)))
  }

  method FirstUnknown(deps: seq<string>, known: set<string>) returns (d: Option<string>)
    ensures d.None? <==> AllIn(deps, known)
    ensures d.Some? ==> d.value in deps && d.value !in known
  {
    for i := 0 to |deps|
      invariant forall j | 0 <= j < i :: deps[j] in known
    {
      if deps[i] !in known { return Some(deps[i]); }
    }
    return None;
  }

  method CheckStep(step: StepSpec, steps: set<string>, actions: set<string>) returns (r: Result<(), PlanError>)
    ensures r.Ok? <==> AllIn(step.dependsOn, steps) && forall a <- step.actions :: AllIn(a.dependsOn, actions)
    ensures r.Err? ==> r.error.UnknownStep? || r.error.UnknownAction?
  {
    var missing := FirstUnknown(step.dependsOn, steps);
    if missing.Some? { return Err(UnknownStep(step.alias, missing.value)); }
    for i := 0 to |step.actions|
      invariant forall j | 0 <= j < i :: AllIn(step.actions[j].dependsOn, actions)
    {
      missing := FirstUnknown(step.actions[i].dependsOn, actions);
      if missing.Some? { return Err(UnknownAction(step.actions[i].alias, missing.value)); }
    }
    return Ok(());
  }

  method CheckDependencies(plan: Plan) returns (r: Result<(), PlanError>)
    ensures r.Ok? <==> DependenciesKnown(plan)
    ensures r.Err? ==> r.error.UnknownStep? || r.error.UnknownAction?
  {
    var steps, actions := StepAliases(plan), ActionAliases(plan);
    for i := 0 to |plan|
      invariant forall s <- plan[..i] ::
                  AllIn(s.dependsOn, steps) && forall a <- s.actions :: AllIn(a.dependsOn, actions)
    {
      var checked := CheckStep(plan[i], steps, actions);
      if checked.Err? {
        assert plan[i] in plan;
        if exists a <- plan[i].actions :: !AllIn(a.dependsOn, actions) {
          ghost var a :| a in plan[i].actions && !AllIn(a.dependsOn, actions);
          FlatMeans(plan, Item(plan[i], a));
        }
        return Err(checked.error);
      }
      assert plan[..i + 1] == plan[..i] + [plan[i]];
    }
    assert plan[..|plan|] == plan;
    forall item | item in Flat(plan) ensures AllIn(item.action.dependsOn, actions) { FlatMeans(plan, item); }
    return Ok(());
  }

  // ------------------------------------------------------------------- alias nodes

  function NodeOf(plan: Plan, item: Item): Dag.Node<string> {
    Dag.Node(item.action.alias, Planned, DepsOf(plan, item), item.step.tolerates)
  }

  function AliasNodes(plan: Plan): (nodes: seq<Dag.Node<string>>)
    ensures |nodes| == |Flat(plan)| && forall i | 0 <= i < |nodes| :: nodes[i] == NodeOf(plan, Flat(plan)[i])
  {
    seq(|Flat(plan)|, i requires 0 <= i < |Flat(plan)| => NodeOf(plan, Flat(plan)[i]))
  }

  // ---------------------------------------------------------------------- the rows

  /** Positions of the aliases: what `new_id` assigns. */
  ghost predicate Positions(items: seq<Item>, index: map<string, nat>) {
    && (forall a <- index :: index[a] < |items| && items[index[a]].action.alias == a)
    && (forall i | 0 <= i < |items| :: items[i].action.alias in index && index[items[i].action.alias] == i)
  }

  method IndexAliases(items: seq<Item>) returns (index: map<string, nat>)
    requires forall i, j | 0 <= i < j < |items| :: items[i].action.alias != items[j].action.alias
    ensures Positions(items, index)
  {
    index := map[];
    for i := 0 to |items|
      invariant forall a <- index :: index[a] < i && items[index[a]].action.alias == a
      invariant forall j | 0 <= j < i :: items[j].action.alias in index && index[items[j].action.alias] == j
    {
      index := index[items[i].action.alias := i];
    }
  }

  function IdsOf(deps: seq<string>, index: map<string, nat>, base: nat): (ids: seq<Id>)
    requires forall d <- deps :: d in index
    ensures |ids| == |deps| && forall k | 0 <= k < |ids| :: ids[k] == base + index[deps[k]]
  {
    seq(|deps|, k requires 0 <= k < |deps| => base + index[deps[k]])
  }

  /** Settings and the foreign calls of one materialization. */
  datatype Setting = Setting(ceiling: Capability, maxRetries: nat, timeout: nat, maxSteps: nat,
                             resolve: Item -> Option<Resolved>)

  function RowOf(set_: Setting, item: Item, found: Resolved, deps: seq<Id>): Action {
    var retries := if item.action.maxRetries.Some? then item.action.maxRetries.value else set_.maxRetries;
    var timeout :=
      if item.action.timeout.Some? then item.action.timeout.value
      else if found.timeout < set_.timeout then found.timeout else set_.timeout;
    Action(Spec(item.action.tool, deps, item.step.tolerates, found.reversible, retries, timeout), found.call,
           Planned, 0, None, None, false, [], None, 0, None)
  }

  predicate Admissible(set_: Setting, item: Item) {
    && (item.step.required.Some? ==> item.step.required.value <= set_.ceiling)
    && set_.resolve(item).Some? && set_.resolve(item).value.call.level <= set_.ceiling
  }

  /** What a stored row takes from its action: the plan's own limits before the settings', and
      never more time by default than either the tool or the settings give. */
  ghost predicate Carries(set_: Setting, item: Item, deps: seq<Id>, row: Action) {
    && set_.resolve(item).Some? && row.call == set_.resolve(item).value.call
    && row.spec.reversible == set_.resolve(item).value.reversible
    && row.spec.tool == item.action.tool && row.spec.dependsOn == deps && row.spec.tolerates == item.step.tolerates
    && (item.action.maxRetries.Some? ==> row.spec.maxRetries == item.action.maxRetries.value)
    && (item.action.maxRetries.None? ==> row.spec.maxRetries == set_.maxRetries)
    && (item.action.timeout.Some? ==> row.spec.timeout == item.action.timeout.value)
    && (item.action.timeout.None? ==>
          && row.spec.timeout <= set_.timeout && row.spec.timeout <= set_.resolve(item).value.timeout
          && row.spec.timeout in {set_.timeout, set_.resolve(item).value.timeout})
    && row.status == Planned && row.attempts == 0 && row.lease == None && row.availableAt == None && !row.result
    && row.error == None
  }

  method MakeRow(set_: Setting, item: Item, deps: seq<Id>) returns (r: Result<Action, PlanError>)
    ensures r.Ok? <==> Admissible(set_, item)
    ensures r.Ok? ==> r.value == RowOf(set_, item, set_.resolve(item).value, deps)
    ensures r.Ok? <==>
              && (item.step.required == None || item.step.required.value <= set_.ceiling)
              && set_.resolve(item) != None && set_.resolve(item).value.call.level <= set_.ceiling
    ensures r.Ok? ==> Carries(set_, item, deps, r.value)
  {
    if item.step.required.Some? && item.step.required.value > set_.ceiling {
      return Err(StepAboveCeiling(item.step.alias));
    }
    var found := set_.resolve(item);
    if found.None? { return Err(Unresolvable(item.action.alias)); }
    if found.value.call.level > set_.ceiling { return Err(ActionAboveCeiling(item.action.alias)); }
    return Ok(RowOf(set_, item, found.value, deps));
  }

  /** A row carries its item with the aliases replaced by positions. */
  ghost predicate RowIs(set_: Setting, plan: Plan, item: Item, index: map<string, nat>, base: nat, row: Action) {
    && AllIn(DepsOf(plan, item), index.Keys) && Admissible(set_, item)
    && row == RowOf(set_, item, set_.resolve(item).value, IdsOf(DepsOf(plan, item), index, base))
  }

  ghost predicate RowsOf(set_: Setting, plan: Plan, index: map<string, nat>, base: nat, rows: seq<Action>) {
    |rows| <= |Flat(plan)| && forall k | 0 <= k < |rows| :: RowIs(set_, plan, Flat(plan)[k], index, base, rows[k])
  }

  /** Exactly the plans that `_materialize` turns into rows. */
  ghost predicate Installable(set_: Setting, plan: Plan) {
    DependenciesKnown(plan) && Dag.Acyclic(AliasNodes(plan)) && forall item <- Flat(plan) :: Admissible(set_, item)
  }

  lemma DepsIndexed(plan: Plan, index: map<string, nat>, item: Item, d: string)
    requires DependenciesKnown(plan) && Positions(Flat(plan), index) && item in Flat(plan) && d in DepsOf(plan, item)
    ensures d in index
  {
    if item.action.dependsOn != [] {
      assert AllIn(item.action.dependsOn, ActionAliases(plan));
      var other :| other in Flat(plan) && other.action.alias == d;
      var i :| 0 <= i < |Flat(plan)| && Flat(plan)[i] == other;
    } else {
      UpstreamMeans(plan, item.step.dependsOn, d);
      var other :| other in Flat(plan) && other.action.alias == d && other.step.alias in item.step.dependsOn;
      var i :| 0 <= i < |Flat(plan)| && Flat(plan)[i] == other;
    }
  }

  /** Every edge in `es` stands for an alias in `ds`. */
  ghost predicate EdgesMoved(ds: seq<string>, es: seq<Id>, names: seq<string>, base: nat) {
    forall e <- es :: base <= e < base + |names| && names[e - base] in ds
  }

  /** The graph over positions is the graph over names, moved to `base`. */
  ghost predicate Moved(g: Graph.Graph<string>, h: Graph.Graph<Id>, names: seq<string>, base: nat) {
    && Graph.NoDuplicates(names)
    && (forall x :: x in g <==> x in names)
    && (forall i :: i in h <==> base <= i < base + |names|)
    && (forall i {:trigger names[i]} | 0 <= i < |names| && names[i] in g && base + i in h ::
        EdgesMoved(g[names[i]], h[base + i], names, base))
  }

  ghost function PositionOf(names: seq<string>, x: string): (i: nat)
    requires x in names
    ensures i < |names| && names[i] == x
  {
    var i :| 0 <= i < |names| && names[i] == x;
    i
  }

  ghost function MoveOrder(ord: seq<string>, names: seq<string>, base: nat): (r: seq<Id>)
    requires forall x <- ord :: x in names
    ensures |r| == |ord| && forall k | 0 <= k < |ord| :: r[k] == base + PositionOf(names, ord[k])
  {
    seq(|ord|, k requires 0 <= k < |ord| => base + PositionOf(names, ord[k]))
  }

  lemma MovedLists(g: Graph.Graph<string>, h: Graph.Graph<Id>, names: seq<string>, base: nat, ord: seq<string>)
    requires Moved(g, h, names, base) && Graph.Lists(ord, g.Keys)
    ensures (forall x <- ord :: x in names) && Graph.Lists(MoveOrder(ord, names, base), h.Keys)
  {
    forall x | x in ord ensures x in names { assert x in g; }
    var r := MoveOrder(ord, names, base);
    forall j, k | 0 <= j < k < |r| ensures r[j] != r[k] { assert ord[j] != ord[k]; }
    forall i | i in h ensures i in r {
      assert names[i - base] in g;
      var k :| 0 <= k < |ord| && ord[k] == names[i - base];
      assert r[k] == i;
    }
  }

  lemma MovedEdges(g: Graph.Graph<string>, h: Graph.Graph<Id>, names: seq<string>, base: nat, ord: seq<string>)
    requires Moved(g, h, names, base) && Graph.DependenciesFirst(g, ord) && forall x <- ord :: x in names
    ensures Graph.DependenciesFirst(h, MoveOrder(ord, names, base))
  {
    var r := MoveOrder(ord, names, base);
    forall k, e | 0 <= k < |r| && r[k] in h && e in h[r[k]] ensures e in r[..k] {
      var i := PositionOf(names, ord[k]);
      assert ord[k] in names && names[i] in g && EdgesMoved(g[names[i]], h[base + i], names, base);
      var d := names[e - base];
      assert d in g[ord[k]];
      assert d in ord[..k];
      var j :| 0 <= j < k && ord[j] == d;
      assert r[..k][j] == e;
    }
  }

  lemma MovedOrder(g: Graph.Graph<string>, h: Graph.Graph<Id>, names: seq<string>, base: nat)
    requires Moved(g, h, names, base) && Graph.Orderable(g)
    ensures Graph.Closed(h) && Graph.Orderable(h)
  {
    hide MoveOrder;
    var ord :| Graph.TopologicalOrder(g, ord);
    MovedLists(g, h, names, base, ord);
    MovedEdges(g, h, names, base, ord);
    assert Graph.TopologicalOrder(h, MoveOrder(ord, names, base));
    forall i, e | i in h && e in h[i] ensures e in h {
      assert names[i - base] in g && EdgesMoved(g[names[i - base]], h[base + (i - base)], names, base);
    }
  }

  function Names(plan: Plan): (names: seq<string>)
    ensures |names| == |Flat(plan)| && forall i | 0 <= i < |names| :: names[i] == Flat(plan)[i].action.alias
  {
    seq(|Flat(plan)|, i requires 0 <= i < |Flat(plan)| => Flat(plan)[i].action.alias)
  }

  lemma AliasEdge(plan: Plan, i: nat, d: string)
    requires i < |Flat(plan)| && d in DepsOf(plan, Flat(plan)[i])
    ensures Names(plan)[i] in Dag.GraphOf(AliasNodes(plan)) && d in Dag.GraphOf(AliasNodes(plan))[Names(plan)[i]]
  {
    hide DepsOf, Dag.GraphOf;
    var n := AliasNodes(plan)[i];
    assert n in AliasNodes(plan) && n == NodeOf(plan, Flat(plan)[i]);
    Dag.GraphOfMeans(AliasNodes(plan), Names(plan)[i], d);
  }

  lemma RowDependsOn(set_: Setting, plan: Plan, item: Item, index: map<string, nat>, base: nat, row: Action, e: Id)
    returns (k: nat)
    requires RowIs(set_, plan, item, index, base, row) && e in row.spec.dependsOn
    ensures k < |DepsOf(plan, item)| && DepsOf(plan, item)[k] in index && e == base + index[DepsOf(plan, item)[k]]
  {
    hide DepsOf, Admissible;
    var deps := DepsOf(plan, item);
    k :| 0 <= k < |deps| && IdsOf(deps, index, base)[k] == e;
  }

  lemma RowEdges(set_: Setting, plan: Plan, index: map<string, nat>, base: nat, row: Action, i: nat)
    requires Positions(Flat(plan), index) && i < |Flat(plan)| && RowIs(set_, plan, Flat(plan)[i], index, base, row)
    requires Names(plan)[i] in Dag.GraphOf(AliasNodes(plan))
    ensures EdgesMoved(Dag.GraphOf(AliasNodes(plan))[Names(plan)[i]], row.spec.dependsOn, Names(plan), base)
  {
    hide DepsOf, Dag.GraphOf, AliasNodes, Flat, RowIs;
    var deps := DepsOf(plan, Flat(plan)[i]);
    forall e | e in row.spec.dependsOn
      ensures base <= e < base + |Names(plan)| && Names(plan)[e - base] in Dag.GraphOf(AliasNodes(plan))[Names(plan)[i]]
    {
      var k := RowDependsOn(set_, plan, Flat(plan)[i], index, base, row, e);
      AliasEdge(plan, i, deps[k]);
    }
  }

  lemma NamesAreNodes(plan: Plan, x: string)
    ensures x in Dag.GraphOf(AliasNodes(plan)) <==> x in Names(plan)
  {
    var nodes, names := AliasNodes(plan), Names(plan);
    if x in Dag.GraphOf(nodes) { var n :| n in nodes && n.id == x; }
    if x in names {
      var i :| 0 <= i < |names| && names[i] == x;
      assert nodes[i] in nodes;
    }
  }

  lemma NamesAreUnique(plan: Plan)
    requires WellFormed(plan)
    ensures Graph.NoDuplicates(Names(plan))
  {
  }

  lemma MovesFrom(g: Graph.Graph<string>, names: seq<string>, rows: seq<Action>, base: nat)
    requires Graph.NoDuplicates(names) && |rows| == |names| && forall x :: x in g <==> x in names
    requires forall i {:trigger names[i]} | 0 <= i < |names| && names[i] in g ::
             EdgesMoved(g[names[i]], rows[i].spec.dependsOn, names, base)
    ensures Moved(g, BlockGraph(rows, base), names, base)
  {
    hide EdgesMoved;
    var h := BlockGraph(rows, base);
    forall i | 0 <= i < |names| && names[i] in g && base + i in h
      ensures EdgesMoved(g[names[i]], h[base + i], names, base)
    {
      assert h[base + i] == EntriesAt(rows, base, base + i);
    }
  }

  lemma PlanMoves(set_: Setting, plan: Plan, index: map<string, nat>, base: nat, rows: seq<Action>)
    requires WellFormed(plan) && Positions(Flat(plan), index) && |rows| == |Flat(plan)|
    requires RowsOf(set_, plan, index, base, rows)
    ensures Moved(Dag.GraphOf(AliasNodes(plan)), BlockGraph(rows, base), Names(plan), base)
  {
    hide WellFormed, RowIs, EdgesMoved, DepsOf, Positions, Flat, AliasNodes, Dag.GraphOf, Moved, Graph.NoDuplicates;
    var g, names := Dag.GraphOf(AliasNodes(plan)), Names(plan);
    forall x ensures x in g <==> x in names { NamesAreNodes(plan, x); }
    NamesAreUnique(plan);
    forall i | 0 <= i < |names| && names[i] in g ensures EdgesMoved(g[names[i]], rows[i].spec.dependsOn, names, base) {
      RowEdges(set_, plan, index, base, rows[i], i);
    }
    MovesFrom(g, names, rows, base);
  }

  lemma {:induction false} FlatNotEmpty(plan: Plan)
    requires plan != [] && forall s <- plan :: s.actions != []
    ensures Flat(plan) != []
  {
    assert plan[|plan| - 1] in plan;
  }

  lemma PlanNotEmpty(plan: Plan)
    requires WellFormed(plan)
    ensures Flat(plan) != []
  {
    FlatNotEmpty(plan);
  }

  lemma RowIsFresh(set_: Setting, plan: Plan, item: Item, index: map<string, nat>, base: nat, row: Action)
    requires RowIs(set_, plan, item, index, base, row)
    ensures FreshRow(row, set_.ceiling)
  {
  }

  lemma RowsAreFresh(set_: Setting, plan: Plan, index: map<string, nat>, base: nat, rows: seq<Action>)
    requires WellFormed(plan) && Positions(Flat(plan), index) && |rows| == |Flat(plan)|
    requires RowsOf(set_, plan, index, base, rows) && Graph.Orderable(Dag.GraphOf(AliasNodes(plan)))
    ensures FreshPlan(rows, base, set_.ceiling)
  {
    hide Moved, Graph.Closed, Graph.Orderable, BlockGraph, WellFormed, Positions, RowIs;
    PlanNotEmpty(plan);
    PlanMoves(set_, plan, index, base, rows);
    MovedOrder(Dag.GraphOf(AliasNodes(plan)), BlockGraph(rows, base), Names(plan), base);
    forall i | 0 <= i < |rows| ensures FreshRow(rows[i], set_.ceiling) {
      RowIsFresh(set_, plan, Flat(plan)[i], index, base, rows[i]);
    }
  }

  // ---------------------------------------------------------------- materialization

  /** `_materialize`: succeeds on exactly the installable plans, and its rows are then
      untouched, within the ceiling, and depend only on each other without a cycle. */
  method Materialize(set_: Setting, plan: Plan, base: nat)
    returns (r: Result<seq<Action>, PlanError>, ghost index: map<string, nat>)
    requires WellFormed(plan)
    ensures r.Ok? <==> Installable(set_, plan)
    ensures r.Ok? ==> FreshPlan(r.value, base, set_.ceiling)
    ensures r.Ok? ==>
              Positions(Flat(plan), index) && |r.value| == |Flat(plan)|
              && RowsOf(set_, plan, index, base, r.value)
  {
    hide DependenciesKnown, Dag.Acyclic, FreshPlan, Positions, Admissible, RowOf, DepsOf, AliasNodes, RowsOf;
    index := map[];
    var checked := CheckDependencies(plan);
    if checked.Err? { return Err(checked.error), index; }
    var acyclic := Dag.ValidateAcyclic(AliasNodes(plan));
    if acyclic.Err? { return Err(Malformed(acyclic.error)), index; }
    var items := Flat(plan);
    UniqueItems(plan);
    var ids := IndexAliases(items);
    index := ids;
    var rows: seq<Action> := [];
    NoRows(set_, plan, ids, base);
    for k := 0 to |items|
      invariant |rows| == k && RowsOf(set_, plan, ids, base, rows)
      invariant forall j | 0 <= j < k :: Admissible(set_, items[j])
    {
      AliasesIndexed(plan, ids, k);
      var deps := DepsOf(plan, items[k]);
      var made := MakeRow(set_, items[k], IdsOf(deps, ids, base));
      if made.Err? {
        assert items[k] in Flat(plan);
        return Err(made.error), index;
      }
      OneMoreRow(set_, plan, ids, base, rows, made.value);
      rows := rows + [made.value];
    }
    AcyclicIsOrderable(plan);
    RowsAreFresh(set_, plan, ids, base, rows);
    return Ok(rows), index;
  }

  lemma UniqueItems(plan: Plan)
    requires WellFormed(plan)
    ensures forall i, j | 0 <= i < j < |Flat(plan)| :: Flat(plan)[i].action.alias != Flat(plan)[j].action.alias
  {
  }

  lemma AcyclicIsOrderable(plan: Plan)
    requires Dag.Acyclic(AliasNodes(plan))
    ensures Graph.Orderable(Dag.GraphOf(AliasNodes(plan)))
  {
  }

  lemma NoRows(set_: Setting, plan: Plan, index: map<string, nat>, base: nat)
    ensures RowsOf(set_, plan, index, base, [])
  {
  }

  lemma AliasesIndexed(plan: Plan, index: map<string, nat>, k: nat)
    requires DependenciesKnown(plan) && Positions(Flat(plan), index) && k < |Flat(plan)|
    ensures AllIn(DepsOf(plan, Flat(plan)[k]), index.Keys)
  {
    forall d | d in DepsOf(plan, Flat(plan)[k]) ensures d in index { DepsIndexed(plan, index, Flat(plan)[k], d); }
  }

  lemma OneMoreRow(set_: Setting, plan: Plan, index: map<string, nat>, base: nat, rows: seq<Action>, row: Action)
    requires RowsOf(set_, plan, index, base, rows) && |rows| < |Flat(plan)|
    requires RowIs(set_, plan, Flat(plan)[|rows|], index, base, row)
    ensures RowsOf(set_, plan, index, base, rows + [row])
  {
    hide RowIs;
  }

  /** Row i of a stored plan carries the i-th action of the plan. */
  lemma StoredRow(set_: Setting, plan: Plan, index: map<string, nat>, base: nat, rows: seq<Action>, i: nat)
    requires RowsOf(set_, plan, index, base, rows) && i < |rows|
    ensures Carries(set_, Flat(plan)[i], rows[i].spec.dependsOn, rows[i])
    ensures rows[i].call.level <= set_.ceiling
    ensures Flat(plan)[i].step.required.Some? ==> Flat(plan)[i].step.required.value <= set_.ceiling
  {
    assert RowIs(set_, plan, Flat(plan)[i], index, base, rows[i]);
  }

  /** The edges a stored plan means. With its own dependencies an action depends on
      exactly the actions it names; without, on every action of every step that its
      step names. */
  lemma StoredEdges(set_: Setting, plan: Plan, index: map<string, nat>, base: nat, rows: seq<Action>, i: nat, j: nat)
    requires Positions(Flat(plan), index) && |rows| == |Flat(plan)| && RowsOf(set_, plan, index, base, rows)
    requires i < |rows| && j < |rows|
    ensures var here, there := Flat(plan)[i], Flat(plan)[j];
            base + j in rows[i].spec.dependsOn <==>
              if here.action.dependsOn != [] then there.action.alias in here.action.dependsOn
              else exists item <- Flat(plan) ::
                  item.action.alias == there.action.alias && item.step.alias in here.step.dependsOn
  {
    hide RowIs, Positions, Flat;
    RowDeps(set_, plan, index, base, rows[i], i, j);
    UpstreamMeans(plan, Flat(plan)[i].step.dependsOn, Flat(plan)[j].action.alias);
  }

  lemma RowDeps(set_: Setting, plan: Plan, index: map<string, nat>, base: nat, row: Action, i: nat, j: nat)
    requires Positions(Flat(plan), index) && i < |Flat(plan)| && j < |Flat(plan)|
    requires RowIs(set_, plan, Flat(plan)[i], index, base, row)
    ensures base + j in row.spec.dependsOn <==> Flat(plan)[j].action.alias in DepsOf(plan, Flat(plan)[i])
  {
    hide DepsOf, Flat;
    var there := Flat(plan)[j];
    var deps := DepsOf(plan, Flat(plan)[i]);
    var ids := IdsOf(deps, index, base);
    assert there.action.alias in index && index[there.action.alias] == j;
    if there.action.alias in deps {
      var k :| 0 <= k < |deps| && deps[k] == there.action.alias;
      assert ids[k] == base + j;
    }
    if base + j in ids {
      var k :| 0 <= k < |ids| && ids[k] == base + j;
      assert deps[k] == there.action.alias;
    }
  }

  // ------------------------------------------------------------------------ install

  /** `install`: an uninstallable plan fails its task; one with too many steps is
      refused before anything is written. */
  method Install(db: Store, set_: Setting, plan: Plan, activate: bool)
    returns (r: Result<(), PlanError>, ghost steps: seq<Step>)
    requires WellFormed(plan) && set_.ceiling == db.cfg.ceiling
    requires db.task.status.TaskCreated? ==> db.actions == []
    modifies db`task, db`actions
    ensures Run(old(db.Snap()), steps, db.Snap())
    ensures r.Ok? <==> old(db.task).status.TaskCreated? && |plan| <= set_.maxSteps && Installable(set_, plan)
    ensures r.Ok? ==> db.task == old(db.task).(status := if activate then TaskReady else TaskPlanning)
                      && FreshPlan(db.actions, 0, db.cfg.ceiling)
    ensures r.Ok? ==>
              && |db.actions| == |Flat(plan)|
              && forall i | 0 <= i < |db.actions| ::
                   Carries(set_, Flat(plan)[i], db.actions[i].spec.dependsOn, db.actions[i])
    ensures r.Err? ==> db.actions == old(db.actions)
    ensures r.Err? ==>
              db.task == if old(db.task).status.TaskCreated? && |plan| <= set_.maxSteps
                         then old(db.task).(status := TaskFailed) else old(db.task)
  {
    hide Run, Installable, FreshPlan, RowsOf, Positions, Carries, Flat;
    ghost var s := db.Snap();
    RunNothing(s);
    if |plan| > set_.maxSteps { return Err(TooManySteps), []; }
    if !db.task.status.TaskCreated? { return Err(NotCreated), []; }
    db.task := db.task.(status := TaskPlanning);
    ghost var index;
    var rows;
    rows, index := Materialize(set_, plan, 0);
    if rows.Err? {
      db.task := db.task.(status := TaskFailed);
      RunSnoc(s, [], s, RejectPlan);
      return Err(rows.error), [] + [RejectPlan];
    }
    forall i | 0 <= i < |rows.value| { StoredRow(set_, plan, index, 0, rows.value, i); }
    db.actions := rows.value;
    if activate { db.task := db.task.(status := TaskReady); }
    RunSnoc(s, [], s, Model.Install(rows.value, activate));
    return Ok(()), [] + [Model.Install(rows.value, activate)];
  }
}

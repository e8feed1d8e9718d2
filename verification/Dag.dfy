/** Kahn's algorithm over action nodes: acyclicity, readiness and the
    compensation order (vyomel/runtime/dag.py). */
module Dag {
  import opened Wrappers
  import opened Lifecycle
  import opened Graph

  datatype Node<Id> = Node(id: Id, status: ActionStatus, dependsOn: seq<Id>, toleratesUnverified: bool)

  datatype PlanFault<Id> =
    | UnknownDependency(action: Id, missing: Id)
    | SelfDependency(action: Id)
    | CyclicActions(cyclic: set<Id>)

  ghost predicate UniqueIds<Id(!new)>(nodes: seq<Node<Id>>) {
    forall i, j | 0 <= i < j < |nodes| :: nodes[i].id != nodes[j].id
  }

  function Ids<Id(==,!new)>(nodes: seq<Node<Id>>): set<Id> {
    set n <- nodes :: n.id
  }

  /** The edges of the first nodes, over a fixed set of ids; entries recorded
      under a repeated id are joined. */
  function Build<Id(==,!new)>(ids: set<Id>, nodes: seq<Node<Id>>): (g: Graph<Id>)
    requires forall n <- nodes :: n.id in ids
    ensures g.Keys == ids
  {
    if nodes == [] then map id | id in ids :: []
    else
      var init, last := nodes[..|nodes| - 1], nodes[|nodes| - 1];
      AddAll(Build(ids, init), last)
  }

  function AddAll<Id(==,!new)>(g: Graph<Id>, node: Node<Id>): (h: Graph<Id>)
    requires node.id in g
    ensures h.Keys == g.Keys
  {
    g[node.id := g[node.id] + node.dependsOn]
  }

  function GraphOf<Id(==,!new)>(nodes: seq<Node<Id>>): (g: Graph<Id>)
    ensures g.Keys == Ids(nodes)
  {
    Build(Ids(nodes), nodes)
  }

  lemma {:induction false} BuildMeans<Id(!new)>(ids: set<Id>, nodes: seq<Node<Id>>, id: Id, d: Id)
    requires id in ids && forall n <- nodes :: n.id in ids
    ensures d in Build(ids, nodes)[id] <==> exists n <- nodes :: n.id == id && d in n.dependsOn
  {
    if nodes != [] {
      var init, last := nodes[..|nodes| - 1], nodes[|nodes| - 1];
      assert nodes == init + [last];
      BuildMeans(ids, init, id, d);
    }
  }

  lemma GraphOfMeans<Id(!new)>(nodes: seq<Node<Id>>, id: Id, d: Id)
    ensures id in GraphOf(nodes) && d in GraphOf(nodes)[id] <==> exists n <- nodes :: n.id == id && d in n.dependsOn
  {
    if id in Ids(nodes) { BuildMeans(Ids(nodes), nodes, id, d); }
  }

  lemma {:induction false} IdCount<Id(!new)>(nodes: seq<Node<Id>>)
    ensures |Ids(nodes)| <= |nodes|
    ensures |Ids(nodes)| == |nodes| <==> UniqueIds(nodes)
  {
    if nodes != [] {
      var init, last := nodes[..|nodes| - 1], nodes[|nodes| - 1];
      assert nodes == init + [last];
      IdCount(init);
      assert Ids(nodes) == Ids(init) + {last.id};
      UniqueIdsSnoc(init, last);
    }
  }

  lemma UniqueIdsSnoc<Id(!new)>(init: seq<Node<Id>>, last: Node<Id>)
    ensures UniqueIds(init + [last]) <==> UniqueIds(init) && last.id !in Ids(init)
  {
    var nodes := init + [last];
    if UniqueIds(nodes) {
      forall i, j | 0 <= i < j < |init| ensures init[i].id != init[j].id {
        assert nodes[i].id != nodes[j].id;
      }
      forall n <- init ensures n.id != last.id {
        var i :| 0 <= i < |init| && init[i] == n;
        assert nodes[i].id != nodes[|init|].id;
      }
    } else {
      var i, j :| 0 <= i < j < |nodes| && nodes[i].id == nodes[j].id;
      assert init[i] in init;
    }
  }

  // --------------------------------------------------------------- edge index

  /** How often x stands in s. */
  ghost function Copies<Id(!new)>(s: seq<Id>, x: Id): nat {
    if s == [] then 0
    else Copies(s[..|s| - 1], x) + if s[|s| - 1] == x then 1 else 0
  }

  lemma CopiesSnoc<Id(!new)>(s: seq<Id>, y: Id, x: Id)
    ensures Copies(s + [y], x) == Copies(s, x) + if y == x then 1 else 0
  {
    assert (s + [y])[..|s|] == s;
  }

  lemma {:induction false} CopiesPrefix<Id(!new)>(s: seq<Id>, k: nat, x: Id)
    requires k <= |s|
    ensures Copies(s[..k], x) <= Copies(s, x)
  {
    if k == |s| {
      assert s[..k] == s;
    } else {
      assert s[..|s| - 1][..k] == s[..k];
      CopiesPrefix(s[..|s| - 1], k, x);
    }
  }

  /** `incoming` holds the number of entries per id and `outgoing` the same
      entries keyed by dependency. */
  ghost predicate EdgesOf<Id(!new)>(g: Graph<Id>, incoming: map<Id, nat>, outgoing: map<Id, seq<Id>>) {
    && incoming.Keys == g.Keys && outgoing.Keys == g.Keys
    && (forall id <- g :: incoming[id] == |g[id]|)
    && (forall id, d {:trigger Copies(outgoing[d], id)} | id in g && d in g ::
          Copies(outgoing[d], id) == Copies(g[id], d))
    && (forall d <- g :: Within(outgoing[d], g.Keys))
  }

  ghost predicate Within<Id(!new)>(s: seq<Id>, ids: set<Id>) {
    forall x <- s :: x in ids
  }

  method AddEdge<Id(==,!new)>(ghost g: Graph<Id>, id: Id, dep: Id, incoming: map<Id, nat>, outgoing: map<Id, seq<Id>>)
    returns (incoming': map<Id, nat>, outgoing': map<Id, seq<Id>>)
    requires id in g && dep in g && EdgesOf(g, incoming, outgoing)
    ensures EdgesOf(g[id := g[id] + [dep]], incoming', outgoing')
  {
    incoming' := incoming[id := incoming[id] + 1];
    outgoing' := outgoing[dep := outgoing[dep] + [id]];
    ghost var g' := g[id := g[id] + [dep]];
    forall x, d | x in g' && d in g' ensures Copies(outgoing'[d], x) == Copies(g'[x], d) {
      assert Copies(outgoing[d], x) == Copies(g[x], d);
      CopiesSnoc(outgoing[dep], id, x);
      CopiesSnoc(g[id], dep, d);
    }
  }

  /** One node's edges, on top of those of the nodes before it. */
  method IndexNode<Id(==,!new)>(ids: set<Id>, ghost g: Graph<Id>, node: Node<Id>, incoming0: map<Id, nat>,
                      outgoing0: map<Id, seq<Id>>)
    returns (r: Result<(map<Id, nat>, map<Id, seq<Id>>), PlanFault<Id>>)
    requires ids == g.Keys && node.id in g && EdgesOf(g, incoming0, outgoing0)
    ensures r.Ok? ==> EdgesOf(AddAll(g, node), r.value.0, r.value.1)
    ensures r.Ok? <==> Within(node.dependsOn, ids - {node.id})
    ensures r.Err? ==> (r.error.UnknownDependency? && r.error.action == node.id
                        && r.error.missing in node.dependsOn && r.error.missing !in ids)
                       || (r.error == SelfDependency(node.id) && node.id in node.dependsOn)
  {
    var incoming, outgoing := incoming0, outgoing0;
    assert g[node.id] + node.dependsOn[..0] == g[node.id];
    assert g[node.id := g[node.id] + node.dependsOn[..0]] == g;
    for k := 0 to |node.dependsOn|
      invariant EdgesOf(g[node.id := g[node.id] + node.dependsOn[..k]], incoming, outgoing)
      invariant Within(node.dependsOn[..k], ids - {node.id})
    {
      var dep := node.dependsOn[k];
      assert dep in node.dependsOn;
      if dep !in ids { return Err(UnknownDependency(node.id, dep)); }
      if dep == node.id { return Err(SelfDependency(node.id)); }
      ghost var h := g[node.id := g[node.id] + node.dependsOn[..k]];
      incoming, outgoing := AddEdge(h, node.id, dep, incoming, outgoing);
      assert node.dependsOn[..k + 1] == node.dependsOn[..k] + [dep];
      assert g[node.id] + node.dependsOn[..k + 1] == h[node.id] + [dep];
      assert g[node.id := g[node.id] + node.dependsOn[..k + 1]] == h[node.id := h[node.id] + [dep]];
    }
    assert node.dependsOn[..|node.dependsOn|] == node.dependsOn;
    return Ok((incoming, outgoing));
  }

  ghost predicate NoSelfEdge<Id(!new)>(g: Graph<Id>) {
    forall id <- g :: id !in g[id]
  }

  /** What passing every node's check says about the whole graph. */
  lemma CheckedGraph<Id(!new)>(nodes: seq<Node<Id>>)
    requires forall n <- nodes :: Within(n.dependsOn, Ids(nodes) - {n.id})
    ensures Closed(GraphOf(nodes)) && NoSelfEdge(GraphOf(nodes))
  {
    var g := GraphOf(nodes);
    forall id, d | id in g && d in g[id] ensures d in g && d != id {
      GraphOfMeans(nodes, id, d);
    }
  }

  lemma FaultyNode<Id(!new)>(nodes: seq<Node<Id>>, node: Node<Id>, d: Id)
    requires node in nodes && d in node.dependsOn
    ensures d !in Ids(nodes) ==> !Closed(GraphOf(nodes))
    ensures d == node.id ==> IsCycle(GraphOf(nodes), [d, d]) && !NoSelfEdge(GraphOf(nodes))
  {
    GraphOfMeans(nodes, node.id, d);
  }

  lemma NoEdges<Id(!new)>(ids: set<Id>, incoming: map<Id, nat>, outgoing: map<Id, seq<Id>>)
    requires incoming == (map id | id in ids :: 0) && outgoing == (map id | id in ids :: [])
    ensures EdgesOf(Build(ids, []), incoming, outgoing)
  {
  }

  /** The first loop: reject dangling and self edges, otherwise index every edge. */
  method IndexEdges<Id(==,!new)>(nodes: seq<Node<Id>>)
    returns (r: Result<(map<Id, nat>, map<Id, seq<Id>>), PlanFault<Id>>)
    ensures r.Ok? ==> EdgesOf(GraphOf(nodes), r.value.0, r.value.1)
    ensures r.Ok? <==> Closed(GraphOf(nodes)) && NoSelfEdge(GraphOf(nodes))
    ensures r.Err? ==>
              || (r.error.UnknownDependency? && !Closed(GraphOf(nodes)))
              || (r.error.SelfDependency? && IsCycle(GraphOf(nodes), [r.error.action, r.error.action]))
  {
    hide NoSelfEdge, Closed, IsCycle, EdgesOf, Within;
    var ids := set n <- nodes :: n.id;
    var incoming: map<Id, nat> := map id | id in ids :: 0;
    var outgoing: map<Id, seq<Id>> := map id | id in ids :: [];
    NoEdges(ids, incoming, outgoing);
    for i := 0 to |nodes|
      invariant EdgesOf(Build(ids, nodes[..i]), incoming, outgoing)
      invariant forall n <- nodes[..i] :: Within(n.dependsOn, ids - {n.id})
    {
      var node := nodes[i];
      assert nodes[..i + 1][..i] == nodes[..i] && nodes[..i + 1] == nodes[..i] + [node];
      var step := IndexNode(ids, Build(ids, nodes[..i]), node, incoming, outgoing);
      if step.Err? {
        FaultyNode(nodes, node, if step.error.UnknownDependency? then step.error.missing else node.id);
        return Err(step.error);
      }
      incoming, outgoing := step.value.0, step.value.1;
    }
    assert nodes[..|nodes|] == nodes;
    CheckedGraph(nodes);
    return Ok((incoming, outgoing));
  }

  // ---------------------------------------------------------- the queue drain

  /** Entries not yet discharged by `done`: what `incoming` counts down. */
  ghost function Outstanding<Id(!new)>(s: seq<Id>, done: set<Id>): nat {
    if s == [] then 0
    else Outstanding(s[..|s| - 1], done) + if s[|s| - 1] in done then 0 else 1
  }

  lemma {:induction false} OutstandingNone<Id(!new)>(s: seq<Id>, done: set<Id>)
    ensures Outstanding(s, done) == 0 <==> forall d <- s :: d in done
  {
    if s != [] {
      var init, last := s[..|s| - 1], s[|s| - 1];
      OutstandingNone(init, done);
      assert s == init + [last];
      assert last in s && forall d <- init :: d in s;
    }
  }

  lemma {:induction false} OutstandingAll<Id(!new)>(s: seq<Id>)
    ensures Outstanding(s, {}) == |s|
  {
    if s != [] { OutstandingAll(s[..|s| - 1]); }
  }

  /** Discharging one more id removes exactly its multiplicity. */
  lemma {:induction false} OutstandingDischarge<Id(!new)>(s: seq<Id>, done: set<Id>, c: Id)
    requires c !in done
    ensures Outstanding(s, done) == Outstanding(s, done + {c}) + Copies(s, c)
  {
    if s != [] {
      assert s == s[..|s| - 1] + [s[|s| - 1]];
      OutstandingDischarge(s[..|s| - 1], done, c);
    }
  }

  /** The queue and the processed ids are the ids that owe nothing. */
  ghost predicate Queued<Id(!new)>(ids: set<Id>, done: set<Id>, ready: seq<Id>, incoming: map<Id, nat>) {
    && incoming.Keys == ids
    && NoDuplicates(ready)
    && (forall x <- ready :: x in ids && x !in done)
    && (forall id <- ids :: incoming[id] == 0 <==> id in ready || id in done)
  }

  ghost predicate Counted<Id(!new)>(g: Graph<Id>, done: set<Id>, incoming: map<Id, nat>) {
    && incoming.Keys == g.Keys
    && forall id <- g :: incoming[id] == Outstanding(g[id], done)
  }

  method InitialReady<Id(==,!new)>(incoming: map<Id, nat>) returns (ready: seq<Id>)
    ensures Queued(incoming.Keys, {}, ready, incoming)
  {
    ready := [];
    var todo := incoming.Keys;
    while todo != {}
      invariant todo <= incoming.Keys
      invariant NoDuplicates(ready)
      invariant forall x <- ready :: x in incoming.Keys - todo
      invariant forall id <- incoming.Keys - todo :: incoming[id] == 0 <==> id in ready
      decreases todo
    {
      Inhabited(todo);
      var id :| id in todo;
      todo := todo - {id};
      if incoming[id] == 0 {
        ready := ready + [id];
      }
    }
  }

  /** `incoming` with the first entries of the popped node's out-edges taken off. */
  ghost predicate PartlyCounted<Id(!new)>(g: Graph<Id>, done: set<Id>, seen: seq<Id>, incoming: map<Id, nat>) {
    && incoming.Keys == g.Keys
    && forall id <- g :: incoming[id] + Copies(seen, id) == Outstanding(g[id], done)
  }

  method RelaxOne<Id(==,!new)>(ghost g: Graph<Id>, ghost done: set<Id>, ghost done': set<Id>, ghost seen: seq<Id>,
                     nxt: Id,
                               incoming: map<Id, nat>, ready: seq<Id>)
    returns (incoming': map<Id, nat>, ready': seq<Id>)
    requires nxt in g && Copies(seen, nxt) < Outstanding(g[nxt], done)
    requires PartlyCounted(g, done, seen, incoming) && Queued(g.Keys, done', ready, incoming)
    ensures PartlyCounted(g, done, seen + [nxt], incoming') && Queued(g.Keys, done', ready', incoming')
  {
    incoming' := incoming[nxt := incoming[nxt] - 1];
    ready' := if incoming'[nxt] == 0 then ready + [nxt] else ready;
    forall id <- g ensures incoming'[id] + Copies(seen + [nxt], id) == Outstanding(g[id], done) {
      CopiesSnoc(seen, nxt, id);
    }
  }

  /** Relax the out-edges of the node just popped. */
  method Relax<Id(==,!new)>(ghost g: Graph<Id>, ghost done: set<Id>, current: Id, out: seq<Id>, incoming0: map<Id, nat>,
                  ready0: seq<Id>)
    returns (incoming: map<Id, nat>, ready: seq<Id>)
    requires current in g && current !in done
    requires Counted(g, done, incoming0) && Queued(g.Keys, done + {current}, ready0, incoming0)
    requires Within(out, g.Keys)
    requires forall id <- g :: Copies(out, id) == Copies(g[id], current)
    ensures Counted(g, done + {current}, incoming) && Queued(g.Keys, done + {current}, ready, incoming)
  {
    incoming, ready := incoming0, ready0;
    for k := 0 to |out|
      invariant Queued(g.Keys, done + {current}, ready, incoming)
      invariant PartlyCounted(g, done, out[..k], incoming)
    {
      assert out[..k + 1] == out[..k] + [out[k]];
      CopiesSnoc(out[..k], out[k], out[k]);
      CopiesPrefix(out, k + 1, out[k]);
      OutstandingDischarge(g[out[k]], done, current);
      incoming, ready := RelaxOne(g, done, done + {current}, out[..k], out[k], incoming, ready);
    }
    assert out[..|out|] == out;
    forall id <- g ensures incoming[id] == Outstanding(g[id], done + {current}) {
      OutstandingDischarge(g[id], done, current);
    }
  }

  /** What Kahn's loop leaves behind. */
  ghost predicate Drained<Id(!new)>(g: Graph<Id>, order: seq<Id>, incoming: map<Id, nat>) {
    && NoDuplicates(order) && (forall x <- order :: x in g)
    && DependenciesFirst(g, order)
    && incoming.Keys == g.Keys
    && (forall id <- g :: incoming[id] == 0 <==> id in order)
    && (forall id {:trigger AllIn(g[id], order)} :: id in g && AllIn(g[id], order) ==> id in order)
  }

  ghost predicate AllIn<Id(!new)>(s: seq<Id>, order: seq<Id>) {
    forall d <- s :: d in order
  }

  lemma PopKeepsOrder<Id(!new)>(g: Graph<Id>, order: seq<Id>, current: Id)
    requires DependenciesFirst(g, order) && current in g
    requires forall d <- g[current] :: d in order
    ensures DependenciesFirst(g, order + [current])
  {
    var longer := order + [current];
    forall i, d | 0 <= i < |longer| && longer[i] in g && d in g[longer[i]] ensures d in longer[..i] {
      assert longer[..i] == order[..i];
      if i == |order| { assert order[..i] == order; }
    }
  }

  /** The state of the drain: `order` is the order of popping, `done` its ids. */
  ghost predicate Draining<Id(!new)>(g: Graph<Id>, order: seq<Id>, done: set<Id>, ready: seq<Id>,
                              incoming: map<Id, nat>) {
    && NoDuplicates(order) && (forall x :: x in order <==> x in done) && done <= g.Keys
    && Counted(g, done, incoming) && Queued(g.Keys, done, ready, incoming)
    && DependenciesFirst(g, order)
  }

  lemma DrainStarts<Id(!new)>(g: Graph<Id>, ready: seq<Id>, incoming: map<Id, nat>, outgoing: map<Id, seq<Id>>)
    requires EdgesOf(g, incoming, outgoing) && Queued(g.Keys, {}, ready, incoming)
    ensures Draining(g, [], {}, ready, incoming)
  {
    forall id <- g ensures incoming[id] == Outstanding(g[id], {}) { OutstandingAll(g[id]); }
  }

  /** Taking the head off the queue leaves the queue of the ids without it. */
  lemma PopsReady<Id(!new)>(g: Graph<Id>, order: seq<Id>, done: set<Id>, ready: seq<Id>, incoming: map<Id, nat>)
    requires Draining(g, order, done, ready, incoming) && ready != []
    ensures ready[0] in g && ready[0] !in done && Counted(g, done, incoming)
    ensures Queued(g.Keys, done + {ready[0]}, ready[1..], incoming)
    ensures forall d <- g[ready[0]] :: d in order
  {
    OutstandingNone(g[ready[0]], done);
    assert ready == [ready[0]] + ready[1..];
  }

  lemma DrainsOne<Id(!new)>(g: Graph<Id>, order: seq<Id>, done: set<Id>, ready: seq<Id>, incoming: map<Id, nat>,
                            current: Id, ready': seq<Id>, incoming': map<Id, nat>)
    requires Draining(g, order, done, ready, incoming) && current in g && current !in done
    requires forall d <- g[current] :: d in order
    requires Counted(g, done + {current}, incoming') && Queued(g.Keys, done + {current}, ready', incoming')
    ensures Draining(g, order + [current], done + {current}, ready', incoming')
  {
    PopKeepsOrder(g, order, current);
  }

  lemma DrainEnds<Id(!new)>(g: Graph<Id>, order: seq<Id>, done: set<Id>, incoming: map<Id, nat>)
    requires Draining(g, order, done, [], incoming)
    ensures Drained(g, order, incoming)
  {
    forall id | id in g && AllIn(g[id], order) ensures id in order {
      OutstandingNone(g[id], done);
    }
  }

  lemma OutgoingOf<Id(!new)>(g: Graph<Id>, incoming: map<Id, nat>, outgoing: map<Id, seq<Id>>, current: Id)
    requires EdgesOf(g, incoming, outgoing) && current in g
    ensures current in outgoing && Within(outgoing[current], g.Keys)
    ensures forall id <- g :: Copies(outgoing[current], id) == Copies(g[id], current)
  {
    forall id <- g ensures Copies(outgoing[current], id) == Copies(g[id], current) {
      assert Copies(outgoing[current], id) == Copies(g[id], current);
    }
  }

  /** The `while ready:` loop. */
  method Drain<Id(==,!new)>(ghost g: Graph<Id>, incoming0: map<Id, nat>, outgoing: map<Id, seq<Id>>)
    returns (order: seq<Id>, incoming: map<Id, nat>)
    requires EdgesOf(g, incoming0, outgoing)
    ensures Drained(g, order, incoming)
  {
    assert incoming0.Keys == g.Keys;
    hide Draining, Drained, EdgesOf, Counted, Queued, Within;
    incoming := incoming0;
    var ready := InitialReady(incoming);
    order := [];
    ghost var done: set<Id> := {};
    DrainStarts(g, ready, incoming, outgoing);
    while ready != []
      invariant done <= g.Keys && Draining(g, order, done, ready, incoming)
      decreases g.Keys - done
    {
      var current := ready[0];
      PopsReady(g, order, done, ready, incoming);
      OutgoingOf(g, incoming0, outgoing, current);
      ghost var ready0, before := ready, incoming;
      incoming, ready := Relax(g, done, current, outgoing[current], incoming, ready[1..]);
      DrainsOne(g, order, done, ready0, before, current, ready, incoming);
      order := order + [current];
      done := done + {current};
    }
    DrainEnds(g, order, done, incoming);
  }

  // -------------------------------------------------------------- correctness

  /** Where a topological order exists, the drain reaches every id. */
  lemma {:induction false} DrainReachesPrefix<Id(!new)>(g: Graph<Id>, order: seq<Id>, incoming: map<Id, nat>,
                                                 topo: seq<Id>, n: nat)
    requires Drained(g, order, incoming) && TopologicalOrder(g, topo) && n <= |topo|
    ensures forall x <- topo[..n] :: x in order
  {
    if n > 0 {
      DrainReachesPrefix(g, order, incoming, topo, n - 1);
      var x := topo[n - 1];
      assert x in g;
      assert AllIn(g[x], order) by {
        forall d <- g[x] ensures d in order { assert d in topo[..n - 1]; }
      }
      assert topo[..n] == topo[..n - 1] + [x];
    }
  }

  lemma DrainReachesEverything<Id(!new)>(g: Graph<Id>, order: seq<Id>, incoming: map<Id, nat>)
    requires Drained(g, order, incoming) && Orderable(g)
    ensures TopologicalOrder(g, order)
  {
    var topo :| TopologicalOrder(g, topo);
    DrainReachesPrefix(g, order, incoming, topo, |topo|);
    assert topo[..|topo|] == topo;
  }

  /** Where the drain falls short, the left-over ids hold a genuine cycle. */
  lemma ShortDrainHasCycle<Id(!new)>(g: Graph<Id>, order: seq<Id>, incoming: map<Id, nat>) returns (cycle: seq<Id>)
    requires Drained(g, order, incoming) && Closed(g)
    requires exists x <- g :: x !in order
    ensures IsCycle(g, cycle) && forall x <- cycle :: x in g && x !in order
  {
    var stuck := set x <- g | x !in order;
    forall x | x in stuck ensures DependsInto(g, stuck, x) {
      assert !AllIn(g[x], order);
      var d :| d in g[x] && d !in order;
    }
    var left :| left in g && left !in order;
    assert left in stuck;
    Inhabited(stuck);
    var x :| x in stuck;
    cycle := StuckSetHasCycle(g, stuck, [x]);
  }

  ghost predicate Acyclic<Id(!new)>(nodes: seq<Node<Id>>) {
    UniqueIds(nodes) && Closed(GraphOf(nodes)) && Orderable(GraphOf(nodes))
  }

  /** `validate_acyclic`: returns normally on exactly the node lists with unique
      ids, no dangling edge and a topological order; a short count means a cycle. */
  method ValidateAcyclic<Id(==,!new)>(nodes: seq<Node<Id>>) returns (r: Result<(), PlanFault<Id>>)
    ensures r.Ok? <==> Acyclic(nodes)
    ensures r.Err? && r.error.UnknownDependency? ==> !Closed(GraphOf(nodes))
    ensures r.Err? && r.error.SelfDependency? ==> IsCycle(GraphOf(nodes), [r.error.action, r.error.action])
    ensures r.Err? && r.error.CyclicActions? && UniqueIds(nodes) ==>
              exists cycle :: IsCycle(GraphOf(nodes), cycle) && forall x <- cycle :: x in r.error.cyclic
  {
    ghost var g := GraphOf(nodes);
    var edges := IndexEdges(nodes);
    if edges.Err? {
      if edges.error.SelfDependency? { CyclePreventsOrder(g, [edges.error.action, edges.error.action]); }
      return Err(edges.error);
    }
    var order, incoming := Drain(g, edges.value.0, edges.value.1);
    IdCount(nodes);
    ListedCount(order, g.Keys);
    if |order| != |nodes| {
      if UniqueIds(nodes) {
        ghost var cycle := ShortDrainHasCycle(g, order, incoming);
        CyclePreventsOrder(g, cycle);
        assert forall x <- cycle :: incoming[x] > 0;
      }
      return Err(CyclicActions(set id <- incoming | incoming[id] > 0));
    }
    assert TopologicalOrder(g, order);
    return Ok(());
  }

  /** `reverse_topo`: raises exactly when `validate_acyclic` does, and otherwise
      lists every id once with each dependent before its dependencies. */
  method ReverseTopo<Id(==,!new)>(nodes: seq<Node<Id>>) returns (r: Result<seq<Id>, PlanFault<Id>>)
    ensures r.Ok? <==> Acyclic(nodes)
    ensures r.Ok? ==> CompensationOrder(GraphOf(nodes), r.value)
  {
    var valid := ValidateAcyclic(nodes);
    if valid.Err? { return Err(valid.error); }
    OrderableHasNoSelfEdge(GraphOf(nodes));
    var edges := IndexEdges(nodes);
    if edges.Err? { assert false; }
    var order, incoming := Drain(GraphOf(nodes), edges.value.0, edges.value.1);
    DrainReachesEverything(GraphOf(nodes), order, incoming);
    ReversedTopologicalOrder(GraphOf(nodes), order);
    return Ok(Reversed(order));
  }

  lemma OrderableHasNoSelfEdge<Id(!new)>(g: Graph<Id>)
    requires Orderable(g)
    ensures NoSelfEdge(g)
  {
    forall id <- g ensures id !in g[id] {
      if id in g[id] { CyclePreventsOrder(g, [id, id]); }
    }
  }

  // ---------------------------------------------------------------- readiness

  /** `by_id`, reduced to what readiness reads; the last of repeated ids wins. */
  function Statuses<Id(==,!new)>(nodes: seq<Node<Id>>): map<Id, ActionStatus> {
    if nodes == [] then map[]
    else Statuses(nodes[..|nodes| - 1])[nodes[|nodes| - 1].id := nodes[|nodes| - 1].status]
  }

  lemma {:induction false} StatusesMeans<Id(!new)>(nodes: seq<Node<Id>>, n: Node<Id>)
    requires n in nodes
    ensures n.id in Statuses(nodes)
    ensures UniqueIds(nodes) ==> Statuses(nodes)[n.id] == n.status
  {
    var init, last := nodes[..|nodes| - 1], nodes[|nodes| - 1];
    assert nodes == init + [last];
    if n in init {
      StatusesMeans(init, n);
      var i :| 0 <= i < |init| && init[i] == n;
      assert nodes[i] == n && UniqueIds(nodes) ==> n.id != last.id;
    }
  }

  predicate IsReady<Id(==,!new)>(statuses: map<Id, ActionStatus>, node: Node<Id>)
    requires forall d <- node.dependsOn :: d in statuses
  {
    node.status.Planned? && forall d <- node.dependsOn :: Acceptable(statuses[d], node.toleratesUnverified)
  }

  /** The ready nodes' ids in input order. */
  ghost function ReadyOf<Id(!new)>(statuses: map<Id, ActionStatus>, nodes: seq<Node<Id>>): seq<Id>
    requires forall n <- nodes, d <- n.dependsOn :: d in statuses
  {
    if nodes == [] then []
    else
      var init, last := nodes[..|nodes| - 1], nodes[|nodes| - 1];
      ReadyOf(statuses, init) + if IsReady(statuses, last) then [last.id] else []
  }

  ghost predicate DependenciesListed<Id(!new)>(nodes: seq<Node<Id>>) {
    forall n <- nodes, d <- n.dependsOn :: d in Statuses(nodes)
  }

  lemma {:induction false} ReadyOfMeans<Id(!new)>(statuses: map<Id, ActionStatus>, nodes: seq<Node<Id>>, id: Id)
    requires forall n <- nodes, d <- n.dependsOn :: d in statuses
    ensures id in ReadyOf(statuses, nodes) <==> exists n <- nodes :: n.id == id && IsReady(statuses, n)
  {
    if nodes != [] {
      assert nodes == nodes[..|nodes| - 1] + [nodes[|nodes| - 1]];
      ReadyOfMeans(statuses, nodes[..|nodes| - 1], id);
    }
  }

  /** `ready_ids`. A missing dependency is a KeyError in the code; the stored
      graph is always closed. */
  method ReadyIds<Id(==,!new)>(nodes: seq<Node<Id>>) returns (ready: seq<Id>)
    requires DependenciesListed(nodes)
    ensures ready == ReadyOf(Statuses(nodes), nodes)
  {
    var byId: map<Id, ActionStatus> := map[];
    for i := 0 to |nodes|
      invariant byId == Statuses(nodes[..i])
    {
      assert nodes[..i + 1][..i] == nodes[..i];
      byId := byId[nodes[i].id := nodes[i].status];
    }
    assert nodes[..|nodes|] == nodes;
    ready := [];
    for i := 0 to |nodes|
      invariant forall n <- nodes[..i], d <- n.dependsOn :: d in byId
      invariant ready == ReadyOf(byId, nodes[..i])
    {
      var node := nodes[i];
      assert node in nodes && nodes[..i + 1] == nodes[..i] + [node];
      assert nodes[..i + 1][..i] == nodes[..i];
      if node.status.Planned? && forall d <- node.dependsOn :: Acceptable(byId[d], node.toleratesUnverified) {
        ready := ready + [node.id];
      }
    }
  }

  /** No deadlock: when everything already off PLANNED is acceptable to its
      dependents, a planned node of an acyclic list makes some node ready. */
  lemma NoDeadlock<Id(!new)>(nodes: seq<Node<Id>>)
    requires Acyclic(nodes) && DependenciesListed(nodes)
    requires exists n <- nodes :: n.status.Planned?
    requires forall n <- nodes, d <- n.dependsOn ::
               Statuses(nodes)[d].Planned? || Acceptable(Statuses(nodes)[d], n.toleratesUnverified)
    ensures ReadyOf(Statuses(nodes), nodes) != []
  {
    var order :| TopologicalOrder(GraphOf(nodes), order);
    var n :| n in nodes && n.status.Planned?;
    assert n.id in GraphOf(nodes);
    var i :| 0 <= i < |order| && order[i] == n.id;
    var first := FirstPlanned(nodes, order, n, i);
    ReadyOfMeans(Statuses(nodes), nodes, first.id);
  }

  lemma {:induction false} FirstPlanned<Id(!new)>(nodes: seq<Node<Id>>, order: seq<Id>, n: Node<Id>, i: nat)
    returns (first: Node<Id>)
    requires UniqueIds(nodes) && TopologicalOrder(GraphOf(nodes), order) && DependenciesListed(nodes)
    requires n in nodes && n.status.Planned? && i < |order| && order[i] == n.id
    requires forall n <- nodes, d <- n.dependsOn ::
               Statuses(nodes)[d].Planned? || Acceptable(Statuses(nodes)[d], n.toleratesUnverified)
    ensures first in nodes && IsReady(Statuses(nodes), first)
    decreases i
  {
    if IsReady(Statuses(nodes), n) { return n; }
    var d :| d in n.dependsOn && !Acceptable(Statuses(nodes)[d], n.toleratesUnverified);
    GraphOfMeans(nodes, n.id, d);
    assert d in order[..i];
    var j :| 0 <= j < i && order[j] == d;
    assert d in GraphOf(nodes);
    var dep :| dep in nodes && dep.id == d;
    StatusesMeans(nodes, dep);
    first := FirstPlanned(nodes, order, dep, j);
  }
}

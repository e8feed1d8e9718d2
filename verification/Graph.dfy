/** Dependency graphs as maps from an id to the ids it depends on, with the
    orders and cycles that vyomel/runtime/dag.py decides about. */
module Graph {

  /** `depends_on` by id; repeated entries are kept. */
  type Graph<Id> = map<Id, seq<Id>>

  ghost predicate Closed<Id(!new)>(g: Graph<Id>) {
    forall id <- g, d <- g[id] :: d in g
  }

  ghost predicate NoDuplicates<Id(!new)>(s: seq<Id>) {
    forall i, j | 0 <= i < j < |s| :: s[i] != s[j]
  }

  ghost predicate Lists<Id(!new)>(s: seq<Id>, ids: set<Id>) {
    && NoDuplicates(s)
    && (forall x <- s :: x in ids)
    && (forall x <- ids :: x in s)
  }

  /** Every dependency of every listed id stands earlier in the list. */
  ghost predicate DependenciesFirst<Id(!new)>(g: Graph<Id>, order: seq<Id>) {
    forall i, d | 0 <= i < |order| && order[i] in g && d in g[order[i]] :: d in order[..i]
  }

  ghost predicate TopologicalOrder<Id(!new)>(g: Graph<Id>, order: seq<Id>) {
    Lists(order, g.Keys) && DependenciesFirst(g, order)
  }

  ghost predicate Orderable<Id(!new)>(g: Graph<Id>) {
    exists order :: TopologicalOrder(g, order)
  }

  /** A walk that follows dependency edges. */
  ghost predicate IsWalk<Id(!new)>(g: Graph<Id>, walk: seq<Id>) {
    && |walk| > 0
    && forall i | 0 <= i < |walk| - 1 :: walk[i] in g && walk[i + 1] in g[walk[i]]
  }

  ghost predicate IsCycle<Id(!new)>(g: Graph<Id>, walk: seq<Id>) {
    IsWalk(g, walk) && |walk| >= 2 && walk[0] == walk[|walk| - 1]
  }

  /** `later` depends on `earlier`, directly or through others. */
  ghost predicate Reaches<Id(!new)>(g: Graph<Id>, later: Id, earlier: Id) {
    exists walk :: IsWalk(g, walk) && |walk| >= 2 && walk[0] == later && walk[|walk| - 1] == earlier
  }

  /** Along a walk, positions in a topological order strictly fall. */
  lemma {:induction false} WalkDescends<Id(!new)>(g: Graph<Id>, order: seq<Id>, walk: seq<Id>, p: nat, n: nat)
    requires DependenciesFirst(g, order) && IsWalk(g, walk)
    requires 0 < n < |walk| && p < |order| && order[p] == walk[0]
    ensures walk[n] in order[..p]
  {
    if n > 1 {
      WalkDescends(g, order, walk, p, n - 1);
    }
    var q :| 0 <= q <= p && order[q] == walk[n - 1];
    assert walk[n - 1] in g && walk[(n - 1) + 1] in g[walk[n - 1]];
    assert order[q] in g && walk[n] in g[order[q]];
    assert walk[n] in order[..q];
    assert forall x <- order[..q] :: x in order[..p];
  }

  lemma Inhabited<T>(s: set<T>)
    requires s != {}
    ensures exists x :: x in s
  {
    var x :| x in s;
  }

  lemma CyclePreventsOrder<Id(!new)>(g: Graph<Id>, cycle: seq<Id>)
    requires IsCycle(g, cycle)
    ensures !Orderable(g)
  {
    if Orderable(g) {
      var order :| TopologicalOrder(g, order);
      assert cycle[0] in g;
      var p :| 0 <= p < |order| && order[p] == cycle[0];
      WalkDescends(g, order, cycle, p, |cycle| - 1);
    }
  }

  ghost predicate DependsInto<Id(!new)>(g: Graph<Id>, ids: set<Id>, x: Id) {
    x in g && exists d <- g[x] :: d in ids
  }

  /** A finite set in which everyone depends on someone contains a cycle. */
  lemma {:induction false} StuckSetHasCycle<Id(!new)>(g: Graph<Id>, stuck: set<Id>, walk: seq<Id>)
    returns (cycle: seq<Id>)
    requires forall x {:trigger DependsInto(g, stuck, x)} :: x in stuck ==> DependsInto(g, stuck, x)
    requires IsWalk(g, walk) && NoDuplicates(walk) && forall x <- walk :: x in stuck
    ensures IsCycle(g, cycle) && forall x <- cycle :: x in stuck
    decreases stuck - set x <- walk
  {
    var last := walk[|walk| - 1];
    assert DependsInto(g, stuck, last);
    var d :| d in g[last] && d in stuck;
    if d in walk {
      var i :| 0 <= i < |walk| && walk[i] == d;
      cycle := walk[i..] + [d];
      forall j | 0 <= j < |cycle| - 1 ensures cycle[j] in g && cycle[j + 1] in g[cycle[j]] {
        assert cycle[j] == walk[i + j];
        if j + 1 < |walk| - i { assert cycle[j + 1] == walk[i + j + 1]; }
      }
    } else {
      var longer := walk + [d];
      assert d in (stuck - set x <- walk) && d !in (stuck - set x <- longer);
      forall j | 0 <= j < |longer| - 1 ensures longer[j] in g && longer[j + 1] in g[longer[j]] {
        assert longer[j] == walk[j];
        if j + 1 < |walk| { assert longer[j + 1] == walk[j + 1]; }
      }
      cycle := StuckSetHasCycle(g, stuck, longer);
    }
  }

  lemma {:induction false} ListedCount<Id(!new)>(s: seq<Id>, ids: set<Id>)
    requires NoDuplicates(s) && forall x <- s :: x in ids
    ensures |s| <= |ids|
    ensures |s| == |ids| ==> forall x <- ids :: x in s
    ensures (forall x <- ids :: x in s) ==> |s| == |ids|
  {
    if s == [] {
      if forall x <- ids :: x in s { assert ids == {}; }
    } else {
      var init, last := s[..|s| - 1], s[|s| - 1];
      assert last in ids && last !in init;
      forall x <- init ensures x in ids - {last} {}
      ListedCount(init, ids - {last});
      assert s == init + [last];
    }
  }

  function Reversed<T>(s: seq<T>): (r: seq<T>)
    ensures |r| == |s| && forall i | 0 <= i < |s| :: r[i] == s[|s| - 1 - i]
  {
    seq(|s|, i requires 0 <= i < |s| => s[|s| - 1 - i])
  }

  /** Every id once, each before everything it depends on: the undo order. */
  ghost predicate CompensationOrder<Id(!new)>(g: Graph<Id>, order: seq<Id>) {
    && Lists(order, g.Keys)
    && forall i, d | 0 <= i < |order| && order[i] in g && d in g[order[i]] :: d in order[i + 1..]
  }

  lemma ReversedTopologicalOrder<Id(!new)>(g: Graph<Id>, order: seq<Id>)
    requires TopologicalOrder(g, order)
    ensures CompensationOrder(g, Reversed(order))
  {
    var r, n := Reversed(order), |order|;
    forall x ensures x in r <==> x in order {
      if x in order { var i :| 0 <= i < n && order[i] == x; assert r[n - 1 - i] == x; }
    }
    forall i, d | 0 <= i < n && r[i] in g && d in g[r[i]] ensures d in r[i + 1..] {
      assert d in order[..n - 1 - i];
      var k :| 0 <= k < n - 1 - i && order[k] == d;
      assert r[i + 1..][n - 1 - k - (i + 1)] == r[n - 1 - k] == d;
    }
  }

  /** In an undo order, whatever an id depends on, however far down, comes after it. */
  lemma {:induction false} DependentsComeFirst<Id(!new)>(g: Graph<Id>, order: seq<Id>, walk: seq<Id>, p: nat, n: nat)
    requires CompensationOrder(g, order) && IsWalk(g, walk)
    requires 0 < n < |walk| && p < |order| && order[p] == walk[0]
    ensures walk[n] in order[p + 1..]
  {
    var q := p;
    if n > 1 {
      DependentsComeFirst(g, order, walk, p, n - 1);
      q :| p < q < |order| && order[q] == walk[n - 1];
    }
    assert walk[n - 1] in g && walk[(n - 1) + 1] in g[walk[n - 1]];
    assert walk[n] in order[q + 1..];
    var r :| q < r < |order| && order[r] == walk[n];
    assert order[p + 1..][r - p - 1] == walk[n];
  }

  ghost predicate SameEdges<Id(!new)>(g: Graph<Id>, h: Graph<Id>) {
    g.Keys == h.Keys && forall i, d | i in g :: d in g[i] <==> d in h[i]
  }

  /** Orders depend on the edges only, not on how often each is listed. */
  lemma OrdersTransfer<Id(!new)>(g: Graph<Id>, h: Graph<Id>, order: seq<Id>)
    requires SameEdges(g, h)
    ensures TopologicalOrder(g, order) ==> TopologicalOrder(h, order)
    ensures CompensationOrder(g, order) ==> CompensationOrder(h, order)
  {
    forall i, d | 0 <= i < |order| && order[i] in h && d in h[order[i]]
      ensures TopologicalOrder(g, order) ==> d in order[..i]
      ensures CompensationOrder(g, order) ==> d in order[i + 1..]
    {
      assert d in g[order[i]];
    }
  }
}

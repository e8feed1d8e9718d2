/** Promotion and bounded, gated dispatch; commit before publish
    (vyomel/runtime/dispatcher.py). */
module Dispatcher {
  import opened Wrappers
  import opened Lifecycle
  import opened Policy
  import opened Model
  import opened Repos
  import Dag
  import Dependencies
  import Gate

  // -------------------------------------------------------------------- promotion

  function NodeAt(actions: seq<Action>, i: Id): Dag.Node<Id>
    requires 0 <= i < |actions|
  {
    Dag.Node(i, actions[i].status, actions[i].spec.dependsOn, actions[i].spec.tolerates)
  }

  function Nodes(actions: seq<Action>): (nodes: seq<Dag.Node<Id>>)
    ensures |nodes| == |actions| && forall i | 0 <= i < |actions| :: nodes[i] == NodeAt(actions, i)
  {
    seq(|actions|, i requires 0 <= i < |actions| => NodeAt(actions, i))
  }

  ghost predicate InRange(actions: seq<Action>) {
    forall i, k | 0 <= i < |actions| && 0 <= k < |actions[i].spec.dependsOn| ::
        0 <= actions[i].spec.dependsOn[k] < |actions|
  }

  lemma GraphOkInRange(s: State)
    requires Dependencies.GraphOk(s)
    ensures InRange(s.actions)
  {
    var g := DependencyGraph(s.actions);
    forall i, k | 0 <= i < |s.actions| && 0 <= k < |s.actions[i].spec.dependsOn|
      ensures 0 <= s.actions[i].spec.dependsOn[k] < |s.actions|
    {
      assert i in g && g[i] == s.actions[i].spec.dependsOn;
      assert g[i][k] in g;
    }
  }

  lemma StatusesOfRows(actions: seq<Action>, i: Id)
    requires 0 <= i < |actions|
    ensures i in Dag.Statuses(Nodes(actions)) && Dag.Statuses(Nodes(actions))[i] == actions[i].status
  {
    Dag.StatusesMeans(Nodes(actions), Nodes(actions)[i]);
  }

  lemma RowsAreListed(actions: seq<Action>)
    requires InRange(actions)
    ensures Dag.DependenciesListed(Nodes(actions))
  {
    forall n, d | n in Nodes(actions) && d in n.dependsOn ensures d in Dag.Statuses(Nodes(actions)) {
      StatusesOfRows(actions, d);
    }
  }

  predicate Promotable(s: State, i: Id) {
    IsAction(s, i) && s.actions[i].status.Planned? && DependenciesMet(s, s.actions[i])
  }

  /** Readiness over the node list is readiness of the rows. */
  lemma ReadyIsPromotable(s: State, i: Id)
    requires InRange(s.actions)
    ensures Dag.DependenciesListed(Nodes(s.actions))
    ensures i in Dag.ReadyOf(Dag.Statuses(Nodes(s.actions)), Nodes(s.actions)) <==> Promotable(s, i)
  {
    var nodes := Nodes(s.actions);
    RowsAreListed(s.actions);
    Dag.ReadyOfMeans(Dag.Statuses(nodes), nodes, i);
    forall d | IsAction(s, d) ensures d in Dag.Statuses(nodes) && Dag.Statuses(nodes)[d] == s.actions[d].status {
      StatusesOfRows(s.actions, d);
    }
    if Promotable(s, i) {
      assert nodes[i] in nodes;
      assert Dag.IsReady(Dag.Statuses(nodes), nodes[i]);
    }
    if n :| n in nodes && n.id == i && Dag.IsReady(Dag.Statuses(nodes), n) {
      forall k | 0 <= k < |s.actions[i].spec.dependsOn|
        ensures Acceptable(s.actions[s.actions[i].spec.dependsOn[k]].status, s.actions[i].spec.tolerates)
      {
        assert s.actions[i].spec.dependsOn[k] in n.dependsOn;
      }
    }
  }

  function PromoteRow(r: Action): Action {
    r.(status := Ready, stay := r.stay + 1)
  }

  /** `ready_ids` over the rows. */
  method ReadyRows(db: Store) returns (ready: seq<Id>)
    requires InRange(db.actions)
    ensures forall i :: i in ready <==> Promotable(db.Snap(), i)
  {
    hide Promotable, InRange;
    RowsAreListed(db.actions);
    ready := Dag.ReadyIds(Nodes(db.actions));
    forall i ensures i in ready <==> Promotable(db.Snap(), i) { ReadyIsPromotable(db.Snap(), i); }
  }

  method PromoteOne(db: Store, a: Id) returns (moved: bool)
    requires Live(db.Snap()) && IsAction(db.Snap(), a) && DependenciesMet(db.Snap(), db.actions[a])
    modifies db`actions
    ensures moved <==> old(db.actions)[a].status.Planned?
    ensures moved ==> MoveOk(old(db.Snap()), a, Promote) && db.Snap() == ApplyMove(old(db.Snap()), a, Promote)
    ensures db.actions == if moved then old(db.actions)[a := PromoteRow(old(db.actions)[a])] else old(db.actions)
  {
    moved := db.CasStatus(a, Planned, PromoteRow(db.actions[a]));
  }

  /** `promote_ready`: exactly the planned rows whose dependencies are met on entry. */
  method PromoteReady(db: Store) returns (promoted: nat, ghost steps: seq<Step>)
    requires Live(db.Snap()) && InRange(db.actions)
    modifies db`actions
    ensures Run(old(db.Snap()), steps, db.Snap()) && forall step <- steps :: step.Act? && step.move.Promote?
    ensures |db.actions| == |old(db.actions)|
    ensures forall i | 0 <= i < |db.actions| ::
              db.actions[i] == if Promotable(old(db.Snap()), i) then PromoteRow(old(db.actions)[i])
                  else old(db.actions)[i]
    ensures forall i | 0 <= i < |db.actions| ::
              db.actions[i] == if old(db.actions)[i].status == Planned && AllProven(old(db.actions), old(db.actions)[i])
                               then old(db.actions)[i].(status := Ready, stay := old(db.actions)[i].stay + 1)
                               else old(db.actions)[i]
  {
    ghost var s0 := db.Snap();
    assert PromotedSet(s0, s0, {});
    hide Run, PromotedSet, Promotable, MoveOk, ApplyMove, DependenciesMet, InRange, Live, Nodes, AllProven;
    RunNothing(s0);
    var ready := ReadyRows(db);
    promoted, steps := 0, [];
    ghost var done: set<Id> := {};
    for k := 0 to |ready|
      invariant Run(s0, steps, db.Snap()) && PromotedSet(s0, db.Snap(), done)
      invariant forall step <- steps :: step.Act? && step.move.Promote?
      invariant forall i :: i in done <==> i in ready[..k]
    {
      var a := ready[k];
      assert a in ready && ready[..k + 1] == ready[..k] + [a];
      ghost var before := db.Snap();
      CanStillPromote(s0, before, done, a);
      var moved := PromoteOne(db, a);
      if moved {
        RunAct(s0, steps, before, a, Promote, db.Snap());
        promoted, steps := promoted + 1, steps + [Act(a, Promote)];
      }
      PromotedNext(s0, before, done, a, db.Snap());
      done := done + {a};
    }
    assert ready[..|ready|] == ready;
    AllPromoted(s0, db.Snap(), done);
    forall i | 0 <= i < |s0.actions| { PromotableMeans(s0, i); }
  }

  /** Every dependency has succeeded, or is unverified and may be. */
  ghost predicate AllProven(actions: seq<Action>, r: Action) {
    forall d <- r.spec.dependsOn ::
      0 <= d < |actions| && (actions[d].status == Succeeded || (actions[d].status == Unverified && r.spec.tolerates))
  }

  lemma PromotableMeans(s: State, i: Id)
    requires IsAction(s, i)
    ensures Promotable(s, i) <==> s.actions[i].status == Planned && AllProven(s.actions, s.actions[i])
    ensures PromoteRow(s.actions[i]) == s.actions[i].(status := Ready, stay := s.actions[i].stay + 1)
  {
    var r := s.actions[i];
    if DependenciesMet(s, r) {
      forall d | d in r.spec.dependsOn
        ensures IsAction(s, d) && Acceptable(s.actions[d].status, r.spec.tolerates)
      {
        var k :| 0 <= k < |r.spec.dependsOn| && r.spec.dependsOn[k] == d;
      }
    }
    if AllProven(s.actions, r) {
      forall k | 0 <= k < |r.spec.dependsOn|
        ensures IsAction(s, r.spec.dependsOn[k])
                && Acceptable(s.actions[r.spec.dependsOn[k]].status, r.spec.tolerates)
      {
        assert r.spec.dependsOn[k] in r.spec.dependsOn;
      }
    }
  }

  /** Exactly the rows in `done` have been promoted, and all of them could be. */
  ghost predicate PromotedSet(s: State, t: State, done: set<Id>) {
    && t == s.(actions := t.actions) && |t.actions| == |s.actions|
    && (forall i | i in done :: Promotable(s, i))
    && (forall i | 0 <= i < |t.actions| :: t.actions[i] == if i in done then PromoteRow(s.actions[i]) else s.actions[i])
  }

  lemma CanStillPromote(s: State, t: State, done: set<Id>, a: Id)
    requires PromotedSet(s, t, done) && Promotable(s, a)
    ensures IsAction(t, a) && DependenciesMet(t, t.actions[a])
  {
    forall i | 0 <= i < |s.actions| ensures SameProof(s.actions[i].status, t.actions[i].status) {
      assert i in done ==> Promotable(s, i);
    }
    StillMet(s, t, s.actions[a]);
  }

  lemma PromotedNext(s: State, t: State, done: set<Id>, a: Id, u: State)
    requires PromotedSet(s, t, done) && Promotable(s, a) && u == t.(actions := u.actions)
    requires if t.actions[a].status.Planned? then u.actions == t.actions[a := PromoteRow(t.actions[a])]
             else u.actions == t.actions
    ensures PromotedSet(s, u, done + {a})
  {
    hide DependenciesMet;
  }

  lemma AllPromoted(s: State, t: State, done: set<Id>)
    requires PromotedSet(s, t, done) && forall i :: i in done <==> Promotable(s, i)
    ensures |t.actions| == |s.actions|
    ensures forall i | 0 <= i < |t.actions| ::
            t.actions[i] == if Promotable(s, i) then PromoteRow(s.actions[i]) else s.actions[i]
  {
    hide Promotable;
  }

  predicate SameProof(before: ActionStatus, after: ActionStatus) {
    (before.Succeeded? <==> after.Succeeded?) && (before.Unverified? <==> after.Unverified?)
  }

  /** Promoting and offering rows meets no dependency that was not met, and breaks none. */
  lemma StillMet(s: State, t: State, r: Action)
    requires |s.actions| == |t.actions|
    requires forall i | 0 <= i < |s.actions| :: SameProof(s.actions[i].status, t.actions[i].status)
    ensures DependenciesMet(s, r) <==> DependenciesMet(t, r)
  {
    forall k | 0 <= k < |r.spec.dependsOn| && IsAction(s, r.spec.dependsOn[k])
      ensures Acceptable(s.actions[r.spec.dependsOn[k]].status, r.spec.tolerates) <==>
              Acceptable(t.actions[r.spec.dependsOn[k]].status, r.spec.tolerates)
    {
      assert SameProof(s.actions[r.spec.dependsOn[k]].status, t.actions[r.spec.dependsOn[k]].status);
    }
  }

  /** Nothing is left to promote once `promote_ready` has run, nor after dispatching. */
  lemma NothingLeftToPromote(s: State, t: State, u: State, published: seq<Id>)
    requires t == s.(actions := t.actions) && |t.actions| == |s.actions|
    requires forall i | 0 <= i < |t.actions| ::
             t.actions[i] == if Promotable(s, i) then PromoteRow(s.actions[i]) else s.actions[i]
    requires Progress(t, u, |u.actions|, published)
    ensures forall i :: !Promotable(u, i)
  {
    forall i | IsAction(u, i) ensures !Promotable(u, i) {
      forall j | 0 <= j < |u.actions| ensures SameProof(s.actions[j].status, u.actions[j].status) {
        assert t.actions[j] == if Promotable(s, j) then PromoteRow(s.actions[j]) else s.actions[j];
      }
      if u.actions[i].status.Planned? {
        assert u.actions[i] == t.actions[i] == s.actions[i];
        StillMet(s, u, s.actions[i]);
      }
    }
  }

  // --------------------------------------------------------------------- in flight

  predicate InFlight(r: Action) {
    r.status.Dispatched? || r.status.Running?
  }

  function KeyOf(registry: map<string, ToolInfo>, tool: string): Option<string> {
    if tool in registry then registry[tool].concurrencyKey else None
  }

  /** `_CONCURRENCY_LIMITS`, with the task-wide bound for other keys. */
  function Limit(cfg: Config, key: string): nat {
    match key
    case "desktop" => 1
    case "browser" => 1
    case "fs" => 4
    case "http" => 8
    case "model" => 2
    case _ => cfg.maxParallel
  }

  function FlightCount(actions: seq<Action>): nat {
    if actions == [] then 0
    else FlightCount(actions[..|actions| - 1]) + if InFlight(actions[|actions| - 1]) then 1 else 0
  }

  predicate Occupies(cfg: Config, r: Action, key: string) {
    InFlight(r) && KeyOf(cfg.registry, r.spec.tool) == Some(key)
  }

  function KeyFlightCount(cfg: Config, actions: seq<Action>, key: string): nat {
    if actions == [] then 0
    else
      KeyFlightCount(cfg, actions[..|actions| - 1], key)
      + if Occupies(cfg, actions[|actions| - 1], key) then 1 else 0
  }

  lemma {:induction false} FlightUpdate(actions: seq<Action>, a: nat, r: Action)
    requires a < |actions|
    ensures FlightCount(actions[a := r]) ==
            FlightCount(actions) - (if InFlight(actions[a]) then 1 else 0) + (if InFlight(r) then 1 else 0)
  {
    var n := |actions| - 1;
    if a == n { assert actions[a := r][..n] == actions[..n]; }
    else {
      assert actions[a := r][..n] == actions[..n][a := r];
      FlightUpdate(actions[..n], a, r);
    }
  }

  lemma {:induction false} KeyFlightUpdate(cfg: Config, actions: seq<Action>, a: nat, r: Action, key: string)
    requires a < |actions|
    ensures KeyFlightCount(cfg, actions[a := r], key) ==
            KeyFlightCount(cfg, actions, key) - (if Occupies(cfg, actions[a], key) then 1 else 0)
                + (if Occupies(cfg, r, key) then 1 else 0)
  {
    var n := |actions| - 1;
    if a == n { assert actions[a := r][..n] == actions[..n]; }
    else {
      assert actions[a := r][..n] == actions[..n][a := r];
      KeyFlightUpdate(cfg, actions[..n], a, r, key);
    }
  }

  function Get(counts: map<string, int>, key: string): int {
    if key in counts then counts[key] else 0
  }

  ghost predicate Counts(cfg: Config, actions: seq<Action>, counts: map<string, int>) {
    forall key: string {:trigger Get(counts, key)} :: Get(counts, key) == KeyFlightCount(cfg, actions, key)
  }

  /** `len(in_flight)` and `_key_counts`. */
  method CountInFlight(cfg: Config, actions: seq<Action>) returns (n: nat, counts: map<string, int>)
    ensures n == FlightCount(actions) && Counts(cfg, actions, counts)
  {
    n, counts := 0, map[];
    for i := 0 to |actions|
      invariant n == FlightCount(actions[..i]) && Counts(cfg, actions[..i], counts)
    {
      var r := actions[i];
      assert actions[..i + 1][..i] == actions[..i] && actions[..i + 1][i] == r;
      ghost var counts0 := counts;
      if InFlight(r) {
        n := n + 1;
        var key := KeyOf(cfg.registry, r.spec.tool);
        if key.Some? { counts := counts[key.value := Get(counts, key.value) + 1]; }
      }
      forall key: string ensures Get(counts, key) == KeyFlightCount(cfg, actions[..i + 1], key) {
        assert Get(counts0, key) == KeyFlightCount(cfg, actions[..i], key);
      }
    }
    assert actions[..|actions|] == actions;
  }

  // ---------------------------------------------------------------------- dispatch

  function DueAt(now: Time): Action -> bool {
    (r: Action) => r.status.Ready? && (r.availableAt.None? || r.availableAt.value <= now)
  }

  /** Gate one candidate and, if allowed, commit it as DISPATCHED. */
  method Offer(db: Store, a: Id) returns (r: Result<Gate.Verdict, Violation>)
    requires Live(db.Snap()) && IsAction(db.Snap(), a) && Due(db.Snap(), db.actions[a])
    modifies db`actions, db`approvals, db`outbox, db`log
    ensures r.Err? <==>
              old(db.actions)[a].call.level <= db.cfg.ceiling
              && DecisionFor(old(db.Snap()), old(db.actions)[a]).Err?
    ensures r.Err? ==> db.Snap() == old(db.Snap())
    ensures r.Ok? ==>
              MoveOk(old(db.Snap()), a, Gate.MoveOf(r.value))
              && db.Snap() == ApplyMove(old(db.Snap()), a, Gate.MoveOf(r.value))
  {
    hide DecisionFor, Usable, Evaluate;
    ghost var s := db.Snap();
    r := Gate.Check(db, a);
    if r.Ok? && r.value.Allowed? {
      ghost var log := MoveLog(s, a, Gate.MoveOf(r.value));
      var _ := db.CasStatus(a, Ready, db.actions[a].(status := Dispatched, lease := None));
      db.outbox := db.outbox + multiset{a};
      db.log := log;
    }
  }

  /** Where a row may stand after it was offered. */
  predicate Offered(before: Action, after: Action) {
    || after == before.(status := Dispatched, lease := None)
    || after == before.(status := WaitingForUser)
    || after == before.(status := Failed, lease := None, error := Some(PermissionDenied))
  }

  predicate Saturated(cfg: Config, actions: seq<Action>, tool: string) {
    KeyOf(cfg.registry, tool).Some? &&
    KeyFlightCount(cfg, actions, KeyOf(cfg.registry, tool).value) >= Limit(cfg, KeyOf(cfg.registry, tool).value)
  }

  /** Among the rows before `upto`, only due ones were offered; nothing else changed. */
  ghost predicate OnlyOffered(s0: State, t: State, upto: int) {
    && t.cfg == s0.cfg && t.task == s0.task && t.now == s0.now && |t.actions| == |s0.actions|
    && forall i | 0 <= i < |s0.actions| ::
         t.actions[i] == s0.actions[i] || (i < upto && Due(s0, s0.actions[i]) && Offered(s0.actions[i], t.actions[i]))
  }

  /** The ids to publish: ascending, and exactly the rows newly DISPATCHED. */
  ghost predicate Publishes(s0: State, t: State, published: seq<Id>) {
    && |t.actions| == |s0.actions|
    && (forall j, k | 0 <= j < k < |published| :: published[j] < published[k])
    && (forall i :: i in published <==>
          IsAction(s0, i) && s0.actions[i].status.Ready? && t.actions[i].status.Dispatched?)
    && t.outbox == s0.outbox + multiset(published)
  }

  /** What the loop of `enqueue_ready` has done once it has looked at the rows before `upto`. */
  ghost predicate Progress(s0: State, t: State, upto: int, published: seq<Id>) {
    OnlyOffered(s0, t, upto) && Publishes(s0, t, published)
  }

  /** Neither the slots of the task nor those of any key are exceeded by dispatching. */
  ghost predicate Bounded(s0: State, t: State, published: seq<Id>) {
    && FlightCount(t.actions) == FlightCount(s0.actions) + |published|
    && (FlightCount(t.actions) <= t.cfg.maxParallel || published == [])
    && forall key: string {:trigger KeyFlightCount(t.cfg, t.actions, key)} ::
         KeyFlightCount(s0.cfg, s0.actions, key) <= KeyFlightCount(t.cfg, t.actions, key)
         && (KeyFlightCount(t.cfg, t.actions, key) <= Limit(t.cfg, key)
             || KeyFlightCount(t.cfg, t.actions, key) == KeyFlightCount(s0.cfg, s0.actions, key))
  }

  /** A due row that was looked at and left behind met a saturated key. */
  ghost predicate LeftBehindSaturated(t: State, upto: int) {
    forall i | 0 <= i < |t.actions| && i < upto && Due(t, t.actions[i]) ::
        Saturated(t.cfg, t.actions, t.actions[i].spec.tool)
  }

  lemma OfferCounts(s: State, a: Id, m: Move, key: string)
    requires MoveOk(s, a, m) && (m.Enqueue? || m.Ask? || m.Refuse?)
    ensures var t := ApplyMove(s, a, m);
            && FlightCount(t.actions) == FlightCount(s.actions) + (if m.Enqueue? then 1 else 0)
            && KeyFlightCount(t.cfg, t.actions, key) ==
               KeyFlightCount(s.cfg, s.actions, key)
                   + (if m.Enqueue? && KeyOf(s.cfg.registry, s.actions[a].spec.tool) == Some(key) then 1 else 0)
            && Offered(s.actions[a], t.actions[a])
               && t.outbox == s.outbox + (if m.Enqueue? then multiset{a} else multiset{})
            && (t.actions[a].status.Dispatched? <==> m.Enqueue?)
  {
    FlightUpdate(s.actions, a, MoveRow(s, a, m));
    KeyFlightUpdate(s.cfg, s.actions, a, MoveRow(s, a, m), key);
  }

  lemma OfferProgress(s0: State, s: State, a: Id, m: Move, published: seq<Id>)
    requires Progress(s0, s, a, published) && IsAction(s0, a) && Due(s0, s0.actions[a])
    requires MoveOk(s, a, m) && (m.Enqueue? || m.Ask? || m.Refuse?)
    ensures Progress(s0, ApplyMove(s, a, m), a + 1, if m.Enqueue? then published + [a] else published)
  {
    var t := ApplyMove(s, a, m);
    OfferCounts(s, a, m, "");
    assert s.actions[a] == s0.actions[a];
    assert forall i | 0 <= i < |s.actions| && i != a :: t.actions[i] == s.actions[i];
    assert t.task == s.task && t.cfg == s.cfg && t.now == s.now && |t.actions| == |s.actions|;
    PublishedAfter(s0, s, t, a, m.Enqueue?, published);
  }

  lemma PublishedBefore(s0: State, s: State, a: Id, published: seq<Id>)
    requires Progress(s0, s, a, published)
    ensures forall i <- published :: i < a
  {
    forall i | i in published ensures i < a {
      assert s.actions[i] != s0.actions[i];
    }
  }

  lemma PublishedAfter(s0: State, s: State, t: State, a: Id, allowed: bool, published: seq<Id>)
    requires Progress(s0, s, a, published) && IsAction(s0, a) && Due(s0, s0.actions[a]) && s.actions[a] == s0.actions[a]
    requires t.cfg == s.cfg && t.task == s.task && t.now == s.now && |t.actions| == |s.actions|
    requires forall i | 0 <= i < |s.actions| && i != a :: t.actions[i] == s.actions[i]
    requires Offered(s.actions[a], t.actions[a]) && (t.actions[a].status.Dispatched? <==> allowed)
    requires t.outbox == s.outbox + (if allowed then multiset{a} else multiset{})
    ensures Progress(s0, t, a + 1, if allowed then published + [a] else published)
  {
    PublishedBefore(s0, s, a, published);
    PublishesMore(s0, s, t, a, allowed, published);
  }

  lemma PublishesMore(s0: State, s: State, t: State, a: Id, allowed: bool, published: seq<Id>)
    requires Publishes(s0, s, published) && IsAction(s0, a) && s0.actions[a].status.Ready?
             && s.actions[a] == s0.actions[a]
    requires |t.actions| == |s.actions| && forall i | 0 <= i < |s.actions| && i != a :: t.actions[i] == s.actions[i]
    requires (t.actions[a].status.Dispatched? <==> allowed) && forall i <- published :: i < a
    requires t.outbox == s.outbox + (if allowed then multiset{a} else multiset{})
    ensures Publishes(s0, t, if allowed then published + [a] else published)
  {
    var p := if allowed then published + [a] else published;
    forall i ensures i in p <==> IsAction(s0, i) && s0.actions[i].status.Ready? && t.actions[i].status.Dispatched? {
      assert i in p <==> i in published || (allowed && i == a);
    }
    assert multiset(published + [a]) == multiset(published) + multiset{a};
    AscendsMore(published, a);
  }

  lemma AscendsMore(ids: seq<Id>, a: Id)
    requires (forall j, k | 0 <= j < k < |ids| :: ids[j] < ids[k]) && forall i <- ids :: i < a
    ensures forall j, k | 0 <= j < k < |ids + [a]| :: (ids + [a])[j] < (ids + [a])[k]
  {
    forall j | 0 <= j < |ids| ensures ids[j] < a { assert ids[j] in ids; }
  }

  lemma OfferBounds(s0: State, s: State, a: Id, m: Move, published: seq<Id>)
    requires Bounded(s0, s, published) && s.cfg == s0.cfg
    requires MoveOk(s, a, m) && (m.Enqueue? || m.Ask? || m.Refuse?)
    requires m.Enqueue? ==>
               FlightCount(s.actions) < s.cfg.maxParallel
               && !Saturated(s.cfg, s.actions, s.actions[a].spec.tool)
    ensures Bounded(s0, ApplyMove(s, a, m), if m.Enqueue? then published + [a] else published)
  {
    var t := ApplyMove(s, a, m);
    OfferCounts(s, a, m, "");
    forall key: string
      ensures KeyFlightCount(s0.cfg, s0.actions, key) <= KeyFlightCount(t.cfg, t.actions, key)
      ensures KeyFlightCount(t.cfg, t.actions, key) <= Limit(t.cfg, key)
              || KeyFlightCount(t.cfg, t.actions, key) == KeyFlightCount(s0.cfg, s0.actions, key)
    {
      OfferCounts(s, a, m, key);
    }
  }

  lemma OfferLeavesBehind(s: State, a: Id, m: Move)
    requires LeftBehindSaturated(s, a) && MoveOk(s, a, m) && (m.Enqueue? || m.Ask? || m.Refuse?)
    ensures LeftBehindSaturated(ApplyMove(s, a, m), a + 1)
  {
    var t := ApplyMove(s, a, m);
    OfferCounts(s, a, m, "");
    forall i | 0 <= i < a && i < |t.actions| && Due(t, t.actions[i])
      ensures Saturated(t.cfg, t.actions, t.actions[i].spec.tool)
    {
      assert t.actions[i] == s.actions[i] && Due(s, s.actions[i]);
      var key := KeyOf(s.cfg.registry, s.actions[i].spec.tool);
      if key.Some? { OfferCounts(s, a, m, key.value); }
    }
  }

  lemma OfferKeyCounts(s: State, a: Id, m: Move, counts: map<string, int>, counts': map<string, int>)
    requires Counts(s.cfg, s.actions, counts) && MoveOk(s, a, m) && (m.Enqueue? || m.Ask? || m.Refuse?)
    requires var key := KeyOf(s.cfg.registry, s.actions[a].spec.tool);
             counts' == if m.Enqueue? && key.Some? then counts[key.value := Get(counts, key.value) + 1] else counts
    ensures Counts(s.cfg, ApplyMove(s, a, m).actions, counts')
  {
    forall key: string ensures Get(counts', key) == KeyFlightCount(s.cfg, ApplyMove(s, a, m).actions, key) {
      OfferCounts(s, a, m, key);
      assert Get(counts, key) == KeyFlightCount(s.cfg, s.actions, key);
    }
  }

  function Slots(cfg: Config, inFlight: nat): nat {
    if cfg.maxParallel > inFlight then cfg.maxParallel - inFlight else 0
  }

  // ------------------------------------------------- the same, counted by status

  /** The rows that are out with a worker or on their way to one. */
  ghost function OutRows(actions: seq<Action>): set<Id> {
    set i | 0 <= i < |actions| && (actions[i].status == Dispatched || actions[i].status == Running)
  }

  /** Those whose tool has this concurrency key. */
  ghost function OutRowsOf(cfg: Config, actions: seq<Action>, key: string): set<Id> {
    set i | 0 <= i < |actions| && (actions[i].status == Dispatched || actions[i].status == Running)
            && actions[i].spec.tool in cfg.registry && cfg.registry[actions[i].spec.tool].concurrencyKey == Some(key)
  }

  lemma {:induction false} FlightIsOut(actions: seq<Action>)
    ensures FlightCount(actions) == |OutRows(actions)|
  {
    if actions != [] {
      var n := |actions| - 1;
      FlightIsOut(actions[..n]);
      var here := if actions[n].status == Dispatched || actions[n].status == Running then {n} else {};
      forall i ensures i in OutRows(actions) <==> i in OutRows(actions[..n]) || i in here {
        if 0 <= i < n { assert actions[..n][i] == actions[i]; }
      }
      assert OutRows(actions) == OutRows(actions[..n]) + here;
    }
  }

  lemma {:induction false} KeyFlightIsOut(cfg: Config, actions: seq<Action>, key: string)
    ensures KeyFlightCount(cfg, actions, key) == |OutRowsOf(cfg, actions, key)|
  {
    if actions != [] {
      var n := |actions| - 1;
      KeyFlightIsOut(cfg, actions[..n], key);
      var here := if Occupies(cfg, actions[n], key) then {n} else {};
      forall i ensures i in OutRowsOf(cfg, actions, key) <==> i in OutRowsOf(cfg, actions[..n], key) || i in here {
        if 0 <= i < n { assert actions[..n][i] == actions[i]; }
      }
      assert OutRowsOf(cfg, actions, key) == OutRowsOf(cfg, actions[..n], key) + here;
    }
  }

  /** How many rows a key may have out at once: one on the desktop, one in the browser, four
      on files, eight over HTTP, two at the model, and what the task may have for the rest. */
  ghost predicate KeyLimit(cfg: Config, key: string, limit: nat) {
    && (key == "desktop" || key == "browser" ==> limit == 1)
    && (key == "fs" ==> limit == 4) && (key == "http" ==> limit == 8) && (key == "model" ==> limit == 2)
    && (key !in {"desktop", "browser", "fs", "http", "model"} ==> limit == cfg.maxParallel)
  }

  /** No number of rows out rises above its limit, for the task or for a key: it is within
      the limit afterwards, or no higher than it was. */
  ghost predicate WithinLimits(cfg: Config, before: seq<Action>, after: seq<Action>) {
    && (|OutRows(after)| <= cfg.maxParallel || |OutRows(after)| <= |OutRows(before)|)
    && forall key: string, limit: nat {:trigger KeyLimit(cfg, key, limit)} | KeyLimit(cfg, key, limit) ::
         |OutRowsOf(cfg, after, key)| <= limit || |OutRowsOf(cfg, after, key)| <= |OutRowsOf(cfg, before, key)|
  }

  /** A due row left behind met as many rows out as the task may have, or as its key may. */
  ghost predicate LeftForAReason(cfg: Config, after: seq<Action>, now: Time) {
    forall i | 0 <= i < |after| && after[i].status == Ready
               && (after[i].availableAt == None || after[i].availableAt.value <= now) ::
      || |OutRows(after)| >= cfg.maxParallel
      || (after[i].spec.tool in cfg.registry && cfg.registry[after[i].spec.tool].concurrencyKey.Some?
          && exists limit: nat ::
               && KeyLimit(cfg, cfg.registry[after[i].spec.tool].concurrencyKey.value, limit)
               && |OutRowsOf(cfg, after, cfg.registry[after[i].spec.tool].concurrencyKey.value)| >= limit)
  }

  /** Only rows whose time has come were offered; each of them is dispatched, waits for a
      human or was refused, and every other row is as it was. */
  ghost predicate OffersOnlyDue(before: seq<Action>, after: seq<Action>, now: Time) {
    |after| == |before| &&
    forall i | 0 <= i < |before| && after[i] != before[i] ::
      && before[i].status == Ready && (before[i].availableAt == None || before[i].availableAt.value <= now)
      && Offered(before[i], after[i])
  }

  lemma OfferedMeans(s0: State, t: State, published: seq<Id>)
    requires Progress(s0, t, |t.actions|, published)
    ensures OffersOnlyDue(s0.actions, t.actions, s0.now)
  {
  }

  lemma LimitIsTheLimit(cfg: Config, key: string, limit: nat)
    ensures KeyLimit(cfg, key, limit) <==> limit == Limit(cfg, key)
  {
  }

  lemma BoundedIsWithin(s0: State, t: State, published: seq<Id>)
    requires Bounded(s0, t, published) && t.cfg == s0.cfg
    ensures WithinLimits(t.cfg, s0.actions, t.actions)
  {
    hide FlightCount, KeyFlightCount, Limit, KeyLimit;
    FlightIsOut(s0.actions);
    FlightIsOut(t.actions);
    forall key: string, limit: nat | KeyLimit(t.cfg, key, limit)
      ensures |OutRowsOf(t.cfg, t.actions, key)| <= limit
              || |OutRowsOf(t.cfg, t.actions, key)| <= |OutRowsOf(t.cfg, s0.actions, key)|
    {
      LimitIsTheLimit(t.cfg, key, limit);
      KeyFlightIsOut(t.cfg, s0.actions, key);
      KeyFlightIsOut(t.cfg, t.actions, key);
    }
  }

  lemma SaturatedIsFull(cfg: Config, actions: seq<Action>, tool: string)
    requires Saturated(cfg, actions, tool)
    ensures tool in cfg.registry && cfg.registry[tool].concurrencyKey.Some?
    ensures var key := cfg.registry[tool].concurrencyKey.value;
            KeyLimit(cfg, key, Limit(cfg, key)) && |OutRowsOf(cfg, actions, key)| >= Limit(cfg, key)
  {
    hide KeyFlightCount, Limit, KeyLimit;
    var key := cfg.registry[tool].concurrencyKey.value;
    LimitIsTheLimit(cfg, key, Limit(cfg, key));
    KeyFlightIsOut(cfg, actions, key);
  }

  lemma LeftBehindHasReason(s0: State, t: State, published: seq<Id>)
    requires Bounded(s0, t, published) && t.cfg == s0.cfg
    requires |published| == Slots(t.cfg, FlightCount(s0.actions)) || LeftBehindSaturated(t, |t.actions|)
    ensures LeftForAReason(t.cfg, t.actions, t.now)
  {
    hide FlightCount, KeyFlightCount, Limit, KeyLimit, Saturated, OutRowsOf;
    FlightIsOut(t.actions);
    forall i | 0 <= i < |t.actions| && Due(t, t.actions[i]) && LeftBehindSaturated(t, |t.actions|)
      ensures Saturated(t.cfg, t.actions, t.actions[i].spec.tool)
    {}
    forall i | 0 <= i < |t.actions| && Saturated(t.cfg, t.actions, t.actions[i].spec.tool)
      ensures var tool := t.actions[i].spec.tool;
              && tool in t.cfg.registry && t.cfg.registry[tool].concurrencyKey.Some?
              && exists limit: nat ::
                   && KeyLimit(t.cfg, t.cfg.registry[tool].concurrencyKey.value, limit)
                   && |OutRowsOf(t.cfg, t.actions, t.cfg.registry[tool].concurrencyKey.value)| >= limit
    {
      SaturatedIsFull(t.cfg, t.actions, t.actions[i].spec.tool);
    }
  }

  /** The invariant of the loop below. */
  ghost predicate Enqueuing(s0: State, t: State, a: int, published: seq<Id>, counts: map<string, int>) {
    && Progress(s0, t, a, published) && Bounded(s0, t, published)
    && Counts(t.cfg, t.actions, counts) && LeftBehindSaturated(t, a)
    && |published| <= Slots(t.cfg, FlightCount(s0.actions)) && Live(t)
  }

  lemma EnqueuingStarts(s: State, counts: map<string, int>)
    requires Live(s) && Counts(s.cfg, s.actions, counts)
    ensures Enqueuing(s, s, 0, [], counts)
  {
  }

  lemma EnqueuingEnds(s0: State, t: State, a: int, published: seq<Id>, counts: map<string, int>)
    requires Enqueuing(s0, t, a, published, counts) && a <= |s0.actions|
    requires a == |s0.actions| || |published| >= Slots(t.cfg, FlightCount(s0.actions))
    ensures Progress(s0, t, |t.actions|, published) && Bounded(s0, t, published)
    ensures |published| <= Slots(t.cfg, FlightCount(s0.actions))
    ensures |published| == Slots(t.cfg, FlightCount(s0.actions)) || LeftBehindSaturated(t, |t.actions|)
  {
  }

  predicate Free(cfg: Config, r: Action, now: Time, counts: map<string, int>) {
    var key := KeyOf(cfg.registry, r.spec.tool);
    DueAt(now)(r) && !(key.Some? && Get(counts, key.value) >= Limit(cfg, key.value))
  }

  lemma SkippedKeeps(s0: State, s: State, a: Id, published: seq<Id>, counts: map<string, int>)
    requires Enqueuing(s0, s, a, published, counts) && IsAction(s0, a) && !Free(s.cfg, s0.actions[a], s.now, counts)
    ensures Enqueuing(s0, s, a + 1, published, counts)
  {
    var key := KeyOf(s.cfg.registry, s0.actions[a].spec.tool);
    if key.Some? { assert Get(counts, key.value) == KeyFlightCount(s.cfg, s.actions, key.value); }
  }

  lemma OfferedIsDue(s0: State, s: State, a: Id, published: seq<Id>, counts: map<string, int>)
    requires Enqueuing(s0, s, a, published, counts) && IsAction(s0, a) && Free(s.cfg, s0.actions[a], s.now, counts)
    ensures Live(s) && IsAction(s, a) && Due(s, s.actions[a]) && s.actions[a] == s0.actions[a]
    ensures !Saturated(s.cfg, s.actions, s.actions[a].spec.tool)
    ensures |published| < Slots(s.cfg, FlightCount(s0.actions)) ==> FlightCount(s.actions) < s.cfg.maxParallel
  {
    var key := KeyOf(s.cfg.registry, s0.actions[a].spec.tool);
    if key.Some? { assert Get(counts, key.value) == KeyFlightCount(s.cfg, s.actions, key.value); }
  }

  function Bump(counts: map<string, int>, key: Option<string>, v: Gate.Verdict): map<string, int> {
    if v.Allowed? && key.Some? then counts[key.value := Get(counts, key.value) + 1] else counts
  }

  lemma OfferKeepsFrame(s: State, a: Id, m: Move)
    requires MoveOk(s, a, m) && Live(s) && (m.Enqueue? || m.Ask? || m.Refuse?)
    ensures ApplyMove(s, a, m).cfg == s.cfg && Live(ApplyMove(s, a, m))
  {
  }

  lemma OfferKeeps(s0: State, s: State, a: Id, v: Gate.Verdict, published: seq<Id>, counts: map<string, int>)
    requires Enqueuing(s0, s, a, published, counts) && IsAction(s0, a) && Free(s.cfg, s0.actions[a], s.now, counts)
    requires |published| < Slots(s.cfg, FlightCount(s0.actions)) && MoveOk(s, a, Gate.MoveOf(v))
    ensures Enqueuing(s0, ApplyMove(s, a, Gate.MoveOf(v)), a + 1, if v.Allowed? then published + [a] else published,
                      Bump(counts, KeyOf(s.cfg.registry, s0.actions[a].spec.tool), v))
  {
    OfferedIsDue(s0, s, a, published, counts);
    OfferKeepsMove(s0, s, a, Gate.MoveOf(v), published, counts,
        Bump(counts, KeyOf(s.cfg.registry, s0.actions[a].spec.tool), v));
  }

  lemma OfferKeepsMove(s0: State, s: State, a: Id, m: Move, published: seq<Id>, counts: map<string, int>,
                       counts': map<string, int>)
    requires Enqueuing(s0, s, a, published, counts) && IsAction(s0, a) && Due(s0, s0.actions[a])
             && s.actions[a] == s0.actions[a]
    requires |published| < Slots(s.cfg, FlightCount(s0.actions)) && FlightCount(s.actions) < s.cfg.maxParallel
    requires MoveOk(s, a, m) && (m.Enqueue? || m.Ask? || m.Refuse?)
             && !Saturated(s.cfg, s.actions, s.actions[a].spec.tool)
    requires var key := KeyOf(s.cfg.registry, s.actions[a].spec.tool);
             counts' == if m.Enqueue? && key.Some? then counts[key.value := Get(counts, key.value) + 1] else counts
    ensures Enqueuing(s0, ApplyMove(s, a, m), a + 1, if m.Enqueue? then published + [a] else published, counts')
  {
    hide Progress, Bounded, Counts, LeftBehindSaturated, MoveOk, ApplyMove, Saturated, Live, Due, FlightCount, Slots;
    hide KeyOf;
    OfferProgress(s0, s, a, m, published);
    EnqueuingFrame(s0, s, a, published, counts);
    OfferBounds(s0, s, a, m, published);
    OfferLeavesBehind(s, a, m);
    OfferKeepsFrame(s, a, m);
    OfferKeyCounts(s, a, m, counts, counts');
  }

  lemma EnqueuingFrame(s0: State, s: State, a: Id, published: seq<Id>, counts: map<string, int>)
    requires Enqueuing(s0, s, a, published, counts)
    ensures s.cfg == s0.cfg && |s.actions| == |s0.actions|
  {
  }

  predicate OffersRow(step: Step) {
    step.Act? && (step.move.Enqueue? || step.move.Ask? || step.move.Refuse?)
  }

  /** `enqueue_ready`: bounded and work-conserving. The published ids are, in
      ascending order, exactly the rows this call moved from READY to DISPATCHED;
      no count rises above its limit; and a due row left behind met a full slot
      count or a saturated key. Err aborts the tick at a policy violation. */
  method EnqueueReady(db: Store) returns (r: Result<seq<Id>, Violation>, ghost steps: seq<Step>)
    requires Live(db.Snap())
    modifies db`actions, db`approvals, db`outbox, db`log
    ensures Run(old(db.Snap()), steps, db.Snap()) && forall step <- steps :: OffersRow(step)
    ensures r.Ok? ==>
              Progress(old(db.Snap()), db.Snap(), |db.actions|, r.value)
              && Bounded(old(db.Snap()), db.Snap(), r.value)
    ensures r.Ok? ==> |r.value| <= Slots(db.cfg, FlightCount(old(db.actions)))
    ensures r.Ok? ==>
              |r.value| == Slots(db.cfg, FlightCount(old(db.actions)))
              || LeftBehindSaturated(db.Snap(), |db.actions|)
    ensures r.Ok? ==> WithinLimits(db.cfg, old(db.actions), db.actions)
    ensures r.Ok? ==> LeftForAReason(db.cfg, db.actions, db.now)
    ensures r.Ok? ==> OffersOnlyDue(old(db.actions), db.actions, db.now)
  {
    hide Run, Enqueuing, Progress, Bounded, Counts, LeftBehindSaturated, MoveOk, ApplyMove;
    ghost var s0 := db.Snap();
    RunNothing(s0);
    var rows := db.actions;
    var inFlight, counts := CountInFlight(db.cfg, rows);
    var slots := Slots(db.cfg, inFlight);
    var published: seq<Id> := [];
    steps := [];
    var a := 0;
    EnqueuingStarts(s0, counts);
    while a < |rows| && |published| < slots
      invariant 0 <= a <= |rows| && db.cfg == s0.cfg && db.now == s0.now
      invariant forall step <- steps :: OffersRow(step)
      invariant Run(s0, steps, db.Snap()) && Enqueuing(s0, db.Snap(), a, published, counts)
    {
      ghost var s := db.Snap();
      if Free(db.cfg, rows[a], db.now, counts) {
        OfferedIsDue(s0, s, a, published, counts);
        var verdict := Offer(db, a);
        if verdict.Err? { return Err(verdict.error), steps; }
        ghost var m := Gate.MoveOf(verdict.value);
        RunAct(s0, steps, s, a, m, db.Snap());
        steps := steps + [Act(a, m)];
        OfferKeeps(s0, s, a, verdict.value, published, counts);
        if verdict.value.Allowed? { published := published + [a]; }
        counts := Bump(counts, KeyOf(db.cfg.registry, rows[a].spec.tool), verdict.value);
      } else {
        SkippedKeeps(s0, s, a, published, counts);
      }
      a := a + 1;
    }
    EnqueuingEnds(s0, db.Snap(), a, published, counts);
    hide WithinLimits, LeftForAReason, Slots, OffersOnlyDue;
    OfferedMeans(s0, db.Snap(), published);
    BoundedIsWithin(s0, db.Snap(), published);
    LeftBehindHasReason(s0, db.Snap(), published);
    return Ok(published), steps;
  }
}

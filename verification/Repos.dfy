/** The database as the runtime sees it: conditional single-row updates and the
    queries beside them (vyomel/store/repos.py, vyomel/security/approvals.py). */
module Repos {
  import opened Wrappers
  import opened Lifecycle
  import opened Model
  import opened Runs

  predicate Overdue(r: Action, now: Time) {
    (r.status.Dispatched? || r.status.Running?) && r.lease.Some? && r.lease.value.until < now
  }

  function OverdueAt(now: Time): Action -> bool {
    r => Overdue(r, now)
  }

  /** Granted by a human for this row, for exactly these parameters and at least this level,
      not spent and not expired. */
  predicate Spendable(p: Approval, a: Id, r: Action, now: Time) {
    && p.action == a && p.status in {Approved, Modified} && p.consumedAt == None
    && p.digest == r.call.parameters && r.call.level <= p.level && now < p.expiresAt
  }

  predicate IsOrphan(r: Action) {
    r.status.Dispatched? && r.lease.None?
  }

  /** The positions of the rows a query selects, ascending. */
  ghost predicate Selects(ids: seq<Id>, actions: seq<Action>, query: Action -> bool) {
    && (forall j, k | 0 <= j < k < |ids| :: ids[j] < ids[k])
    && (forall i :: i in ids <==> 0 <= i < |actions| && query(actions[i]))
  }

  method Select(actions: seq<Action>, query: Action -> bool) returns (ids: seq<Id>)
    ensures Selects(ids, actions, query)
  {
    ids := [];
    for i := 0 to |actions|
      invariant forall k | 0 <= k < |ids| :: ids[k] < i
      invariant Selects(ids, actions[..i], query)
    {
      if query(actions[i]) { ids := ids + [i]; }
    }
    assert actions[..|actions|] == actions;
  }

  class Store {
    const cfg: Config
    var task: Task
    var actions: seq<Action>
    var approvals: seq<Approval>
    var ledger: set<Key>
    var outbox: multiset<Id>
    var stream: multiset<Id>
    var busy: map<WorkerId, Id>
    var now: Time
    ghost var log: Log

    ghost function Snap(): State
      reads this
    {
      State(cfg, task, actions, approvals, ledger, outbox, stream, busy, now, log)
    }

    /** What every reachable state satisfies. */
    ghost predicate Valid()
      reads this
    {
      Invariant(Snap())
    }

    constructor (cfg: Config, ledger: set<Key>, now: Time)
      ensures Initial(Snap()) && Valid()
      ensures this.cfg == cfg && this.ledger == ledger && this.now == now
    {
      this.cfg, this.ledger, this.now := cfg, ledger, now;
      task, actions, approvals := Task(TaskCreated, 0), [], [];
      outbox, stream, busy := multiset{}, multiset{}, map[];
      log := Log([], [], [], []);
      new;
      InitialInvariant(Snap());
    }

    /** `cas_status` on an action. */
    method CasStatus(a: Id, expected: ActionStatus, row: Action) returns (moved: bool)
      modifies this`actions
      ensures moved <==> IsAction(old(Snap()), a) && old(actions)[a].status == expected
      ensures actions == if moved then old(actions)[a := row] else old(actions)
    {
      moved := 0 <= a < |actions| && actions[a].status == expected;
      if moved { actions := actions[a := row]; }
    }

    /** `cas_claim`: READY is accepted beside DISPATCHED. */
    method CasClaim(a: Id, worker: WorkerId, until: Time) returns (moved: bool)
      modifies this`actions
      ensures moved <==>
                IsAction(old(Snap()), a)
                && (old(actions)[a].status.Dispatched? || old(actions)[a].status.Ready?)
      ensures actions ==
              if moved then
                old(actions)[a := old(actions)[a].(status := Running, lease := Some(Lease(worker, until)),
                    attempts := old(actions)[a].attempts + 1)]
              else old(actions)
    {
      moved := 0 <= a < |actions| && (actions[a].status.Dispatched? || actions[a].status.Ready?);
      if moved {
        var r := actions[a];
        actions := actions[a := r.(status := Running, lease := Some(Lease(worker, until)), attempts := r.attempts + 1)];
      }
    }

    /** `extend_lease`: the heartbeat, fenced by status and owner. */
    method ExtendLease(a: Id, worker: WorkerId) returns (moved: bool)
      modifies this`actions
      ensures moved <==> MoveOk(old(Snap()), a, Heartbeat(worker))
      ensures if moved then Snap() == ApplyMove(old(Snap()), a, Heartbeat(worker)) else Snap() == old(Snap())
      ensures moved <==>
                && 0 <= a < |old(actions)| && old(actions)[a].status.Running?
                && old(actions)[a].lease.Some? && old(actions)[a].lease.value.owner == worker
      ensures moved ==>
                actions == old(actions)[a := old(actions)[a].(
                     lease := Some(Lease(worker, now + old(actions)[a].spec.timeout)))]
    {
      moved := 0 <= a < |actions| && actions[a].status.Running? && actions[a].lease.Some?
          && actions[a].lease.value.owner == worker;
      if moved {
        actions := actions[a := actions[a].(lease := Some(Lease(worker, now + actions[a].spec.timeout)))];
      }
    }

    /** `rewrite_invocation`: parameters, level and key move together. */
    method RewriteInvocation(a: Id, call: Call) returns (moved: bool)
      modifies this`actions
      ensures moved <==> IsAction(old(Snap()), a) && old(actions)[a].status.WaitingForUser?
      ensures actions == if moved then old(actions)[a := old(actions)[a].(call := call)] else old(actions)
    {
      moved := 0 <= a < |actions| && actions[a].status.WaitingForUser?;
      if moved { actions := actions[a := actions[a].(call := call)]; }
    }

    /** `insert_ledger`: false when the key is taken. */
    method InsertLedger(key: Key) returns (reserved: bool)
      modifies this`ledger
      ensures reserved <==> key !in old(ledger)
      ensures ledger == old(ledger) + {key}
    {
      reserved := key !in ledger;
      ledger := ledger + {key};
    }

    method ExpiredLeases() returns (ids: seq<Id>)
      ensures Selects(ids, actions, OverdueAt(now))
    {
      ids := Select(actions, OverdueAt(now));
    }

    /** `orphan_dispatched`. */
    method OrphanDispatched() returns (ids: seq<Id>)
      ensures Selects(ids, actions, IsOrphan)
    {
      ids := Select(actions, IsOrphan);
    }

    /** `usable_for`: newest first. */
    method UsableFor(a: Id) returns (u: Option<Id>)
      requires IsAction(Snap(), a)
      ensures u == Usable(Snap(), a, actions[a], |approvals|)
      ensures u.Some? ==>
                && 0 <= u.value < |approvals| && Spendable(approvals[u.value], a, actions[a], now)
                && forall i | u.value < i < |approvals| :: !Spendable(approvals[i], a, actions[a], now)
      ensures u.None? ==> forall i | 0 <= i < |approvals| :: !Spendable(approvals[i], a, actions[a], now)
    {
      var i := |approvals|;
      while i > 0
        invariant 0 <= i <= |approvals|
        invariant Usable(Snap(), a, actions[a], |approvals|) == Usable(Snap(), a, actions[a], i)
        invariant forall j | i <= j < |approvals| :: !Spendable(approvals[j], a, actions[a], now)
      {
        var p, r := approvals[i - 1], actions[a];
        if p.action == a && (p.status.Approved? || p.status.Modified?) && p.consumedAt.None? {
          if p.digest == r.call.parameters && !(p.level < r.call.level) && !(p.expiresAt <= now) {
            return Some(i - 1);
          }
        }
        i := i - 1;
      }
      return None;
    }

    /** `pending_for`. */
    method PendingFor(a: Id) returns (p: Option<Id>)
      ensures p.Some? <==> HasPending(Snap(), a)
      ensures p.Some? ==>
                IsApproval(Snap(), p.value) && approvals[p.value].action == a
                && approvals[p.value].status.Pending?
    {
      for i := 0 to |approvals|
        invariant forall j | 0 <= j < i :: !(approvals[j].action == a && approvals[j].status.Pending?)
      {
        if approvals[i].action == a && approvals[i].status.Pending? { return Some(i); }
      }
      return None;
    }
  }
}

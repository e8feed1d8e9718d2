/** The lease reaper (vyomel/runtime/reaper.py). */
module Reaper {
  import opened Wrappers
  import opened Lifecycle
  import opened Model
  import opened Repos

  /** What a sweep makes of one row. */
  function ReapRow(r: Action, now: Time): Action {
    if !Overdue(r, now) then r
    else if r.status.Running? && r.attempts >= r.spec.maxRetries then FailedRow(r, TimedOut)
    else r.(status := Ready, lease := None, stay := if r.status.Running? then r.stay + 1 else r.stay)
  }

  /** A lease counts as lost once its time is past. A row that held one may try again from
      READY while it has attempts left, and fails as timed out otherwise; a row that never
      started keeps its stay. */
  ghost predicate Reaped(before: Action, after: Action, now: Time) {
    if before.status in {Dispatched, Running} && before.lease.Some? && before.lease.value.until < now then
      && (after.status == Failed <==> before.status == Running && before.spec.maxRetries <= before.attempts)
      && (after.status == Failed ==> after == before.(status := Failed, lease := None, error := Some(TimedOut)))
      && (after.status != Failed ==> after.status == Ready && after == before.(
            status := Ready, lease := None,
            stay := if before.status == Running then before.stay + 1 else before.stay))
    else after == before
  }

  lemma ReapRowMeans(r: Action, now: Time)
    ensures Reaped(r, ReapRow(r, now), now)
  {
  }

  lemma OverdueIsReapable(s: State, a: Id)
    requires IsAction(s, a) && Overdue(s.actions[a], s.now)
    ensures MoveOk(s, a, Model.Reap)
  {
  }

  method ReapOne(db: Store, a: Id) returns (reclaimed: bool)
    requires MoveOk(db.Snap(), a, Model.Reap)
    modifies db`actions
    ensures db.Snap() == ApplyMove(old(db.Snap()), a, Model.Reap)
    ensures db.actions == old(db.actions)[a := ReapRow(old(db.actions)[a], db.now)]
    ensures reclaimed <==> db.actions[a].status.Ready?
  {
    var r := db.actions[a];
    if r.status.Running? && r.attempts >= r.spec.maxRetries {
      var _ := db.CasStatus(a, r.status, FailedRow(r, TimedOut));
      reclaimed := false;
    } else {
      var stay := if r.status.Running? then r.stay + 1 else r.stay;
      var _ := db.CasStatus(a, r.status, r.(status := Ready, lease := None, stay := stay));
      reclaimed := true;
    }
  }

  /** The rows in `done` have been given up, and `reclaimed` are those of them now READY. */
  ghost predicate ReapedSoFar(before: seq<Action>, after: seq<Action>, now: Time, done: seq<Id>, reclaimed: seq<Id>) {
    && |after| == |before|
    && (forall i | 0 <= i < |before| :: after[i] == if i in done then ReapRow(before[i], now) else before[i])
    && (forall i :: i in reclaimed <==> i in done && 0 <= i < |before| && ReapRow(before[i], now).status.Ready?)
  }

  lemma NothingReaped(before: seq<Action>, now: Time)
    ensures ReapedSoFar(before, before, now, [], [])
  {
  }

  lemma ReapedNext(before: seq<Action>, mid: seq<Action>, now: Time, done: seq<Id>, reclaimed: seq<Id>, a: Id)
    requires ReapedSoFar(before, mid, now, done, reclaimed) && 0 <= a < |before| && a !in done
    ensures |mid| == |before| && mid[a] == before[a]
    ensures ReapedSoFar(before, mid[a := ReapRow(before[a], now)], now, done + [a],
                        if ReapRow(before[a], now).status.Ready? then reclaimed + [a] else reclaimed)
  {
    hide ReapRow;
  }

  lemma ReapedAll(before: seq<Action>, after: seq<Action>, now: Time, done: seq<Id>, reclaimed: seq<Id>)
    requires ReapedSoFar(before, after, now, done, reclaimed)
    requires forall i :: i in done <==> 0 <= i < |before| && Overdue(before[i], now)
    ensures |after| == |before| && forall i | 0 <= i < |before| ::
            after[i] == ReapRow(before[i], now) && !Overdue(after[i], now)
    ensures forall i :: i in reclaimed <==> 0 <= i < |before| && Overdue(before[i], now) && after[i].status.Ready?
  {
  }

  /** `reap`: every expired lease is given up, and nothing else moves. */
  method Reap(db: Store) returns (reclaimed: seq<Id>, ghost steps: seq<Step>)
    modifies db`actions
    ensures Run(old(db.Snap()), steps, db.Snap()) && forall step <- steps :: step.Act? && step.move.Reap?
    ensures |db.actions| == |old(db.actions)|
    ensures forall i | 0 <= i < |db.actions| :: db.actions[i] == ReapRow(old(db.actions)[i], db.now)
    ensures forall i | 0 <= i < |db.actions| :: Reaped(old(db.actions)[i], db.actions[i], db.now)
    ensures forall i | 0 <= i < |db.actions| :: !Overdue(db.actions[i], db.now)
    ensures forall i :: i in reclaimed <==>
              0 <= i < |db.actions| && Overdue(old(db.actions)[i], db.now) && db.actions[i].status.Ready?
  {
    hide Run, ReapRow, ReapedSoFar, ApplyMove, MoveOk, Reaped;
    ghost var s0 := db.Snap();
    RunNothing(s0);
    NothingReaped(s0.actions, db.now);
    reclaimed, steps := [], [];
    var expired := db.ExpiredLeases();
    for k := 0 to |expired|
      invariant Run(s0, steps, db.Snap()) && forall step <- steps :: step.Act? && step.move.Reap?
      invariant ReapedSoFar(s0.actions, db.actions, db.now, expired[..k], reclaimed)
    {
      var a := expired[k];
      assert a in expired && a !in expired[..k];
      ghost var before := db.Snap();
      ReapedNext(s0.actions, db.actions, db.now, expired[..k], reclaimed, a);
      OverdueIsReapable(before, a);
      var ok := ReapOne(db, a);
      RunAct(s0, steps, before, a, Model.Reap, db.Snap());
      steps := steps + [Act(a, Model.Reap)];
      if ok { reclaimed := reclaimed + [a]; }
      assert expired[..k + 1] == expired[..k] + [a];
    }
    assert expired[..|expired|] == expired;
    ReapedAll(s0.actions, db.actions, db.now, expired, reclaimed);
    forall i | 0 <= i < |db.actions| ensures Reaped(s0.actions[i], db.actions[i], db.now) {
      ReapRowMeans(s0.actions[i], db.now);
    }
  }
}

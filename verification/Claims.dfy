/** What each claim set out to run: whether the gate had let that very call through,
    and what the rows remember of it. */
module Claims {
  import opened Wrappers
  import opened Lifecycle
  import opened Model
  import opened Safety
  import opened Delivery

  /** A claim of this stay that found the row DISPATCHED. */
  ghost predicate ClaimedDispatched(s: State, a: Id, stay: nat) {
    exists k | 0 <= k < |s.log.claims| ::
      s.log.claims[k].action == a && s.log.claims[k].stay == stay && s.log.claims[k].dispatched
  }

  /** No READY stay of a row is dispatched twice. */
  ghost predicate OneDispatchPerStay(s: State) {
    forall j, k | 0 <= j < k < |s.log.dispatches| ::
      s.log.dispatches[j].action != s.log.dispatches[k].action || s.log.dispatches[j].stay != s.log.dispatches[k].stay
  }

  /** A claim that found its row DISPATCHED took the call that the gate let through; one
      that found it READY ended a stay that the gate never saw. */
  ghost predicate ClaimsGated(s: State) {
    forall k | 0 <= k < |s.log.claims| ::
      var c := s.log.claims[k];
      if c.dispatched then CallDispatched(s, c) else !StayDispatched(s, c.action, c.stay)
  }

  /** A dispatch is waiting to be claimed, has been claimed, or was cancelled. */
  ghost predicate DispatchesFollowed(s: State) {
    forall k | 0 <= k < |s.log.dispatches| ::
      var d := s.log.dispatches[k];
      IsAction(s, d.action) && Followed(s, s.actions[d.action], d)
  }

  ghost predicate Followed(s: State, r: Action, d: Dispatch) {
    r.status.Cancelled? || (r.status.Dispatched? && r.stay == d.stay) || ClaimedDispatched(s, d.action, d.stay)
  }

  ghost predicate DispatchedBefore(s: State, k: int) {
    exists j | 0 <= j < k && j < |s.log.claims| && k < |s.log.claims| ::
      s.log.claims[j].action == s.log.claims[k].action && s.log.claims[j].dispatched
  }

  /** The first claim of every row found it DISPATCHED. */
  ghost predicate FirstClaimsGated(s: State) {
    forall k | 0 <= k < |s.log.claims| :: s.log.claims[k].dispatched || DispatchedBefore(s, k)
  }

  /** The claim took the row's present call in its present stay. */
  predicate Took(c: Claimed, a: Id, r: Action) {
    c.action == a && c.stay == r.stay && c.level == r.call.level && c.digest == r.call.parameters
  }

  ghost predicate TakenBy(s: State, a: Id, r: Action) {
    exists k | 0 <= k < |s.log.claims| :: Took(s.log.claims[k], a, r)
  }

  /** A RUNNING row runs what its claim took. */
  ghost predicate RunningAsClaimed(s: State) {
    forall a | 0 <= a < |s.actions| :: s.actions[a].status.Running? ==> TakenBy(s, a, s.actions[a])
  }

  function ClaimCount(claims: seq<Claimed>, a: Id): nat {
    if claims == [] then 0
    else ClaimCount(claims[..|claims| - 1], a) + if claims[|claims| - 1].action == a then 1 else 0
  }

  /** Attempts are claims: no more and no fewer. */
  ghost predicate AttemptsCounted(s: State) {
    forall a | 0 <= a < |s.actions| :: s.actions[a].attempts == ClaimCount(s.log.claims, a)
  }

  ghost predicate ClaimsTold(s: State) {
    && OneDispatchPerStay(s) && ClaimsGated(s) && DispatchesFollowed(s)
    && FirstClaimsGated(s) && RunningAsClaimed(s) && AttemptsCounted(s)
  }

  // --------------------------------------------- steps that neither dispatch nor claim

  predicate RowFollows(before: Action, after: Action) {
    && (before.status.Cancelled? ==> after.status.Cancelled?)
    && (before.status.Dispatched? ==>
          after.status.Cancelled? || (after.status.Dispatched? && after.stay == before.stay))
    && (after.status.Running? ==> before.status.Running? && after.stay == before.stay && after.call == before.call)
    && after.attempts == before.attempts
  }

  lemma EndingFollows(s: State, r: Action, e: Ending)
    requires r.status.Running? && EndingOk(s, r, e)
    ensures RowFollows(r, FinishRow(s, r, e))
  {
  }

  lemma MoveFollows(s: State, a: Id, m: Move)
    requires MoveOk(s, a, m) && RowOk(s.actions[a], TaskIsCancelled(s), s.cfg.ceiling) && !m.Enqueue? && !m.Claim?
    ensures RowFollows(s.actions[a], MoveRow(s, a, m))
    ensures MoveLog(s, a, m).dispatches == s.log.dispatches && MoveLog(s, a, m).claims == s.log.claims
  {
    if m.Finish? { EndingFollows(s, s.actions[a], m.ending); }
  }

  lemma OtherStepFollows(s: State, step: Step)
    requires Enabled(s, step) && !step.Act?
    ensures Apply(s, step).log == s.log && |s.actions| <= |Apply(s, step).actions|
    ensures forall i | 0 <= i < |s.actions| :: RowFollows(s.actions[i], Apply(s, step).actions[i])
    ensures forall i | |s.actions| <= i < |Apply(s, step).actions| ::
              !Apply(s, step).actions[i].status.Running? && Apply(s, step).actions[i].attempts == 0
  {
    OtherStepFrame(s, step);
    if WritesRows(step) { RowStepFollows(s, step); } else { hide Enabled, Apply; }
  }

  lemma RowStepFollows(s: State, step: Step)
    requires Enabled(s, step) && WritesRows(step)
    ensures |s.actions| <= |Apply(s, step).actions|
    ensures forall i | 0 <= i < |s.actions| :: RowFollows(s.actions[i], Apply(s, step).actions[i])
    ensures forall i | |s.actions| <= i < |Apply(s, step).actions| ::
              !Apply(s, step).actions[i].status.Running? && Apply(s, step).actions[i].attempts == 0
  {
    hide Live, Settled, AllTerminal, AnyStatus, Tolerated;
  }

  lemma {:induction false} NoClaims(claims: seq<Claimed>, a: Id)
    requires forall k | 0 <= k < |claims| :: claims[k].action != a
    ensures ClaimCount(claims, a) == 0
  {
    if claims != [] { NoClaims(claims[..|claims| - 1], a); }
  }

  lemma QuietKeepsTold(s: State, t: State)
    requires ClaimsTold(s) && ClaimsOk(s) && |s.actions| <= |t.actions|
    requires t.log.dispatches == s.log.dispatches && t.log.claims == s.log.claims
    requires forall i | 0 <= i < |s.actions| :: RowFollows(s.actions[i], t.actions[i])
    requires forall i | |s.actions| <= i < |t.actions| :: !t.actions[i].status.Running? && t.actions[i].attempts == 0
    ensures ClaimsTold(t)
  {
    forall k | 0 <= k < |t.log.claims| && t.log.claims[k].dispatched ensures CallDispatched(t, t.log.claims[k]) {
      RecordStays(s, t, s.log.claims[k]);
    }
    forall k | 0 <= k < |t.log.dispatches|
      ensures IsAction(t, t.log.dispatches[k].action)
      ensures Followed(t, t.actions[t.log.dispatches[k].action], t.log.dispatches[k])
    {
      var d := s.log.dispatches[k];
      assert Followed(s, s.actions[d.action], d) && RowFollows(s.actions[d.action], t.actions[d.action]);
    }
    forall k | 0 <= k < |t.log.claims| && !t.log.claims[k].dispatched ensures DispatchedBefore(t, k) {
      assert DispatchedBefore(s, k);
    }
    forall a | 0 <= a < |t.actions| && t.actions[a].status.Running? ensures TakenBy(t, a, t.actions[a]) {
      assert RowFollows(s.actions[a], t.actions[a]) && TakenBy(s, a, s.actions[a]);
    }
    forall a | 0 <= a < |t.actions| ensures t.actions[a].attempts == ClaimCount(t.log.claims, a) {
      if a < |s.actions| {
        assert RowFollows(s.actions[a], t.actions[a]);
      } else {
        forall k | 0 <= k < |s.log.claims| ensures s.log.claims[k].action != a {
          assert ClaimSpent(s.actions, s.log.claims[k]);
        }
        NoClaims(s.log.claims, a);
      }
    }
  }

  // ----------------------------------------------------------------------- a dispatch

  lemma EnqueueKeepsTold(s: State, a: Id, m: Move)
    requires ClaimsTold(s) && StaysGated(s) && ClaimsOk(s) && MoveOk(s, a, m) && m.Enqueue?
    ensures ClaimsTold(ApplyMove(s, a, m))
  {
    hide ClaimsOk, StaysGated, OneDispatchPerStay, ClaimsGated, DispatchesFollowed, FirstClaimsGated;
    hide RunningAsClaimed, AttemptsCounted, ApplyMove, MoveOk;
    EnqueueKeepsStays(s, a, m);
    EnqueueKeepsGated(s, a, m);
    EnqueueKeepsFollowed(s, a, m);
    EnqueueKeepsRows(s, a, m);
  }

  lemma EnqueueKeepsStays(s: State, a: Id, m: Move)
    requires OneDispatchPerStay(s) && StaysGated(s) && MoveOk(s, a, m) && m.Enqueue?
    ensures OneDispatchPerStay(ApplyMove(s, a, m))
  {
    var t := ApplyMove(s, a, m);
    forall j, k | 0 <= j < k < |t.log.dispatches|
      ensures t.log.dispatches[j].action != t.log.dispatches[k].action
              || t.log.dispatches[j].stay != t.log.dispatches[k].stay
    {
      assert t.log.dispatches[j] == s.log.dispatches[j];
      assert DispatchInPast(s.actions, s.log.dispatches[j]);
    }
  }

  lemma EnqueueKeepsGated(s: State, a: Id, m: Move)
    requires ClaimsGated(s) && ClaimsOk(s) && MoveOk(s, a, m) && m.Enqueue?
    ensures ClaimsGated(ApplyMove(s, a, m))
  {
    var t := ApplyMove(s, a, m);
    forall k | 0 <= k < |t.log.claims|
      ensures var c := t.log.claims[k];
              if c.dispatched then CallDispatched(t, c) else !StayDispatched(t, c.action, c.stay)
    {
      var c := s.log.claims[k];
      assert ClaimSpent(s.actions, c);
      if c.dispatched { RecordStays(s, t, c); }
    }
  }

  lemma EnqueueKeepsFollowed(s: State, a: Id, m: Move)
    requires DispatchesFollowed(s) && MoveOk(s, a, m) && m.Enqueue?
    ensures DispatchesFollowed(ApplyMove(s, a, m))
  {
    var t := ApplyMove(s, a, m);
    assert t.log.claims == s.log.claims && t.actions[a].stay == s.actions[a].stay;
    forall k | 0 <= k < |t.log.dispatches|
      ensures IsAction(t, t.log.dispatches[k].action)
      ensures Followed(t, t.actions[t.log.dispatches[k].action], t.log.dispatches[k])
    {
      if k < |s.log.dispatches| {
        var d := s.log.dispatches[k];
        assert t.log.dispatches[k] == d && Followed(s, s.actions[d.action], d);
      }
    }
  }

  lemma EnqueueKeepsRows(s: State, a: Id, m: Move)
    requires FirstClaimsGated(s) && RunningAsClaimed(s) && AttemptsCounted(s) && MoveOk(s, a, m) && m.Enqueue?
    ensures FirstClaimsGated(ApplyMove(s, a, m)) && RunningAsClaimed(ApplyMove(s, a, m))
            && AttemptsCounted(ApplyMove(s, a, m))
  {
    var t := ApplyMove(s, a, m);
    assert t.log.claims == s.log.claims;
    forall k | 0 <= k < |t.log.claims| && !t.log.claims[k].dispatched ensures DispatchedBefore(t, k) {
      assert DispatchedBefore(s, k);
    }
    forall b | 0 <= b < |t.actions| && t.actions[b].status.Running? ensures TakenBy(t, b, t.actions[b]) {
      assert TakenBy(s, b, s.actions[b]);
    }
  }

  // -------------------------------------------------------------------------- a claim

  lemma ClaimKeepsTold(s: State, a: Id, w: WorkerId)
    requires ClaimsTold(s) && StaysGated(s) && GatedFirst(s) && MoveOk(s, a, Claim(w))
    ensures ClaimsTold(ApplyMove(s, a, Claim(w)))
  {
    hide StaysGated, GatedFirst, OneDispatchPerStay, ClaimsGated, DispatchesFollowed, FirstClaimsGated;
    hide RunningAsClaimed, AttemptsCounted, ApplyMove, MoveOk;
    ClaimKeepsGated(s, a, w);
    ClaimKeepsFollowed(s, a, w);
    ClaimKeepsFirst(s, a, w);
    ClaimKeepsRows(s, a, w);
  }

  lemma ClaimKeepsGated(s: State, a: Id, w: WorkerId)
    requires OneDispatchPerStay(s) && ClaimsGated(s) && StaysGated(s) && MoveOk(s, a, Claim(w))
    ensures OneDispatchPerStay(ApplyMove(s, a, Claim(w))) && ClaimsGated(ApplyMove(s, a, Claim(w)))
  {
    var t := ApplyMove(s, a, Claim(w));
    ClaimIsGatedIffDispatched(s, a, w);
    assert t.log.dispatches == s.log.dispatches;
    forall k | 0 <= k < |t.log.claims|
      ensures var c := t.log.claims[k];
              if c.dispatched then CallDispatched(t, c) else !StayDispatched(t, c.action, c.stay)
    {
      var c := t.log.claims[k];
      assert k < |s.log.claims| ==> c == s.log.claims[k];
      if c.dispatched { RecordStays(s, t, c); }
    }
  }

  lemma ClaimedStays(s: State, t: State, a: Id, stay: nat)
    requires ClaimedDispatched(s, a, stay) && s.log.claims <= t.log.claims
    ensures ClaimedDispatched(t, a, stay)
  {
    var k :| 0 <= k < |s.log.claims| && s.log.claims[k].action == a && s.log.claims[k].stay == stay
      && s.log.claims[k].dispatched;
    assert t.log.claims[k] == s.log.claims[k];
  }

  lemma ClaimKeepsFollowed(s: State, a: Id, w: WorkerId)
    requires DispatchesFollowed(s) && MoveOk(s, a, Claim(w))
    ensures DispatchesFollowed(ApplyMove(s, a, Claim(w)))
  {
    var t := ApplyMove(s, a, Claim(w));
    var n := |s.log.claims|;
    assert t.log.claims[n] == ClaimOf(a, s.actions[a]);
    forall k | 0 <= k < |t.log.dispatches|
      ensures IsAction(t, t.log.dispatches[k].action)
      ensures Followed(t, t.actions[t.log.dispatches[k].action], t.log.dispatches[k])
    {
      var d := s.log.dispatches[k];
      assert Followed(s, s.actions[d.action], d);
      if ClaimedDispatched(s, d.action, d.stay) { ClaimedStays(s, t, d.action, d.stay); }
    }
  }

  /** A message means an earlier dispatch, and a READY row's dispatches were all claimed. */
  lemma ReadyWasClaimed(s: State, a: Id)
    requires DispatchesFollowed(s) && GatedFirst(s) && a in s.stream && IsAction(s, a) && s.actions[a].status.Ready?
    ensures exists j | 0 <= j < |s.log.claims| :: s.log.claims[j].action == a && s.log.claims[j].dispatched
  {
    assert EverDispatched(s, a);
    var k :| 0 <= k < |s.log.dispatches| && s.log.dispatches[k].action == a;
    assert Followed(s, s.actions[a], s.log.dispatches[k]);
  }

  lemma ClaimKeepsFirst(s: State, a: Id, w: WorkerId)
    requires FirstClaimsGated(s) && DispatchesFollowed(s) && GatedFirst(s) && MoveOk(s, a, Claim(w))
    ensures FirstClaimsGated(ApplyMove(s, a, Claim(w)))
  {
    var t := ApplyMove(s, a, Claim(w));
    var n := |s.log.claims|;
    assert t.log.claims == s.log.claims + [ClaimOf(a, s.actions[a])];
    forall k | 0 <= k < |t.log.claims| && !t.log.claims[k].dispatched ensures DispatchedBefore(t, k) {
      if k < n {
        assert DispatchedBefore(s, k);
        var j :| 0 <= j < k && s.log.claims[j].action == s.log.claims[k].action && s.log.claims[j].dispatched;
        assert t.log.claims[j] == s.log.claims[j];
      } else {
        ReadyWasClaimed(s, a);
        var j :| 0 <= j < n && s.log.claims[j].action == a && s.log.claims[j].dispatched;
        assert t.log.claims[j] == s.log.claims[j];
      }
    }
  }

  lemma ClaimKeepsRows(s: State, a: Id, w: WorkerId)
    requires RunningAsClaimed(s) && AttemptsCounted(s) && MoveOk(s, a, Claim(w))
    ensures RunningAsClaimed(ApplyMove(s, a, Claim(w))) && AttemptsCounted(ApplyMove(s, a, Claim(w)))
  {
    var t := ApplyMove(s, a, Claim(w));
    var n := |s.log.claims|;
    assert t.log.claims == s.log.claims + [ClaimOf(a, s.actions[a])] && t.log.claims[..n] == s.log.claims;
    assert Took(t.log.claims[n], a, t.actions[a]);
    forall b | 0 <= b < |t.actions| && t.actions[b].status.Running? && b != a ensures TakenBy(t, b, t.actions[b]) {
      assert TakenBy(s, b, s.actions[b]);
      var k :| 0 <= k < n && Took(s.log.claims[k], b, s.actions[b]);
      assert t.log.claims[k] == s.log.claims[k];
    }
  }

  /** In every step: a claim of a DISPATCHED row takes the call the gate let through, one
      of a READY row ends a stay the gate never saw and comes after one that was gated;
      no dispatch is claimed twice or forgotten; and attempts are exactly claims. */
  lemma StepKeepsTold(s: State, step: Step)
    requires RowsOk(s) && GatedFirst(s) && StaysGated(s) && ClaimsOk(s) && ClaimsTold(s) && Enabled(s, step)
    ensures ClaimsTold(Apply(s, step))
  {
    hide ClaimsTold, StaysGated, GatedFirst, ClaimsOk;
    if step.Act? && step.move.Enqueue? {
      EnqueueKeepsTold(s, step.a, step.move);
    } else if step.Act? && step.move.Claim? {
      ClaimKeepsTold(s, step.a, step.move.worker);
    } else if step.Act? {
      assert RowOk(s.actions[step.a], TaskIsCancelled(s), s.cfg.ceiling);
      MoveFollows(s, step.a, step.move);
      QuietKeepsTold(s, Apply(s, step));
    } else {
      OtherStepFollows(s, step);
      QuietKeepsTold(s, Apply(s, step));
    }
  }
}

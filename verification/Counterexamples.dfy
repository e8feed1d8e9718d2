/** Two reachable states that the design would rather rule out: a task stranded behind a
    crashed action, and an L4 action taken twice on one consumed approval. */
module Counterexamples {
  import opened Wrappers
  import opened Lifecycle
  import Policy
  import opened Graph
  import opened Model
  import opened Consent
  import opened Delivery
  import opened Claims
  import opened Runs
  import opened Stranding

  /** One tool, read freely and used at L4 only with a human's consent. */
  const SETTING := Config(Policy.Policy.Policy(map[0 := Policy.Allow, 4 := Policy.Confirm], []), None,
                          map["tool" := ToolInfo(true, None)], 4, None, 1, 1, 3600)

  function Fresh(dependsOn: seq<Id>, level: Policy.Capability): Action {
    Action(Spec("tool", dependsOn, false, false, 3, 60), Call(map[], level, "key"), Planned, 0, None, None,
           false, [], None, 0, None)
  }

  function Start(): State {
    State(SETTING, Task(TaskCreated, 0), [], [], {}, multiset{}, multiset{}, map[], 0, Log([], [], [], []))
  }

  function OneDispatch(d: Dispatch, claims: seq<Claimed>): Log {
    Log([d], claims, [], [])
  }

  lemma DecisionByLevel(s: State, r: Action)
    requires s.cfg == SETTING && r.spec.tool == "tool"
    ensures r.call.level == 0 ==> DecisionFor(s, r) == Ok(Policy.Allow)
    ensures r.call.level == 4 ==> DecisionFor(s, r) == Ok(Policy.Confirm)
  {
  }

  const NO_LOG := Log([], [], [], [])

  /** The step is enabled in s and takes it to t. */
  ghost predicate Leads(s: State, step: Step, t: State) {
    Enabled(s, step) && Apply(s, step) == t
  }

  lemma {:induction false} ChainRuns(states: seq<State>, steps: seq<Step>)
    requires |states| == |steps| + 1 && forall i | 0 <= i < |steps| :: Leads(states[i], steps[i], states[i + 1])
    ensures Run(states[0], steps, states[|steps|])
    decreases |steps|
  {
    hide Enabled, Apply;
    if steps != [] {
      assert Leads(states[0], steps[0], states[0 + 1]);
      ChainRuns(states[1..], steps[1..]);
    }
  }

  // ------------------------------------------------------------------- a stranded task

  const PLAN := [Fresh([], 0), Fresh([0], 0)]
  const PROMOTED := PLAN[0].(status := Ready, stay := 1)
  const SENT := PROMOTED.(status := Dispatched)
  const TAKEN := SENT.(status := Running, lease := Some(Lease("worker", 60)), attempts := 1)
  const CRASHED := FailedRow(TAKEN, Internal)

  const DECIDED := Log([Dispatch(0, 1, 0, map[], Policy.Allow, None, 0)], [], [], [])
  const CLAIMED := DECIDED.(claims := [Claimed(0, 1, 0, map[], true)])

  function Pair(first: Action, out: multiset<Id>, stream: multiset<Id>, busy: map<WorkerId, Id>, log: Log): State {
    State(SETTING, Task(TaskReady, 0), [first, PLAN[1]], [], {}, out, stream, busy, 0, log)
  }

  /** The first action crashed; the second waits for it. */
  const AFTERMATH := Pair(CRASHED, multiset{}, multiset{0}, map[], CLAIMED)

  lemma PairIsFresh()
    ensures FreshPlan(PLAN, 0, 4)
  {
    var g := BlockGraph(PLAN, 0);
    assert g[0] == [] && g[1] == [0];
    var order: seq<Id> := [0, 1];
    assert TopologicalOrder(g, order) by {
      assert order[..1] == [0];
      forall x | x in g.Keys ensures x in order { assert x == order[0] || x == order[1]; }
    }
  }

  lemma PairInstalls()
    ensures Leads(Start(), Install(PLAN, true), Pair(PLAN[0], multiset{}, multiset{}, map[], NO_LOG))
  {
    PairIsFresh();
  }

  lemma PairPromotes()
    ensures Leads(Pair(PLAN[0], multiset{}, multiset{}, map[], NO_LOG), Act(0, Promote),
                  Pair(PROMOTED, multiset{}, multiset{}, map[], NO_LOG))
  {
  }

  lemma PairDispatches()
    ensures Leads(Pair(PROMOTED, multiset{}, multiset{}, map[], NO_LOG), Act(0, Enqueue(Policy.Allow, None)),
                  Pair(SENT, multiset{0}, multiset{}, map[], DECIDED))
  {
    DecisionByLevel(Pair(PROMOTED, multiset{}, multiset{}, map[], NO_LOG), PROMOTED);
  }

  lemma PairPublishes()
    ensures Leads(Pair(SENT, multiset{0}, multiset{}, map[], DECIDED), Publish(0),
                  Pair(SENT, multiset{}, multiset{0}, map[], DECIDED))
  {
  }

  lemma PairClaims()
    ensures Leads(Pair(SENT, multiset{}, multiset{0}, map[], DECIDED), Act(0, Claim("worker")),
                  Pair(TAKEN, multiset{}, multiset{0}, map["worker" := 0], CLAIMED))
  {
  }

  lemma PairCrashes()
    ensures Leads(Pair(TAKEN, multiset{}, multiset{0}, map["worker" := 0], CLAIMED),
                  Act(0, Finish("worker", Executed(Crashed, 0))), AFTERMATH)
  {
  }

  lemma AftermathIsReachable()
    ensures Reachable(AFTERMATH)
  {
    hide Run, Leads, Pair;
    PairInstalls();
    PairPromotes();
    PairDispatches();
    PairPublishes();
    PairClaims();
    PairCrashes();
    ChainRuns([Start(), Pair(PLAN[0], multiset{}, multiset{}, map[], NO_LOG),
               Pair(PROMOTED, multiset{}, multiset{}, map[], NO_LOG),
               Pair(SENT, multiset{0}, multiset{}, map[], DECIDED),
               Pair(SENT, multiset{}, multiset{0}, map[], DECIDED),
               Pair(TAKEN, multiset{}, multiset{0}, map["worker" := 0], CLAIMED), AFTERMATH],
              [Install(PLAN, true), Act(0, Promote), Act(0, Enqueue(Policy.Allow, None)), Publish(0),
               Act(0, Claim("worker")), Act(0, Finish("worker", Executed(Crashed, 0)))]);
    assert Initial(Start());
  }

  /** Two rows, the second behind the first: install, promote, dispatch, claim, crash.
      The task is then stranded, and no run that spares its deadline and a cancellation
      ever moves it again. */
  lemma StrandedTaskIsReachable()
    ensures Reachable(AFTERMATH) && Unfinished(AFTERMATH) && Stranded(AFTERMATH.actions, 1, 0)
    ensures StuckForever(AFTERMATH)
  {
    hide Reachable, StuckForever;
    AftermathIsReachable();
    var rows := AFTERMATH.actions;
    assert rows[1].spec.dependsOn[0] == 0;
    assert DoomedBy(rows, 1, [1], 0);
    IdleTaskIsStuckIff(AFTERMATH);
  }

  // --------------------------------------------------------- one consent, two attempts

  const DANGEROUS := Fresh([], 4)
  const ASKABLE := DANGEROUS.(status := Ready, stay := 1)
  const ASKED := ASKABLE.(status := WaitingForUser)
  const GRANTED := ASKABLE.(stay := 2)
  const CONFIRMED := GRANTED.(status := Dispatched)
  const ATTEMPTED := CONFIRMED.(status := Running, lease := Some(Lease("worker", 60)), attempts := 1)
  const RECLAIMED := ATTEMPTED.(status := Ready, lease := None, stay := 3)
  const REPEATED := RECLAIMED.(status := Running, lease := Some(Lease("worker", 121)), attempts := 2)

  const QUESTION := Approval(0, 4, map[], Pending, 3600, None)
  const ANSWER := QUESTION.(status := Approved)
  const SPENT := ANSWER.(consumedAt := Some(0))

  const CONSENTED := Log([Dispatch(0, 2, 4, map[], Policy.Confirm, Some(0), 0)], [], [], [])
  const ATTEMPT := CONSENTED.(claims := [Claimed(0, 2, 4, map[], true)])
  const SECOND := CONSENTED.(claims := [Claimed(0, 2, 4, map[], true), Claimed(0, 3, 4, map[], false)])

  function Single(row: Action, approvals: seq<Approval>, out: multiset<Id>, stream: multiset<Id>,
                  busy: map<WorkerId, Id>, now: Time, log: Log): State {
    State(SETTING, Task(TaskReady, 0), [row], approvals, {}, out, stream, busy, now, log)
  }

  const UNASKED := Single(DANGEROUS, [], multiset{}, multiset{}, map[], 0, NO_LOG)
  const AT_GATE := Single(ASKABLE, [], multiset{}, multiset{}, map[], 0, NO_LOG)
  const WAITING := Single(ASKED, [QUESTION], multiset{}, multiset{}, map[], 0, NO_LOG)
  const ANSWERED := Single(GRANTED, [ANSWER], multiset{}, multiset{}, map[], 0, NO_LOG)
  const COMMITTED := Single(CONFIRMED, [SPENT], multiset{0}, multiset{}, map[], 0, CONSENTED)
  const PUBLISHED := Single(CONFIRMED, [SPENT], multiset{}, multiset{0}, map[], 0, CONSENTED)
  const STARTED := Single(ATTEMPTED, [SPENT], multiset{}, multiset{0}, map["worker" := 0], 0, ATTEMPT)
  const ABANDONED := Single(ATTEMPTED, [SPENT], multiset{}, multiset{0}, map[], 0, ATTEMPT)
  const OVERDUE := Single(ATTEMPTED, [SPENT], multiset{}, multiset{0}, map[], 61, ATTEMPT)
  const REAPED := Single(RECLAIMED, [SPENT], multiset{}, multiset{0}, map[], 61, ATTEMPT)
  const TWICE := Single(REPEATED, [SPENT], multiset{}, multiset{0}, map["worker" := 0], 61, SECOND)

  lemma SingleInstalls()
    ensures Leads(Start(), Install([DANGEROUS], true), UNASKED)
  {
    var g := BlockGraph([DANGEROUS], 0);
    assert g[0] == [];
    var order: seq<Id> := [0];
    assert TopologicalOrder(g, order) by {
      forall x | x in g.Keys ensures x in order { assert x == order[0]; }
    }
  }

  lemma SingleAsks()
    ensures Leads(UNASKED, Act(0, Promote), AT_GATE) && Leads(AT_GATE, Act(0, Ask), WAITING)
  {
    DecisionByLevel(AT_GATE, ASKABLE);
  }

  lemma SingleIsGranted()
    ensures Leads(WAITING, Act(0, Grant(0, None)), ANSWERED)
  {
  }

  lemma SingleDispatches()
    ensures Leads(ANSWERED, Act(0, Enqueue(Policy.Confirm, Some(0))), COMMITTED)
            && Leads(COMMITTED, Publish(0), PUBLISHED)
  {
    DecisionByLevel(ANSWERED, GRANTED);
  }

  lemma SingleIsClaimed()
    ensures Leads(PUBLISHED, Act(0, Claim("worker")), STARTED)
  {
  }

  lemma SingleIsAbandoned()
    ensures Leads(STARTED, WorkerDies("worker"), ABANDONED) && Leads(ABANDONED, Advance(61), OVERDUE)
  {
    hide MoveOk, ApplyMove;
  }

  lemma SingleIsReaped()
    ensures Leads(OVERDUE, Act(0, Reap), REAPED)
  {
  }

  lemma SingleIsRepeated()
    ensures Leads(REAPED, Act(0, Claim("worker")), TWICE)
  {
  }

  lemma TwiceIsReachable()
    ensures Reachable(TWICE)
  {
    hide Run, Leads, Single;
    SingleInstalls();
    SingleAsks();
    SingleIsGranted();
    SingleDispatches();
    SingleIsClaimed();
    SingleIsAbandoned();
    SingleIsReaped();
    SingleIsRepeated();
    ChainRuns([Start(), UNASKED, AT_GATE, WAITING, ANSWERED, COMMITTED, PUBLISHED, STARTED, ABANDONED, OVERDUE,
               REAPED, TWICE],
              [Install([DANGEROUS], true), Act(0, Promote), Act(0, Ask), Act(0, Grant(0, None)),
               Act(0, Enqueue(Policy.Confirm, Some(0))), Publish(0), Act(0, Claim("worker")), WorkerDies("worker"),
               Advance(61), Act(0, Reap), Act(0, Claim("worker"))]);
    assert Initial(Start());
  }

  /** An approval is meant to be spent by one dispatch, and a replay to ask again. But the
      message of a dispatch outlives the attempt it led to: after the lease ran out and the
      row went back to READY, it starts an L4 row a second time, on the one approval that
      is already consumed and with no decision of the gate for this stay. */
  lemma LeftoverMessageRunsL4Again()
    ensures Reachable(TWICE) && TWICE.actions[0].status.Running? && TWICE.actions[0].call.level == 4
    ensures |TWICE.approvals| == 1 && |TWICE.log.dispatches| == 1 && |TWICE.log.claims| == 2
    ensures Covered(TWICE, TWICE.log.claims[0]) && !Covered(TWICE, TWICE.log.claims[1])
  {
    hide Reachable, Covered;
    TwiceIsReachable();
    ClaimsRunWhatTheGateSaw(TWICE, 0);
    ClaimsRunWhatTheGateSaw(TWICE, 1);
  }
}

/** Postcondition aggregation (vyomel/verify/engine.py); each verifier is an
    arbitrary observation. */
module Verify {
  import opened Policy

  datatype Outcome = Pass | Fail | NoMethod

  /** `declared` is false for the two placeholder checks the engine adds itself. */
  datatype Check = Check(outcome: Outcome, declared: bool)

  datatype Report = Report(outcome: Outcome, checks: seq<Check>)

  predicate AnyOutcome(checks: seq<Check>, o: Outcome) {
    exists i | 0 <= i < |checks| :: checks[i].outcome == o
  }

  /** `_aggregate`. */
  function Aggregate(checks: seq<Check>): Outcome {
    if AnyOutcome(checks, Fail) then Fail
    else if AnyOutcome(checks, NoMethod) then NoMethod
    else Pass
  }

  function Declared(observed: seq<Outcome>): (checks: seq<Check>)
    ensures |checks| == |observed|
    ensures forall i | 0 <= i < |observed| :: checks[i] == Check(observed[i], true)
  {
    seq(|observed|, i requires 0 <= i < |observed| => Check(observed[i], true))
  }

  /** `verify_result`, given what each declared postcondition observed. */
  function VerifyResult(level: Capability, observed: seq<Outcome>): Report {
    if observed == [] then
      if level >= 2 then Report(NoMethod, [Check(NoMethod, false)])
      else Report(Pass, [Check(Pass, false)])
    else
      Report(Aggregate(Declared(observed)), Declared(observed))
  }

  /** Evidence good enough to call an action of this level SUCCEEDED. */
  predicate Proven(level: Capability, checks: seq<Check>) {
    && checks != []
    && (forall i | 0 <= i < |checks| :: checks[i].outcome == Pass)
    && (level >= 2 ==> forall i | 0 <= i < |checks| :: checks[i].declared)
  }

  /** PASS exactly when the recorded checks prove the result; at L2 and above that
      means a non-empty list of declared checks that all passed. */
  lemma PassMeansProven(level: Capability, observed: seq<Outcome>)
    ensures VerifyResult(level, observed).outcome == Pass <==> Proven(level, VerifyResult(level, observed).checks)
    ensures VerifyResult(level, observed).outcome == Pass <==>
            (forall o <- observed :: o == Pass) && (level >= 2 ==> observed != [])
  {
    var checks := VerifyResult(level, observed).checks;
    if observed == [] {
      assert checks[0] == Check(if level >= 2 then NoMethod else Pass, false);
    } else if Aggregate(checks) == Pass {
      forall i | 0 <= i < |checks| ensures observed[i] == Pass { assert checks[i].outcome == observed[i]; }
    } else {
      var i :| 0 <= i < |checks| && checks[i].outcome != Pass;
      assert observed[i] in observed;
    }
  }

  /** A contradiction outranks a missing method, wherever either stands. */
  lemma FailureDominates(level: Capability, observed: seq<Outcome>)
    ensures VerifyResult(level, observed).outcome == Fail <==> Fail in observed
  {
    var checks := Declared(observed);
    if Fail in observed {
      var i :| 0 <= i < |observed| && observed[i] == Fail;
      assert checks[i].outcome == Fail;
    }
  }
}

/** Declarative policy evaluation (vyomel/security/policy.py). */
module Policy {
  import opened Wrappers
  import Glob

  /** L0 observe, L1 reversible, L2 persistent, L3 external, L4 destructive. */
  type Capability = n: nat | n <= 4

  datatype Decision = Allow | Confirm | Deny

  type Parameters = map<string, string>

  datatype Request = Request(tool: string, level: Capability, parameters: Parameters, workflow: Option<string>)

  datatype Match = Match(tool: Option<string>, args: map<string, seq<string>>, workflow: Option<string>)
  {
    predicate Matches(r: Request) {
      && (tool.Some? ==> Glob.GlobMatch(r.tool, tool.value))
      && (workflow.Some? ==> r.workflow.Some? && Glob.GlobMatch(r.workflow.value, workflow.value))
      && forall k <- args :: k in r.parameters && Glob.AnyMatch(r.parameters[k], args[k])
    }
  }

  datatype Rule = Rule(id: string, match_: Match, decision: Decision,
                       level: Option<Capability>, maxLevel: Option<Capability>, expires: Option<int>)
  {
    predicate Applies(r: Request, today: int) {
      && (expires.Some? ==> today <= expires.value)
      && (level.Some? ==> r.level <= level.value)
      && (maxLevel.Some? ==> r.level <= maxLevel.value)
      && match_.Matches(r)
    }
  }

  datatype Policy = Policy(defaults: map<Capability, Decision>, rules: seq<Rule>)

  /** The one configuration the evaluator refuses to honour. */
  datatype Violation = AutoApprovedL4(rule: string)

  function FirstApplicable(rules: seq<Rule>, deny: bool, r: Request, today: int): (i: Option<nat>)
    ensures i.Some? ==>
              i.value < |rules| && rules[i.value].Applies(r, today)
              && (rules[i.value].decision == Deny) == deny
    ensures i.Some? ==> forall j | 0 <= j < i.value ::
                          rules[j].Applies(r, today) ==> (rules[j].decision == Deny) != deny
    ensures i.None? ==> forall j | 0 <= j < |rules| ::
                          rules[j].Applies(r, today) ==> (rules[j].decision == Deny) != deny
  {
    if rules == [] then None
    else if rules[0].Applies(r, today) && (rules[0].decision == Deny) == deny then Some(0)
    else
      match FirstApplicable(rules[1..], deny, r, today)
      case None =>
        assert forall j | 1 <= j < |rules| :: rules[j] == rules[1..][j - 1];
        None
      case Some(i) =>
        assert forall j | 1 <= j < i + 1 :: rules[j] == rules[1..][j - 1];
        Some(i + 1)
  }

  /** `_decide`: the L4 invariant is checked on every outcome. */
  function Decide(r: Request, decision: Decision, rule: string): Result<Decision, Violation> {
    if r.level == 4 && decision == Allow then Err(AutoApprovedL4(rule)) else Ok(decision)
  }

  /** `Policy.evaluate`; Err is the exception. */
  function Evaluate(p: Policy, r: Request, today: int): Result<Decision, Violation> {
    match FirstApplicable(p.rules, true, r, today)
    case Some(i) => Decide(r, Deny, p.rules[i].id)
    case None =>
      match FirstApplicable(p.rules, false, r, today)
      case Some(i) => Decide(r, p.rules[i].decision, p.rules[i].id)
      case None =>
        if r.level in p.defaults then Decide(r, p.defaults[r.level], "default:level")
        else Ok(Deny)
  }

  /** No rule set whatever can allow L4. */
  lemma NeverAllowsL4(p: Policy, r: Request, today: int)
    requires r.level == 4
    ensures Evaluate(p, r, today) != Ok(Allow)
  {
  }

  ghost predicate SomeDenyApplies(p: Policy, r: Request, today: int) {
    exists i | 0 <= i < |p.rules| :: p.rules[i].decision == Deny && p.rules[i].Applies(r, today)
  }

  /** A deny that applies wins wherever it stands, and adding rules after it,
      or before it, cannot turn it into anything else. */
  lemma DenyWins(p: Policy, before: seq<Rule>, after: seq<Rule>, r: Request, today: int)
    requires SomeDenyApplies(p, r, today)
    ensures Evaluate(p.(rules := before + p.rules + after), r, today) == Ok(Deny)
  {
    var all := before + p.rules + after;
    var i :| 0 <= i < |p.rules| && p.rules[i].decision == Deny && p.rules[i].Applies(r, today);
    assert all[|before| + i] == p.rules[i];
  }

  /** Falling off the end denies: an allowance needs an applicable allow rule or a level default. */
  lemma AllowanceIsGranted(p: Policy, r: Request, today: int)
    requires Evaluate(p, r, today) == Ok(Allow)
    ensures !SomeDenyApplies(p, r, today)
    ensures (exists i | 0 <= i < |p.rules| :: p.rules[i].decision == Allow && p.rules[i].Applies(r, today))
            || (r.level in p.defaults && p.defaults[r.level] == Allow)
  {
  }

  /** A level-scoped allow rule never grows to cover a more dangerous action: were
      it the only reason to allow, raising the level past its scope withdraws it. */
  lemma ScopedRuleDoesNotGrow(p: Policy, r: Request, higher: Capability, today: int)
    requires forall i | 0 <= i < |p.rules| && p.rules[i].decision == Allow ::
               (p.rules[i].maxLevel.Some? && p.rules[i].maxLevel.value < higher)
               || (p.rules[i].level.Some? && p.rules[i].level.value < higher)
    requires higher !in p.defaults || p.defaults[higher] != Allow
    ensures Evaluate(p, r.(level := higher), today) != Ok(Allow)
  {
    if Evaluate(p, r.(level := higher), today) == Ok(Allow) {
      AllowanceIsGranted(p, r.(level := higher), today);
    }
  }
}

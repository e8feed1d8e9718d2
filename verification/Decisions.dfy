/** When a rule counts and what then decides, in the terms of a rule's own fields
    (vyomel/security/policy.py). */
module Decisions {
  import opened Wrappers
  import Glob
  import opened Rules = Policy

  // -------------------------------------------------------------- which rules count

  /** A rule does not count when its tool pattern does not match the tool, its workflow
      pattern has no workflow to match or does not match it, a parameter that it names is
      absent or matches none of its patterns, the request stands above one of its levels, or
      its day is past. */
  lemma RuleIsOut(rule: Rule, r: Request, today: int, key: string)
    requires
      || (rule.match_.tool.Some? && !Glob.GlobMatch(r.tool, rule.match_.tool.value))
      || (rule.match_.workflow.Some? && r.workflow.None?)
      || (rule.match_.workflow.Some? && r.workflow.Some?
          && !Glob.GlobMatch(r.workflow.value, rule.match_.workflow.value))
      || (key in rule.match_.args && key !in r.parameters)
      || (key in rule.match_.args && key in r.parameters
          && forall i | 0 <= i < |rule.match_.args[key]| ::
               !Glob.GlobMatch(r.parameters[key], rule.match_.args[key][i]))
      || (rule.level.Some? && r.level > rule.level.value)
      || (rule.maxLevel.Some? && r.level > rule.maxLevel.value)
      || (rule.expires.Some? && today > rule.expires.value)
    ensures !rule.Applies(r, today)
  {
  }

  /** In every other case it counts. */
  lemma RuleIsIn(rule: Rule, r: Request, today: int)
    requires rule.match_.tool.Some? ==> Glob.GlobMatch(r.tool, rule.match_.tool.value)
    requires rule.match_.workflow.Some? ==>
               r.workflow.Some? && Glob.GlobMatch(r.workflow.value, rule.match_.workflow.value)
    requires forall k <- rule.match_.args ::
               k in r.parameters
               && exists i | 0 <= i < |rule.match_.args[k]| ::
                    Glob.GlobMatch(r.parameters[k], rule.match_.args[k][i])
    requires rule.level.Some? ==> r.level <= rule.level.value
    requires rule.maxLevel.Some? ==> r.level <= rule.maxLevel.value
    requires rule.expires.Some? ==> today <= rule.expires.value
    ensures rule.Applies(r, today)
  {
  }

  ghost predicate NoDenyApplies(rules: seq<Rule>, r: Request, today: int) {
    forall i | 0 <= i < |rules| && rules[i].decision == Deny :: !rules[i].Applies(r, today)
  }

  /** The answer L4 forbids is an error; every other stands. */
  predicate Answers(result: Result<Decision, Violation>, r: Request, decision: Decision) {
    if r.level == 4 && decision == Allow then result.Err? else result == Ok(decision)
  }

  lemma SameDecider(rules: seq<Rule>, deny: bool, r: Request, today: int, i: nat)
    requires i < |rules| && rules[i].Applies(r, today) && (rules[i].decision == Deny) == deny
    requires forall j | 0 <= j < i && (rules[j].decision == Deny) == deny :: !rules[j].Applies(r, today)
    ensures FirstApplicable(rules, deny, r, today) == Some(i)
  {
  }

  /** The first deny that counts decides; */
  lemma DenyDecides(p: Policy, r: Request, today: int, i: nat)
    requires i < |p.rules| && p.rules[i].decision == Deny && p.rules[i].Applies(r, today)
    ensures Evaluate(p, r, today) == Ok(Deny)
  {
    var found := FirstApplicable(p.rules, true, r, today);
    assert found.Some?;
  }

  /** without one, the first other rule that counts; */
  lemma FirstRuleDecides(p: Policy, r: Request, today: int, i: nat)
    requires NoDenyApplies(p.rules, r, today) && i < |p.rules| && p.rules[i].Applies(r, today)
    requires forall j | 0 <= j < i :: !p.rules[j].Applies(r, today)
    ensures Answers(Evaluate(p, r, today), r, p.rules[i].decision)
    ensures Evaluate(p, r, today).Err? ==> Evaluate(p, r, today).error == AutoApprovedL4(p.rules[i].id)
  {
    hide Rule.Applies;
    assert p.rules[i].decision != Deny;
    SameDecider(p.rules, false, r, today, i);
  }

  /** without any, the default of the level, and without that a denial. */
  lemma DefaultDecides(p: Policy, r: Request, today: int)
    requires forall i | 0 <= i < |p.rules| :: !p.rules[i].Applies(r, today)
    ensures r.level in p.defaults ==> Answers(Evaluate(p, r, today), r, p.defaults[r.level])
    ensures r.level !in p.defaults ==> Evaluate(p, r, today) == Ok(Deny)
  {
  }

  function Later(i: Option<nat>): Option<nat> {
    if i.Some? then Some(i.value + 1) else None
  }

  lemma FirstCons(x: Rule, rest: seq<Rule>, deny: bool, r: Request, today: int)
    ensures FirstApplicable([x] + rest, deny, r, today) ==
            if x.Applies(r, today) && (x.decision == Deny) == deny then Some(0)
            else Later(FirstApplicable(rest, deny, r, today))
  {
    hide Rule.Applies;
    assert ([x] + rest)[1..] == rest;
  }

  lemma {:induction false} FirstWithout(before: seq<Rule>, rule: Rule, after: seq<Rule>, deny: bool, r: Request,
                                        today: int)
    requires !rule.Applies(r, today)
    ensures var i := FirstApplicable(before + after, deny, r, today);
            FirstApplicable(before + [rule] + after, deny, r, today) ==
            if i.Some? && i.value < |before| then i else Later(i)
  {
    hide Rule.Applies, FirstApplicable;
    if before == [] {
      assert before + after == after && before + [rule] + after == [rule] + after;
      FirstCons(rule, after, deny, r, today);
    } else {
      var x, rest := before[0], before[1..];
      FirstWithout(rest, rule, after, deny, r, today);
      assert before + after == [x] + (rest + after);
      assert before + [rule] + after == [x] + (rest + [rule] + after);
      FirstCons(x, rest + after, deny, r, today);
      FirstCons(x, rest + [rule] + after, deny, r, today);
    }
  }

  lemma SameWithout(p: Policy, before: seq<Rule>, rule: Rule, after: seq<Rule>, r: Request, today: int)
    requires !rule.Applies(r, today)
    ensures Evaluate(p.(rules := before + [rule] + after), r, today) == Evaluate(p.(rules := before + after), r, today)
  {
    hide Rule.Applies, FirstApplicable;
    FirstWithout(before, rule, after, true, r, today);
    FirstWithout(before, rule, after, false, r, today);
    var xs, ys := before + after, before + [rule] + after;
    forall i: nat | i < |xs| ensures xs[i] == ys[if i < |before| then i else i + 1] {}
  }

  /** A rule that does not count is as good as absent, wherever it stands. */
  lemma OutRuleIsInert(p: Policy, before: seq<Rule>, rule: Rule, after: seq<Rule>, r: Request, today: int, key: string)
    requires
      || (rule.match_.tool.Some? && !Glob.GlobMatch(r.tool, rule.match_.tool.value))
      || (rule.match_.workflow.Some? && r.workflow.None?)
      || (rule.match_.workflow.Some? && r.workflow.Some?
          && !Glob.GlobMatch(r.workflow.value, rule.match_.workflow.value))
      || (key in rule.match_.args && key !in r.parameters)
      || (key in rule.match_.args && key in r.parameters
          && forall i | 0 <= i < |rule.match_.args[key]| ::
               !Glob.GlobMatch(r.parameters[key], rule.match_.args[key][i]))
      || (rule.level.Some? && r.level > rule.level.value)
      || (rule.maxLevel.Some? && r.level > rule.maxLevel.value)
      || (rule.expires.Some? && today > rule.expires.value)
    ensures Evaluate(p.(rules := before + [rule] + after), r, today) == Evaluate(p.(rules := before + after), r, today)
  {
    RuleIsOut(rule, r, today, key);
    SameWithout(p, before, rule, after, r, today);
  }
}

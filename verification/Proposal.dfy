/** Generalizing recorded windows into a parameterized workflow, and binding it
    back (vyomel/learning/proposal.py, vyomel/learning/signatures.py). */
module Proposal {
  import opened Wrappers
  import opened Graph

  datatype Json =
    | Null
    | Bool(flag: bool)
    | Int(count: int)
    | Float(value: real)
    | Text(text: string)
    | List(items: seq<Json>)
    | Obj(fields: map<string, Json>)

  datatype Observed = Observed(tool: string, parameters: map<string, Json>)

  type Window = seq<Observed>

  datatype Template = Template(tool: string, parameters: map<string, Json>)

  /** A workflow parameter, with the step and key it was made for. */
  datatype Parameter = Parameter(name: string, step: nat, key: string, example: Json)

  // ------------------------------------------------------------------- the names

  function Digit(d: nat): char
    requires d < 10
  {
    "0123456789"[d]
  }

  function Decimal(n: nat): (s: string)
    ensures s != [] && forall c <- s :: c != '_'
  {
    if n < 10 then [Digit(n)] else Decimal(n / 10) + [Digit(n % 10)]
  }

  lemma DigitInjective(a: nat, b: nat)
    requires a < 10 && b < 10 && Digit(a) == Digit(b)
    ensures a == b
  {
  }

  lemma {:induction false} DecimalInjective(a: nat, b: nat)
    requires Decimal(a) == Decimal(b)
    ensures a == b
    decreases a
  {
    var x, y := Decimal(a), Decimal(b);
    assert (|x| == 1 <==> a < 10) && (|y| == 1 <==> b < 10);
    assert x[|x| - 1] == Digit(a % 10) && y[|y| - 1] == Digit(b % 10);
    DigitInjective(a % 10, b % 10);
    if a >= 10 {
      assert x[..|x| - 1] == Decimal(a / 10) && y[..|y| - 1] == Decimal(b / 10);
      DecimalInjective(a / 10, b / 10);
    }
  }

  /** Text up to the first separator determines the split. */
  lemma {:induction false} SplitIsUnique<T>(a: seq<T>, x: seq<T>, b: seq<T>, y: seq<T>, c: T)
    requires a + [c] + x == b + [c] + y && c !in a && c !in b
    ensures a == b && x == y
    decreases |a|
  {
    var l, r := a + [c] + x, b + [c] + y;
    assert l[0] == (a + [c])[0] && r[0] == (b + [c])[0];
    if a == [] {
      assert b == [];
      assert l[1..] == x && r[1..] == y;
    } else {
      assert b != [];
      assert l[1..] == a[1..] + [c] + x && r[1..] == b[1..] + [c] + y;
      SplitIsUnique(a[1..], x, b[1..], y, c);
    }
  }

  /** `step{idx + 1}_{key}`. */
  function BaseName(step: nat, key: string): string {
    "step" + Decimal(step + 1) + "_" + key
  }

  /** The number that a numeral stands for. */
  function Numeral(s: string): nat {
    if s == "" then 0
    else
      var d := s[|s| - 1];
      10 * Numeral(s[..|s| - 1]) + if '0' <= d <= '9' then d as nat - '0' as nat else 0
  }

  lemma {:induction false} DecimalReads(n: nat)
    ensures Numeral(Decimal(n)) == n
    ensures forall c <- Decimal(n) :: '0' <= c <= '9'
    ensures n > 0 ==> Decimal(n)[0] != '0'
  {
    if n >= 10 {
      DecimalReads(n / 10);
      assert Decimal(n)[..|Decimal(n)| - 1] == Decimal(n / 10);
    } else {
      assert Decimal(n)[..0] == "";
    }
  }

  /** A parameter's name says its step, counted from one, and its key. */
  lemma BaseNameReads(step: nat, key: string) returns (digits: string)
    ensures BaseName(step, key) == "step" + digits + "_" + key
    ensures Numeral(digits) == step + 1 && digits != "" && digits[0] != '0' && forall c <- digits :: '0' <= c <= '9'
  {
    digits := Decimal(step + 1);
    DecimalReads(step + 1);
  }

  lemma BaseNamesDiffer(i: nat, k: string, j: nat, l: string)
    requires BaseName(i, k) == BaseName(j, l)
    ensures i == j && k == l
  {
    var x, y := "step" + Decimal(i + 1), "step" + Decimal(j + 1);
    SplitIsUnique(x, k, y, l, '_');
    assert x[4..] == Decimal(i + 1) && y[4..] == Decimal(j + 1);
    DecimalInjective(i + 1, j + 1);
  }

  function Numbered(base: string, n: nat): string {
    base + "_" + Decimal(n)
  }

  lemma NumberedDiffer(base: string, m: nat, n: nat)
    requires Numbered(base, m) == Numbered(base, n)
    ensures m == n
  {
    var k := |base| + 1;
    assert Numbered(base, m)[k..] == Decimal(m) && Numbered(base, n)[k..] == Decimal(n);
    DecimalInjective(m, n);
  }

  /** The disambiguation loop: it ends, because every number gives a new name. */
  method FreshName(base: string, used: set<string>) returns (name: string)
    ensures name !in used && (base !in used ==> name == base)
  {
    name := base;
    var n := 2;
    ghost var tried: set<string> := {};
    while name in used
      invariant n >= 2 && tried <= used
      invariant if n == 2 then name == base else name == Numbered(base, n - 1)
      invariant forall t <- tried :: t == base || exists m | 2 <= m < n - 1 :: t == Numbered(base, m)
      invariant n > 2 ==> base in tried
      invariant n == 2 ==> tried == {}
      decreases |used| - |tried|
    {
      ghost var tried' := tried + {name};
      assert name !in tried by { NotTried(base, n, name, tried); }
      ghost var rest := used - tried;
      assert name in rest;
      assert tried' <= used;
      CardinalityGrows(tried, name, used);
      tried := tried';
      name := Numbered(base, n);
      n := n + 1;
    }
  }

  lemma CardinalityGrows(tried: set<string>, name: string, used: set<string>)
    requires tried + {name} <= used && name !in tried
    ensures |tried| < |tried + {name}| <= |used|
  {
    Subset(tried + {name}, used);
  }

  lemma {:induction false} Subset<T>(a: set<T>, b: set<T>)
    requires a <= b
    ensures |a| <= |b|
    decreases a
  {
    if a != {} {
      Inhabited(a);
      var x :| x in a;
      Subset(a - {x}, b - {x});
    }
  }

  lemma NotTried(base: string, n: nat, name: string, tried: set<string>)
    requires n >= 2 && (if n == 2 then tried == {} else name == Numbered(base, n - 1))
    requires forall t <- tried :: t == base || exists m | 2 <= m < n - 1 :: t == Numbered(base, m)
    ensures name !in tried
  {
    if n > 2 { assert |Numbered(base, n - 1)| > |base|; }
    if name in tried {
      if name != base {
        var m :| 2 <= m < n - 1 && name == Numbered(base, m);
        NumberedDiffer(base, m, n - 1);
      }
    }
  }

  // ------------------------------------------------------------------ generalizing

  /** Windows of one pattern all have its length. */
  predicate Aligned(windows: seq<Window>) {
    windows != [] && forall w: Window <- windows :: |w| == |windows[0]|
  }

  predicate InAll(windows: seq<Window>, idx: nat, key: string)
    requires Aligned(windows) && idx < |windows[0]|
  {
    forall w: Window <- windows :: key in w[idx].parameters
  }

  /** `all(v == values[0] for v in values)`. */
  predicate Constant(windows: seq<Window>, idx: nat, key: string)
    requires Aligned(windows) && idx < |windows[0]| && InAll(windows, idx, key)
  {
    forall w: Window <- windows :: w[idx].parameters[key] == windows[0][idx].parameters[key]
  }

  predicate Varies(windows: seq<Window>, idx: nat, key: string)
    requires Aligned(windows)
  {
    idx < |windows[0]| && InAll(windows, idx, key) && !Constant(windows, idx, key)
  }

  function Hole(name: string): Json {
    Obj(map["$param" := Text(name)])
  }

  function Generalized(windows: seq<Window>, idx: nat, key: string): Json
    requires Aligned(windows) && idx < |windows[0]| && InAll(windows, idx, key)
  {
    if Constant(windows, idx, key) then windows[0][idx].parameters[key] else Hole(BaseName(idx, key))
  }

  /** The template of one step: exactly the keys common to all windows. */
  ghost predicate TemplateOf(windows: seq<Window>, idx: nat, t: Template)
    requires Aligned(windows) && idx < |windows[0]|
  {
    && t.tool == windows[0][idx].tool
    && (forall k :: k in t.parameters <==> InAll(windows, idx, k))
    && (forall k <- t.parameters :: InAll(windows, idx, k) && t.parameters[k] == Generalized(windows, idx, k))
  }

  /** One parameter for each value that varies, under a name of its own. */
  ghost predicate ParametersOf(windows: seq<Window>, params: seq<Parameter>, covered: (nat, string) -> bool)
    requires Aligned(windows)
  {
    && (forall p <- params ::
          && Varies(windows, p.step, p.key) && covered(p.step, p.key)
          && p.name == BaseName(p.step, p.key) && p.example == windows[0][p.step].parameters[p.key])
    && (forall i, k {:trigger covered(i, k)} | covered(i, k) && Varies(windows, i, k) ::
          exists p <- params :: p.step == i && p.key == k)
    && (forall a, b | 0 <= a < b < |params| :: params[a].name != params[b].name)
  }

  function Names(params: seq<Parameter>): set<string> {
    set p <- params :: p.name
  }

  /** Parameters of the steps before `idx`, and of `idx` itself outside `todo`. */
  function Before(idx: nat, todo: set<string>): (nat, string) -> bool {
    (i, k) => i < idx || (i == idx && k !in todo)
  }

  function KeysAt(windows: seq<Window>, idx: nat): set<string>
    requires Aligned(windows) && idx < |windows[0]|
  {
    set w: Window <- windows, k <- w[idx].parameters :: k
  }

  lemma NewName(windows: seq<Window>, params: seq<Parameter>, idx: nat, todo: set<string>, key: string)
    requires Aligned(windows) && key in todo && ParametersOf(windows, params, Before(idx, todo))
    ensures BaseName(idx, key) !in Names(params)
  {
    if BaseName(idx, key) in Names(params) {
      var p :| p in params && p.name == BaseName(idx, key);
      BaseNamesDiffer(p.step, p.key, idx, key);
    }
  }

  lemma CoverSame(windows: seq<Window>, params: seq<Parameter>, idx: nat, todo: set<string>, key: string)
    requires Aligned(windows) && key in todo && ParametersOf(windows, params, Before(idx, todo))
             && !Varies(windows, idx, key)
    ensures ParametersOf(windows, params, Before(idx, todo - {key}))
  {
    hide Varies, BaseName;
    var now, next := Before(idx, todo), Before(idx, todo - {key});
    forall i, k ensures next(i, k) <==> now(i, k) || (i == idx && k == key) {}
  }

  lemma CoverMore(windows: seq<Window>, params: seq<Parameter>, idx: nat, todo: set<string>, key: string, p: Parameter)
    requires Aligned(windows) && key in todo && ParametersOf(windows, params, Before(idx, todo))
             && Varies(windows, idx, key)
    requires p == Parameter(BaseName(idx, key), idx, key, windows[0][idx].parameters[key]) && p.name !in Names(params)
    ensures ParametersOf(windows, params + [p], Before(idx, todo - {key}))
  {
    hide Varies, BaseName;
    var now, next := Before(idx, todo), Before(idx, todo - {key});
    forall i, k ensures next(i, k) <==> now(i, k) || (i == idx && k == key) {}
    assert p in params + [p];
    forall i, k | next(i, k) && Varies(windows, i, k) ensures exists q <- params + [p] :: q.step == i && q.key == k {
      if now(i, k) {
        var q :| q in params && q.step == i && q.key == k;
        assert q in params + [p];
      }
    }
    forall a | 0 <= a < |params| ensures params[a].name != p.name { assert params[a] in params; }
  }

  /** A proposal in plain terms, key by key: a step has exactly the parameters that every
      window has, with the windows' own value where they agree and otherwise a reference to
      the one parameter made for that step and key. */
  lemma ProposalMeans(windows: seq<Window>, steps: seq<Template>, params: seq<Parameter>, i: nat, key: string)
    requires Aligned(windows) && ProposalOf(windows, steps, params) && i < |steps|
    ensures |steps| == |windows[0]| && steps[i].tool == windows[0][i].tool
    ensures key in steps[i].parameters <==> forall w: Window <- windows :: key in w[i].parameters
    ensures key in steps[i].parameters && Agree(windows, i, key) ==>
              (forall w: Window <- windows :: steps[i].parameters[key] == w[i].parameters[key])
              && forall p <- params :: !(p.step == i && p.key == key)
    ensures key in steps[i].parameters && !Agree(windows, i, key) ==>
              exists p <- params ::
                && p.step == i && p.key == key && key in windows[0][i].parameters
                && p.example == windows[0][i].parameters[key]
                && p.name == "step" + Decimal(i + 1) + "_" + key
                && steps[i].parameters[key] == Obj(map["$param" := Text(p.name)])
  {
    assert TemplateOf(windows, i, steps[i]) && windows[0] in windows;
    if key in steps[i].parameters {
      AgreeIsConstant(windows, i, key);
      if !Agree(windows, i, key) { assert AllSteps(i, key) && Varies(windows, i, key); }
    }
  }

  /** All windows have the key at this step, with one and the same value. */
  ghost predicate Agree(windows: seq<Window>, i: nat, key: string) {
    && (forall w: Window <- windows :: i < |w| && key in w[i].parameters)
    && forall v: Window, w: Window | v in windows && w in windows :: v[i].parameters[key] == w[i].parameters[key]
  }

  lemma AgreeIsConstant(windows: seq<Window>, i: nat, key: string)
    requires Aligned(windows) && i < |windows[0]| && InAll(windows, i, key)
    ensures Constant(windows, i, key) <==> Agree(windows, i, key)
  {
    assert windows[0] in windows;
  }

  method GeneralizeKey(windows: seq<Window>, idx: nat, key: string, used: set<string>)
    returns (r: Option<Json>, name: Option<string>)
    requires Aligned(windows) && idx < |windows[0]| && BaseName(idx, key) !in used
    ensures r.Some? <==> InAll(windows, idx, key)
    ensures r.Some? ==> r.value == Generalized(windows, idx, key)
    ensures name == if Varies(windows, idx, key) then Some(BaseName(idx, key)) else None
  {
    if exists w: Window <- windows :: key !in w[idx].parameters { return None, None; }
    if forall w: Window <- windows :: w[idx].parameters[key] == windows[0][idx].parameters[key] {
      return Some(windows[0][idx].parameters[key]), None;
    }
    var chosen := FreshName(BaseName(idx, key), used);
    return Some(Hole(chosen)), Some(chosen);
  }

  /** The template so far: the common keys among those looked at. */
  ghost predicate TemplatedSoFar(windows: seq<Window>, idx: nat, todo: set<string>, templated: map<string, Json>)
    requires Aligned(windows) && idx < |windows[0]|
  {
    && (forall k :: k in templated <==> k in KeysAt(windows, idx) && k !in todo && InAll(windows, idx, k))
    && (forall k <- templated :: InAll(windows, idx, k) && templated[k] == Generalized(windows, idx, k))
  }

  /** One step of `_generalize_parameters`; the keys may come in any order. */
  method GeneralizeStep(windows: seq<Window>, idx: nat, params0: seq<Parameter>)
    returns (t: Template, params: seq<Parameter>)
    requires Aligned(windows) && idx < |windows[0]| && ParametersOf(windows, params0, Before(idx, KeysAt(windows, idx)))
    ensures TemplateOf(windows, idx, t) && ParametersOf(windows, params, Before(idx, {}))
  {
    hide ParametersOf, Generalized, Constant, Varies;
    var todo := KeysAt(windows, idx);
    var templated: map<string, Json> := map[];
    params := params0;
    while todo != {}
      invariant todo <= KeysAt(windows, idx)
      invariant TemplatedSoFar(windows, idx, todo, templated)
      invariant ParametersOf(windows, params, Before(idx, todo))
      decreases todo
    {
      var key :| key in todo;
      NewName(windows, params, idx, todo, key);
      var value, name := GeneralizeKey(windows, idx, key, Names(params));
      if name.Some? {
        VaryingIsCommon(windows, idx, key);
        var p := Parameter(name.value, idx, key, windows[0][idx].parameters[key]);
        CoverMore(windows, params, idx, todo, key, p);
        params := params + [p];
      } else {
        CoverSame(windows, params, idx, todo, key);
      }
      if value.Some? { templated := templated[key := value.value]; }
      todo := todo - {key};
    }
    CommonKeysSeen(windows, idx);
    t := Template(windows[0][idx].tool, templated);
  }

  lemma VaryingIsCommon(windows: seq<Window>, idx: nat, key: string)
    requires Aligned(windows) && Varies(windows, idx, key)
    ensures idx < |windows[0]| && InAll(windows, idx, key) && key in windows[0][idx].parameters
  {
    assert windows[0] in windows;
  }

  lemma CommonKeysSeen(windows: seq<Window>, idx: nat)
    requires Aligned(windows) && idx < |windows[0]|
    ensures forall k :: InAll(windows, idx, k) ==> k in KeysAt(windows, idx)
  {
    assert windows[0] in windows;
  }

  lemma StepDone(windows: seq<Window>, params: seq<Parameter>, idx: nat)
    requires Aligned(windows) && idx + 1 < |windows[0]| && ParametersOf(windows, params, Before(idx, {}))
    ensures ParametersOf(windows, params, Before(idx + 1, KeysAt(windows, idx + 1)))
  {
    var now, next := Before(idx, {}), Before(idx + 1, KeysAt(windows, idx + 1));
    CommonKeysSeen(windows, idx + 1);
    forall i, k | next(i, k) && Varies(windows, i, k) ensures exists p <- params :: p.step == i && p.key == k {
      assert now(i, k);
    }
    forall p | p in params ensures next(p.step, p.key) { assert now(p.step, p.key); }
  }

  predicate AllSteps(i: nat, k: string) {
    true
  }

  /** A finished proposal over its windows. */
  ghost predicate ProposalOf(windows: seq<Window>, steps: seq<Template>, params: seq<Parameter>)
    requires Aligned(windows)
  {
    && |steps| == |windows[0]| && (forall i | 0 <= i < |steps| :: TemplateOf(windows, i, steps[i]))
    && ParametersOf(windows, params, AllSteps)
  }

  /** `_generalize_parameters`. */
  method Generalize(windows: seq<Window>) returns (steps: seq<Template>, params: seq<Parameter>)
    requires windows != [] ==> Aligned(windows)
    ensures windows == [] ==> steps == [] && params == []
    ensures windows != [] ==> ProposalOf(windows, steps, params)
  {
    hide ParametersOf, TemplateOf;
    steps, params := [], [];
    if windows == [] { return; }
    NothingGeneralized(windows);
    for idx := 0 to |windows[0]|
      invariant |steps| == idx && forall i | 0 <= i < idx :: TemplateOf(windows, i, steps[i])
      invariant idx < |windows[0]| ==> ParametersOf(windows, params, Before(idx, KeysAt(windows, idx)))
      invariant idx == |windows[0]| ==> ParametersOf(windows, params, AllSteps)
    {
      var t;
      t, params := GeneralizeStep(windows, idx, params);
      steps := steps + [t];
      if idx + 1 < |windows[0]| { StepDone(windows, params, idx); }
      else { LastStepDone(windows, params, idx); }
    }
  }

  lemma NothingGeneralized(windows: seq<Window>)
    requires Aligned(windows)
    ensures windows[0] != [] ==> ParametersOf(windows, [], Before(0, KeysAt(windows, 0)))
    ensures windows[0] == [] ==> ParametersOf(windows, [], AllSteps)
  {
    if windows[0] != [] { CommonKeysSeen(windows, 0); }
  }

  lemma LastStepDone(windows: seq<Window>, params: seq<Parameter>, idx: nat)
    requires Aligned(windows) && idx + 1 == |windows[0]| && ParametersOf(windows, params, Before(idx, {}))
    ensures ParametersOf(windows, params, AllSteps)
  {
    var now := Before(idx, {});
    forall i, k | AllSteps(i, k) && Varies(windows, i, k) ensures exists p <- params :: p.step == i && p.key == k {
      assert now(i, k);
    }
  }

  // ----------------------------------------------------------------------- binding

  /** `resolve`; None is the KeyError of a hole without a value. */
  function Resolve(node: Json, values: map<string, Json>): (r: Option<Json>) {
    match node
    case Obj(fields) =>
      if fields.Keys == {"$param"} then
        if fields["$param"].Text? && fields["$param"].text in values then Some(values[fields["$param"].text]) else None
      else if forall k <- fields :: Resolve(fields[k], values).Some? then
        Some(Obj(map k | k in fields :: Resolve(fields[k], values).value))
      else None
    case List(items) =>
      if forall i | 0 <= i < |items| :: Resolve(items[i], values).Some? then
        Some(List(seq(|items|, i requires 0 <= i < |items| => Resolve(items[i], values).value)))
      else None
    case _ => Some(node)
  }

  /** No node that `resolve` would take for a hole. */
  predicate HoleFree(node: Json) {
    match node
    case Obj(fields) => fields.Keys != {"$param"} && forall k <- fields :: HoleFree(fields[k])
    case List(items) => forall i | 0 <= i < |items| :: HoleFree(items[i])
    case _ => true
  }

  lemma {:induction false} ResolveKeepsLiterals(node: Json, values: map<string, Json>)
    requires HoleFree(node)
    ensures Resolve(node, values) == Some(node)
  {
    match node {
      case Obj(fields) =>
        forall k | k in fields
          ensures Resolve(fields[k], values) == Some(fields[k])
        {
          ResolveKeepsLiterals(fields[k], values);
        }
        var out := map k | k in fields :: Resolve(fields[k], values).value;
        assert out == fields && Resolve(node, values) == Some(Obj(out));
      case List(items) =>
        forall i | 0 <= i < |items|
          ensures Resolve(items[i], values) == Some(items[i])
        {
          ResolveKeepsLiterals(items[i], values);
        }
        assert seq(|items|, i requires 0 <= i < |items| => Resolve(items[i], values).value) == items;
      case _ =>
    }
  }

  /** The value asks for a parameter of this name, wherever in it. */
  ghost predicate Asks(node: Json, name: string) {
    match node
    case Obj(fields) =>
      if fields.Keys == {"$param"} then fields["$param"] == Text(name)
      else exists k <- fields :: Asks(fields[k], name)
    case List(items) => exists i | 0 <= i < |items| :: Asks(items[i], name)
    case _ => false
  }

  /** Every hole in it has a text for its name. */
  ghost predicate HolesAreNamed(node: Json) {
    match node
    case Obj(fields) =>
      if fields.Keys == {"$param"} then fields["$param"].Text?
      else forall k <- fields :: HolesAreNamed(fields[k])
    case List(items) => forall i | 0 <= i < |items| :: HolesAreNamed(items[i])
    case _ => true
  }

  /** Resolving fails exactly when a name that the value asks for has no value, and leaves no
      hole anywhere when the values hold none. */
  lemma {:induction false} ResolveMeans(node: Json, values: map<string, Json>)
    requires HolesAreNamed(node)
    ensures Resolve(node, values).Some? <==> forall name | Asks(node, name) :: name in values
    ensures Resolve(node, values).Some? && (forall n <- values :: HoleFree(values[n])) ==>
              HoleFree(Resolve(node, values).value)
  {
    match node {
      case Obj(fields) =>
        if fields.Keys == {"$param"} {
          assert "$param" in fields;
        } else {
          forall k | k in fields { ResolveMeans(fields[k], values); }
          if Resolve(node, values).Some? { assert Resolve(node, values).value.fields.Keys == fields.Keys; }
        }
      case List(items) =>
        forall i | 0 <= i < |items| { ResolveMeans(items[i], values); }
      case _ =>
    }
  }

  datatype Bound = Bound(tool: string, parameters: Json)

  datatype BindError = MissingParameters(names: set<string>) | Unresolved

  function BindSteps(steps: seq<Template>, values: map<string, Json>): (r: Option<seq<Bound>>)
    ensures r.Some? <==> forall i | 0 <= i < |steps| :: Resolve(Obj(steps[i].parameters), values).Some?
    ensures r.Some? ==> |r.value| == |steps| && forall i | 0 <= i < |steps| ::
                          Resolve(Obj(steps[i].parameters), values) == Some(r.value[i].parameters)
                              && r.value[i].tool == steps[i].tool
  {
    if forall i | 0 <= i < |steps| :: Resolve(Obj(steps[i].parameters), values).Some? then
      Some(seq(|steps|, i requires 0 <= i < |steps| =>
                 Bound(steps[i].tool, Resolve(Obj(steps[i].parameters), values).value)))
    else None
  }

  /** `bind_parameters`. */
  function Bind(steps: seq<Template>, params: seq<Parameter>,
                values: map<string, Json>): Result<seq<Bound>, BindError> {
    var missing := set n <- Names(params) | n !in values;
    if missing != {} then Err(MissingParameters(missing))
    else
      match BindSteps(steps, values)
      case None => Err(Unresolved)
      case Some(bound) => Ok(bound)
  }

  /** Binding names every parameter without a value; with all of them it gives each step its
      tool and its resolved parameters, in order. */
  lemma BindMeans(steps: seq<Template>, params: seq<Parameter>, values: map<string, Json>)
    ensures (exists p <- params :: p.name !in values) <==>
            Bind(steps, params, values).Err? && Bind(steps, params, values).error.MissingParameters?
    ensures forall names, n | Bind(steps, params, values) == Err(MissingParameters(names)) ::
              n in names <==> n !in values && exists p <- params :: p.name == n
    ensures forall bound: seq<Bound> | Bind(steps, params, values) == Ok(bound) ::
              |bound| == |steps| && forall i | 0 <= i < |steps| ::
                bound[i].tool == steps[i].tool && Resolve(Obj(steps[i].parameters), values) == Some(bound[i].parameters)
  {
    var missing := set n <- Names(params) | n !in values;
    if p :| p in params && p.name !in values { assert p.name in missing; }
    if n :| n in missing { assert exists p <- params :: p.name == n; }
  }

  // -------------------------------------------------------------------- round trip

  /** Window `w`'s own value for every parameter. */
  ghost predicate Carries(values: map<string, Json>, params: seq<Parameter>, w: Window) {
    forall p <- params :: p.name in values && p.step < |w| && p.key in w[p.step].parameters
        && values[p.name] == w[p.step].parameters[p.key]
  }

  /** Every window can supply its own values, since no name is used twice. */
  method OwnValues(windows: seq<Window>, steps: seq<Template>, params: seq<Parameter>, w: Window)
    returns (values: map<string, Json>)
    requires Aligned(windows) && ProposalOf(windows, steps, params) && w in windows
    ensures Carries(values, params, w) && values.Keys == Names(params)
  {
    hide Carries;
    values := map[];
    NothingCarried(w);
    for i := 0 to |params|
      invariant Carries(values, params[..i], w) && values.Keys == Names(params[..i])
    {
      OneMoreValue(windows, params, i, values, w);
      values := values[params[i].name := w[params[i].step].parameters[params[i].key]];
    }
    assert params[..|params|] == params;
  }

  lemma NothingCarried(w: Window)
    ensures Carries(map[], [], w)
  {
  }

  lemma ParameterAt(windows: seq<Window>, params: seq<Parameter>, i: nat, w: Window)
    requires Aligned(windows) && w in windows && ParametersOf(windows, params, AllSteps) && i < |params|
    ensures params[i].step < |w| && params[i].key in w[params[i].step].parameters
    ensures forall j | 0 <= j < i :: params[j].name != params[i].name
  {
    assert params[i] in params;
  }

  lemma OneMoreValue(windows: seq<Window>, params: seq<Parameter>, i: nat, values: map<string, Json>, w: Window)
    requires Aligned(windows) && w in windows && ParametersOf(windows, params, AllSteps) && i < |params|
    requires Carries(values, params[..i], w) && values.Keys == Names(params[..i])
    ensures params[i].step < |w| && params[i].key in w[params[i].step].parameters
    ensures var values' := values[params[i].name := w[params[i].step].parameters[params[i].key]];
            Carries(values', params[..i + 1], w) && values'.Keys == Names(params[..i + 1])
  {
    hide ParametersOf, Aligned;
    var p := params[i];
    ParameterAt(windows, params, i, w);
    assert params[..i + 1] == params[..i] + [p];
    forall q | q in params[..i] ensures q.name != p.name {
      var j :| 0 <= j < i && params[j] == q;
      assert params[j].name != params[i].name;
    }
  }

  /** The literals of a proposal are ordinary values, and no step has the single key
      that would make `resolve` take its whole parameter dictionary for a hole. */
  ghost predicate PlainLiterals(windows: seq<Window>)
    requires Aligned(windows)
  {
    && (forall i, k | 0 <= i < |windows[0]| && InAll(windows, i, k) && Constant(windows, i, k)
        && k in windows[0][i].parameters ::
          HoleFree(windows[0][i].parameters[k]))
    && (forall i | 0 <= i < |windows[0]| :: !LooksLikeHole(windows, i))
  }

  ghost predicate LooksLikeHole(windows: seq<Window>, idx: nat)
    requires Aligned(windows) && idx < |windows[0]|
  {
    forall k :: InAll(windows, idx, k) <==> k == "$param"
  }

  function CommonPart(windows: seq<Window>, idx: nat, w: Window): map<string, Json>
    requires Aligned(windows) && w in windows && idx < |windows[0]|
  {
    map k | k in w[idx].parameters && InAll(windows, idx, k) :: w[idx].parameters[k]
  }

  lemma HoleLooks(windows: seq<Window>, idx: nat, t: Template)
    requires Aligned(windows) && idx < |windows[0]| && TemplateOf(windows, idx, t) && t.parameters.Keys == {"$param"}
    ensures LooksLikeHole(windows, idx)
  {
    hide InAll;
    assert forall k :: k in t.parameters <==> k in t.parameters.Keys;
  }

  lemma CommonPartMeans(windows: seq<Window>, idx: nat, w: Window)
    requires Aligned(windows) && w in windows && idx < |windows[0]|
    ensures forall k :: k in CommonPart(windows, idx, w) <==> InAll(windows, idx, k)
    ensures forall k <- CommonPart(windows, idx, w) ::
            k in w[idx].parameters && CommonPart(windows, idx, w)[k] == w[idx].parameters[k]
  {
  }

  lemma StepRoundTrip(windows: seq<Window>, params: seq<Parameter>, idx: nat, t: Template, values: map<string, Json>,
                      w: Window)
    requires Aligned(windows) && w in windows && idx < |windows[0]| && TemplateOf(windows, idx, t)
    requires ParametersOf(windows, params, AllSteps) && Carries(values, params, w) && PlainLiterals(windows)
    ensures Resolve(Obj(t.parameters), values) == Some(Obj(CommonPart(windows, idx, w)))
  {
    hide ParametersOf, Carries, Generalized, InAll, CommonPart, LooksLikeHole;
    var fields := t.parameters;
    if fields.Keys == {"$param"} { HoleLooks(windows, idx, t); }
    CommonPartMeans(windows, idx, w);
    forall k | k in fields ensures k in w[idx].parameters && Resolve(fields[k], values) == Some(w[idx].parameters[k]) {
      KeyRoundTrip(windows, params, idx, k, values, w);
    }
    var bound := map k | k in fields :: Resolve(fields[k], values).value;
    assert bound == CommonPart(windows, idx, w);
  }

  lemma KeyRoundTrip(windows: seq<Window>, params: seq<Parameter>, idx: nat, k: string, values: map<string, Json>,
                     w: Window)
    requires Aligned(windows) && w in windows && idx < |windows[0]| && InAll(windows, idx, k)
    requires ParametersOf(windows, params, AllSteps) && Carries(values, params, w) && PlainLiterals(windows)
    ensures k in w[idx].parameters && Resolve(Generalized(windows, idx, k), values) == Some(w[idx].parameters[k])
  {
    assert windows[0] in windows;
    if Constant(windows, idx, k) {
      ResolveKeepsLiterals(windows[0][idx].parameters[k], values);
    } else {
      assert AllSteps(idx, k) && Varies(windows, idx, k);
      var p :| p in params && p.step == idx && p.key == k;
      var fields := map["$param" := Text(BaseName(idx, k))];
      assert Hole(BaseName(idx, k)) == Obj(fields) && fields.Keys == {"$param"};
    }
  }

  /** Generalise, then bind with a window's own values: the tools of the pattern, and of
      that window's parameters exactly those common to all windows. */
  lemma GeneralizeBindRoundTrip(windows: seq<Window>, steps: seq<Template>, params: seq<Parameter>,
                                values: map<string, Json>, w: Window)
    requires Aligned(windows) && w in windows && ProposalOf(windows, steps, params)
    requires Carries(values, params, w) && PlainLiterals(windows)
    ensures Bind(steps, params, values).Ok? && |Bind(steps, params, values).value| == |w|
    ensures forall i | 0 <= i < |w| ::
              Bind(steps, params, values).value[i] == Bound(windows[0][i].tool, Obj(CommonPart(windows, i, w)))
  {
    forall n | n in Names(params) ensures n in values {}
    assert (set n <- Names(params) | n !in values) == {};
    forall i | 0 <= i < |steps|
      ensures Resolve(Obj(steps[i].parameters), values) == Some(Obj(CommonPart(windows, i, w)))
    {
      assert TemplateOf(windows, i, steps[i]);
      StepRoundTrip(windows, params, i, steps[i], values, w);
    }
  }

  /** Bound steps that are exactly the recorded ones. */
  predicate Reproduces(bound: seq<Bound>, w: Window) {
    |bound| == |w| && forall i | 0 <= i < |w| :: bound[i] == Bound(w[i].tool, Obj(w[i].parameters))
  }

  /** The window has the pattern's tools, and no parameter that another window lacks. */
  predicate OfOneShape(windows: seq<Window>, w: Window)
    requires Aligned(windows) && w in windows
  {
    forall i | 0 <= i < |w| ::
      w[i].tool == windows[0][i].tool && forall k <- w[i].parameters :: InAll(windows, i, k)
  }

  /** The round trip is exact precisely for the windows of one shape. */
  lemma RoundTripExactIff(windows: seq<Window>, steps: seq<Template>, params: seq<Parameter>, values: map<string, Json>,
                          w: Window,
                          bound: seq<Bound>)
    requires Aligned(windows) && w in windows && ProposalOf(windows, steps, params)
    requires Carries(values, params, w) && PlainLiterals(windows) && Bind(steps, params, values) == Ok(bound)
    ensures Reproduces(bound, w) <==> OfOneShape(windows, w)
  {
    hide ProposalOf, Carries, PlainLiterals, Bind, CommonPart, Reproduces, OfOneShape;
    GeneralizeBindRoundTrip(windows, steps, params, values, w);
    ReproducesIff(windows, w, bound);
  }

  lemma ReproducesIff(windows: seq<Window>, w: Window, bound: seq<Bound>)
    requires Aligned(windows) && w in windows && |bound| == |w|
    requires forall i | 0 <= i < |w| :: bound[i] == Bound(windows[0][i].tool, Obj(CommonPart(windows, i, w)))
    ensures Reproduces(bound, w) <==> OfOneShape(windows, w)
  {
    hide CommonPart, InAll;
    forall i | 0 <= i < |w|
      ensures CommonPart(windows, i, w) == w[i].parameters <==> forall k <- w[i].parameters :: InAll(windows, i, k)
    {
      WholeIffCommon(windows, i, w);
    }
  }

  lemma WholeIffCommon(windows: seq<Window>, idx: nat, w: Window)
    requires Aligned(windows) && w in windows && idx < |windows[0]|
    ensures CommonPart(windows, idx, w) == w[idx].parameters <==>
            forall k <- w[idx].parameters :: InAll(windows, idx, k)
  {
    if CommonPart(windows, idx, w) == w[idx].parameters {
      forall k | k in w[idx].parameters ensures InAll(windows, idx, k) { assert k in CommonPart(windows, idx, w); }
    }
  }

  /** Why literals must hold no hole: one that does is looked up, not kept. */
  lemma LiteralHoleIsLost(name: string, values: map<string, Json>)
    requires name !in values
    ensures var w := [Observed("t", map["a" := Hole(name), "b" := Null])];
            var t := Template("t", w[0].parameters);
            TemplateOf([w], 0, t) && Bind([t], [], values) == Err(Unresolved)
  {
    var w := [Observed("t", map["a" := Hole(name), "b" := Null])];
    var t := Template("t", w[0].parameters);
    var fields := map["$param" := Text(name)];
    assert Hole(name) == Obj(fields) && fields.Keys == {"$param"};
    assert "b" in t.parameters && t.parameters.Keys != {"$param"};
    assert "a" in t.parameters && Resolve(t.parameters["a"], values).None?;
    assert Resolve(Obj(t.parameters), values).None?;
    assert [w][0] == w;
    forall k | InAll([w], 0, k) ensures Constant([w], 0, k) {}
    assert [t][0] == t;
    assert (set n <- Names([]) | n !in values) == {};
  }
}

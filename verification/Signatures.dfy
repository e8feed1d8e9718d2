/** Action signatures, the windows of a pattern, and when equal signatures mean
    equal shapes (vyomel/learning/signatures.py, vyomel/learning/proposal.py). */
module Signatures {
  import opened Wrappers
  import opened Ordering
  import opened Proposal
  import Glob

  /** `_value_type`. */
  function TypeName(v: Json): (t: string)
    ensures ',' !in t && '|' !in t && ':' !in t && t != ""
  {
    match v
    case Null => "null"
    case Bool(_) => "bool"
    case Int(_) => "int"
    case Float(_) => "float"
    case Text(_) => "str"
    case List(_) => "list"
    case Obj(_) => "dict"
  }

  /** A type's name tells the seven kinds of value apart, and nothing more. */
  lemma TypeNamesTellKinds(u: Json, v: Json)
    ensures TypeName(u) == TypeName(v) <==>
            && (u.Null? <==> v.Null?) && (u.Bool? <==> v.Bool?) && (u.Int? <==> v.Int?) && (u.Float? <==> v.Float?)
            && (u.Text? <==> v.Text?) && (u.List? <==> v.List?) && (u.Obj? <==> v.Obj?)
  {
  }

  /** `_param_shape`, before sorting. */
  function Shapes(parameters: map<string, Json>): set<string> {
    set k <- parameters :: k + ":" + TypeName(parameters[k])
  }

  function Lowered(s: string): string {
    seq(|s|, i requires 0 <= i < |s| => Glob.Lower(s[i]))
  }

  /** `_target_type`. */
  function TargetType(parameters: map<string, Json>): string {
    var keys := set k <- parameters :: Lowered(k);
    if keys * {"path", "src", "dest", "file", "directory", "dir"} != {} then "path"
    else if keys * {"url", "uri", "href"} != {} then "url"
    else if keys * {"to", "from_addr", "email", "attendees", "cc", "bcc"} != {} then "email"
    else if keys * {"id", "message_id", "event_id", "draft_id", "repo", "number", "ref", "workflow_id"} != {} then "id"
    else if parameters != map[] then "args"
    else "none"
  }

  predicate SomeKeyIn(parameters: map<string, Json>, words: set<string>) {
    exists k <- parameters :: Lowered(k) in words
  }

  /** What a call is about is read off its parameters' names, whatever their case: paths
      before addresses of pages, these before people, these before numbers and references. */
  lemma TargetMeans(parameters: map<string, Json>)
    ensures var path := SomeKeyIn(parameters, {"path", "src", "dest", "file", "directory", "dir"});
            var url := SomeKeyIn(parameters, {"url", "uri", "href"});
            var email := SomeKeyIn(parameters, {"to", "from_addr", "email", "attendees", "cc", "bcc"});
            var id := SomeKeyIn(parameters, {"id", "message_id", "event_id", "draft_id", "repo", "number", "ref",
                                             "workflow_id"});
            && (TargetType(parameters) == "path" <==> path)
            && (TargetType(parameters) == "url" <==> url && !path)
            && (TargetType(parameters) == "email" <==> email && !url && !path)
            && (TargetType(parameters) == "id" <==> id && !email && !url && !path)
            && (TargetType(parameters) == "none" <==> parameters == map[])
  {
    var keys := set k <- parameters :: Lowered(k);
    forall words: set<string> ensures SomeKeyIn(parameters, words) <==> keys * words != {} {
      if k :| k in parameters && Lowered(k) in words { assert Lowered(k) in keys * words; }
      if keys * words != {} {
        var w :| w in keys * words;
        assert exists k <- parameters :: Lowered(k) == w;
      }
    }
    if parameters == map[] { assert keys == {}; }
  }

  function Join(parts: seq<string>): string {
    if parts == [] then ""
    else if |parts| == 1 then parts[0]
    else parts[0] + "," + Join(parts[1..])
  }

  datatype ActionSignature = ActionSignature(tool: string, shape: seq<string>, target: string)
  {
    function Key(): string {
      tool + "|" + Join(shape) + "|" + target
    }
  }

  /** `normalize_observed`. */
  ghost function Normalize(a: Observed): ActionSignature {
    ActionSignature(a.tool, Sorted(Shapes(a.parameters)), TargetType(a.parameters))
  }

  ghost function SignatureKey(a: Observed): string {
    Normalize(a).Key()
  }

  /** Names that cannot be confused with the separators of a key. */
  predicate Clean(a: Observed) {
    '|' !in a.tool && forall k <- a.parameters :: ',' !in k && '|' !in k && ':' !in k
  }

  lemma {:induction false} JoinJoins(xs: seq<string>, ys: seq<string>)
    requires xs != [] && ys != []
    ensures Join(xs + ys) == Join(xs) + "," + Join(ys) && Join([xs[0]]) == xs[0]
  {
    assert (xs + ys)[1..] == xs[1..] + ys;
    if |xs| > 1 {
      JoinJoins(xs[1..], ys);
      assert Join(xs + ys) == xs[0] + "," + Join(xs[1..]) + "," + Join(ys);
    } else {
      assert xs[1..] + ys == ys;
    }
  }

  /** A key's parts: the tool, the name and type of every parameter in ascending order, and
      what the call is about. */
  lemma KeyMeans(a: Observed)
    ensures SignatureKey(a) == a.tool + "|" + Join(Normalize(a).shape) + "|" + TargetType(a.parameters)
    ensures forall s :: s in Normalize(a).shape <==>
                        exists k <- a.parameters :: s == k + ":" + TypeName(a.parameters[k])
    ensures forall i, j | 0 <= i < j < |Normalize(a).shape| :: Less(Normalize(a).shape[i], Normalize(a).shape[j])
  {
    hide Join, TargetType, Less;
  }

  lemma ShapeIsClean(a: Observed, s: string)
    requires Clean(a) && s in Shapes(a.parameters)
    ensures ',' !in s && '|' !in s && s != ""
  {
  }

  lemma {:induction false} JoinKeepsOut(parts: seq<string>, c: char)
    requires c != ',' && forall p <- parts :: c !in p
    ensures c !in Join(parts)
  {
    if |parts| > 1 {
      forall p | p in parts[1..] ensures c !in p {}
      JoinKeepsOut(parts[1..], c);
    }
  }

  lemma {:induction false} JoinIsInjective(xs: seq<string>, ys: seq<string>)
    requires Join(xs) == Join(ys)
    requires forall p <- xs :: p != "" && ',' !in p
    requires forall p <- ys :: p != "" && ',' !in p
    ensures xs == ys
    decreases |xs|
  {
    NoComma(xs);
    NoComma(ys);
    if |xs| > 1 {
      assert |ys| > 1;
      SplitIsUnique(xs[0], Join(xs[1..]), ys[0], Join(ys[1..]), ',');
      forall p | p in xs[1..] ensures p != "" && ',' !in p { assert p in xs; }
      forall p | p in ys[1..] ensures p != "" && ',' !in p { assert p in ys; }
      JoinIsInjective(xs[1..], ys[1..]);
      assert xs == [xs[0]] + xs[1..] && ys == [ys[0]] + ys[1..];
    }
  }

  lemma NoComma(xs: seq<string>)
    requires forall p <- xs :: p != "" && ',' !in p
    ensures ',' in Join(xs) <==> |xs| > 1
    ensures Join(xs) == "" <==> xs == []
  {
    if |xs| == 1 { assert xs[0] in xs; }
    if |xs| > 1 {
      assert Join(xs)[|xs[0]|] == ',';
    }
  }

  /** Equal keys mean equal tools and equal parameter names, when no name holds a separator. */
  lemma SameKeySameShape(a: Observed, b: Observed)
    requires SignatureKey(a) == SignatureKey(b) && Clean(a) && Clean(b)
    ensures a.tool == b.tool && a.parameters.Keys == b.parameters.Keys
  {
    hide Clean, Shapes, TargetType, Join;
    var xs, ys := Sorted(Shapes(a.parameters)), Sorted(Shapes(b.parameters));
    PartsOfKey(a);
    PartsOfKey(b);
    var s, t := TargetType(a.parameters), TargetType(b.parameters);
    SplitIsUnique(a.tool, Join(xs) + "|" + s, b.tool, Join(ys) + "|" + t, '|');
    SplitIsUnique(Join(xs), s, Join(ys), t, '|');
    JoinIsInjective(xs, ys);
    NamesFromShapes(a, b);
    NamesFromShapes(b, a);
  }

  lemma PartsOfKey(a: Observed)
    requires Clean(a)
    ensures '|' !in a.tool && '|' !in Join(Sorted(Shapes(a.parameters)))
    ensures forall p <- Sorted(Shapes(a.parameters)) :: p != "" && ',' !in p
    ensures SignatureKey(a) == a.tool + "|" + (Join(Sorted(Shapes(a.parameters))) + "|" + TargetType(a.parameters))
  {
    hide Shapes, TargetType, Join;
    forall p | p in Sorted(Shapes(a.parameters)) ensures ',' !in p && '|' !in p && p != "" { ShapeIsClean(a, p); }
    JoinKeepsOut(Sorted(Shapes(a.parameters)), '|');
  }

  lemma NamesFromShapes(a: Observed, b: Observed)
    requires Clean(a) && Clean(b) && Sorted(Shapes(a.parameters)) == Sorted(Shapes(b.parameters))
    ensures forall k <- a.parameters :: k in b.parameters
  {
    forall k | k in a.parameters ensures k in b.parameters {
      var s := k + ":" + TypeName(a.parameters[k]);
      assert s in Shapes(a.parameters);
      assert s in Sorted(Shapes(b.parameters));
      var l :| l in b.parameters && s == l + ":" + TypeName(b.parameters[l]);
      SplitIsUnique(k, TypeName(a.parameters[k]), l, TypeName(b.parameters[l]), ':');
    }
  }

  // ------------------------------------------------------------------ ambiguous keys

  lemma ShapesOfOne(k: string, v: Json)
    ensures Shapes(map[k := v]) == {k + ":" + TypeName(v)}
  {
    assert k in map[k := v];
  }

  lemma ShapesOfTwo(k: string, u: Json, l: string, v: Json)
    requires k != l
    ensures Shapes(map[k := u, l := v]) == {k + ":" + TypeName(u), l + ":" + TypeName(v)}
  {
    var m := map[k := u, l := v];
    assert k in m && l in m && m[k] == u && m[l] == v;
  }

  lemma SortedOne(x: string)
    ensures Sorted({x}) == [x]
  {
    assert Sorts([x], {x});
    SortedIsUnique(Sorted({x}), [x], {x});
  }

  lemma SortedTwo(x: string, y: string)
    requires Less(x, y)
    ensures Sorted({x, y}) == [x, y]
  {
    LessIsOneWay(x, y);
    assert Sorts([x, y], {x, y});
    SortedIsUnique(Sorted({x, y}), [x, y], {x, y});
  }

  lemma SortedShapes(u: string, v: string)
    ensures Sorted(Shapes(map["a:str,b" := Text(u)])) == ["a:str,b:str"]
    ensures Sorted(Shapes(map["a" := Text(u), "b" := Text(v)])) == ["a:str", "b:str"]
  {
    hide Shapes, Sorted, Sorts;
    ShapesOfOne("a:str,b", Text(u));
    ShapesOfTwo("a", Text(u), "b", Text(v));
    assert "a:str,b" + ":" + "str" == "a:str,b:str";
    assert "a" + ":" + "str" == "a:str" && "b" + ":" + "str" == "b:str";
    SortedOne("a:str,b:str");
    SortedTwo("a:str", "b:str");
  }

  lemma BothTargetArgs(u: string, v: string)
    ensures TargetType(map["a:str,b" := Text(u)]) == "args" && TargetType(map["a" := Text(u), "b" := Text(v)]) == "args"
  {
    var m, n := map["a:str,b" := Text(u)], map["a" := Text(u), "b" := Text(v)];
    assert Lowered("a:str,b") == "a:str,b" && Lowered("a") == "a" && Lowered("b") == "b";
    assert "a" in n && "a:str,b" in m;
  }

  lemma SameKey(tool: string, u: string, v: string)
    ensures SignatureKey(Observed(tool, map["a:str,b" := Text(u)])) ==
            SignatureKey(Observed(tool, map["a" := Text(u), "b" := Text(v)]))
  {
    hide Shapes, TargetType, Sorted;
    SortedShapes(u, v);
    BothTargetArgs(u, v);
    assert ["a:str", "b:str"][1..] == ["b:str"];
    assert Join(["a:str,b:str"]) == Join(["a:str", "b:str"]);
  }

  lemma NotOfOneShape(windows: seq<Window>, w: Window, k: string)
    requires Aligned(windows) && w in windows && w != [] && k in w[0].parameters && !InAll(windows, 0, k)
    ensures !OfOneShape(windows, w)
  {
  }

  /** Without that condition keys are ambiguous: a call with one parameter named `a:str,b`
      has the key of a call with two named `a` and `b`. Windows that differ only in this
      fit the same pattern and are not of one shape, so neither is reproduced. */
  lemma SeparatorsMakeKeysAmbiguous(tool: string, u: string, v: string, rest: Window)
    ensures var one := Observed(tool, map["a:str,b" := Text(u)]);
            var two := Observed(tool, map["a" := Text(u), "b" := Text(v)]);
            var windows: seq<Window> := [[one] + rest, [two] + rest];
            && SignatureKey(one) == SignatureKey(two)
            && Aligned(windows) && !OfOneShape(windows, windows[0]) && !OfOneShape(windows, windows[1])
  {
    hide OfOneShape, SignatureKey;
    var one, two := Observed(tool, map["a:str,b" := Text(u)]), Observed(tool, map["a" := Text(u), "b" := Text(v)]);
    var windows: seq<Window> := [[one] + rest, [two] + rest];
    SameKey(tool, u, v);
    assert windows[0] in windows && windows[1] in windows && windows[0][0] == one && windows[1][0] == two;
    NotOfOneShape(windows, windows[0], "a:str,b");
    NotOfOneShape(windows, windows[1], "a");
  }

  // ------------------------------------------------------------------ occurrences

  predicate MatchesAt(actions: seq<Observed>, start: nat, wanted: seq<string>, key: Observed -> string) {
    start + |wanted| <= |actions| && forall i | 0 <= i < |wanted| :: key(actions[start + i]) == wanted[i]
  }

  /** The first window of one task that matches, if any. */
  ghost predicate FirstWindow(actions: seq<Observed>, wanted: seq<string>, key: Observed -> string, w: Option<Window>) {
    match w
    case None => forall s: nat :: !MatchesAt(actions, s, wanted, key)
    case Some(window) =>
      exists s: nat :: MatchesAt(actions, s, wanted, key) && window == actions[s..s + |wanted|]
                       && forall r: nat | r < s :: !MatchesAt(actions, r, wanted, key)
  }

  method FindFirst(actions: seq<Observed>, wanted: seq<string>, key: Observed -> string) returns (w: Option<Window>)
    ensures FirstWindow(actions, wanted, key, w)
  {
    var start: nat := 0;
    while start + |wanted| <= |actions|
      invariant forall s: nat | s < start :: !MatchesAt(actions, s, wanted, key)
    {
      if forall i | 0 <= i < |wanted| :: key(actions[start + i]) == wanted[i] {
        assert MatchesAt(actions, start, wanted, key);
        return Some(actions[start..start + |wanted|]);
      }
      start := start + 1;
    }
    return None;
  }

  /** A window that has the pattern's keys. */
  predicate Fits(w: Window, wanted: seq<string>, key: Observed -> string) {
    |w| == |wanted| && forall i | 0 <= i < |w| :: key(w[i]) == wanted[i]
  }

  lemma FirstWindowFits(actions: seq<Observed>, wanted: seq<string>, key: Observed -> string, w: Window)
    requires FirstWindow(actions, wanted, key, Some(w))
    ensures Fits(w, wanted, key)
  {
  }

  /** `_occurrences_for_pattern`: the first match of every supporting task that has one,
      in corpus order. `from` names the task each window comes from. */
  method Occurrences(wanted: seq<string>, tasks: set<string>, corpus: seq<(string, seq<Observed>)>,
                     key: Observed -> string)
    returns (found: seq<Window>, ghost from: seq<nat>)
    ensures |from| == |found| && (forall j, k | 0 <= j < k < |from| :: from[j] < from[k])
    ensures forall j | 0 <= j < |found| ::
              from[j] < |corpus| && corpus[from[j]].0 in tasks
                  && FirstWindow(corpus[from[j]].1, wanted, key, Some(found[j]))
    ensures forall c | 0 <= c < |corpus| && corpus[c].0 in tasks && c !in from ::
            FirstWindow(corpus[c].1, wanted, key, None)
    ensures forall w <- found :: Fits(w, wanted, key)
  {
    hide FirstWindow;
    found, from := [], [];
    for c := 0 to |corpus|
      invariant |from| == |found| && (forall j, k | 0 <= j < k < |from| :: from[j] < from[k])
      invariant forall j | 0 <= j < |found| ::
                  from[j] < c && corpus[from[j]].0 in tasks
                      && FirstWindow(corpus[from[j]].1, wanted, key, Some(found[j]))
      invariant forall b | 0 <= b < c && corpus[b].0 in tasks && b !in from ::
                FirstWindow(corpus[b].1, wanted, key, None)
      invariant forall w <- found :: Fits(w, wanted, key)
    {
      if corpus[c].0 in tasks {
        var w := FindFirst(corpus[c].1, wanted, key);
        if w.Some? {
          FirstWindowFits(corpus[c].1, wanted, key, w.value);
          found, from := found + [w.value], from + [c];
        }
      }
    }
  }

  /** Hence, with clean names, every window of a learned pattern is reproduced exactly. */
  lemma PatternRoundTrip(windows: seq<Window>, wanted: seq<string>, key: Observed -> string, steps: seq<Template>,
                         params: seq<Parameter>,
                         values: map<string, Json>, w: Window, bound: seq<Bound>)
    requires windows != [] && w in windows && (forall x <- windows :: Fits(x, wanted, key)) && Aligned(windows)
    requires forall a: Observed :: key(a) == SignatureKey(a)
    requires forall x: Window <- windows, a <- x :: Clean(a)
    requires ProposalOf(windows, steps, params) && Carries(values, params, w) && PlainLiterals(windows)
    requires Bind(steps, params, values) == Ok(bound)
    ensures Reproduces(bound, w)
  {
    forall i | 0 <= i < |w|
      ensures w[i].tool == windows[0][i].tool && forall k <- w[i].parameters :: InAll(windows, i, k)
    {
      forall x: Window | x in windows ensures x[i].tool == w[i].tool && x[i].parameters.Keys == w[i].parameters.Keys {
        assert Fits(x, wanted, key) && Fits(w, wanted, key) && x[i] in x && w[i] in w;
        SameKeySameShape(x[i], w[i]);
      }
    }
    RoundTripExactIff(windows, steps, params, values, w, bound);
  }
}

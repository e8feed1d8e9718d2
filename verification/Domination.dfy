/** What the pruning of mined patterns compares (vyomel/learning/mining.py): keys as text.
    When that agrees with comparing the patterns themselves, and when it does not. */
module Domination {
  import opened Wrappers
  import S = Signatures
  import opened Mining
  import Proposal

  /** What `_target_type` returns. */
  const TARGETS := {"path", "url", "email", "id", "args", "none"}

  function ShapeText(s: Signature): string {
    S.Join(s.shape)
  }

  /** A signature whose names hold none of the separators of a pattern key. */
  predicate Clean(s: Signature) {
    && '|' !in s.tool && ' ' !in s.tool && '>' !in s.tool
    && '|' !in ShapeText(s) && '>' !in ShapeText(s)
    && s.target in TARGETS
  }

  predicate AllClean(xs: seq<Signature>) {
    forall x <- xs :: Clean(x)
  }

  // ------------------------------------------------------------- the parts of a key

  /** What follows the first signature. */
  function Tail(xs: seq<Signature>): string {
    if xs == [] then "" else " > " + PatternKey(xs)
  }

  /** The key after the first tool and its bar. */
  function AfterTool(xs: seq<Signature>): string
    requires xs != []
  {
    ShapeText(xs[0]) + "|" + (xs[0].target + Tail(xs[1..]))
  }

  lemma Regroup(a: string, b: string, c: string, t: string)
    ensures (a + "|" + b + "|" + c) + t == a + "|" + (b + "|" + (c + t))
  {
  }

  lemma KeySplits(xs: seq<Signature>)
    requires xs != []
    ensures PatternKey(xs) == xs[0].tool + "|" + AfterTool(xs)
    ensures PatternKey(xs) == xs[0].Key() + Tail(xs[1..])
  {
    hide S.Join;
    var x := xs[0];
    if |xs| == 1 { assert x.Key() + "" == x.Key(); }
    else { assert x.Key() + " > " + PatternKey(xs[1..]) == x.Key() + (" > " + PatternKey(xs[1..])); }
    Regroup(x.tool, ShapeText(x), x.target, Tail(xs[1..]));
  }

  /** Up to the first bar, a text and a prefix of it agree. */
  lemma PrefixSplits(a: string, u: string, b: string, v: string)
    requires '|' !in a && '|' !in b && a + "|" + u <= b + "|" + v
    ensures a == b && u <= v
  {
    var p, q := a + "|" + u, b + "|" + v;
    var w := q[|p|..];
    assert q == p + w;
    assert a + "|" + (u + w) == b + "|" + v;
    Proposal.SplitIsUnique(a, u + w, b, v, '|');
  }

  lemma TargetSplits(t: string, u: string, a: string, b: string)
    requires t in TARGETS && u in TARGETS && t + a <= u + b
    ensures t == u && a <= b
  {
    assert (t + a)[0] == (u + b)[0];
    assert t[0] == u[0];
    PrefixJoins(t, a, b);
  }

  lemma BarFree(t: string)
    requires t in TARGETS
    ensures '|' !in t && ' ' !in t && '>' !in t
  {
  }

  lemma PrefixJoins(a: string, u: string, v: string)
    ensures u <= v <==> a + u <= a + v
  {
    assert u == (a + u)[|a|..] && v == (a + v)[|a|..];
    if u <= v { assert a + v == (a + u) + v[|u|..]; }
  }

  predicate SameKeys(xs: seq<Signature>, ys: seq<Signature>) {
    |xs| == |ys| && forall k | 0 <= k < |xs| :: xs[k].Key() == ys[k].Key()
  }

  /** The patterns agree from the first shape on, as far as the second one goes. */
  predicate SameAfterTool(xs: seq<Signature>, ys: seq<Signature>) {
    && 0 < |ys| <= |xs| && ShapeText(xs[0]) == ShapeText(ys[0]) && xs[0].target == ys[0].target
    && forall k | 0 < k < |ys| :: xs[k].Key() == ys[k].Key()
  }

  lemma RestIsClean(xs: seq<Signature>)
    requires AllClean(xs) && xs != []
    ensures Clean(xs[0]) && AllClean(xs[1..])
  {
    forall x | x in xs[1..] ensures Clean(x) { assert x in xs; }
    assert xs[0] in xs;
  }

  lemma {:induction false} AfterToolAgrees(xs: seq<Signature>, ys: seq<Signature>)
    requires AllClean(xs) && AllClean(ys) && xs != [] && ys != []
    requires AfterTool(ys) <= AfterTool(xs)
    ensures SameAfterTool(xs, ys)
    decreases |xs|
  {
    hide S.Join, Clean, PatternKey, TARGETS;
    var xs', ys' := xs[1..], ys[1..];
    RestIsClean(xs);
    RestIsClean(ys);
    FirstPartsAgree(xs, ys);
    if ys' != [] {
      RestIsLonger(xs', ys');
      ToolsAgree(xs', ys');
      AfterToolAgrees(xs', ys');
      forall k | 0 < k < |ys| ensures xs[k].Key() == ys[k].Key() {
        assert xs[k] == xs'[k - 1] && ys[k] == ys'[k - 1];
      }
    }
  }

  lemma FirstPartsAgree(xs: seq<Signature>, ys: seq<Signature>)
    requires xs != [] && ys != [] && Clean(xs[0]) && Clean(ys[0]) && AfterTool(ys) <= AfterTool(xs)
    ensures ShapeText(xs[0]) == ShapeText(ys[0]) && xs[0].target == ys[0].target && Tail(ys[1..]) <= Tail(xs[1..])
  {
    hide S.Join, PatternKey, Tail, TARGETS;
    var x, y := xs[0], ys[0];
    PrefixSplits(ShapeText(y), y.target + Tail(ys[1..]), ShapeText(x), x.target + Tail(xs[1..]));
    TargetSplits(y.target, x.target, Tail(ys[1..]), Tail(xs[1..]));
  }

  lemma RestIsLonger(xs: seq<Signature>, ys: seq<Signature>)
    requires ys != [] && Tail(ys) <= Tail(xs)
    ensures xs != [] && PatternKey(ys) <= PatternKey(xs)
  {
    hide PatternKey;
    assert |Tail(ys)| >= 3;
    PrefixJoins(" > ", PatternKey(ys), PatternKey(xs));
  }

  lemma ToolsAgree(xs: seq<Signature>, ys: seq<Signature>)
    requires xs != [] && ys != [] && AllClean(xs) && AllClean(ys) && PatternKey(ys) <= PatternKey(xs)
    ensures xs[0].tool == ys[0].tool && AfterTool(ys) <= AfterTool(xs)
  {
    hide S.Join, PatternKey, AfterTool;
    RestIsClean(xs);
    RestIsClean(ys);
    KeySplits(xs);
    KeySplits(ys);
    PrefixSplits(ys[0].tool, AfterTool(ys), xs[0].tool, AfterTool(xs));
  }

  // ------------------------------------------------------------------ where a key occurs

  predicate EndsWith(s: string, end: string) {
    |end| <= |s| && s[|s| - |end|..] == end
  }

  /** The second pattern stands at position j of the first, but for the beginning of its
      first tool's name. */
  predicate SuffixAt(xs: seq<Signature>, ys: seq<Signature>, j: nat) {
    && ys != [] && j + |ys| <= |xs|
    && EndsWith(xs[j].tool, ys[0].tool) && ShapeText(xs[j]) == ShapeText(ys[0]) && xs[j].target == ys[0].target
    && forall k | 0 < k < |ys| :: xs[j + k].Key() == ys[k].Key()
  }

  lemma FoundIsPrefix(hay: string, needle: string, i: nat)
    requires i <= |hay|
    ensures FoundAt(hay, needle, i) <==> needle <= hay[i..]
  {
    if i + |needle| <= |hay| { assert hay[i..][..|needle|] == hay[i..i + |needle|]; }
  }

  /** The same for a text that begins inside the part before the bar. */
  lemma InsideSplits(a: string, u: string, b: string, v: string, i: nat)
    requires '|' !in a && '|' !in b && i <= |b| && a + "|" + u <= (b + "|" + v)[i..]
    ensures a == b[i..] && u <= v
  {
    assert (b + "|" + v)[i..] == b[i..] + "|" + v;
    NoBarSuffix(b, i, '|');
    PrefixSplits(a, u, b[i..], v);
  }

  lemma DropPast(a: string, b: string, i: nat)
    requires |a| <= i <= |a| + |b|
    ensures (a + b)[i..] == b[i - |a|..]
  {
  }

  lemma NoBarSuffix(a: string, i: nat, c: char)
    requires i <= |a| && c !in a
    ensures c !in a[i..]
  {
  }

  /** An occurrence that begins in the first tool. */
  lemma BeginsInTool(xs: seq<Signature>, ys: seq<Signature>, i: nat)
    requires AllClean(xs) && AllClean(ys) && xs != [] && ys != [] && i <= |xs[0].tool|
    requires PatternKey(ys) <= PatternKey(xs)[i..]
    ensures SuffixAt(xs, ys, 0)
  {
    hide S.Join, PatternKey, AfterTool, TARGETS, SameAfterTool, AllClean, SuffixAt;
    RestIsClean(xs);
    RestIsClean(ys);
    KeySplits(xs);
    KeySplits(ys);
    InsideSplits(ys[0].tool, AfterTool(ys), xs[0].tool, AfterTool(xs), i);
    AfterToolAgrees(xs, ys);
    SuffixFromParts(xs, ys, i);
  }

  lemma SuffixFromParts(xs: seq<Signature>, ys: seq<Signature>, i: nat)
    requires xs != [] && ys != [] && i <= |xs[0].tool| && ys[0].tool == xs[0].tool[i..] && SameAfterTool(xs, ys)
    ensures SuffixAt(xs, ys, 0)
  {
    hide S.Join;
    assert |xs[0].tool| - |ys[0].tool| == i;
  }

  lemma KeyHasBar(ys: seq<Signature>)
    requires ys != []
    ensures '|' in PatternKey(ys)
  {
    hide S.Join, AfterTool;
    KeySplits(ys);
    assert PatternKey(ys)[|ys[0].tool|] == '|';
  }

  lemma NoBarNoPrefix(text: string, hay: string)
    requires '|' in text && '|' !in hay
    ensures !(text <= hay)
  {
    var k :| 0 <= k < |text| && text[k] == '|';
  }

  /** No occurrence begins in the first shape: its own shape would hold the separator. */
  lemma NotInShape(xs: seq<Signature>, ys: seq<Signature>, i: nat)
    requires AllClean(xs) && AllClean(ys) && xs != [] && ys != [] && i <= |ShapeText(xs[0])|
    ensures !(PatternKey(ys) <= AfterTool(xs)[i..])
  {
    hide S.Join, PatternKey, TARGETS, AllClean;
    RestIsClean(xs);
    RestIsClean(ys);
    ShapeIsNoTarget(xs, ys);
    if PatternKey(ys) <= AfterTool(xs)[i..] {
      KeySplits(ys);
      InsideSplits(ys[0].tool, AfterTool(ys), ShapeText(xs[0]), xs[0].target + Tail(xs[1..]), i);
    }
  }

  lemma SeparatorInside(a: string, b: string)
    ensures '>' in a + " > " + b
  {
    assert (a + " > " + b)[|a| + 1] == '>';
  }

  lemma ShapeIsNotAcross(shape: string, after: string, target: string, tool: string, rest: string)
    requires '|' !in shape && '>' !in shape && '|' !in target && '|' !in tool
    ensures !(shape + "|" + after <= target + " > " + tool + "|" + rest)
  {
    SeparatorInside(target, tool);
    if shape + "|" + after <= target + " > " + tool + "|" + rest {
      PrefixSplits(shape, after, target + " > " + tool, rest);
    }
  }

  lemma ShapeIsNoTarget(xs: seq<Signature>, ys: seq<Signature>)
    requires AllClean(xs) && AllClean(ys) && xs != [] && ys != []
    ensures !(AfterTool(ys) <= xs[0].target + Tail(xs[1..]))
  {
    hide S.Join, PatternKey, TARGETS;
    RestIsClean(xs);
    RestIsClean(ys);
    BarFree(xs[0].target);
    var target, shape, after := xs[0].target, ShapeText(ys[0]), ys[0].target + Tail(ys[1..]);
    if xs[1..] == [] {
      assert target + "" == target;
      assert AfterTool(ys)[|shape|] == '|';
      NoBarNoPrefix(AfterTool(ys), target);
    } else {
      var tool, rest := xs[1..][0].tool, AfterTool(xs[1..]);
      RestIsClean(xs[1..]);
      KeySplits(xs[1..]);
      assert target + (" > " + (tool + "|" + rest)) == target + " > " + tool + "|" + rest;
      ShapeIsNotAcross(shape, after, target, tool, rest);
    }
  }

  lemma NotInTarget(ys: seq<Signature>, target: string, i: nat)
    requires ys != [] && '|' !in target && i <= |target|
    ensures !(PatternKey(ys) <= target[i..])
  {
    hide PatternKey;
    KeyHasBar(ys);
    NoBarSuffix(target, i, '|');
    NoBarNoPrefix(PatternKey(ys), target[i..]);
  }

  /** An occurrence past the first shape begins in a later signature. */
  lemma BeginsLater(xs: seq<Signature>, ys: seq<Signature>, i: nat)
    requires AllClean(xs) && AllClean(ys) && xs != [] && ys != []
    requires i <= |xs[0].target + Tail(xs[1..])| && PatternKey(ys) <= (xs[0].target + Tail(xs[1..]))[i..]
    ensures xs[1..] != [] && |xs[0].target| + 3 <= i <= |xs[0].target| + 3 + |PatternKey(xs[1..])|
    ensures PatternKey(ys) <= PatternKey(xs[1..])[i - |xs[0].target| - 3..]
  {
    hide S.Join, PatternKey, TARGETS;
    var target := xs[0].target;
    RestIsClean(xs);
    BarFree(target);
    assert target + "" == target;
    if xs[1..] == [] {
      NotInTarget(ys, target, i);
    } else {
      var key := PatternKey(xs[1..]);
      assert target + (" > " + key) == (target + " > ") + key;
      PastSeparator(target, xs[1..], ys, i);
      DropPast(target + " > ", key, i);
    }
  }

  /** It cannot begin before the next tool: its own tool would hold a space. */
  lemma PastSeparator(target: string, xs: seq<Signature>, ys: seq<Signature>, i: nat)
    requires AllClean(xs) && AllClean(ys) && xs != [] && ys != [] && '|' !in target
    requires i <= |target| + 3 + |PatternKey(xs)| && PatternKey(ys) <= ((target + " > ") + PatternKey(xs))[i..]
    ensures |target| + 3 <= i
  {
    hide S.Join, PatternKey, AfterTool, TARGETS, AllClean;
    RestIsClean(xs);
    RestIsClean(ys);
    KeySplits(xs);
    KeySplits(ys);
    if i < |target| + 3 {
      var before := target + " > " + xs[0].tool;
      assert (target + " > ") + (xs[0].tool + "|" + AfterTool(xs)) == before + "|" + AfterTool(xs);
      SpaceBefore(target, i, xs[0].tool);
      InsideSplits(ys[0].tool, AfterTool(ys), before, AfterTool(xs), i);
    }
  }

  lemma SpaceBefore(target: string, i: nat, tool: string)
    requires i < |target| + 3
    ensures ' ' in (target + " > " + tool)[i..]
  {
    var text := target + " > " + tool;
    assert text[|target| + 2] == ' ' && text[i..][|target| + 2 - i] == text[|target| + 2];
  }

  /** Past the first tool: past the whole first signature. */
  lemma LaterInKey(xs: seq<Signature>, ys: seq<Signature>, i: nat) returns (k: nat)
    requires AllClean(xs) && AllClean(ys) && xs != [] && ys != [] && |xs[0].tool| < i <= |PatternKey(xs)|
    requires PatternKey(ys) <= PatternKey(xs)[i..]
    ensures xs[1..] != [] && k <= |PatternKey(xs[1..])| && PatternKey(ys) <= PatternKey(xs[1..])[k..]
  {
    hide S.Join, AllClean, PatternKey, Tail;
    var tool, shape, after := xs[0].tool, ShapeText(xs[0]), xs[0].target + Tail(xs[1..]);
    KeySplits(xs);
    k := i - |tool| - 1;
    DropPast(tool + "|", AfterTool(xs), i);
    if k <= |shape| {
      NotInShape(xs, ys, k);
    } else {
      DropPast(shape + "|", after, k);
      assert shape + "|" + after == AfterTool(xs);
      k := k - |shape| - 1;
      BeginsLater(xs, ys, k);
      k := k - |xs[0].target| - 3;
    }
  }

  lemma {:induction false} FoundMeansSuffix(xs: seq<Signature>, ys: seq<Signature>, i: nat) returns (j: nat)
    requires AllClean(xs) && AllClean(ys) && ys != []
    requires i <= |PatternKey(xs)| && PatternKey(ys) <= PatternKey(xs)[i..]
    ensures SuffixAt(xs, ys, j)
    decreases |xs|
  {
    hide AllClean, PatternKey, SuffixAt;
    j := 0;
    if xs == [] {
      KeyHasBar(ys);
      EmptyHasNoBar(i);
      NoBarNoPrefix(PatternKey(ys), PatternKey([])[i..]);
    } else if i <= |xs[0].tool| {
      BeginsInTool(xs, ys, i);
    } else {
      var k := LaterInKey(xs, ys, i);
      RestIsClean(xs);
      j := FoundMeansSuffix(xs[1..], ys, k);
      SuffixLater(xs, ys, j);
      j := j + 1;
    }
  }

  lemma EmptyHasNoBar(i: nat)
    requires i <= |PatternKey([])|
    ensures '|' !in PatternKey([])[i..]
  {
  }

  lemma SuffixLater(xs: seq<Signature>, ys: seq<Signature>, j: nat)
    requires xs != []
    ensures SuffixAt(xs[1..], ys, j) <==> SuffixAt(xs, ys, j + 1)
  {
    hide S.Join, EndsWith;
    if SuffixAt(xs[1..], ys, j) {
      forall k | 0 < k < |ys| ensures xs[j + 1 + k].Key() == ys[k].Key() { assert xs[j + 1 + k] == xs[1..][j + k]; }
    }
    if SuffixAt(xs, ys, j + 1) {
      forall k | 0 < k < |ys| ensures xs[1..][j + k].Key() == ys[k].Key() { assert xs[j + 1 + k] == xs[1..][j + k]; }
    }
  }

  // ------------------------------------------------------------- from patterns to text

  lemma {:induction false} SameKeysSameText(xs: seq<Signature>, ys: seq<Signature>)
    requires SameKeys(xs, ys)
    ensures PatternKey(xs) == PatternKey(ys) && Tail(xs) == Tail(ys)
  {
    if |xs| > 1 {
      assert xs[0].Key() == ys[0].Key();
      forall k | 0 <= k < |xs[1..]|
        ensures xs[1..][k].Key() == ys[1..][k].Key()
      {
        assert xs[k + 1].Key() == ys[k + 1].Key();
      }
      SameKeysSameText(xs[1..], ys[1..]);
    }
  }

  lemma {:induction false} KeyOfPrefix(xs: seq<Signature>, n: nat)
    requires n <= |xs|
    ensures Tail(xs[..n]) <= Tail(xs)
    decreases n
  {
    if n > 0 {
      hide PatternKey;
      KeySplits(xs);
      KeySplits(xs[..n]);
      assert xs[..n][1..] == xs[1..][..n - 1];
      KeyOfPrefix(xs[1..], n - 1);
      PrefixJoins(xs[0].Key(), Tail(xs[1..][..n - 1]), Tail(xs[1..]));
      PrefixJoins(" > ", PatternKey(xs[..n]), PatternKey(xs));
    }
  }

  lemma SameAfterToolSameText(xs: seq<Signature>, ys: seq<Signature>)
    requires SameAfterTool(xs, ys)
    ensures AfterTool(ys) <= AfterTool(xs)
  {
    hide S.Join, PatternKey, Tail;
    var n := |ys|;
    var part, rest := xs[1..][..n - 1], xs[1..];
    forall k | 0 <= k < n - 1 ensures part[k].Key() == ys[1..][k].Key() { assert xs[k + 1].Key() == ys[k + 1].Key(); }
    SameKeysSameText(part, ys[1..]);
    KeyOfPrefix(rest, n - 1);
    var front := ShapeText(xs[0]) + "|" + xs[0].target;
    assert AfterTool(ys) == front + Tail(ys[1..]) && AfterTool(xs) == front + Tail(rest);
    PrefixJoins(front, Tail(ys[1..]), Tail(rest));
  }

  lemma SuffixAtStart(xs: seq<Signature>, ys: seq<Signature>) returns (i: nat)
    requires SuffixAt(xs, ys, 0)
    ensures i <= |PatternKey(xs)| && PatternKey(ys) <= PatternKey(xs)[i..]
  {
    hide S.Join, PatternKey, AfterTool;
    KeySplits(xs);
    KeySplits(ys);
    SameAfterToolSameText(xs, ys);
    var tool, rest := xs[0].tool, "|" + AfterTool(xs);
    i := |tool| - |ys[0].tool|;
    assert (tool + rest)[i..] == tool[i..] + rest;
    assert tool + "|" + AfterTool(xs) == tool + rest;
    PrefixJoins(ys[0].tool + "|", AfterTool(ys), AfterTool(xs));
    assert ys[0].tool + "|" + AfterTool(xs) == tool[i..] + rest;
  }

  lemma {:induction false} SuffixIsFound(xs: seq<Signature>, ys: seq<Signature>, j: nat) returns (i: nat)
    requires SuffixAt(xs, ys, j)
    ensures i <= |PatternKey(xs)| && PatternKey(ys) <= PatternKey(xs)[i..]
    decreases j
  {
    if j == 0 {
      i := SuffixAtStart(xs, ys);
    } else {
      hide S.Join, PatternKey, AfterTool, SuffixAt;
      SuffixLater(xs, ys, j - 1);
      var k := SuffixIsFound(xs[1..], ys, j - 1);
      KeyHasBar(ys);
      i := LaterIsFound(xs, PatternKey(ys), k);
    }
  }

  lemma LaterIsFound(xs: seq<Signature>, needle: string, k: nat) returns (i: nat)
    requires xs != [] && needle != "" && k <= |PatternKey(xs[1..])| && needle <= PatternKey(xs[1..])[k..]
    ensures i <= |PatternKey(xs)| && needle <= PatternKey(xs)[i..]
  {
    hide S.Join;
    var front, rest := xs[0].Key() + " > ", PatternKey(xs[1..]);
    assert PatternKey(xs) == front + rest;
    i := |front| + k;
    DropPast(front, rest, i);
  }

  // ------------------------------------------------------------------- the comparison

  /** For clean names, one key contains another as text exactly when the second pattern
      stands somewhere in the first with its first tool's name possibly cut off on the left. */
  lemma ContainsIff(xs: seq<Signature>, ys: seq<Signature>)
    requires AllClean(xs) && AllClean(ys) && ys != []
    ensures Contains(PatternKey(xs), PatternKey(ys)) <==> exists j :: SuffixAt(xs, ys, j)
  {
    hide PatternKey, SuffixAt, AllClean, FoundAt;
    var hay, needle := PatternKey(xs), PatternKey(ys);
    if Contains(hay, needle) {
      var i: int :| 0 <= i <= |hay| && FoundAt(hay, needle, i);
      FoundIsPrefix(hay, needle, i);
      var j := FoundMeansSuffix(xs, ys, i);
    }
    if j :| SuffixAt(xs, ys, j) {
      var i := SuffixIsFound(xs, ys, j);
      FoundIsPrefix(hay, needle, i);
    }
  }

  /** The second pattern is a part of the first. */
  predicate PartAt(xs: seq<Signature>, ys: seq<Signature>, j: nat) {
    j + |ys| <= |xs| && forall k | 0 <= k < |ys| :: xs[j + k].Key() == ys[k].Key()
  }

  lemma KeyParts(x: Signature, y: Signature)
    requires Clean(x) && Clean(y)
    ensures x.Key() == y.Key() <==> x.tool == y.tool && ShapeText(x) == ShapeText(y) && x.target == y.target
  {
    hide S.Join, TARGETS;
    assert x.Key() == x.tool + "|" + (ShapeText(x) + "|" + x.target);
    assert y.Key() == y.tool + "|" + (ShapeText(y) + "|" + y.target);
    if x.Key() == y.Key() {
      Proposal.SplitIsUnique(x.tool, ShapeText(x) + "|" + x.target, y.tool, ShapeText(y) + "|" + y.target, '|');
      Proposal.SplitIsUnique(ShapeText(x), x.target, ShapeText(y), y.target, '|');
    }
  }

  /** Where the text of one pattern stands in another, it is a true part of it exactly when
      the first tools are the same. */
  lemma PartIff(xs: seq<Signature>, ys: seq<Signature>, j: nat)
    requires AllClean(xs) && AllClean(ys) && ys != [] && j + |ys| <= |xs|
    ensures PartAt(xs, ys, j) <==> SuffixAt(xs, ys, j) && xs[j].tool == ys[0].tool
  {
    hide S.Join, Clean;
    assert xs[j] in xs && ys[0] in ys;
    KeyParts(xs[j], ys[0]);
    if PartAt(xs, ys, j) { assert xs[j + 0].Key() == ys[0].Key(); }
  }

  /** So the pruning compares patterns, and not only text, whenever no tool's name ends in
      the candidate's first tool without being it. */
  lemma DominationIsOfPatternsIf(other: Frequent, candidate: Frequent)
    requires AllClean(other.signatures) && AllClean(candidate.signatures) && candidate.signatures != []
    requires forall x <- other.signatures ::
               EndsWith(x.tool, candidate.signatures[0].tool) ==> x.tool == candidate.signatures[0].tool
    ensures Dominates(other, candidate) <==>
            |other.tasks| >= |candidate.tasks| && |other.signatures| > |candidate.signatures|
            && exists j :: PartAt(other.signatures, candidate.signatures, j)
  {
    hide AllClean, Contains, PatternKey;
    var xs, ys := other.signatures, candidate.signatures;
    ContainsIff(xs, ys);
    forall j: nat | j + |ys| <= |xs| ensures PartAt(xs, ys, j) <==> SuffixAt(xs, ys, j) {
      PartIff(xs, ys, j);
      assert xs[j] in xs;
    }
  }

  lemma {:induction false} KeyIsInjective(xs: seq<Signature>, ys: seq<Signature>)
    requires AllClean(xs) && AllClean(ys) && xs != [] && ys != [] && PatternKey(xs) == PatternKey(ys)
    ensures SameKeys(xs, ys)
  {
    hide S.Join, PatternKey, AfterTool, Clean;
    ToolsAgree(xs, ys);
    ToolsAgree(ys, xs);
    AfterToolAgrees(xs, ys);
    AfterToolAgrees(ys, xs);
    assert xs[0] in xs && ys[0] in ys;
    KeyParts(xs[0], ys[0]);
  }

  // ------------------------------------------------------- a pattern pruned by its text

  const MAIL := S.ActionSignature("mail.read", ["id:str"], "id")
  const EMAIL := S.ActionSignature("email.read", ["id:str"], "id")
  const FILE := S.ActionSignature("fs.read_file", ["path:str"], "path")

  const SHORT := [MAIL, FILE, FILE]
  const LONG := [EMAIL, FILE, FILE, FILE]

  /** Three tasks of one kind and three of the other. */
  const CORPUS: Sequences := [("m1", SHORT), ("m2", SHORT), ("m3", SHORT), ("e1", LONG), ("e2", LONG), ("e3", LONG)]

  lemma ReadIsClean(tool: string)
    requires tool == "mail.read" || tool == "email.read"
    ensures Clean(S.ActionSignature(tool, ["id:str"], "id"))
  {
    assert S.Join(["id:str"]) == "id:str";
  }

  lemma FileIsClean()
    ensures Clean(FILE)
  {
    assert S.Join(["path:str"]) == "path:str";
  }

  lemma CorpusIsClean(x: Signature)
    requires x == MAIL || x == EMAIL || x == FILE
    ensures Clean(x)
  {
    hide Clean;
    ReadIsClean("mail.read");
    ReadIsClean("email.read");
    FileIsClean();
  }

  lemma KeysDiffer()
    ensures MAIL.Key() != EMAIL.Key() && MAIL.Key() != FILE.Key()
  {
    hide S.Join, Clean;
    CorpusIsClean(MAIL);
    CorpusIsClean(EMAIL);
    CorpusIsClean(FILE);
    KeyParts(MAIL, EMAIL);
    KeyParts(MAIL, FILE);
  }

  predicate FromCorpus(w: seq<Signature>) {
    forall x <- w :: x == MAIL || x == EMAIL || x == FILE
  }

  lemma FromCorpusIsClean(w: seq<Signature>)
    requires FromCorpus(w)
    ensures AllClean(w)
  {
    hide Clean;
    forall x | x in w ensures Clean(x) { CorpusIsClean(x); }
  }

  lemma WindowIsFromCorpus(i: nat, start: nat, w: seq<Signature>)
    requires i < |CORPUS| && WindowAt(CORPUS[i].1, start, w)
    ensures FromCorpus(w) && (i >= 3 ==> MAIL !in w) && (i < 3 ==> |w| <= 3)
  {
    assert forall x <- SHORT :: x == MAIL || x == FILE;
    assert forall x <- LONG :: x == EMAIL || x == FILE;
    forall x | x in w ensures x in CORPUS[i].1 {
      var k :| 0 <= k < |w| && w[k] == x;
      assert CORPUS[i].1[start..start + |w|][k] == CORPUS[i].1[start + k];
    }
  }

  lemma OnlyMailTasksHaveShort(i: nat)
    requires 3 <= i < |CORPUS|
    ensures !HasAt(CORPUS, 3, 12, i, PatternKey(SHORT))
  {
    hide PatternKey, SameKeys, Clean, FromCorpus;
    if HasAt(CORPUS, 3, 12, i, PatternKey(SHORT)) {
      var s := CORPUS[i].1;
      var length: nat, start: nat :| IsWindow(s, 3, 12, length, start, PatternKey(SHORT));
      var w := s[start..start + length];
      assert WindowAt(s, start, w);
      ShortKeyMeansMail(i, start, w);
    }
  }

  lemma ShortKeyMeansMail(i: nat, start: nat, w: seq<Signature>)
    requires i < |CORPUS| && WindowAt(CORPUS[i].1, start, w) && w != [] && PatternKey(w) == PatternKey(SHORT)
    ensures i < 3 && |w| == 3 && w[0].Key() == MAIL.Key()
  {
    hide PatternKey, Clean, S.ActionSignature.Key;
    WindowIsFromCorpus(i, start, w);
    FromCorpusIsClean(w);
    assert FromCorpus(SHORT);
    FromCorpusIsClean(SHORT);
    KeyIsInjective(w, SHORT);
    assert w[0].Key() == SHORT[0].Key() && w[0] in w;
    KeysDiffer();
  }

  lemma Holds(i: nat, w: seq<Signature>)
    requires i < |CORPUS| && CORPUS[i].1 == w && 3 <= |w| <= 12
    ensures HasAt(CORPUS, 3, 12, i, PatternKey(w))
  {
    hide PatternKey;
    assert w[0..0 + |w|] == w;
    assert IsWindow(w, 3, 12, |w|, 0, PatternKey(w));
  }

  lemma ShortHasThree()
    ensures Supporters(CORPUS, 3, 12, PatternKey(SHORT)) == {"m1", "m2", "m3"}
  {
    hide PatternKey, HasAt;
    Holds(0, SHORT);
    Holds(1, SHORT);
    Holds(2, SHORT);
    forall i | 3 <= i < |CORPUS| ensures !HasAt(CORPUS, 3, 12, i, PatternKey(SHORT)) { OnlyMailTasksHaveShort(i); }
    assert CORPUS[0].0 == "m1" && CORPUS[1].0 == "m2" && CORPUS[2].0 == "m3";
  }

  lemma LongHasThree()
    ensures {"e1", "e2", "e3"} <= Supporters(CORPUS, 3, 12, PatternKey(LONG))
  {
    hide PatternKey, HasAt;
    Holds(3, LONG);
    Holds(4, LONG);
    Holds(5, LONG);
    assert CORPUS[3].0 == "e1" && CORPUS[4].0 == "e2" && CORPUS[5].0 == "e3";
  }

  lemma ThreeTasks(s: set<TaskId>, a: TaskId, b: TaskId, c: TaskId)
    requires a != b && b != c && a != c
    ensures |{a, b, c}| == 3
    ensures {a, b, c} <= s ==> |s| >= 3
  {
    if {a, b, c} <= s { assert |s| == |{a, b, c}| + |s - {a, b, c}|; }
  }

  /** A mined pattern is a window of the corpus, so its key tells what it is. */
  lemma MinedWindow(all: seq<Frequent>, r: Frequent) returns (i: nat, start: nat)
    requires MinedExactly(CORPUS, 3, 3, 12, all) && r in all
    ensures i < |CORPUS| && WindowAt(CORPUS[i].1, start, r.signatures) && |r.signatures| >= 3
  {
    assert Occurs(CORPUS, 3, 12, r.signatures);
    i :| 0 <= i < |CORPUS| && OccursIn(CORPUS[i].1, 3, 12, r.signatures);
    start :| WindowAt(CORPUS[i].1, start, r.signatures);
  }

  lemma ShortIsMined(all: seq<Frequent>) returns (c: Frequent)
    requires MinedExactly(CORPUS, 3, 3, 12, all)
    ensures c in all && SameKeys(c.signatures, SHORT) && |c.tasks| == 3
  {
    hide PatternKey, Supporters, SameKeys;
    ShortHasThree();
    ThreeTasks({}, "m1", "m2", "m3");
    c :| c in all && PatternKey(c.signatures) == PatternKey(SHORT);
    var i, start := MinedWindow(all, c);
    WindowIsFromCorpus(i, start, c.signatures);
    FromCorpusIsClean(c.signatures);
    assert FromCorpus(SHORT);
    FromCorpusIsClean(SHORT);
    KeyIsInjective(c.signatures, SHORT);
  }

  lemma LongIsMined(all: seq<Frequent>) returns (o: Frequent)
    requires MinedExactly(CORPUS, 3, 3, 12, all)
    ensures o in all && SameKeys(o.signatures, LONG) && |o.tasks| >= 3
  {
    hide PatternKey, Supporters, SameKeys;
    LongHasThree();
    ThreeTasks(Supporters(CORPUS, 3, 12, PatternKey(LONG)), "e1", "e2", "e3");
    o :| o in all && PatternKey(o.signatures) == PatternKey(LONG);
    var i, start := MinedWindow(all, o);
    WindowIsFromCorpus(i, start, o.signatures);
    FromCorpusIsClean(o.signatures);
    assert FromCorpus(LONG);
    FromCorpusIsClean(LONG);
    KeyIsInjective(o.signatures, LONG);
  }

  lemma LongContainsShort()
    ensures Contains(PatternKey(LONG), PatternKey(SHORT))
  {
    assert FromCorpus(LONG) && FromCorpus(SHORT);
    FromCorpusIsClean(LONG);
    FromCorpusIsClean(SHORT);
    assert EndsWith("email.read", "mail.read");
    assert SuffixAt(LONG, SHORT, 0);
    ContainsIff(LONG, SHORT);
  }

  lemma NoPartWithMail(i: nat, start: nat, w: seq<Signature>, c: seq<Signature>, j: nat)
    requires i < |CORPUS| && WindowAt(CORPUS[i].1, start, w) && |w| > 3 && SameKeys(c, SHORT)
    ensures !PartAt(w, c, j)
  {
    hide S.ActionSignature.Key;
    WindowIsFromCorpus(i, start, w);
    KeysDiffer();
    assert c[0].Key() == SHORT[0].Key();
    forall x | x in w ensures x.Key() != MAIL.Key() {}
    if j + |c| <= |w| { assert w[j + 0] in w && w[j + 0].Key() != c[0].Key(); }
  }

  /** The comparison is of text, so real keys can mislead it: mined at the defaults, three
      tasks that call `mail.read` and then read two files lose their pattern to three that
      call `email.read` and read three, though no longer pattern contains theirs. */
  lemma DominationIsTextual(all: seq<Frequent>, kept: seq<Frequent>) returns (c: Frequent)
    requires MinedExactly(CORPUS, 3, 3, 12, all) && forall x :: x in kept <==> x in all && !Dominated(all, x)
    ensures c in all && SameKeys(c.signatures, SHORT) && c !in kept
    ensures forall o <- all, j: nat | |o.signatures| > |c.signatures| :: !PartAt(o.signatures, c.signatures, j)
  {
    hide MinedExactly, PatternKey;
    c := ShortIsMined(all);
    var o := LongIsMined(all);
    SameKeysSameText(c.signatures, SHORT);
    SameKeysSameText(o.signatures, LONG);
    LongContainsShort();
    assert Dominates(o, c);
    forall q, j: nat | q in all && |q.signatures| > |c.signatures| ensures !PartAt(q.signatures, c.signatures, j) {
      var i, start := MinedWindow(all, q);
      NoPartWithMail(i, start, q.signatures, c.signatures, j);
    }
  }
}

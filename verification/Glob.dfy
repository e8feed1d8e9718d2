/** The glob compiler of the policy engine (vyomel/security/matching.py). */
module Glob {
  import opened Wrappers
  import opened Regex

  const SPECIAL := ".^$+{}()|"

  // ------------------------------------------------------- the direct matcher

  predicate NoSlash(s: string) {
    forall i | 0 <= i < |s| :: s[i] != '/'
  }

  /** `find`: the first position of c at or after `from`. */
  function Find(p: string, c: char, from: nat): (r: Option<nat>)
    requires from <= |p|
    ensures r.Some? ==> from <= r.value < |p| && p[r.value] == c && forall i | from <= i < r.value :: p[i] != c
    ensures r.None? ==> forall i | from <= i < |p| :: p[i] != c
    decreases |p| - from
  {
    if from == |p| then None else if p[from] == c then Some(from) else Find(p, c, from + 1)
  }

  predicate Negates(body: string) {
    body != "" && (body[0] == '!' || body[0] == '^')
  }

  function ClassText(body: string): string {
    if Negates(body) then body[1..] else body
  }

  /** What the members of a class say, read left to right: `a-z` spans, others stand alone. */
  predicate Member(t: string, c: char) {
    if t == "" then false
    else if |t| >= 3 && t[1] == '-' then t[0] <= c <= t[2] || Member(t[3..], c)
    else t[0] == c || Member(t[1..], c)
  }

  predicate RangesOk(t: string) {
    if t == "" then true
    else if |t| >= 3 && t[1] == '-' then t[0] <= t[2] && RangesOk(t[3..])
    else RangesOk(t[1..])
  }

  /** A class opens at the front, and some bracket follows to close it. */
  predicate Opens(p: string) {
    p != "" && p[0] == '[' && Find(p, ']', 1).Some?
  }

  /** A class as it is read: what it says, whether a repeat landed on it, and what follows. */
  datatype Bracket = Bracket(negated: bool, text: string, starred: bool, rest: string)
  {
    predicate Has(c: char) {
      Member(text, c) != negated
    }
  }

  function Before(text: string, b: Option<Bracket>): Option<Bracket> {
    match b
    case None => None
    case Some(bracket) => Some(bracket.(text := text + bracket.text))
  }

  /** A class with an empty body is not closed by the bracket that follows, which becomes a
      member: it reads on through what the rest of the pattern compiles to, up to the next
      bracket there. That may be the one inside `[^/]`, and the repeat behind it is then
      the class's own. */
  function ReadOn(negated: bool, q: string): (b: Option<Bracket>)
    ensures b.Some? ==> b.value.negated == negated && |b.value.rest| < |q|
  {
    if q == "" then None
    else if "**/" <= q then Before("(?:.*/)?", ReadOn(negated, q[3..]))
    else if "**" <= q then Before(".*", ReadOn(negated, q[2..]))
    else if q[0] == '*' then Some(Bracket(negated, "[^/", true, q[1..]))
    else if q[0] == '?' then Some(Bracket(negated, "[^/", false, q[1..]))
    else if Opens(q) then
      var end := Find(q, ']', 1).value;
      Some(Bracket(negated, "[" + Caret(q[1..end]), false, q[end + 1..]))
    else if q[0] == ']' then Some(Bracket(negated, "", false, q[1..]))
    else Before([q[0]], ReadOn(negated, q[1..]))
  }

  /** `!` at the front of a class body becomes `^`. */
  function Caret(body: string): string {
    if "!" <= body then "^" + body[1..] else body
  }

  /** The class at the front of a pattern; None when nothing closes it. */
  function ClassAt(p: string): (b: Option<Bracket>)
    requires Opens(p)
    ensures b.Some? ==> |b.value.rest| < |p| && b.value.text != ""
  {
    var end := Find(p, ']', 1).value;
    var body, rest := p[1..end], p[end + 1..];
    if ClassText(body) != "" then Some(Bracket(Negates(body), ClassText(body), false, rest))
    else Before("]", ReadOn(Negates(body), rest))
  }

  /** The documented meaning of a pattern, with classes read as the regex reads them. */
  ghost predicate GlobMatches(p: string, s: string)
    decreases |p|
  {
    if p == "" then s == ""
    else if "**/" <= p then
      GlobMatches(p[3..], s) || exists k | 0 <= k < |s| :: s[k] == '/' && GlobMatches(p[3..], s[k + 1..])
    else if "**" <= p then exists k | 0 <= k <= |s| :: GlobMatches(p[2..], s[k..])
    else if p[0] == '*' then exists k | 0 <= k <= |s| :: NoSlash(s[..k]) && GlobMatches(p[1..], s[k..])
    else if Opens(p) then
      match ClassAt(p)
      case None => false
      case Some(b) =>
        if b.starred then
          exists k | 0 <= k <= |s| :: (forall i | 0 <= i < k :: b.Has(s[i])) && GlobMatches(b.rest, s[k..])
        else s != "" && b.Has(s[0]) && GlobMatches(b.rest, s[1..])
    else if s == "" then false
    else if p[0] == '?' then s[0] != '/' && GlobMatches(p[1..], s[1..])
    else s[0] == p[0] && GlobMatches(p[1..], s[1..])
  }

  /** Every class is closed, and every span in it ascends. */
  predicate Compiles(p: string)
    decreases |p|
  {
    if p == "" then true
    else if Opens(p) then
      match ClassAt(p)
      case None => false
      case Some(b) => RangesOk(b.text) && Compiles(b.rest)
    else Compiles(p[Width(p)..])
  }

  /** The characters one wildcard or literal takes up. */
  function Width(p: string): (n: nat)
    requires p != ""
    ensures 0 < n <= |p|
  {
    if "**/" <= p then 3 else if "**" <= p then 2 else 1
  }

  // -------------------------------------------------------------- the compiler

  function Escaped(body: string): (r: string)
    ensures '\\' !in body ==> r == body
  {
    if body == "" then "" else (if body[0] == '\\' then "\\\\" else [body[0]]) + Escaped(body[1..])
  }

  function ClassRegex(body: string): string {
    "[" + Caret(Escaped(body)) + "]"
  }

  function LiteralRegex(c: char): string {
    if c in SPECIAL || c == '\\' then ['\\', c] else [c]
  }

  /** One turn of the loop: the fragment appended and the characters consumed. */
  function Fragment(p: string): (r: (string, nat))
    requires p != ""
    ensures 0 < r.1 <= |p|
  {
    if "**/" <= p then ("(?:.*/)?", 3)
    else if "**" <= p then (".*", 2)
    else if p[0] == '*' then ("[^/]*", 1)
    else if p[0] == '?' then ("[^/]", 1)
    else if p[0] == '[' then
      match Find(p, ']', 1)
      case None => ("\\[", 1)
      case Some(end) => (ClassRegex(p[1..end]), end + 1)
    else (LiteralRegex(p[0]), 1)
  }

  function Fragments(p: string): string
    decreases |p|
  {
    if p == "" then "" else Fragment(p).0 + Fragments(p[Fragment(p).1..])
  }

  lemma BracketFragment(pattern: string, i: nat)
    requires i < |pattern| && pattern[i] == '['
    ensures Fragment(pattern[i..]) ==
            match Find(pattern, ']', i + 1)
            case None => ("\\[", 1)
            case Some(end) => (ClassRegex(pattern[i + 1..end]), end + 1 - i)
  {
    hide ClassRegex, Find;
    FindShift(pattern, ']', i, 1);
    var end := Find(pattern, ']', i + 1);
    if end.Some? { assert pattern[i..][1..end.value - i] == pattern[i + 1..end.value]; }
  }

  /** One turn of the `_translate` loop. */
  method TranslateAt(pattern: string, i: nat) returns (text: string, next: nat)
    requires i < |pattern|
    ensures i < next <= |pattern| && Fragment(pattern[i..]) == (text, next - i)
  {
    hide ClassRegex, LiteralRegex;
    var c := pattern[i];
    if c == '*' {
      if i + 3 <= |pattern| && pattern[i + 1] == '*' && pattern[i + 2] == '/' {
        return "(?:.*/)?", i + 3;
      }
      if i + 2 <= |pattern| && pattern[i + 1] == '*' {
        return ".*", i + 2;
      }
      return "[^/]*", i + 1;
    }
    if c == '?' { return "[^/]", i + 1; }
    if c == '[' {
      BracketFragment(pattern, i);
      var end := Find(pattern, ']', i + 1);
      if end.None? { return "\\[", i + 1; }
      return ClassRegex(pattern[i + 1..end.value]), end.value + 1;
    }
    return LiteralRegex(c), i + 1;
  }

  /** `_translate`. */
  method Translate(pattern: string) returns (regex: string)
    ensures regex == "^" + Fragments(pattern) + "$"
  {
    hide Fragment;
    var out := "^";
    var i := 0;
    assert pattern[0..] == pattern;
    while i < |pattern|
      invariant i <= |pattern|
      invariant out + Fragments(pattern[i..]) == "^" + Fragments(pattern)
    {
      var text, next := TranslateAt(pattern, i);
      ghost var rest := Fragments(pattern[next..]);
      assert pattern[i..][next - i..] == pattern[next..];
      assert out + (text + rest) == out + text + rest;
      out, i := out + text, next;
    }
    assert pattern[i..] == "";
    assert out + "" == out;
    regex := out + "$";
  }

  lemma {:induction false} FindShift(p: string, c: char, i: nat, from: nat)
    requires i + from <= |p|
    ensures Find(p[i..], c, from).Some? <==> Find(p, c, i + from).Some?
    ensures Find(p, c, i + from).Some? ==> Find(p, c, i + from).value == i + Find(p[i..], c, from).value
    decreases |p| - from
  {
    if i + from < |p| && p[i + from] != c { FindShift(p, c, i, from + 1); }
  }

  // ---------------------------------------------- the items the text stands for

  function ClassItems(t: string): seq<ClassItem> {
    if t == "" then []
    else if |t| >= 3 && t[1] == '-' then [Range(t[0], t[2])] + ClassItems(t[3..])
    else [Range(t[0], t[0])] + ClassItems(t[1..])
  }

  const NOT_SLASH := Class(true, [Range('/', '/')])

  function ItemOf(p: string): Item
    requires p != "" && !Opens(p)
  {
    if "**/" <= p then Optional([Many(AnyChar), One(Chr('/'))])
    else if "**" <= p then Many(AnyChar)
    else if p[0] == '*' then Many(NOT_SLASH)
    else if p[0] == '?' then One(NOT_SLASH)
    else One(Chr(p[0]))
  }

  function ItemOfClass(b: Bracket): Item {
    var class_ := Class(b.negated, ClassItems(b.text));
    if b.starred then Many(class_) else One(class_)
  }

  function ItemsOf(p: string): seq<Item>
    decreases |p|
  {
    if p == "" then []
    else if Opens(p) then
      match ClassAt(p)
      case None => []
      case Some(b) => [ItemOfClass(b)] + ItemsOf(b.rest)
    else [ItemOf(p)] + ItemsOf(p[Width(p)..])
  }

  // ------------------------------------------------------------ the entry points

  function Lower(c: char): char {
    if 'A' <= c <= 'Z' then (c as int + 32) as char else c
  }

  function Normalize(s: string): (r: string)
    ensures |r| == |s| && '\\' !in r
  {
    seq(|s|, i requires 0 <= i < |s| => if s[i] == '\\' then '/' else Lower(s[i]))
  }

  predicate Compiled(pattern: string, subject: string) {
    match Parse("^" + Fragments(Normalize(pattern)) + "$")
    case None => false
    case Some(items) => Matches(items, subject)
  }

  /** `rsplit("/", 1)[-1]`. */
  function Tail(s: string): (r: string)
    ensures NoSlash(r) && |r| <= |s| && s[|s| - |r|..] == r
    ensures |r| < |s| ==> s[|s| - |r| - 1] == '/'
  {
    if s == "" || s[|s| - 1] == '/' then ""
    else
      var t := Tail(s[..|s| - 1]);
      assert s == s[..|s| - 1] + [s[|s| - 1]];
      t + [s[|s| - 1]]
  }

  /** `glob_match`. */
  predicate GlobMatch(value: string, pattern: string) {
    var subject := Normalize(value);
    Compiled(pattern, subject) || ('/' !in Normalize(pattern) && Compiled(pattern, Tail(subject)))
  }

  /** `any_match` over a list of patterns. */
  predicate AnyMatch(value: string, patterns: seq<string>) {
    exists i | 0 <= i < |patterns| :: GlobMatch(value, patterns[i])
  }
}

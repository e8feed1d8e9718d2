/** The part of Python's `re` that the glob compiler emits: a parser for the
    regex text and the language of the parsed items. */
module Regex {
  import opened Wrappers

  datatype ClassItem = Range(lo: char, hi: char)

  datatype Atom =
    | AnyChar
    | Chr(c: char)
    | Class(negated: bool, items: seq<ClassItem>)

  datatype Item =
    | One(atom: Atom)
    | Many(atom: Atom)
    | Optional(group: seq<Item>)

  // ------------------------------------------------------------------ language

  predicate InClass(items: seq<ClassItem>, c: char) {
    exists i | 0 <= i < |items| :: items[i].lo <= c <= items[i].hi
  }

  /** DOTALL is set, so `.` takes any character. */
  predicate Takes(a: Atom, c: char) {
    match a
    case AnyChar => true
    case Chr(d) => c == d
    case Class(negated, items) => InClass(items, c) != negated
  }

  function Size(items: seq<Item>): nat {
    if items == [] then 0
    else (match items[0] case Optional(g) => 1 + Size(g) case _ => 1) + Size(items[1..])
  }

  lemma {:induction false} SizeConcat(a: seq<Item>, b: seq<Item>)
    ensures Size(a + b) == Size(a) + Size(b)
  {
    if a == [] {
      assert a + b == b;
    } else {
      assert (a + b)[1..] == a[1..] + b;
      SizeConcat(a[1..], b);
    }
  }

  /** Whether the items match the whole of s. */
  predicate Lang(items: seq<Item>, s: string)
    decreases |s|, Size(items)
  {
    if items == [] then s == ""
    else
      match items[0]
      case One(a) => s != "" && Takes(a, s[0]) && Lang(items[1..], s[1..])
      case Many(a) => Lang(items[1..], s) || (s != "" && Takes(a, s[0]) && Lang(items, s[1..]))
      case Optional(g) => SizeConcat(g, items[1..]); Lang(items[1..], s) || Lang(g + items[1..], s)
  }

  /** `$` also matches just before a newline that ends the string. */
  predicate Matches(items: seq<Item>, s: string) {
    Lang(items, s) || (s != "" && s[|s| - 1] == '\n' && Lang(items, s[..|s| - 1]))
  }

  lemma {:induction false} LangMany(a: Atom, rest: seq<Item>, s: string)
    ensures Lang([Many(a)] + rest, s) <==>
            exists k | 0 <= k <= |s| :: (forall i | 0 <= i < k :: Takes(a, s[i])) && Lang(rest, s[k..])
  {
    var items := [Many(a)] + rest;
    assert items[1..] == rest && s[0..] == s;
    if s != "" {
      LangMany(a, rest, s[1..]);
      if Takes(a, s[0]) && Lang(items, s[1..]) {
        var k :| 0 <= k <= |s[1..]| && (forall i | 0 <= i < k :: Takes(a, s[1..][i])) && Lang(rest, s[1..][k..]);
        assert s[1..][k..] == s[k + 1..];
        assert forall i | 1 <= i < k + 1 :: s[i] == s[1..][i - 1];
      }
      if k :| 0 < k <= |s| && (forall i | 0 <= i < k :: Takes(a, s[i])) && Lang(rest, s[k..]) {
        assert s[1..][k - 1..] == s[k..];
        assert forall i | 0 <= i < k - 1 :: s[1..][i] == s[i + 1];
        assert Lang(items, s[1..]);
      }
    }
  }

  // -------------------------------------------------------------------- parser

  predicate IsMeta(c: char) {
    c in ".^$*+?{}()|[\\"
  }

  predicate IsAlphanumeric(c: char) {
    'a' <= c <= 'z' || 'A' <= c <= 'Z' || '0' <= c <= '9'
  }

  /** One character of a class, escaped or not. */
  function ClassChar(s: string): (r: Option<(char, string)>)
    ensures r.Some? ==> |r.value.1| < |s|
  {
    if s == "" then None
    else if s[0] != '\\' then Some((s[0], s[1..]))
    else if |s| >= 2 && !IsAlphanumeric(s[1]) then Some((s[1], s[2..]))
    else None
  }

  /** A class body up to its closing bracket; the first item may itself be `]`. */
  function ParseClass(s: string, first: bool): (r: Option<(seq<ClassItem>, string)>)
    ensures r.Some? ==> |r.value.1| < |s|
    decreases |s|
  {
    if s == "" then None
    else if s[0] == ']' && !first then Some(([], s[1..]))
    else
      match ClassChar(s)
      case None => None
      case Some((lo, rest)) =>
        if |rest| >= 2 && rest[0] == '-' && rest[1] != ']' then
          match ClassChar(rest[1..])
          case None => None
          case Some((hi, rest')) => if hi < lo then None else Spanning(Range(lo, hi), ParseClass(rest', false))
        else Spanning(Range(lo, lo), ParseClass(rest, false))
  }

  function Spanning(item: ClassItem, r: Option<(seq<ClassItem>, string)>): Option<(seq<ClassItem>, string)> {
    match r
    case None => None
    case Some((items, rest)) => Some(([item] + items, rest))
  }

  function ParseAtom(s: string): (r: Option<(Atom, string)>)
    ensures r.Some? ==> |r.value.1| < |s|
  {
    if s == "" then None
    else if s[0] == '.' then Some((AnyChar, s[1..]))
    else if s[0] == '\\' then
      if |s| >= 2 && !IsAlphanumeric(s[1]) then Some((Chr(s[1]), s[2..])) else None
    else if s[0] == '[' then
      var negated := |s| >= 2 && s[1] == '^';
      match ParseClass(if negated then s[2..] else s[1..], true)
      case None => None
      case Some((items, rest)) => Some((Class(negated, items), rest))
    else if IsMeta(s[0]) then None
    else Some((Chr(s[0]), s[1..]))
  }

  /** Items up to the end of the text, a `$` or a closing parenthesis. */
  function ParseItems(s: string): (r: Option<(seq<Item>, string)>)
    ensures r.Some? ==> |r.value.1| <= |s|
    decreases |s|
  {
    if s == "" || s[0] == '$' || s[0] == ')' then Some(([], s))
    else if "(?:" <= s then
      match ParseItems(s[3..])
      case None => None
      case Some((group, rest)) =>
        if !(")?" <= rest) then None
        else
          match ParseItems(rest[2..])
          case None => None
          case Some((items, rest')) => Some(([Optional(group)] + items, rest'))
    else
      match ParseAtom(s)
      case None => None
      case Some((atom, rest)) =>
        var starred := rest != "" && rest[0] == '*';
        match ParseItems(if starred then rest[1..] else rest)
        case None => None
        case Some((items, rest')) => Some(([if starred then Many(atom) else One(atom)] + items, rest'))
  }

  /** A whole `^...$` regex; None stands for `re.error`. */
  function Parse(regex: string): Option<seq<Item>> {
    if regex == "" || regex[0] != '^' then None
    else
      match ParseItems(regex[1..])
      case None => None
      case Some((items, rest)) => if rest == "$" then Some(items) else None
  }
}

/** The regex text that the glob compiler emits, read back by the regex parser. */
module GlobParsing {
  import opened Wrappers
  import opened Regex
  import opened Glob

  // ----------------------------------------------- how the regex reads class text

  /** The emitted text `e` says the characters `u`, specials behind a backslash. */
  ghost predicate Spells(e: string, u: string) {
    if e == "" then u == ""
    else
      u != "" &&
      if e[0] == '\\' then
        |e| >= 2 && e[1] == u[0] && !IsAlphanumeric(u[0]) && u[0] != '-' && u[0] != ']' && Spells(e[2..], u[1..])
      else e[0] == u[0] && Spells(e[1..], u[1..])
  }

  lemma {:induction false} PlainSpells(t: string)
    requires '\\' !in t
    ensures Spells(t, t)
  {
    if t != "" { assert t[0] in t; PlainSpells(t[1..]); }
  }

  lemma {:induction false} SpellsConcat(e: string, u: string, f: string, v: string)
    requires Spells(e, u) && Spells(f, v)
    ensures Spells(e + f, u + v)
  {
    if e == "" {
      assert e + f == f && u + v == v;
    } else if e[0] == '\\' {
      SpellsConcat(e[2..], u[1..], f, v);
      assert (e + f)[2..] == e[2..] + f && (u + v)[1..] == u[1..] + v;
    } else {
      SpellsConcat(e[1..], u[1..], f, v);
      assert (e + f)[1..] == e[1..] + f && (u + v)[1..] == u[1..] + v;
    }
  }

  /** What is left after the first spelt character. */
  function Spelt(e: string): string
    requires e != ""
  {
    if e[0] == '\\' && |e| >= 2 then e[2..] else e[1..]
  }

  lemma EscapedChar(e: string, rest: string)
    requires |e| >= 2 && e[0] == '\\' && !IsAlphanumeric(e[1])
    ensures ClassChar(e + rest) == Some((e[1], e[2..] + rest))
  {
    assert (e + rest)[2..] == e[2..] + rest;
  }

  lemma PlainChar(e: string, rest: string)
    requires e != "" && e[0] != '\\'
    ensures ClassChar(e + rest) == Some((e[0], e[1..] + rest))
  {
    assert (e + rest)[1..] == e[1..] + rest;
  }

  lemma FirstSpelt(e: string, u: string, rest: string)
    requires Spells(e, u) && u != ""
    ensures e != "" && Spells(Spelt(e), u[1..]) && ClassChar(e + rest) == Some((u[0], Spelt(e) + rest))
    ensures u[0] == '-' || u[0] == ']' ==> e[0] == u[0]
    ensures e[0] == '-' || e[0] == ']' ==> e[0] == u[0]
  {
    hide ClassChar;
    if e[0] == '\\' { EscapedChar(e, rest); } else { PlainChar(e, rest); }
  }

  /** A dash starts a span unless it is the last character of the class. */
  lemma SpanStarts(e: string, u: string, rest: string)
    requires Spells(e, u) && ']' !in u
    ensures SpanAhead(e + "]" + rest) <==> |u| >= 2 && u[0] == '-'
  {
    if u != "" {
      FirstSpelt(e, u, "");
      assert u[0] in u;
      if e[0] == '-' && |u| >= 2 {
        FirstSpelt(e[1..], u[1..], "");
        assert u[1] in u;
      }
    }
  }

  predicate SpanAhead(s: string) {
    |s| >= 2 && s[0] == '-' && s[1] != ']'
  }

  lemma ParsesSingle(s: string, c: char, rest: string, first: bool)
    requires s != "" && (first || s[0] != ']') && ClassChar(s) == Some((c, rest)) && !SpanAhead(rest)
    ensures ParseClass(s, first) == Spanning(Range(c, c), ParseClass(rest, false))
  {
    hide ClassChar;
  }

  lemma ParsesSpan(s: string, lo: char, middle: string, hi: char, rest: string, first: bool)
    requires s != "" && (first || s[0] != ']') && ClassChar(s) == Some((lo, middle)) && SpanAhead(middle)
    requires ClassChar(middle[1..]) == Some((hi, rest))
    ensures ParseClass(s, first) == if hi < lo then None else Spanning(Range(lo, hi), ParseClass(rest, false))
  {
    hide ClassChar;
  }

  lemma {:induction false} ClassTextParses(e: string, u: string, rest: string, first: bool)
    requires Spells(e, u) && (first ==> u != "") && ']' !in (if first then u[1..] else u)
    ensures ParseClass(e + "]" + rest, first) == if RangesOk(u) then Some((ClassItems(u), rest)) else None
    decreases |u|
  {
    var close := "]" + rest;
    assert e + "]" + rest == e + close;
    if u == "" {
      assert close[1..] == rest && e + close == close;
    } else {
      hide ParseClass, ClassChar, Spells;
      FirstSpelt(e, u, close);
      assert !first ==> u[0] in u;
      var e', u' := Spelt(e), u[1..];
      assert forall c <- u' :: first || c in u;
      SpanStarts(e', u', rest);
      assert e' + "]" + rest == e' + close;
      if |u| >= 3 && u[1] == '-' {
        SpanParses(e, u, rest, first);
        var e'' := Spelt(Spelt(e'));
        FirstSpelt(e', u', close);
        FirstSpelt(Spelt(e'), u'[1..], close);
        assert u'[1..][1..] == u[3..] && forall c <- u[3..] :: c in u';
        ClassTextParses(e'', u[3..], rest, false);
      } else {
        ParsesSingle(e + close, u[0], e' + close, first);
        ClassTextParses(e', u', rest, false);
      }
    }
  }

  lemma SpanParses(e: string, u: string, rest: string, first: bool)
    requires Spells(e, u) && |u| >= 3 && u[1] == '-' && ']' !in (if first then u[1..] else u)
    ensures e != "" && Spelt(e) != "" && Spelt(Spelt(e)) != ""
    ensures ParseClass(e + "]" + rest, first) ==
            if u[2] < u[0] then None
            else Spanning(Range(u[0], u[2]), ParseClass(Spelt(Spelt(Spelt(e))) + "]" + rest, false))
  {
    hide ParseClass, ClassChar, Spells;
    var close := "]" + rest;
    FirstSpelt(e, u, close);
    var e', u' := Spelt(e), u[1..];
    FirstSpelt(e', u', close);
    FirstSpelt(Spelt(e'), u'[1..], close);
    assert !first ==> u[0] in u;
    assert forall c <- u' :: first || c in u;
    SpanStarts(e', u', rest);
    assert e + "]" + rest == e + close && e' + "]" + rest == e' + close;
    assert Spelt(Spelt(e')) + "]" + rest == Spelt(Spelt(e')) + close;
    DashIsPlain(e', u', close);
    ParsesSpan(e + close, u[0], e' + close, u[2], Spelt(Spelt(e')) + close, first);
  }

  lemma DashIsPlain(e: string, u: string, rest: string)
    requires Spells(e, u) && u != "" && u[0] == '-'
    ensures (e + rest)[1..] == Spelt(e) + rest
  {
  }

  // ------------------------------------------------ what a class reads on through

  lemma SuffixLacks(p: string, k: nat, c: char)
    requires k <= |p| && c !in p
    ensures c !in p[k..]
  {
  }

  lemma {:induction false} NeverCloses(s: string)
    requires ']' !in s
    ensures ParseClass(s, false).None?
    decreases |s|
  {
    if s != "" {
      assert s[0] in s;
      if ClassChar(s).Some? {
        var rest := ClassChar(s).value.1;
        assert forall c <- rest :: c in s;
        if SpanAhead(rest) && ClassChar(rest[1..]).Some? {
          var rest' := ClassChar(rest[1..]).value.1;
          assert forall c <- rest[1..] :: c in rest;
          assert forall c <- rest' :: c in rest[1..];
          NeverCloses(rest');
        } else {
          NeverCloses(rest);
        }
      }
    }
  }

  /** The compiled rest of the pattern falls into the text of the class, the bracket that
      closes it, and what comes after. */
  ghost predicate ReadsOn(q: string, b: Option<Bracket>, e: string) {
    match b
    case None => ']' !in Fragments(q)
    case Some(w) =>
      && Fragments(q) == e + "]" + (if w.starred then "*" else "") + Fragments(w.rest)
      && Spells(e, w.text) && ']' !in w.text && '\\' !in w.rest
  }

  lemma {:induction false} ReadOnReads(negated: bool, q: string) returns (e: string)
    requires '\\' !in q
    ensures ReadsOn(q, ReadOn(negated, q), e)
    decreases |q|
  {
    hide Spells;
    e := "";
    if q != "" && !Opens(q) && (q[0] != '*' || "**" <= q) && q[0] != '?' && q[0] != ']' {
      var rest := q[Width(q)..];
      SuffixLacks(q, Width(q), '\\');
      var f := ReadOnReads(negated, rest);
      e := PassesOn(q, ReadOn(negated, rest), f);
    } else if q != "" {
      e := StopsAt(negated, q);
    }
  }

  /** What one wildcard or literal that holds no bracket adds to the class. */
  function Passed(q: string): string
    requires q != ""
  {
    if "**/" <= q then "(?:.*/)?" else if "**" <= q then ".*" else [q[0]]
  }

  lemma PassedSpells(q: string)
    requires q != "" && '\\' !in q && !Opens(q) && (q[0] != '*' || "**" <= q) && q[0] != '?' && q[0] != ']'
    ensures Fragment(q).1 == Width(q) && Spells(Fragment(q).0, Passed(q)) && ']' !in Passed(q) && ']' !in Fragment(q).0
  {
    assert q[0] in q;
    if "**" <= q {
      PlainSpells(Passed(q));
    } else if q[0] in SPECIAL || q[0] == '[' {
      assert Fragment(q).0 == ['\\', q[0]];
      assert ['\\', q[0]][2..] == "" && [q[0]][1..] == "";
    } else {
      PlainSpells([q[0]]);
    }
  }

  lemma PassesOn(q: string, b: Option<Bracket>, f: string) returns (e: string)
    requires q != "" && '\\' !in q && !Opens(q) && (q[0] != '*' || "**" <= q) && q[0] != '?' && q[0] != ']'
    requires ReadsOn(q[Width(q)..], b, f)
    ensures ReadsOn(q, Before(Passed(q), b), e)
  {
    hide Spells, Fragment, Opens;
    PassedSpells(q);
    e := Fragment(q).0 + f;
    if b.Some? {
      var w := b.value;
      SpellsConcat(Fragment(q).0, Passed(q), f, w.text);
      var star := if w.starred then "*" else "";
      assert Fragment(q).0 + (f + "]" + star + Fragments(w.rest)) == e + "]" + star + Fragments(w.rest);
    }
  }

  /** `*`, `?`, a class and a bracket all bring the bracket that closes. */
  lemma StopsAt(negated: bool, q: string) returns (e: string)
    requires q != "" && '\\' !in q && (Opens(q) || (q[0] == '*' && !("**" <= q)) || q[0] == '?' || q[0] == ']')
    ensures ReadsOn(q, ReadOn(negated, q), e)
  {
    hide Fragments, Spells;
    FragmentsSplit(q);
    SuffixLacks(q, Fragment(q).1, '\\');
    if Opens(q) {
      e := StopsAtClass(negated, q);
    } else {
      e := if q[0] == ']' then "" else "[^/";
      PlainSpells(e);
      var star := if q[0] == '*' then "*" else "";
      assert Fragment(q).0 == e + "]" + star;
    }
  }

  lemma StopsAtClass(negated: bool, q: string) returns (e: string)
    requires '\\' !in q && Opens(q)
    ensures ReadsOn(q, ReadOn(negated, q), e)
  {
    hide Fragments, Spells;
    var end := Find(q, ']', 1).value;
    var body := q[1..end];
    assert forall c <- body :: c in q;
    assert ']' !in body;
    assert Escaped(body) == body;
    CaretLacks(body);
    e := "[" + Caret(body);
    PlainSpells(e);
    FragmentsSplit(q);
    SuffixLacks(q, end + 1, '\\');
    assert Fragment(q) == (e + "]", end + 1);
    assert e + "]" + "" == e + "]";
  }

  lemma CaretLacks(body: string)
    ensures ']' !in body ==> ']' !in Caret(body)
    ensures '\\' !in body ==> '\\' !in Caret(body)
  {
    if "!" <= body { assert forall c <- body[1..] :: c in body; }
  }

  lemma FragmentsSplit(q: string)
    requires q != ""
    ensures Fragments(q) == Fragment(q).0 + Fragments(q[Fragment(q).1..])
  {
  }

  // ------------------------------------------------------- parsing the output

  /** The item, and then whatever the rest parses to. */
  function Then(item: Item, r: Option<(seq<Item>, string)>): Option<(seq<Item>, string)> {
    match r
    case None => None
    case Some((items, rest)) => Some(([item] + items, rest))
  }

  predicate StartsItem(s: string) {
    s != "" && s[0] != '$' && s[0] != ')' && s[0] != '('
  }

  lemma OneParses(s: string, atom: Atom, rest: string)
    requires StartsItem(s) && ParseAtom(s) == Some((atom, rest)) && rest != "" && rest[0] != '*'
    ensures ParseItems(s) == Then(One(atom), ParseItems(rest))
  {
  }

  lemma ManyParses(s: string, atom: Atom, rest: string)
    requires StartsItem(s) && ParseAtom(s) == Some((atom, "*" + rest))
    ensures ParseItems(s) == Then(Many(atom), ParseItems(rest))
  {
    assert ("*" + rest)[1..] == rest;
  }

  lemma AtomFails(s: string)
    requires StartsItem(s) && ParseAtom(s).None?
    ensures ParseItems(s).None?
  {
  }

  lemma AnyParses(rest: string)
    ensures ParseAtom("." + rest) == Some((AnyChar, rest))
  {
    assert ("." + rest)[1..] == rest;
  }

  lemma LiteralParses(c: char, rest: string)
    requires c != '*' && c != '?' && c != '['
    ensures ParseAtom(LiteralRegex(c) + rest) == Some((Chr(c), rest))
  {
    var s := LiteralRegex(c) + rest;
    if c in SPECIAL || c == '\\' {
      assert s[0] == '\\' && s[1] == c && s[2..] == rest;
    } else {
      assert s[0] == c && s[1..] == rest;
    }
  }

  lemma OpenBracketParses(rest: string)
    ensures ParseAtom("\\[" + rest) == Some((Chr('['), rest))
  {
    var s := "\\[" + rest;
    assert s[0] == '\\' && s[1] == '[' && s[2..] == rest;
  }

  /** What follows the opening of a class. */
  lemma ClassParses(negated: bool, text: string)
    requires negated || (text != "" && text[0] != '^')
    ensures ParseAtom((if negated then "[^" else "[") + text) ==
            match ParseClass(text, true)
            case None => None
            case Some((items, rest)) => Some((Class(negated, items), rest))
  {
    hide ParseClass;
    assert ("[^" + text)[2..] == text && ("[" + text)[1..] == text;
  }

  lemma NotSlashParses(rest: string)
    ensures ParseAtom("[^/]" + rest) == Some((NOT_SLASH, rest))
  {
    hide ParseClass, ParseAtom;
    PlainSpells("/");
    ClassTextParses("/", "/", rest, true);
    assert "/"[1..] == "";
    assert [Range('/', '/')] + [] == [Range('/', '/')];
    assert ClassItems("/") == [Range('/', '/')] && RangesOk("/");
    ClassParses(true, "/" + "]" + rest);
    assert "[^" + ("/" + "]" + rest) == "[^/]" + rest;
  }

  lemma AnyStarParses(rest: string)
    ensures ParseItems(".*" + rest) == Then(Many(AnyChar), ParseItems(rest))
  {
    hide ParseItems, ParseAtom;
    assert ".*" + rest == "." + ("*" + rest);
    AnyParses("*" + rest);
    ManyParses(".*" + rest, AnyChar, rest);
  }

  lemma SegmentStarParses(rest: string)
    ensures ParseItems("[^/]*" + rest) == Then(Many(NOT_SLASH), ParseItems(rest))
  {
    hide ParseItems, ParseAtom;
    assert "[^/]*" + rest == "[^/]" + ("*" + rest);
    NotSlashParses("*" + rest);
    ManyParses("[^/]*" + rest, NOT_SLASH, rest);
  }

  lemma GroupBodyParses(tail: string)
    requires tail != "" && tail[0] == ')'
    ensures ParseItems(".*/" + tail) == Some(([Many(AnyChar), One(Chr('/'))], tail))
  {
    hide ParseClass, ParseAtom;
    LiteralParses('/', tail);
    assert ParseItems(tail) == Some(([], tail));
    OneParses("/" + tail, Chr('/'), tail);
    assert ".*/" + tail == ".*" + ("/" + tail);
    AnyStarParses("/" + tail);
    assert [One(Chr('/'))] + [] == [One(Chr('/'))];
    assert [Many(AnyChar)] + [One(Chr('/'))] == [Many(AnyChar), One(Chr('/'))];
  }

  const GROUP := Optional([Many(AnyChar), One(Chr('/'))])

  lemma GroupParses(rest: string)
    ensures ParseItems("(?:.*/)?" + rest) == Then(GROUP, ParseItems(rest))
  {
    hide ParseClass, ParseAtom;
    var s, tail := "(?:.*/)?" + rest, ")?" + rest;
    GroupBodyParses(tail);
    assert s[3..] == ".*/" + tail;
    assert tail[2..] == rest;
  }

  /** A wildcard or a literal, followed by text that does not start with `*`. */
  lemma WildcardParses(p: string, rest: string)
    requires p != "" && '\\' !in p && !Opens(p) && rest != "" && rest[0] != '*'
    ensures ParseItems(Fragment(p).0 + rest) == Then(ItemOf(p), ParseItems(rest)) && Fragment(p).1 == Width(p)
  {
    hide ParseItems, ParseAtom, ParseClass;
    assert p[0] in p;
    if "**/" <= p {
      GroupParses(rest);
    } else if "**" <= p {
      AnyStarParses(rest);
    } else if p[0] == '*' {
      SegmentStarParses(rest);
    } else if p[0] == '?' {
      NotSlashParses(rest);
      OneParses("[^/]" + rest, NOT_SLASH, rest);
    } else if p[0] == '[' {
      OpenBracketParses(rest);
      OneParses("\\[" + rest, Chr('['), rest);
    } else {
      LiteralParses(p[0], rest);
      OneParses(LiteralRegex(p[0]) + rest, Chr(p[0]), rest);
    }
  }

  /** No fragment starts with `*`, so none can be read as a repeat of the one before. */
  lemma FragmentsStart(p: string)
    ensures (Fragments(p) + "$")[0] != '*'
  {
  }

  /** How a class at the front of the pattern comes out. */
  ghost predicate BracketParsed(p: string)
    requires Opens(p)
  {
    var parsed := ParseItems(Fragments(p) + "$");
    match ClassAt(p)
    case None => parsed.None?
    case Some(b) =>
      '\\' !in b.rest &&
      parsed == if RangesOk(b.text) then Then(ItemOfClass(b), ParseItems(Fragments(b.rest) + "$")) else None
  }

  /** From the text inside the brackets to the item. */
  lemma ClassItemParses(b: Bracket, e: string, after: string)
    requires Spells(e, b.text) && b.text != "" && ']' !in b.text[1..] && (b.negated || e == "" || e[0] != '^')
    requires after == Fragments(b.rest) + "$"
    ensures ParseItems((if b.negated then "[^" else "[") + e + "]" + (if b.starred then "*" else "") + after) ==
            if RangesOk(b.text) then Then(ItemOfClass(b), ParseItems(after)) else None
  {
    hide ParseItems, ParseAtom, ParseClass, Fragments;
    FragmentsStart(b.rest);
    var open := if b.negated then "[^" else "[";
    var rest := (if b.starred then "*" else "") + after;
    var s := open + (e + "]" + rest);
    assert open + e + "]" + (if b.starred then "*" else "") + after == s;
    FirstSpelt(e, b.text, "");
    ClassTextParses(e, b.text, rest, true);
    ClassParses(b.negated, e + "]" + rest);
    assert StartsItem(s);
    if !RangesOk(b.text) { AtomFails(s); }
    else if b.starred { ManyParses(s, Class(b.negated, ClassItems(b.text)), after); }
    else {
      assert rest == after;
      OneParses(s, Class(b.negated, ClassItems(b.text)), after);
    }
  }

  lemma BodyIsPlain(p: string, end: nat)
    requires '\\' !in p && 1 <= end <= |p| && forall i | 1 <= i < end :: p[i] != ']'
    ensures var body := p[1..end];
            ']' !in body && '\\' !in body && Escaped(body) == body && ']' !in ClassText(body)
                && '\\' !in ClassText(body)
  {
    var body := p[1..end];
    forall c | c in body ensures c != ']' && c != '\\' {
      var i :| 0 <= i < |body| && body[i] == c;
      assert p[i + 1] == c;
    }
    assert forall c <- ClassText(body) :: c in body;
  }

  lemma PlainClassRegex(body: string, rest: string)
    requires Escaped(body) == body && ClassText(body) != ""
    ensures ClassRegex(body) + rest == (if Negates(body) then "[^" else "[") + ClassText(body) + "]" + "" + rest
    ensures Negates(body) || ClassText(body)[0] != '^'
  {
  }

  lemma PlainClassParses(p: string)
    requires '\\' !in p && Opens(p) && ClassText(p[1..Find(p, ']', 1).value]) != ""
    ensures BracketParsed(p)
  {
    hide ParseItems, Fragments, Spells, ClassRegex, ClassText, Negates, Escaped, RangesOk, ItemOfClass;
    var end := Find(p, ']', 1).value;
    var body := p[1..end];
    var b := ClassAt(p).value;
    BodyIsPlain(p, end);
    PlainSpells(b.text);
    SuffixLacks(b.text, 1, ']');
    SuffixLacks(p, end + 1, '\\');
    FragmentsSplit(p);
    var after := Fragments(b.rest) + "$";
    PlainClassRegex(body, after);
    ClassItemParses(b, b.text, after);
    Regroup(ClassRegex(body), Fragments(b.rest), "$");
  }

  lemma OpenNeverCloses(negated: bool, s: string)
    requires ']' !in s
    ensures ParseItems(EmptyClass(negated) + s).None?
  {
    hide ParseItems, ParseAtom;
    var text := "]" + s;
    assert text[1..] == s;
    PlainChar(text, "");
    assert text + "" == text && text[1..] + "" == s;
    if SpanAhead(s) && ClassChar(s[1..]).Some? {
      assert forall c <- s[1..] :: c in s;
      assert forall c <- ClassChar(s[1..]).value.1 :: c in s[1..];
      NeverCloses(ClassChar(s[1..]).value.1);
    } else {
      NeverCloses(s);
    }
    assert ParseClass(text, true).None?;
    ClassParses(negated, text);
    var all := EmptyClass(negated) + s;
    assert all == (if negated then "[^" else "[") + text;
    AtomFails(all);
  }

  function EmptyClass(negated: bool): string {
    if negated then "[^]" else "[]"
  }

  lemma EmptyBody(body: string)
    requires ClassText(body) == ""
    ensures ClassRegex(body) == EmptyClass(Negates(body))
  {
    assert body == "" || body == [body[0]];
  }

  lemma ReadOnParses(b: Bracket, e: string, after: string)
    requires Spells(e, b.text) && ']' !in b.text && after == Fragments(b.rest) + "$"
    ensures var whole := b.(text := "]" + b.text);
            ParseItems(EmptyClass(b.negated) + (e + "]" + (if b.starred then "*" else "") + after)) ==
            if RangesOk(whole.text) then Then(ItemOfClass(whole), ParseItems(after)) else None
  {
    hide ParseItems, Fragments, RangesOk, ItemOfClass;
    var whole := b.(text := "]" + b.text);
    assert ("]" + e)[1..] == e && whole.text[1..] == b.text;
    ClassItemParses(whole, "]" + e, after);
    assert (if b.negated then "[^" else "[") + ("]" + e) + "]" + (if b.starred then "*" else "") + after ==
           EmptyClass(b.negated) + (e + "]" + (if b.starred then "*" else "") + after);
  }

  lemma EmptyClassParses(p: string)
    requires '\\' !in p && Opens(p) && ClassText(p[1..Find(p, ']', 1).value]) == ""
    ensures BracketParsed(p)
  {
    hide ParseItems, Fragments, ClassRegex, ClassText, Negates, RangesOk, ItemOfClass, EmptyClass, Spells, ReadOn;
    var end := Find(p, ']', 1).value;
    var body, q := p[1..end], p[end + 1..];
    var negated := Negates(body);
    SuffixLacks(p, end + 1, '\\');
    FragmentsSplit(p);
    EmptyBody(body);
    Regroup(ClassRegex(body), Fragments(q), "$");
    var e := ReadOnReads(negated, q);
    match ReadOn(negated, q) {
      case None => OpenNeverCloses(negated, Fragments(q) + "$");
      case Some(b) =>
        var star, after := if b.starred then "*" else "", Fragments(b.rest) + "$";
        assert (e + "]" + star + Fragments(b.rest)) + "$" == e + "]" + star + after;
        ReadOnParses(b, e, after);
    }
  }

  lemma Regroup(a: string, b: string, c: string)
    ensures (a + b) + c == a + (b + c)
  {
  }

  /** The compiled text parses exactly when the pattern compiles, and then to its items. */
  lemma {:induction false} TranslationParses(p: string)
    requires '\\' !in p
    ensures ParseItems(Fragments(p) + "$") == if Compiles(p) then Some((ItemsOf(p), "$")) else None
    decreases |p|
  {
    hide ParseItems, Fragment, ParseClass, ParseAtom;
    if p == "" {
      NothingParses();
    } else if Opens(p) {
      hide Fragments;
      if ClassText(p[1..Find(p, ']', 1).value]) != "" { PlainClassParses(p); } else { EmptyClassParses(p); }
      if ClassAt(p).Some? { TranslationParses(ClassAt(p).value.rest); }
    } else {
      var q := p[Width(p)..];
      SuffixLacks(p, Width(p), '\\');
      TranslationParses(q);
      FragmentsStart(q);
      WildcardParses(p, Fragments(q) + "$");
      Regroup(Fragment(p).0, Fragments(q), "$");
    }
  }

  lemma NothingParses()
    ensures ParseItems(Fragments("") + "$") == Some(([], "$"))
  {
    assert Fragments("") + "$" == "$";
  }
}

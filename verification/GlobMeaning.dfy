/** What a compiled pattern matches (vyomel/security/matching.py). */
module GlobMeaning {
  import opened Wrappers
  import opened Regex
  import opened Glob
  import opened GlobParsing

  // ---------------------------------------------------- meaning of the items

  lemma {:induction false} ClassItemsMean(t: string, c: char)
    ensures InClass(ClassItems(t), c) <==> Member(t, c)
  {
    if t != "" {
      var items := ClassItems(t);
      var rest := if |t| >= 3 && t[1] == '-' then t[3..] else t[1..];
      ClassItemsMean(rest, c);
      assert items[1..] == ClassItems(rest);
      assert items[0].lo <= c <= items[0].hi <==> (if |t| >= 3 && t[1] == '-' then t[0] <= c <= t[2] else t[0] == c);
      if InClass(items[1..], c) {
        var i :| 0 <= i < |items[1..]| && items[1..][i].lo <= c <= items[1..][i].hi;
        assert items[i + 1] == items[1..][i];
      }
      if i :| 0 < i < |items| && items[i].lo <= c <= items[i].hi {
        assert items[1..][i - 1] == items[i];
      }
    }
  }

  lemma NotSlashMeans(c: char)
    ensures Takes(NOT_SLASH, c) <==> c != '/'
  {
    assert NOT_SLASH.items[0] == Range('/', '/');
  }

  lemma GroupMeans(rest: seq<Item>, s: string)
    ensures Lang([GROUP] + rest, s) <==>
            Lang(rest, s) || exists k | 0 <= k < |s| :: s[k] == '/' && Lang(rest, s[k + 1..])
  {
    var group := [Many(AnyChar), One(Chr('/'))];
    var items := [Optional(group)] + rest;
    assert items[1..] == rest;
    var inner := [One(Chr('/'))] + rest;
    assert group + rest == [Many(AnyChar)] + inner;
    LangMany(AnyChar, inner, s);
    assert inner[1..] == rest;
    forall k | 0 <= k <= |s| ensures Lang(inner, s[k..]) <==> k < |s| && s[k] == '/' && Lang(rest, s[k + 1..]) {
      if k < |s| { assert s[k..][1..] == s[k + 1..]; }
    }
  }

  lemma LangOne(a: Atom, rest: seq<Item>, s: string)
    ensures Lang([One(a)] + rest, s) <==> s != "" && Takes(a, s[0]) && Lang(rest, s[1..])
  {
    assert ([One(a)] + rest)[1..] == rest;
  }

  /** The items accept exactly what the direct matcher accepts. */
  lemma {:induction false} ItemsMean(p: string, s: string)
    requires Compiles(p)
    ensures Lang(ItemsOf(p), s) <==> GlobMatches(p, s)
    decreases |p|
  {
    hide Lang, GlobMatches, ReadOn, Fragment;
    if p == "" {
      NothingMeans(s);
    } else if Opens(p) {
      var b := ClassAt(p).value;
      forall t ensures Lang(ItemsOf(b.rest), t) <==> GlobMatches(b.rest, t) { ItemsMean(b.rest, t); }
      BracketMeans(p, s);
    } else {
      var q := p[Width(p)..];
      forall t ensures Lang(ItemsOf(q), t) <==> GlobMatches(q, t) { ItemsMean(q, t); }
      WildcardMeans(p, s);
    }
  }

  lemma NothingMeans(s: string)
    ensures Lang(ItemsOf(""), s) <==> GlobMatches("", s)
  {
  }

  lemma BracketHas(b: Bracket, c: char)
    ensures Takes(Class(b.negated, ClassItems(b.text)), c) <==> b.Has(c)
  {
    ClassItemsMean(b.text, c);
  }

  lemma BracketMeans(p: string, s: string)
    requires Opens(p) && ClassAt(p).Some?
    requires var q := ClassAt(p).value.rest; forall t :: Lang(ItemsOf(q), t) <==> GlobMatches(q, t)
    ensures Lang(ItemsOf(p), s) <==> GlobMatches(p, s)
  {
    hide Lang, ReadOn, ClassAt, Member, ClassItems;
    var b := ClassAt(p).value;
    var class_, rest := Class(b.negated, ClassItems(b.text)), ItemsOf(b.rest);
    forall c { BracketHas(b, c); }
    if b.starred { LangMany(class_, rest, s); } else { LangOne(class_, rest, s); }
  }

  lemma WildcardMeans(p: string, s: string)
    requires p != "" && !Opens(p)
    requires var q := p[Width(p)..]; forall t :: Lang(ItemsOf(q), t) <==> GlobMatches(q, t)
    ensures Lang(ItemsOf(p), s) <==> GlobMatches(p, s)
  {
    hide Lang;
    var q := p[Width(p)..];
    if "**/" <= p {
      GroupMeans(ItemsOf(q), s);
    } else if "**" <= p {
      LangMany(AnyChar, ItemsOf(q), s);
    } else if p[0] == '*' {
      StarMeans(q, s);
    } else {
      LangOne(ItemOf(p).atom, ItemsOf(q), s);
      if s != "" { NotSlashMeans(s[0]); }
    }
  }

  lemma StarMeans(q: string, s: string)
    requires forall t :: Lang(ItemsOf(q), t) <==> GlobMatches(q, t)
    ensures Lang([Many(NOT_SLASH)] + ItemsOf(q), s) <==>
            exists k | 0 <= k <= |s| :: NoSlash(s[..k]) && GlobMatches(q, s[k..])
  {
    LangMany(NOT_SLASH, ItemsOf(q), s);
    forall k | 0 <= k <= |s|
      ensures NoSlash(s[..k]) <==> forall i | 0 <= i < k :: Takes(NOT_SLASH, s[i])
    {
      NotSlashPrefix(s, k);
    }
  }

  lemma NotSlashPrefix(s: string, k: nat)
    requires k <= |s|
    ensures NoSlash(s[..k]) <==> forall i | 0 <= i < k :: Takes(NOT_SLASH, s[i])
  {
    forall i | 0 <= i < k ensures Takes(NOT_SLASH, s[i]) <==> s[..k][i] != '/' { NotSlashMeans(s[i]); }
  }

  /** For every normalised pattern: the compiled text parses exactly when every class is
      closed and every span ascends, and then matches a value exactly when the direct
      matcher accepts it, or accepts it without its final newline. */
  lemma TranslationMeans(p: string, v: string)
    requires '\\' !in p
    ensures var regex := "^" + Fragments(p) + "$";
            && (Parse(regex).Some? <==> Compiles(p))
            && (Compiles(p) ==>
                  (Matches(Parse(regex).value, v) <==>
                   GlobMatches(p, v) || (v != "" && v[|v| - 1] == '\n' && GlobMatches(p, v[..|v| - 1]))))
  {
    hide ParseItems, Fragments, Compiles, Lang, GlobMatches, ItemsOf;
    var regex := "^" + Fragments(p) + "$";
    TranslationParses(p);
    assert regex[1..] == Fragments(p) + "$";
    if Compiles(p) {
      ItemsMean(p, v);
      if v != "" { ItemsMean(p, v[..|v| - 1]); }
    }
  }

  // ------------------------------------------------------- separators are kept

  function Slashes(s: string): nat {
    if s == "" then 0 else (if s[0] == '/' then 1 else 0) + Slashes(s[1..])
  }

  lemma {:induction false} SlashesConcat(a: string, b: string)
    ensures Slashes(a + b) == Slashes(a) + Slashes(b)
  {
    if a == "" {
      assert a + b == b;
    } else {
      assert (a + b)[1..] == a[1..] + b;
      SlashesConcat(a[1..], b);
    }
  }

  lemma {:induction false} NoSlashCount(s: string)
    requires NoSlash(s)
    ensures Slashes(s) == 0
  {
    if s != "" { NoSlashCount(s[1..]); }
  }

  predicate NoDoubleStar(p: string) {
    forall i | 0 <= i < |p| - 1 :: p[i] != '*' || p[i + 1] != '*'
  }

  /** No opening bracket is followed by a closing one. */
  predicate NoClass(p: string) {
    forall i, j | 0 <= i < j < |p| :: p[i] != '[' || p[j] != ']'
  }

  lemma TailKeeps(p: string)
    requires p != "" && NoDoubleStar(p) && NoClass(p)
    ensures NoDoubleStar(p[1..]) && NoClass(p[1..]) && !Opens(p) && !("**" <= p)
  {
    var q := p[1..];
    if |p| > 1 { assert p[0] != '*' || p[0 + 1] != '*'; }
    forall i | 0 <= i < |q| - 1 ensures q[i] != '*' || q[i + 1] != '*' { assert q[i] == p[i + 1]; }
    forall i, j | 0 <= i < j < |q| ensures q[i] != '[' || q[j] != ']' { assert q[i] == p[i + 1] && q[j] == p[j + 1]; }
  }

  /** With no `**` and no class, a match preserves the number of separators, so
      `*` and `?` never cross a directory boundary. */
  lemma {:induction false} SeparatorsAreKept(p: string, s: string)
    requires NoDoubleStar(p) && NoClass(p) && GlobMatches(p, s)
    ensures Slashes(s) == Slashes(p)
    decreases |p|
  {
    if p != "" {
      hide NoDoubleStar, NoClass, Opens;
      var q := p[1..];
      TailKeeps(p);
      if p[0] == '*' {
        var k :| 0 <= k <= |s| && NoSlash(s[..k]) && GlobMatches(q, s[k..]);
        SeparatorsAreKept(q, s[k..]);
        NoSlashCount(s[..k]);
        SlashesConcat(s[..k], s[k..]);
        assert s == s[..k] + s[k..];
      } else {
        SeparatorsAreKept(q, s[1..]);
      }
    }
  }

  lemma {:induction false} NoClassCompiles(p: string)
    requires NoDoubleStar(p) && NoClass(p)
    ensures Compiles(p)
    decreases |p|
  {
    if p != "" {
      TailKeeps(p);
      NoClassCompiles(p[1..]);
    }
  }

  /** A pattern with a separator, no `**` and no class matches only values that
      have as many separators as the pattern. */
  lemma GlobMatchKeepsDepth(value: string, pattern: string)
    requires NoDoubleStar(Normalize(pattern)) && NoClass(pattern) && '/' in Normalize(pattern)
    requires GlobMatch(value, pattern)
    ensures Slashes(Normalize(value)) == Slashes(Normalize(pattern))
  {
    hide GlobMatches, Fragments, Compiles, Parse, Matches;
    var p, v := Normalize(pattern), Normalize(value);
    assert NoClass(p) by {
      forall i, j | 0 <= i < j < |p|
        ensures p[i] != '[' || p[j] != ']'
      {
        assert pattern[i] != '[' || pattern[j] != ']';
      }
    }
    NoClassCompiles(p);
    TranslationMeans(p, v);
    if GlobMatches(p, v) {
      SeparatorsAreKept(p, v);
    } else {
      SeparatorsAreKept(p, v[..|v| - 1]);
      SlashesConcat(v[..|v| - 1], v[|v| - 1..]);
      assert v == v[..|v| - 1] + v[|v| - 1..];
      assert v[|v| - 1..] == "\n";
      NoSlashCount("\n");
    }
  }

  /** What a pattern accepts: its meaning, at the end of the value or before a final newline. */
  ghost predicate Accepts(p: string, v: string) {
    GlobMatches(p, v) || (v != "" && v[|v| - 1] == '\n' && GlobMatches(p, v[..|v| - 1]))
  }

  /** `glob_match` in full: a pattern that compiles accepts the whole value, or, without a
      separator of its own, the value's last segment. */
  lemma GlobMatchMeans(value: string, pattern: string)
    ensures var p, v := Normalize(pattern), Normalize(value);
            GlobMatch(value, pattern) <==> Compiles(p) && (Accepts(p, v) || ('/' !in p && Accepts(p, Tail(v))))
  {
    hide GlobMatches, Fragments, Compiles, Parse, Matches;
    TranslationMeans(Normalize(pattern), Normalize(value));
    TranslationMeans(Normalize(pattern), Tail(Normalize(value)));
  }

  // ------------------------------------------------------------------ an empty class

  lemma ReadsOnToA(s: string)
    ensures Compiles("[]a]") && (GlobMatches("[]a]", s) <==> s == "]" || s == "a")
  {
    var p := "[]a]";
    assert Find(p, ']', 1) == Some(1);
    assert p[1..1] == "" && p[1 + 1..] == "a]" && "a]"[1..] == "]" && "]"[1..] == "";
    assert ReadOn(false, "]") == Some(Bracket(false, "", false, ""));
    assert ['a'] + "" == "a" && "]" + "a" == "]a" && "a]"[0] == 'a' && !Opens("a]");
    assert ReadOn(false, "a]") == Some(Bracket(false, "a", false, ""));
    assert ClassAt(p) == Some(Bracket(false, "]a", false, ""));
    assert "]a"[1..] == "a";
    assert Member("]a", ']') && Member("]a", 'a');
    if s != "" {
      assert "a"[1..] == "" && !Member("", s[0]);
      assert Member("a", s[0]) <==> s[0] == 'a';
      assert Member("]a", s[0]) <==> s[0] == ']' || s[0] == 'a';
      assert GlobMatches("", s[1..]) <==> s[1..] == "";
      assert s == [s[0]] + s[1..];
    }
  }

  lemma EmptyAloneFails()
    ensures !Compiles("[]")
  {
    var p := "[]";
    assert Find(p, ']', 1) == Some(1);
    assert p[1..1] == "" && p[1 + 1..] == "";
    assert ReadOn(false, "") == None;
  }

  lemma StarCrosses()
    ensures Compiles("[]*") && GlobMatches("[]*", "//")
  {
    var p, s := "[]*", "//";
    assert Find(p, ']', 1) == Some(1);
    assert p[1..1] == "" && p[1 + 1..] == "*" && "*"[1..] == "";
    assert ReadOn(false, "*") == Some(Bracket(false, "[^/", true, ""));
    var b := ClassAt(p).value;
    assert b == Bracket(false, "][^/", true, "");
    assert "][^/"[1..] == "[^/" && "[^/"[1..] == "^/" && "^/"[1..] == "/";
    assert Member("/", '/') && Member("^/", '/') && Member("[^/", '/') && Member("][^/", '/');
    assert RangesOk("/") && RangesOk("^/") && RangesOk("[^/") && RangesOk("][^/");
    assert forall i | 0 <= i < 2 :: b.Has(s[i]);
    assert GlobMatches("", s[2..]);
  }

  lemma MatchesAsIs(value: string, pattern: string)
    requires Normalize(value) == value && Normalize(pattern) == pattern && (value == "" || value[|value| - 1] != '\n')
    ensures GlobMatches(pattern, value) && Compiles(pattern) ==> GlobMatch(value, pattern)
    ensures GlobMatch(value, pattern) ==>
              Compiles(pattern) && (GlobMatches(pattern, value) || Accepts(pattern, Tail(value)))
  {
    hide GlobMatches, Compiles, GlobMatch, Tail;
    GlobMatchMeans(value, pattern);
  }

  /** An empty class is not refused but reads on: `[]a]` is the set of `]` and `a`; the star
      of `[]*` lands on a class that holds a separator, so it crosses them; and only where
      nothing closes the class, as in `[]`, does the pattern not compile. */
  lemma EmptyClassReadsOn(value: string)
    ensures GlobMatch("a", "[]a]") && GlobMatch("]", "[]a]")
    ensures GlobMatch("//", "[]*")
    ensures !GlobMatch(value, "[]")
  {
    hide GlobMatches, Compiles, GlobMatch, Tail, Accepts;
    assert Normalize("[]a]") == "[]a]" && Normalize("a") == "a" && Normalize("]") == "]";
    assert Normalize("[]*") == "[]*" && Normalize("//") == "//" && Normalize("[]") == "[]";
    ReadsOnToA("a");
    ReadsOnToA("]");
    EmptyAloneFails();
    StarCrosses();
    MatchesAsIs("a", "[]a]");
    MatchesAsIs("]", "[]a]");
    MatchesAsIs("//", "[]*");
    GlobMatchMeans(value, "[]");
  }
}

/** The documented table of glob pieces, row by row and by concatenation, and what the
    usual rules come to (vyomel/security/matching.py). */
module GlobTable {
  import opened Wrappers
  import opened Glob
  import opened GlobMeaning

  // --------------------------------------------------------------- the table

  /** `**` and a separator: nothing, or leading segments up to some separator. */
  lemma LeadingSegments(p: string, s: string)
    ensures GlobMatches("**/" + p, s) <==>
            GlobMatches(p, s) || exists path, rest :: s == path + "/" + rest && GlobMatches(p, rest)
  {
    var q := "**/" + p;
    assert q[3..] == p;
    AfterSeparator(p, s);
  }

  lemma AfterSeparator(p: string, s: string)
    ensures (exists k | 0 <= k < |s| :: s[k] == '/' && GlobMatches(p, s[k + 1..])) <==>
            exists path, rest :: s == path + "/" + rest && GlobMatches(p, rest)
  {
    hide GlobMatches;
    if k :| 0 <= k < |s| && s[k] == '/' && GlobMatches(p, s[k + 1..]) {
      var path, rest := s[..k], s[k + 1..];
      assert s == path + "/" + rest && GlobMatches(p, rest);
    }
    if path, rest :| s == path + "/" + rest && GlobMatches(p, rest) {
      assert s[|path|] == '/' && s[|path| + 1..] == rest;
    }
  }

  /** `**`: anything. */
  lemma Anything(p: string, s: string)
    requires !("/" <= p)
    ensures GlobMatches("**" + p, s) <==> exists any, rest :: s == any + rest && GlobMatches(p, rest)
  {
    var q := "**" + p;
    assert q[2..] == p && q[0] == '*' && q[1] == '*';
    if p != "" { assert q[2] == p[0] != '/'; }
    if k :| 0 <= k <= |s| && GlobMatches(p, s[k..]) { assert s == s[..k] + s[k..]; }
    if any, rest :| s == any + rest && GlobMatches(p, rest) { assert s[|any|..] == rest; }
  }

  /** `*`: anything without a separator. */
  lemma WithinSegment(p: string, s: string)
    requires !("*" <= p)
    ensures GlobMatches("*" + p, s) <==> exists any, rest :: s == any + rest && '/' !in any && GlobMatches(p, rest)
  {
    var q := "*" + p;
    assert q[1..] == p && q[0] == '*';
    if p != "" { assert q[1] == p[0] != '*'; }
    if k :| 0 <= k <= |s| && NoSlash(s[..k]) && GlobMatches(p, s[k..]) { assert s == s[..k] + s[k..]; }
    if any, rest :| s == any + rest && '/' !in any && GlobMatches(p, rest) {
      assert s[..|any|] == any && s[|any|..] == rest && NoSlash(any);
    }
  }

  lemma Front(s: string, p: string, taken: char -> bool)
    ensures (s != "" && taken(s[0]) && GlobMatches(p, s[1..])) <==>
            exists c, rest :: s == [c] + rest && taken(c) && GlobMatches(p, rest)
  {
    hide GlobMatches;
    if s != "" && taken(s[0]) && GlobMatches(p, s[1..]) {
      var c, rest := s[0], s[1..];
      assert s == [c] + rest && taken(c) && GlobMatches(p, rest);
    }
    if c, rest :| s == [c] + rest && taken(c) && GlobMatches(p, rest) {
      assert s[0] == c && s[1..] == rest;
    }
  }

  /** `?`: one character, not a separator. */
  lemma OneCharacter(p: string, s: string)
    ensures GlobMatches("?" + p, s) <==> exists c, rest :: s == [c] + rest && c != '/' && GlobMatches(p, rest)
  {
    var q := "?" + p;
    assert q[1..] == p && q[0] == '?';
    assert GlobMatches(q, s) <==> s != "" && s[0] != '/' && GlobMatches(p, s[1..]);
    Front(s, p, c => c != '/');
  }

  predicate IsWildcard(c: char) {
    c == '*' || c == '?' || c == '['
  }

  /** Any other text: itself. */
  lemma {:induction false} Literal(text: string, p: string, s: string)
    requires forall c <- text :: !IsWildcard(c)
    ensures GlobMatches(text + p, s) <==> exists rest :: s == text + rest && GlobMatches(p, rest)
    decreases |text|
  {
    if text == "" {
      assert text + p == p && s == text + s;
      forall rest | s == text + rest ensures rest == s { assert text + rest == rest; }
    } else {
      var q, tail := text + p, text[1..];
      assert q[0] == text[0] && text[0] in text && q[1..] == tail + p;
      if s != "" {
        Literal(tail, p, s[1..]);
        if s[0] == text[0] {
          if rest :| s[1..] == tail + rest && GlobMatches(p, rest) {
            assert s == [s[0]] + s[1..] && text == [text[0]] + tail;
            assert s == text + rest;
          }
          if rest :| s == text + rest && GlobMatches(p, rest) { assert s[1..] == tail + rest; }
        }
      }
      assert GlobMatches(q, s) <==> s != "" && s[0] == text[0] && GlobMatches(tail + p, s[1..]);
    }
  }

  lemma Nothing(s: string)
    ensures GlobMatches("", s) <==> s == ""
  {
  }

  lemma FindsBracket(body: string, p: string)
    requires ']' !in body
    ensures Find("[" + body + "]" + p, ']', 1) == Some(1 + |body|)
  {
    var q := "[" + body + "]" + p;
    forall i | 1 <= i < 1 + |body| ensures q[i] != ']' { assert q[i] == body[i - 1]; }
    assert q[1 + |body|] == ']';
  }

  lemma {:induction false} MembersStandAlone(body: string, c: char)
    requires '-' !in body
    ensures Member(body, c) <==> c in body
  {
    if body != "" {
      MembersStandAlone(body[1..], c);
      assert body == [body[0]] + body[1..];
      if |body| >= 3 { assert body[1] in body; }
    }
  }

  lemma ClassReads(body: string, p: string, s: string)
    requires ']' !in body && ClassText(body) != ""
    ensures GlobMatches("[" + body + "]" + p, s) <==>
            exists c, rest :: s == [c] + rest && Member(ClassText(body), c) != Negates(body) && GlobMatches(p, rest)
  {
    hide Member;
    var q := "[" + body + "]" + p;
    FindsBracket(body, p);
    assert q[1..1 + |body|] == body && q[|body| + 2..] == p && q[0] == '[';
    assert ClassAt(q) == Some(Bracket(Negates(body), ClassText(body), false, p));
    assert GlobMatches(q, s) <==> s != "" && Member(ClassText(body), s[0]) != Negates(body) && GlobMatches(p, s[1..]);
    Front(s, p, c => Member(ClassText(body), c) != Negates(body));
  }

  /** `[abc]`: one of the characters listed. */
  lemma OneOf(listed: string, p: string, s: string)
    requires listed != "" && listed[0] != '!' && listed[0] != '^' && ']' !in listed && '-' !in listed
    ensures GlobMatches("[" + listed + "]" + p, s) <==>
            exists c, rest :: s == [c] + rest && c in listed && GlobMatches(p, rest)
  {
    ClassReads(listed, p, s);
    forall c { MembersStandAlone(listed, c); }
  }

  /** `[!abc]`: one of the others, a separator included. */
  lemma NoneOf(listed: string, p: string, s: string)
    requires listed != "" && ']' !in listed && '-' !in listed
    ensures GlobMatches("[!" + listed + "]" + p, s) <==>
            exists c, rest :: s == [c] + rest && c !in listed && GlobMatches(p, rest)
  {
    var body := "!" + listed;
    assert body[1..] == listed && "[" + body + "]" + p == "[!" + listed + "]" + p;
    ClassReads(body, p, s);
    forall c { MembersStandAlone(listed, c); }
  }

  /** `[a-z]`: one of a span. */
  lemma OneFrom(lo: char, hi: char, p: string, s: string)
    requires lo != '!' && lo != '^' && lo != ']' && hi != ']'
    ensures GlobMatches("[" + [lo, '-', hi] + "]" + p, s) <==>
            exists c, rest :: s == [c] + rest && lo <= c <= hi && GlobMatches(p, rest)
  {
    var body := [lo, '-', hi];
    ClassReads(body, p, s);
    assert body[3..] == "";
    forall c ensures Member(body, c) <==> lo <= c <= hi { assert !Member("", c); }
  }

  // ---------------------------------------------------------- whole rules

  /** The same character, but for the case of an ASCII letter or the direction of a slash. */
  predicate SameCharacter(a: char, b: char) {
    || a == b
    || (a in "/\\" && b in "/\\")
    || ('A' <= a <= 'Z' && b as int == a as int + 32)
    || ('A' <= b <= 'Z' && a as int == b as int + 32)
  }

  predicate SameText(a: string, b: string) {
    |a| == |b| && forall i | 0 <= i < |a| :: SameCharacter(a[i], b[i])
  }

  lemma NormalizeMeans(a: string, b: string)
    ensures Normalize(a) == Normalize(b) <==> SameText(a, b)
  {
    if |a| == |b| {
      forall i | 0 <= i < |a| ensures Normalize(a)[i] == Normalize(b)[i] <==> SameCharacter(a[i], b[i]) {}
      if SameText(a, b) { assert Normalize(a) == Normalize(b); }
    }
  }

  /** Values and patterns alike are compared without regard to case and to the direction of
      their slashes. */
  lemma CaseAndSlashesDoNotMatter(value: string, pattern: string, value': string, pattern': string)
    requires SameText(value, value') && SameText(pattern, pattern')
    ensures GlobMatch(value, pattern) <==> GlobMatch(value', pattern')
  {
    NormalizeMeans(value, value');
    NormalizeMeans(pattern, pattern');
    assert Compiled(pattern, Normalize(value)) <==> Compiled(pattern', Normalize(value'));
  }

  /** Text that a pattern takes as it stands. */
  predicate IsPlain(text: string) {
    Normalize(text) == text && forall c <- text :: !IsWildcard(c)
  }

  lemma {:induction false} PlainCompiles(text: string, p: string)
    requires forall c <- text :: !IsWildcard(c)
    ensures Compiles(text + p) <==> Compiles(p)
    decreases |text|
  {
    if text == "" {
      assert text + p == p;
    } else {
      var q := text + p;
      assert q[0] == text[0] && text[0] in text && q[1..] == text[1..] + p;
      PlainCompiles(text[1..], p);
    }
  }

  lemma NormalizeConcat(a: string, b: string)
    ensures Normalize(a + b) == Normalize(a) + Normalize(b)
  {
  }

  /** A text without wildcards and with a separator: that path, up to a final newline. */
  lemma ExactRule(path: string, value: string)
    requires IsPlain(path) && '/' in path
    ensures GlobMatch(value, path) <==> Normalize(value) == path || Normalize(value) == path + "\n"
  {
    hide GlobMatches, Compiles, GlobMatch, Tail;
    var v := Normalize(value);
    GlobMatchMeans(value, path);
    assert path + "" == path;
    PlainCompiles(path, "");
    assert Compiles("") by { EmptyCompiles(); }
    forall s ensures GlobMatches(path, s) <==> s == path {
      Literal(path, "", s);
      forall rest { Nothing(rest); }
    }
    if v != "" && v[|v| - 1] == '\n' { assert v == v[..|v| - 1] + "\n"; }
    if v == path + "\n" { assert v[..|v| - 1] == path; }
  }

  lemma EmptyCompiles()
    ensures Compiles("")
  {
  }

  /** A directory rule covers exactly what lies under the directory, at any depth. */
  lemma DirectoryRule(dir: string, value: string)
    requires IsPlain(dir)
    ensures GlobMatch(value, dir + "/**") <==> dir + "/" <= Normalize(value)
  {
    hide GlobMatches, Compiles, GlobMatch, Tail;
    var pattern, v, text := dir + "/**", Normalize(value), dir + "/";
    assert pattern == text + "**";
    NormalizeConcat(dir, "/**");
    assert Normalize("/**") == "/**";
    GlobMatchMeans(value, pattern);
    assert '/' in pattern by { assert pattern[|dir|] == '/'; }
    forall c | c in text ensures !IsWildcard(c) {}
    PlainCompiles(text, "**");
    StarsCompile();
    forall s ensures GlobMatches(pattern, s) <==> text <= s {
      Literal(text, "**", s);
      forall rest ensures GlobMatches("**", rest) { StarsTakeAll(rest); }
      if text <= s { assert s == text + s[|text|..]; }
    }
    if v != "" && text <= v[..|v| - 1] { assert text <= v; }
  }

  lemma StarsCompile()
    ensures Compiles("**") && Compiles("*")
  {
    assert "**"[2..] == "" && "*"[1..] == "";
  }

  lemma StarsTakeAll(s: string)
    ensures GlobMatches("**", s)
  {
    Anything("", s);
    assert "**" + "" == "**" && s == s + "" && GlobMatches("", "");
  }

  /** An extension rule looks at the last segment only, wherever the file lies. */
  lemma ExtensionRule(ext: string, value: string)
    requires IsPlain(ext) && '/' !in ext
    ensures GlobMatch(value, "*." + ext) <==>
            exists name ::
              Tail(Normalize(value)) == name + "." + ext || Tail(Normalize(value)) == name + "." + ext + "\n"
  {
    hide GlobMatches, Compiles, GlobMatch, Tail;
    var pattern, v, text := "*." + ext, Normalize(value), "." + ext;
    assert pattern == "*" + text;
    NormalizeConcat("*.", ext);
    assert Normalize("*.") == "*.";
    GlobMatchMeans(value, pattern);
    assert '/' !in pattern;
    ExtensionCompiles(text);
    ExtensionAccepts(text, v);
    ExtensionAccepts(text, Tail(v));
    TailOfSegment(v);
    assert forall name :: name + "." + ext == name + text;
    assert forall name :: name + "." + ext + "\n" == name + text + "\n";
    SegmentEnd(v, text);
  }

  /** The text ends the value, before or after a final newline, in a single segment. */
  ghost predicate EndsIn(v: string, text: string) {
    '/' !in v && exists name :: v == name + text || v == name + text + "\n"
  }

  lemma ExtensionCompiles(text: string)
    requires text != "" && forall c <- text :: !IsWildcard(c)
    ensures Compiles("*" + text)
  {
    var q := "*" + text;
    assert q[1..] == text && text[0] in text && q[0] == '*';
    assert q[1] == text[0] != '*';
    assert text + "" == text;
    EmptyCompiles();
    PlainCompiles(text, "");
  }

  lemma ExtensionTakes(text: string, s: string)
    requires text != "" && '/' !in text && forall c <- text :: !IsWildcard(c)
    ensures GlobMatches("*" + text, s) <==> '/' !in s && exists name :: s == name + text
  {
    hide GlobMatches;
    assert !("*" <= text) by { assert text[0] in text; }
    WithinSegment(text, s);
    forall rest ensures GlobMatches(text, rest) <==> rest == text {
      assert text + "" == text;
      Literal(text, "", rest);
      forall t { Nothing(t); }
    }
  }

  lemma ExtensionAccepts(text: string, v: string)
    requires text != "" && '/' !in text && forall c <- text :: !IsWildcard(c)
    ensures Accepts("*" + text, v) <==> EndsIn(v, text)
  {
    hide GlobMatches;
    ExtensionTakes(text, v);
    if v != "" && v[|v| - 1] == '\n' {
      var w := v[..|v| - 1];
      ExtensionTakes(text, w);
      assert v == w + "\n";
      assert '/' !in v <==> '/' !in w;
      if name :| w == name + text { assert v == name + text + "\n"; }
    }
    if name :| v == name + text + "\n" {
      assert v[..|v| - 1] == name + text && v[|v| - 1] == '\n';
    }
  }

  lemma TailOfSegment(v: string)
    ensures '/' !in Tail(v)
    ensures '/' !in v ==> Tail(v) == v
  {
    assert NoSlash(Tail(v));
  }

  lemma SegmentEnd(v: string, text: string)
    ensures EndsIn(Tail(v), text) <==>
            exists name :: Tail(v) == name + text || Tail(v) == name + text + "\n"
    ensures EndsIn(v, text) ==> EndsIn(Tail(v), text)
  {
    TailOfSegment(v);
  }
}

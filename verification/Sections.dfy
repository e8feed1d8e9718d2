/** Cutting a document into the stretches between its headings, and chunking the
    whole of it (vyomel/memory/chunking.py). */
module Sections {
  import opened Wrappers
  import opened Chunking

  // ---------------------------------------------------------------------- lines

  /** The length of the first line, its break included; a carriage return takes a
      following newline with it. */
  function FirstLine(text: string): (n: nat)
    requires text != ""
    ensures 0 < n <= |text|
  {
    if text[0] == '\r' then (if |text| > 1 && text[1] == '\n' then 2 else 1)
    else if IsBreak(text[0]) || |text| == 1 then 1
    else 1 + FirstLine(text[1..])
  }

  function Concat(lines: seq<string>): string {
    if lines == [] then "" else Concat(lines[..|lines| - 1]) + lines[|lines| - 1]
  }

  /** `splitlines(keepends=True)`. */
  function SplitLines(text: string): (lines: seq<string>)
    ensures forall l <- lines :: l != ""
    decreases |text|
  {
    if text == "" then [] else [text[..FirstLine(text)]] + SplitLines(text[FirstLine(text)..])
  }

  lemma {:induction false} ConcatCons(first: string, rest: seq<string>)
    ensures Concat([first] + rest) == first + Concat(rest)
  {
    if rest == [] {
      assert [first] + rest == [first] && [first][..0] == [];
    } else {
      var n := |rest| - 1;
      assert ([first] + rest)[..n + 1] == [first] + rest[..n] && ([first] + rest)[n + 1] == rest[n];
      ConcatCons(first, rest[..n]);
      assert first + Concat(rest[..n]) + rest[n] == first + (Concat(rest[..n]) + rest[n]);
    }
  }

  /** Splitting loses nothing. */
  lemma {:induction false} SplitKeepsText(text: string)
    ensures Concat(SplitLines(text)) == text
    decreases |text|
  {
    if text != "" {
      var n := FirstLine(text);
      SplitKeepsText(text[n..]);
      ConcatCons(text[..n], SplitLines(text[n..]));
    }
  }

  /** A line of its own: its break, when it has one, is at its end, and only a carriage
      return with its newline is a break of two characters. */
  ghost predicate IsLine(line: string) {
    && line != ""
    && forall i | 0 <= i < |line| - 1 && IsBreak(line[i]) ::
         i == |line| - 2 && line[i] == '\r' && line[i + 1] == '\n'
  }

  ghost predicate EndsInBreak(line: string) {
    line != "" && IsBreak(line[|line| - 1])
  }

  ghost predicate BreakBetween(line: string, next: string) {
    line != "" && next != "" && !(line[|line| - 1] == '\r' && next[0] == '\n')
  }

  lemma {:induction false} FirstLineIsLine(text: string)
    requires text != ""
    ensures IsLine(text[..FirstLine(text)])
    ensures FirstLine(text) < |text| ==>
              EndsInBreak(text[..FirstLine(text)])
              && !(text[FirstLine(text) - 1] == '\r' && text[FirstLine(text)] == '\n')
  {
    if !IsBreak(text[0]) && |text| > 1 {
      var rest := text[1..];
      FirstLineIsLine(rest);
      var n := FirstLine(rest);
      assert text[..1 + n] == [text[0]] + rest[..n];
      assert forall i | 0 < i < |text| :: text[i] == rest[i - 1];
    }
  }

  /** With `SplitKeepsText`, the lines are exactly what the breaks make of the text: every
      line but the last ends in a break, none has one inside, and no carriage return is
      cut from its newline. */
  lemma {:induction false} LinesEndAtBreaks(text: string, k: nat)
    requires k < |SplitLines(text)|
    ensures IsLine(SplitLines(text)[k])
    ensures k < |SplitLines(text)| - 1 ==>
              EndsInBreak(SplitLines(text)[k]) && BreakBetween(SplitLines(text)[k], SplitLines(text)[k + 1])
    decreases k
  {
    var n := FirstLine(text);
    FirstLineIsLine(text);
    if k > 0 { LinesEndAtBreaks(text[n..], k - 1); }
    else if n < |text| { assert SplitLines(text)[1] == text[n..][..FirstLine(text[n..])]; }
  }

  // -------------------------------------------------------------------- headings

  function Hashes(line: string): (n: nat)
    ensures n <= |line| && (forall i | 0 <= i < n :: line[i] == '#') && (n < |line| ==> line[n] != '#')
  {
    if line == "" || line[0] != '#' then 0
    else
      var rest := Hashes(line[1..]);
      assert forall i | 0 < i < rest + 1 :: line[i] == line[1..][i - 1];
      1 + rest
  }

  /** `rstrip("\n")`. */
  function Chomp(line: string): string {
    if line != "" && line[|line| - 1] == '\n' then Chomp(line[..|line| - 1]) else line
  }

  /** One to six hashes and then white space. */
  function HeadingOf(line: string): Option<Heading> {
    var l := Chomp(line);
    var n := Hashes(l);
    if 1 <= n <= 6 && n < |l| && IsSpace(l[n]) then Some(Heading(n, Strip(l[n..]))) else None
  }

  function Repeated(c: char, n: nat): (s: string)
    ensures |s| == n && forall i | 0 <= i < n :: s[i] == c
  {
    seq(n, _ => c)
  }

  /** Every line is some hashes, a text that does not begin with one or end in a newline,
      and some newlines; it is a heading exactly when it has one to six hashes and the text
      begins with white space, and then its level is the number of hashes and its title
      the rest without the space around it. */
  lemma HeadingMeans(line: string) returns (hashes: nat, rest: string, newlines: nat)
    ensures line == Repeated('#', hashes) + rest + Repeated('\n', newlines)
    ensures rest != "" ==> rest[0] != '#' && rest[|rest| - 1] != '\n'
    ensures HeadingOf(line).Some? <==> 1 <= hashes <= 6 && rest != "" && IsSpace(rest[0])
    ensures HeadingOf(line).Some? ==> HeadingOf(line) == Some(Heading(hashes, Strip(rest)))
  {
    hide IsSpace, Strip;
    newlines := ChompCuts(line);
    var l := Chomp(line);
    hashes := Hashes(l);
    rest := l[hashes..];
    assert l == Repeated('#', hashes) + rest;
  }

  lemma {:induction false} ChompCuts(line: string) returns (newlines: nat)
    ensures line == Chomp(line) + Repeated('\n', newlines)
    ensures Chomp(line) != "" ==> Chomp(line)[|Chomp(line)| - 1] != '\n'
  {
    newlines := 0;
    if line != "" && line[|line| - 1] == '\n' {
      var fewer := ChompCuts(line[..|line| - 1]);
      newlines := fewer + 1;
    }
  }

  /** The headings still open once `next` is read. */
  function Push(stack: seq<Heading>, next: Heading): (r: seq<Heading>)
    ensures r != [] && r[|r| - 1] == next
  {
    Closed(stack, next.level) + [next]
  }

  function Closed(stack: seq<Heading>, level: nat): (r: seq<Heading>)
    ensures r <= stack && (r != [] ==> r[|r| - 1].level < level)
  {
    if stack != [] && stack[|stack| - 1].level >= level then Closed(stack[..|stack| - 1], level) else stack
  }

  function StackAt(lines: seq<string>): seq<Heading> {
    if lines == [] then []
    else
      var before, line := StackAt(lines[..|lines| - 1]), lines[|lines| - 1];
      match HeadingOf(line)
      case None => before
      case Some(h) => Push(before, h)
  }

  ghost predicate Ascending(stack: seq<Heading>) {
    forall i, j | 0 <= i < j < |stack| :: stack[i].level < stack[j].level
  }

  lemma {:induction false} ClosedKeeps(stack: seq<Heading>, level: nat)
    requires Ascending(stack)
    ensures Ascending(Push(stack, Heading(level, "")))
    ensures forall h :: h in Closed(stack, level) <==> h in stack && h.level < level
  {
    var n := |stack| - 1;
    if stack != [] && stack[n].level >= level {
      ClosedKeeps(stack[..n], level);
      assert stack == stack[..n] + [stack[n]];
    }
  }

  /** A heading is still open when no later one has its level or a higher one. */
  ghost predicate OpenAt(lines: seq<string>, h: Heading) {
    exists j | 0 <= j < |lines| :: HeadingOf(lines[j]) == Some(h) && NothingClosesIt(lines, j, h)
  }

  ghost predicate NothingClosesIt(lines: seq<string>, j: nat, h: Heading) {
    forall k | j < k < |lines| :: HeadingOf(lines[k]).Some? ==> HeadingOf(lines[k]).value.level > h.level
  }

  /** A heading path is exactly the headings that are open, outermost first. */
  lemma {:induction false} StackMeans(lines: seq<string>)
    ensures Ascending(StackAt(lines))
    ensures forall h :: h in StackAt(lines) <==> OpenAt(lines, h)
  {
    if lines != [] {
      var n := |lines| - 1;
      var init, line := lines[..n], lines[n];
      StackMeans(init);
      var found := HeadingOf(line);
      if found.Some? { ClosedKeeps(StackAt(init), found.value.level); }
      forall h
        ensures OpenAt(lines, h) <==>
                  found == Some(h)
                  || (OpenAt(init, h) && (found.Some? ==> h.level < found.value.level))
      {
        OpenNext(lines, h);
      }
      if found.Some? { PushAscends(StackAt(init), found.value); }
    }
  }

  lemma PushAscends(stack: seq<Heading>, h: Heading)
    requires Ascending(stack)
    ensures Ascending(Push(stack, h))
  {
    ClosedKeeps(stack, h.level);
    forall i, j | 0 <= i < j < |Push(stack, h)| ensures Push(stack, h)[i].level < Push(stack, h)[j].level {
      assert Closed(stack, h.level)[i] in Closed(stack, h.level);
    }
  }

  lemma OpenNext(lines: seq<string>, h: Heading)
    requires lines != []
    ensures var init, found := lines[..|lines| - 1], HeadingOf(lines[|lines| - 1]);
            OpenAt(lines, h) <==> found == Some(h) || (OpenAt(init, h) && (found.Some? ==> h.level < found.value.level))
  {
    hide HeadingOf;
    var n := |lines| - 1;
    var init, found := lines[..n], HeadingOf(lines[n]);
    if OpenAt(lines, h) {
      var j :| 0 <= j < |lines| && HeadingOf(lines[j]) == Some(h) && NothingClosesIt(lines, j, h);
      if j < n { assert init[j] == lines[j] && NothingClosesIt(init, j, h); }
    }
    if found == Some(h) { assert NothingClosesIt(lines, n, h); }
    if OpenAt(init, h) && (found.Some? ==> h.level < found.value.level) {
      var j :| 0 <= j < |init| && HeadingOf(init[j]) == Some(h) && NothingClosesIt(init, j, h);
      forall k | j < k < |lines| && HeadingOf(lines[k]).Some? ensures HeadingOf(lines[k]).value.level > h.level {
        if k < n { assert init[k] == lines[k]; }
      }
      assert lines[j] == init[j] && NothingClosesIt(lines, j, h);
    }
  }

  // -------------------------------------------------------------------- sections

  function Titles(stack: seq<Heading>): seq<string> {
    seq(|stack|, i requires 0 <= i < |stack| => stack[i].title)
  }

  /** For every character, whether it stands in a heading line. */
  function Mask(lines: seq<string>): (mask: seq<bool>)
    ensures |mask| == |Concat(lines)|
  {
    if lines == [] then []
    else
      var last := lines[|lines| - 1];
      Mask(lines[..|lines| - 1]) + seq(|last|, _ => HeadingOf(last).Some?)
  }

  ghost predicate InSection(sections: seq<Section>, p: int) {
    exists k | 0 <= k < |sections| :: sections[k].start <= p < sections[k].end
  }

  /** The section's path is that of the headings open where it starts. */
  ghost predicate PathAt(lines: seq<string>, start: nat, path: seq<string>) {
    exists m | 0 <= m <= |lines| :: |Concat(lines[..m])| == start && path == Titles(StackAt(lines[..m]))
  }

  /** Non-empty stretches, in order, that cover the first `upto` characters of the text
      but for its heading lines, each under its own path. */
  ghost predicate Cuts(lines: seq<string>, mask: seq<bool>, sections: seq<Section>, upto: nat) {
    && upto <= |mask|
    && (forall k | 0 <= k < |sections| ::
          sections[k].start < sections[k].end <= upto && PathAt(lines, sections[k].start, sections[k].path))
    && (forall k | 0 <= k < |sections| - 1 :: sections[k].end <= sections[k + 1].start)
    && (forall p | 0 <= p < upto :: InSection(sections, p) <==> !mask[p])
  }

  lemma {:induction false} MaskPrefix(lines: seq<string>, i: nat)
    requires i <= |lines|
    ensures Mask(lines[..i]) <= Mask(lines) && |Concat(lines[..i])| <= |Concat(lines)|
    decreases |lines|
  {
    if i == |lines| {
      assert lines[..i] == lines;
    } else {
      var n := |lines| - 1;
      MaskPrefix(lines[..n], i);
      assert lines[..n][..i] == lines[..i];
    }
  }

  lemma MaskLine(lines: seq<string>, i: nat, p: int)
    requires i < |lines| && |Concat(lines[..i])| <= p < |Concat(lines[..i])| + |lines[i]|
    ensures p < |Mask(lines)| && Mask(lines)[p] == HeadingOf(lines[i]).Some?
    ensures |Concat(lines[..i + 1])| == |Concat(lines[..i])| + |lines[i]|
  {
    hide HeadingOf;
    assert lines[..i + 1][..i] == lines[..i] && lines[..i + 1][i] == lines[i];
    MaskPrefix(lines, i + 1);
    assert Mask(lines[..i + 1])[p] == HeadingOf(lines[i]).Some?;
  }

  lemma CloseSection(lines: seq<string>, mask: seq<bool>, sections: seq<Section>, cursor: nat, pos: nat,
                     path: seq<string>)
    requires Cuts(lines, mask, sections, cursor) && cursor < pos <= |mask| && PathAt(lines, cursor, path)
    requires forall p | cursor <= p < pos :: !mask[p]
    ensures Cuts(lines, mask, sections + [Section(path, cursor, pos)], pos)
  {
    hide PathAt;
    var more := sections + [Section(path, cursor, pos)];
    forall p | 0 <= p < pos ensures InSection(more, p) <==> !mask[p] {
      if InSection(sections, p) {
        var k :| 0 <= k < |sections| && sections[k].start <= p < sections[k].end;
        assert more[k] == sections[k];
      }
      if p >= cursor { assert more[|sections|].start <= p < more[|sections|].end; }
      if InSection(more, p) && p < cursor {
        var k :| 0 <= k < |more| && more[k].start <= p < more[k].end;
        assert k < |sections| && sections[k] == more[k];
      }
    }
  }

  lemma SkipHeading(lines: seq<string>, mask: seq<bool>, sections: seq<Section>, pos: nat, next: nat)
    requires Cuts(lines, mask, sections, pos) && pos <= next <= |mask| && forall p | pos <= p < next :: mask[p]
    ensures Cuts(lines, mask, sections, next)
  {
    hide PathAt;
    forall p | pos <= p < next ensures !InSection(sections, p) {}
  }

  /** What `_sections` returns: stretches covering everything but the heading lines, or,
      when nothing is left, the whole text as one section. */
  ghost predicate SectionsOf(text: string, sections: seq<Section>) {
    var lines := SplitLines(text);
    var mask := Mask(lines);
    |mask| == |text| &&
    if exists p | 0 <= p < |mask| :: !mask[p] then Cuts(lines, mask, sections, |text|)
    else sections == [Section([], 0, |text|)]
  }

  /** The loop's state: everything before `cursor` is cut, and no heading line stands
      between `cursor` and the current line. */
  ghost predicate Cutting(lines: seq<string>, i: nat, sections: seq<Section>, stack: seq<Heading>, cursor: nat,
                          pos: nat) {
    && i <= |lines| && pos == |Concat(lines[..i])| && cursor <= pos <= |Mask(lines)|
    && stack == StackAt(lines[..i]) && PathAt(lines, cursor, Titles(stack))
    && Cuts(lines, Mask(lines), sections, cursor)
    && forall p | cursor <= p < pos :: !Mask(lines)[p]
  }

  lemma LineEnd(lines: seq<string>, i: nat)
    requires i < |lines|
    ensures |Concat(lines[..i + 1])| == |Concat(lines[..i])| + |lines[i]| <= |Mask(lines)|
    ensures StackAt(lines[..i + 1]) ==
            match HeadingOf(lines[i])
            case None => StackAt(lines[..i])
            case Some(h) => Push(StackAt(lines[..i]), h)
  {
    hide HeadingOf;
    assert lines[..i + 1][..i] == lines[..i] && lines[..i + 1][i] == lines[i];
    MaskPrefix(lines, i + 1);
  }

  lemma OrdinaryLine(lines: seq<string>, i: nat, sections: seq<Section>, stack: seq<Heading>, cursor: nat, pos: nat)
    requires i < |lines| && Cutting(lines, i, sections, stack, cursor, pos) && HeadingOf(lines[i]).None?
    ensures Cutting(lines, i + 1, sections, stack, cursor, pos + |lines[i]|)
  {
    hide HeadingOf, Cuts, PathAt;
    LineEnd(lines, i);
    forall p | cursor <= p < pos + |lines[i]| ensures !Mask(lines)[p] {
      if p >= pos { MaskLine(lines, i, p); }
    }
  }

  lemma HeadingLine(lines: seq<string>, i: nat, sections: seq<Section>, stack: seq<Heading>, cursor: nat, pos: nat)
    requires i < |lines| && Cutting(lines, i, sections, stack, cursor, pos) && HeadingOf(lines[i]).Some?
    ensures Cutting(lines, i + 1, if pos > cursor then sections + [Section(Titles(stack), cursor, pos)] else sections,
                    Push(stack, HeadingOf(lines[i]).value), pos + |lines[i]|, pos + |lines[i]|)
  {
    hide HeadingOf, Cuts, PathAt;
    LineEnd(lines, i);
    var more := if pos > cursor then sections + [Section(Titles(stack), cursor, pos)] else sections;
    if pos > cursor { CloseSection(lines, Mask(lines), sections, cursor, pos, Titles(stack)); }
    forall p | pos <= p < pos + |lines[i]| ensures Mask(lines)[p] { MaskLine(lines, i, p); }
    SkipHeading(lines, Mask(lines), more, pos, pos + |lines[i]|);
    PathHere(lines, i + 1);
  }

  lemma PathHere(lines: seq<string>, m: nat)
    requires m <= |lines|
    ensures PathAt(lines, |Concat(lines[..m])|, Titles(StackAt(lines[..m])))
  {
    hide StackAt, Concat, Titles;
  }

  /** `_sections`. */
  method CutSections(text: string) returns (sections: seq<Section>)
    ensures SectionsOf(text, sections)
  {
    hide HeadingOf, Cuts, Cutting, StackAt, Mask, SplitLines, PathAt;
    var lines := SplitLines(text);
    sections := [];
    var stack: seq<Heading> := [];
    var cursor: nat, pos: nat := 0, 0;
    CuttingStarts(lines);
    for i := 0 to |lines|
      invariant Cutting(lines, i, sections, stack, cursor, pos)
    {
      var found := HeadingOf(lines[i]);
      if found.Some? {
        HeadingLine(lines, i, sections, stack, cursor, pos);
        if pos > cursor { sections := sections + [Section(Titles(stack), cursor, pos)]; }
        stack := Push(stack, found.value);
        cursor := pos + |lines[i]|;
      } else {
        OrdinaryLine(lines, i, sections, stack, cursor, pos);
      }
      pos := pos + |lines[i]|;
    }
    CuttingEnds(text, sections, stack, cursor, pos);
    if pos > cursor { sections := sections + [Section(Titles(stack), cursor, pos)]; }
    if sections == [] { sections := [Section([], 0, |text|)]; }
  }

  lemma CuttingStarts(lines: seq<string>)
    ensures Cutting(lines, 0, [], [], 0, 0)
  {
    assert lines[..0] == [];
    assert Titles([]) == [];
  }

  lemma CuttingEnds(text: string, sections: seq<Section>, stack: seq<Heading>, cursor: nat, pos: nat)
    requires Cutting(SplitLines(text), |SplitLines(text)|, sections, stack, cursor, pos)
    ensures var all := if pos > cursor then sections + [Section(Titles(stack), cursor, pos)] else sections;
            SectionsOf(text, if all == [] then [Section([], 0, |text|)] else all)
  {
    hide HeadingOf, PathAt, StackAt, Mask, SplitLines;
    var lines := SplitLines(text);
    var mask := Mask(lines);
    assert lines[..|lines|] == lines;
    SplitKeepsText(text);
    if pos > cursor { CloseSection(lines, mask, sections, cursor, pos, Titles(stack)); }
    var all := if pos > cursor then sections + [Section(Titles(stack), cursor, pos)] else sections;
    assert Cuts(lines, mask, all, |text|);
    if all == [] {
      forall p | 0 <= p < |mask| ensures mask[p] { assert !InSection([], p); }
    } else {
      assert InSection(all, all[0].start);
    }
  }

  // ------------------------------------------------------------------ the document

  /** Every character outside the heading lines, or every character of a document that
      is headings only. */
  ghost predicate IsBody(text: string, p: int) {
    0 <= p < |text| && |Mask(SplitLines(text))| == |text|
    && (!Mask(SplitLines(text))[p] || forall q | 0 <= q < |text| :: Mask(SplitLines(text))[q])
  }

  lemma BodyIsCut(text: string, sections: seq<Section>, p: int)
    requires SectionsOf(text, sections) && IsBody(text, p)
    ensures InSection(sections, p)
  {
    hide Mask, SplitLines, PathAt;
    if exists q | 0 <= q < |text| :: !Mask(SplitLines(text))[q] {
    } else {
      assert sections[0].start <= p < sections[0].end;
    }
  }

  lemma SectionFits(text: string, sections: seq<Section>, k: nat)
    requires SectionsOf(text, sections) && k < |sections|
    ensures sections[k].start <= sections[k].end <= |text|
  {
  }

  ghost predicate ChunksOf(text: string, sections: seq<Section>, chunks: seq<Chunk>) {
    && (forall c <- chunks :: Faithful(text, c) && InOneOf(sections, c))
    && (forall p | 0 <= p < |text| && InSection(sections, p) && !IsSpace(text[p]) :: Carried(chunks, p))
  }

  ghost predicate InOneOf(sections: seq<Section>, c: Chunk) {
    exists k | 0 <= k < |sections| ::
      sections[k].path == c.path && sections[k].start <= c.start && c.end <= sections[k].end
  }

  lemma CarriedByMore(chunks: seq<Chunk>, more: seq<Chunk>, p: int)
    requires Carried(chunks, p) || Carried(more, p)
    ensures Carried(chunks + more, p)
  {
    var all := chunks + more;
    if Carried(chunks, p) {
      var j :| 0 <= j < |chunks| && chunks[j].start <= p < chunks[j].end;
      assert all[j] == chunks[j];
    } else {
      var j :| 0 <= j < |more| && more[j].start <= p < more[j].end;
      assert all[|chunks| + j] == more[j];
    }
  }

  lemma InPrefix(sections: seq<Section>, k: nat, p: int)
    requires k < |sections| && InSection(sections[..k + 1], p)
    ensures InSection(sections[..k], p) || sections[k].start <= p < sections[k].end
  {
    var ys := sections[..k + 1];
    var m :| 0 <= m < |ys| && ys[m].start <= p < ys[m].end;
    if m < k { assert sections[..k][m] == ys[m]; }
  }

  lemma StillInOneOf(sections: seq<Section>, k: nat, c: Chunk)
    requires k < |sections|
    requires InOneOf(sections[..k], c)
             || (sections[k].path == c.path && sections[k].start <= c.start && c.end <= sections[k].end)
    ensures InOneOf(sections[..k + 1], c)
  {
    var xs, ys := sections[..k], sections[..k + 1];
    if InOneOf(xs, c) {
      var m :| 0 <= m < |xs| && xs[m].path == c.path && xs[m].start <= c.start && c.end <= xs[m].end;
      assert ys[m] == xs[m];
    } else {
      assert ys[k] == sections[k];
    }
  }

  lemma MoreChunks(text: string, sections: seq<Section>, k: nat, chunks: seq<Chunk>, more: seq<Chunk>)
    requires k < |sections| && ChunksOf(text, sections[..k], chunks)
    requires SectionChunked(text, sections[k].path, sections[k].start, sections[k].end, more)
    ensures ChunksOf(text, sections[..k + 1], chunks + more)
  {
    hide Faithful, IsSpace, InOneOf, Carried, InSection;
    forall c | c in chunks + more ensures Faithful(text, c) && InOneOf(sections[..k + 1], c) {
      StillInOneOf(sections, k, c);
    }
    forall p | 0 <= p < |text| && InSection(sections[..k + 1], p) && !IsSpace(text[p])
      ensures Carried(chunks + more, p)
    {
      InPrefix(sections, k, p);
      CarriedByMore(chunks, more, p);
    }
  }

  lemma BlankSection(text: string, s: Section)
    requires s.start <= s.end <= |text| && Strip(text[s.start..s.end]) == ""
    ensures SectionChunked(text, s.path, s.start, s.end, [])
  {
    var body := text[s.start..s.end];
    BlankHasNoWords(body);
    NothingToChunk(text, s.path, s.start, s.end);
  }

  lemma BlankHasNoWords(body: string)
    requires Strip(body) == ""
    ensures WordsOf(body, [])
  {
  }

  function Flatten(parts: seq<seq<Chunk>>): seq<Chunk> {
    if parts == [] then [] else Flatten(parts[..|parts| - 1]) + parts[|parts| - 1]
  }

  /** The chunks are, section by section and in order, what `_window` makes of each. */
  ghost predicate WindowedBySection(text: string, sections: seq<Section>, parts: seq<seq<Chunk>>, chunks: seq<Chunk>) {
    && |parts| == |sections| && chunks == Flatten(parts)
    && forall k | 0 <= k < |sections| ::
         SectionChunked(text, sections[k].path, sections[k].start, sections[k].end, parts[k])
  }

  lemma MoreParts(text: string, sections: seq<Section>, k: nat, parts: seq<seq<Chunk>>, chunks: seq<Chunk>,
                  more: seq<Chunk>)
    requires k < |sections| && WindowedBySection(text, sections[..k], parts, chunks)
    requires SectionChunked(text, sections[k].path, sections[k].start, sections[k].end, more)
    ensures WindowedBySection(text, sections[..k + 1], parts + [more], chunks + more)
  {
    hide SectionChunked;
    assert (parts + [more])[..k] == parts;
    forall m | 0 <= m < k + 1
      ensures SectionChunked(text, sections[..k + 1][m].path, sections[..k + 1][m].start, sections[..k + 1][m].end,
                             (parts + [more])[m])
    {
      if m < k { assert sections[..k][m] == sections[..k + 1][m]; }
    }
  }

  /** `chunk_text`: the chunks of each section in order, each section's words in windows of
      at most 512 that share exactly 64 with the next; every chunk re-observes the text at
      its offsets, lies in one section and carries that section's path; and every word
      outside the heading lines is carried. */
  method ChunkText(text: string)
    returns (chunks: seq<Chunk>, ghost sections: seq<Section>, ghost parts: seq<seq<Chunk>>)
    ensures text == "" ==> chunks == []
    ensures text != "" ==> SectionsOf(text, sections) && WindowedBySection(text, sections, parts, chunks)
    ensures text != "" ==> ChunksOf(text, sections, chunks)
    ensures forall p | 0 <= p < |text| && IsBody(text, p) && !IsSpace(text[p]) :: Carried(chunks, p)
    ensures forall c <- chunks ::
              c.start < c.end <= |text| && c.content == text[c.start..c.end]
              && c.tokens <= 512 && HasWords(c.content, c.tokens)
  {
    hide SectionsOf, ChunksOf, SectionChunked, WindowedBySection, IsBody, IsSpace, Mask, SplitLines, Strip;
    chunks, sections, parts := [], [], [];
    if text == "" {
      EmptyHasNoBody(text);
      return;
    }
    var cut := CutSections(text);
    sections := cut;
    NoChunks(text);
    for k := 0 to |cut|
      invariant ChunksOf(text, cut[..k], chunks) && WindowedBySection(text, cut[..k], parts, chunks)
    {
      SectionFits(text, cut, k);
      var body := text[cut[k].start..cut[k].end];
      if Strip(body) != "" {
        var more := Window(text, cut[k].path, cut[k].start, cut[k].end);
        MoreChunks(text, cut, k, chunks, more);
        MoreParts(text, cut, k, parts, chunks, more);
        chunks, parts := chunks + more, parts + [more];
      } else {
        BlankSection(text, cut[k]);
        MoreChunks(text, cut, k, chunks, []);
        MoreParts(text, cut, k, parts, chunks, []);
        assert chunks + [] == chunks;
        parts := parts + [[]];
      }
    }
    assert cut[..|cut|] == cut;
    forall p | 0 <= p < |text| && IsBody(text, p) && !IsSpace(text[p]) ensures Carried(chunks, p) {
      BodyIsCut(text, cut, p);
      CutIsCarried(text, cut, chunks, p);
    }
    ChunksAreFaithful(text, cut, chunks);
  }

  lemma ChunksAreFaithful(text: string, sections: seq<Section>, chunks: seq<Chunk>)
    requires ChunksOf(text, sections, chunks)
    ensures forall c <- chunks ::
              c.start < c.end <= |text| && c.content == text[c.start..c.end]
              && c.tokens <= 512 && HasWords(c.content, c.tokens)
  {
    forall c | c in chunks
      ensures c.start < c.end <= |text| && c.content == text[c.start..c.end]
              && c.tokens <= 512 && HasWords(c.content, c.tokens)
    {
      assert Faithful(text, c);
    }
  }

  lemma EmptyHasNoBody(text: string)
    requires text == ""
    ensures forall p :: !IsBody(text, p)
  {
  }

  lemma NoChunks(text: string)
    ensures ChunksOf(text, [], []) && WindowedBySection(text, [], [], [])
  {
  }

  lemma CutIsCarried(text: string, sections: seq<Section>, chunks: seq<Chunk>, p: int)
    requires ChunksOf(text, sections, chunks) && 0 <= p < |text| && InSection(sections, p) && !IsSpace(text[p])
    ensures Carried(chunks, p)
  {
  }
}

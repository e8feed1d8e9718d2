/** Splitting a document at its headings and windowing each section
    (vyomel/memory/chunking.py). Offsets are into the original text. */
module Chunking {
  import opened Wrappers
  import Graph

  const TARGET_TOKENS: nat := 512
  const OVERLAP_TOKENS: nat := 64

  datatype Chunk = Chunk(content: string, path: seq<string>, start: nat, end: nat, tokens: nat)

  datatype Word = Word(start: nat, end: nat)

  datatype Section = Section(path: seq<string>, start: nat, end: nat)

  datatype Heading = Heading(level: nat, title: string)

  /** `str.isspace` for one character, which is also what `\s` matches. */
  predicate IsSpace(c: char) {
    || '\U{9}' <= c <= '\U{D}' || '\U{1C}' <= c <= '\U{20}' || c == '\U{85}' || c == '\U{A0}' || c == '\U{1680}'
    || '\U{2000}' <= c <= '\U{200A}' || c == '\U{2028}' || c == '\U{2029}' || c == '\U{202F}' || c == '\U{205F}'
       || c == '\U{3000}'
  }

  /** The line boundaries of `splitlines`. */
  predicate IsBreak(c: char) {
    || '\U{A}' <= c <= '\U{D}' || '\U{1C}' <= c <= '\U{1E}' || c == '\U{85}' || c == '\U{2028}' || c == '\U{2029}'
  }

  // ------------------------------------------------------------------- the words

  ghost predicate NoSpaceIn(text: string, a: int, b: int) {
    0 <= a <= b <= |text| && forall i | a <= i < b :: !IsSpace(text[i])
  }

  /** A maximal run of non-space characters. */
  ghost predicate IsRun(text: string, w: Word) {
    && w.start < w.end && NoSpaceIn(text, w.start, w.end)
    && (w.start > 0 ==> IsSpace(text[w.start - 1]))
    && (w.end < |text| ==> IsSpace(text[w.end]))
  }

  /** The runs before `upto`, in order. */
  ghost predicate WordsBefore(text: string, words: seq<Word>, upto: nat) {
    && upto <= |text|
    && (forall k | 0 <= k < |words| :: IsRun(text, words[k]) && words[k].end <= upto)
    && (forall k, l | 0 <= k < l < |words| :: words[k].end < words[l].start)
  }

  ghost predicate Covered(words: seq<Word>, i: int) {
    exists k | 0 <= k < |words| :: words[k].start <= i < words[k].end
  }

  ghost predicate WordsOf(text: string, words: seq<Word>) {
    WordsBefore(text, words, |text|) && forall i | 0 <= i < |text| && !IsSpace(text[i]) :: Covered(words, i)
  }

  lemma CoveredSnoc(words: seq<Word>, w: Word, i: int)
    ensures Covered(words + [w], i) <==> Covered(words, i) || w.start <= i < w.end
  {
    if Covered(words, i) {
      var k :| 0 <= k < |words| && words[k].start <= i < words[k].end;
      assert (words + [w])[k] == words[k];
    }
    if w.start <= i < w.end { assert (words + [w])[|words|] == w; }
  }

  /** A scan in progress: `open` is the start of the run that reaches `i`. */
  ghost predicate Scanning(text: string, found: seq<Word>, open: Option<nat>, i: nat) {
    && i <= |text|
    && WordsBefore(text, found, if open.Some? then open.value else i)
    && (open.Some? ==> open.value < i && NoSpaceIn(text, open.value, i)
                       && (open.value > 0 ==> IsSpace(text[open.value - 1]))
                       && (found != [] ==> found[|found| - 1].end < open.value))
    && (open.None? && i > 0 ==> IsSpace(text[i - 1]))
    && forall j | 0 <= j < (if open.Some? then open.value else i) && !IsSpace(text[j]) :: Covered(found, j)
  }

  lemma CloseWord(text: string, found: seq<Word>, start: nat, i: nat)
    requires Scanning(text, found, Some(start), i) && (i < |text| ==> IsSpace(text[i]))
    ensures WordsBefore(text, found + [Word(start, i)], i)
    ensures forall j | 0 <= j < i && !IsSpace(text[j]) :: Covered(found + [Word(start, i)], j)
  {
    forall j | 0 <= j < i && !IsSpace(text[j]) ensures Covered(found + [Word(start, i)], j) {
      CoveredSnoc(found, Word(start, i), j);
    }
    if found != [] {
      forall k | 0 <= k < |found| ensures found[k].end < start {
        if k < |found| - 1 { assert found[k].end < found[|found| - 1].start; }
      }
    }
  }

  lemma ScanCloses(text: string, found: seq<Word>, start: nat, i: nat)
    requires i < |text| && Scanning(text, found, Some(start), i) && IsSpace(text[i])
    ensures Scanning(text, found + [Word(start, i)], None, i + 1)
  {
    CloseWord(text, found, start, i);
    hide IsSpace, Covered, IsRun;
    forall j | 0 <= j < i + 1 && !IsSpace(text[j]) ensures Covered(found + [Word(start, i)], j) {}
  }

  lemma ScanSkips(text: string, found: seq<Word>, i: nat)
    requires i < |text| && Scanning(text, found, None, i) && IsSpace(text[i])
    ensures Scanning(text, found, None, i + 1)
  {
    hide IsSpace, Covered, IsRun;
  }

  lemma ScanOpens(text: string, found: seq<Word>, i: nat)
    requires i < |text| && Scanning(text, found, None, i) && !IsSpace(text[i])
    ensures Scanning(text, found, Some(i), i + 1)
  {
    hide IsSpace, Covered;
    if found != [] { assert IsRun(text, found[|found| - 1]); }
  }

  lemma ScanContinues(text: string, found: seq<Word>, start: nat, i: nat)
    requires i < |text| && Scanning(text, found, Some(start), i) && !IsSpace(text[i])
    ensures Scanning(text, found, Some(start), i + 1)
  {
    hide IsSpace, Covered, IsRun;
  }

  lemma ScanEnds(text: string, found: seq<Word>, open: Option<nat>)
    requires Scanning(text, found, open, |text|)
    ensures WordsOf(text, if open.Some? then found + [Word(open.value, |text|)] else found)
  {
    if open.Some? { CloseWord(text, found, open.value, |text|); }
  }

  /** `_words`. */
  method Words(text: string) returns (found: seq<Word>)
    ensures WordsOf(text, found)
  {
    assert Scanning(text, [], None, 0);
    hide Scanning, WordsOf, IsSpace;
    found := [];
    var open: Option<nat> := None;
    for i := 0 to |text|
      invariant Scanning(text, found, open, i)
    {
      if IsSpace(text[i]) {
        if open.Some? {
          ScanCloses(text, found, open.value, i);
          found := found + [Word(open.value, i)];
          open := None;
        } else {
          ScanSkips(text, found, i);
        }
      } else if open.None? {
        ScanOpens(text, found, i);
        open := Some(i);
      } else {
        ScanContinues(text, found, open.value, i);
      }
    }
    ScanEnds(text, found, open);
    if open.Some? { found := found + [Word(open.value, |text|)]; }
  }

  // ------------------------------------------------------------- strip and find

  function Lead(s: string): (n: nat)
    ensures n <= |s| && (forall i | 0 <= i < n :: IsSpace(s[i])) && (n < |s| ==> !IsSpace(s[n]))
  {
    if s == [] || !IsSpace(s[0]) then 0
    else
      var rest := Lead(s[1..]);
      assert forall i | 0 < i < rest + 1 :: s[i] == s[1..][i - 1];
      1 + rest
  }

  function Trail(s: string): (n: nat)
    ensures n <= |s| && (forall i | n <= i < |s| :: IsSpace(s[i])) && (n > 0 ==> !IsSpace(s[n - 1]))
  {
    if s == [] || !IsSpace(s[|s| - 1]) then |s| else Trail(s[..|s| - 1])
  }

  /** `str.strip`. */
  function Strip(s: string): string {
    if Lead(s) <= Trail(s) then s[Lead(s)..Trail(s)] else ""
  }

  predicate OccursAt(hay: string, needle: string, i: int) {
    0 <= i <= |hay| - |needle| && hay[i..i + |needle|] == needle
  }

  /** `str.find`. */
  function Find(hay: string, needle: string, from: nat): (r: Option<nat>)
    requires from <= |hay|
    ensures r.Some? ==> from <= r.value && OccursAt(hay, needle, r.value)
                        && forall i | from <= i < r.value :: !OccursAt(hay, needle, i)
    ensures r.None? ==> forall i | from <= i :: !OccursAt(hay, needle, i)
    decreases |hay| - from
  {
    if OccursAt(hay, needle, from) then Some(from)
    else if from == |hay| then None
    else Find(hay, needle, from + 1)
  }

  /** The first occurrence of the stripped body is where its leading space ends. */
  lemma FindStripped(body: string)
    requires Strip(body) != ""
    ensures Find(body, Strip(body), 0) == Some(Lead(body))
            && Strip(body) == body[Lead(body)..Lead(body) + |Strip(body)|]
  {
    hide IsSpace, Lead, Trail;
    var s, l := Strip(body), Lead(body);
    assert OccursAt(body, s, l);
    assert s[0] == body[l] && !IsSpace(s[0]);
    forall i | 0 <= i < l ensures !OccursAt(body, s, i) {
      if OccursAt(body, s, i) { OccursFirst(body, s, i); }
    }
  }

  lemma OccursFirst(hay: string, needle: string, i: int)
    requires OccursAt(hay, needle, i) && needle != ""
    ensures hay[i] == needle[0]
  {
    assert hay[i..i + |needle|][0] == hay[i];
  }

  lemma StripEmptyIff(body: string, words: seq<Word>)
    requires WordsOf(body, words)
    ensures Strip(body) == "" <==> words == []
  {
    if words != [] {
      var w := words[0];
      assert !IsSpace(body[w.start]);
      assert Lead(body) <= w.start < Trail(body);
    } else {
      assert Strip(body) != "" ==> Covered(words, Lead(body));
    }
  }

  // ------------------------------------------------------------------- the windows

  /** A chunk of the words from i to j. */
  ghost predicate ChunkOf(base: nat, body: string, path: seq<string>, words: seq<Word>, i: nat, j: nat, c: Chunk) {
    && i < j <= |words| && words[i].start <= words[j - 1].end <= |body|
    && c == Chunk(body[words[i].start..words[j - 1].end], path, base + words[i].start, base + words[j - 1].end, j - i)
  }

  /** Where the k-th window starts: each shares exactly the overlap with the one before. */
  function WindowStart(k: nat): nat {
    (TARGET_TOKENS - OVERLAP_TOKENS) * k
  }

  function WindowEnd(k: nat, n: nat): nat {
    Smaller(WindowStart(k) + TARGET_TOKENS, n)
  }

  /** The first windows over the words; only the last may reach the end. */
  ghost predicate WindowsOver(base: nat, body: string, path: seq<string>, words: seq<Word>, chunks: seq<Chunk>) {
    && (forall k | 0 <= k < |chunks| ::
          ChunkOf(base, body, path, words, WindowStart(k), WindowEnd(k, |words|), chunks[k]))
    && (forall k | 0 <= k < |chunks| - 1 :: WindowEnd(k, |words|) < |words|)
  }

  /** All of them: the last one does reach the end. */
  ghost predicate AllWindows(base: nat, body: string, path: seq<string>, words: seq<Word>, chunks: seq<Chunk>) {
    WindowsOver(base, body, path, words, chunks) && chunks != [] && WindowEnd(|chunks| - 1, |words|) == |words|
  }

  function Larger(a: int, b: int): int {
    if a > b then a else b
  }

  function Smaller(a: nat, b: nat): nat {
    if a < b then a else b
  }

  lemma WordSpan(body: string, words: seq<Word>, i: nat, j: nat)
    requires WordsOf(body, words) && i < j <= |words|
    ensures words[i].start <= words[j - 1].end <= |body|
  {
    if i < j - 1 { assert words[i].end < words[j - 1].start; }
  }

  /** The loop of `_window`, for more words than one window holds: windows of at most
      512 words, each sharing exactly 64 with the next, up to the last word. */
  method SlideWindow(base: nat, body: string, path: seq<string>, words: seq<Word>) returns (chunks: seq<Chunk>)
    requires WordsOf(body, words) && |words| > TARGET_TOKENS
    ensures AllWindows(base, body, path, words, chunks)
  {
    hide WordsOf;
    chunks := [];
    var i: nat := 0;
    while i < |words|
      invariant i == WindowStart(|chunks|) <= |words|
      invariant WindowsOver(base, body, path, words, chunks)
      invariant chunks != [] ==> WindowEnd(|chunks| - 1, |words|) < |words|
      decreases |words| - i
    {
      var j := Smaller(i + TARGET_TOKENS, |words|);
      WordSpan(body, words, i, j);
      chunks := chunks + [Chunk(body[words[i].start..words[j - 1].end], path,
                                base + words[i].start, base + words[j - 1].end, j - i)];
      if j >= |words| { break; }
      i := Larger(j - OVERLAP_TOKENS, i + 1);
    }
  }

  /** In numbers: the k-th window starts at word 448 k, every window but the last holds 512
      words and so shares its last 64 with the next, and the last ends with the last word. */
  lemma WindowsInNumbers(base: nat, body: string, path: seq<string>, words: seq<Word>, chunks: seq<Chunk>, k: nat)
    requires |words| > TARGET_TOKENS && AllWindows(base, body, path, words, chunks) && k < |chunks|
    ensures 512 < |words| && 448 * k < |words|
    ensures chunks[k].path == path && chunks[k].start == base + words[448 * k].start
    ensures chunks[k].tokens == if k < |chunks| - 1 then 512 else |words| - 448 * k
    ensures k < |chunks| - 1 ==>
              448 * k + 512 < |words| && chunks[k].end == base + words[448 * (k + 1) + 63].end
    ensures k == |chunks| - 1 ==> |words| <= 448 * k + 512 && chunks[k].end == base + words[|words| - 1].end
    ensures chunks[k].start <= chunks[k].end <= base + |body|
            && chunks[k].content == body[chunks[k].start - base..chunks[k].end - base]
  {
    assert ChunkOf(base, body, path, words, WindowStart(k), WindowEnd(k, |words|), chunks[k]);
  }

  /** Every word of the section lies in some window. */
  lemma {:induction false} EveryWordIsWindowed(n: nat, m: nat, w: nat) returns (k: nat)
    requires w < WindowEnd(m, n)
    ensures k <= m && WindowStart(k) <= w < WindowEnd(k, n)
    decreases m
  {
    if WindowStart(m) <= w { k := m; }
    else { k := EveryWordIsWindowed(n, m - 1, w); }
  }

  /** The text has exactly n words. */
  ghost predicate HasWords(text: string, n: nat) {
    exists words :: WordsOf(text, words) && |words| == n
  }

  /** Offsets that re-observe the content, which has as many words as the chunk says, and
      at most 512. */
  ghost predicate Faithful(text: string, c: Chunk) {
    && c.start < c.end <= |text| && c.content == text[c.start..c.end]
    && HasWords(c.content, c.tokens) && c.tokens <= TARGET_TOKENS
  }

  ghost predicate Carried(chunks: seq<Chunk>, p: int) {
    exists k | 0 <= k < |chunks| :: chunks[k].start <= p < chunks[k].end
  }

  /** Nothing for a section without words, the stripped body for one of at most 512, and
      otherwise windows of 512 words, each sharing exactly 64 with the next, up to the last. */
  ghost predicate WindowedAs(base: nat, body: string, path: seq<string>, words: seq<Word>, chunks: seq<Chunk>) {
    if words == [] then chunks == []
    else if |words| <= TARGET_TOKENS then
      |chunks| == 1 && chunks[0].content == Strip(body) && chunks[0].start == base + Lead(body)
          && chunks[0].tokens == |words|
    else AllWindows(base, body, path, words, chunks)
  }

  ghost predicate Windowed(base: nat, body: string, path: seq<string>, chunks: seq<Chunk>) {
    exists words :: WordsOf(body, words) && WindowedAs(base, body, path, words, chunks)
  }

  /** What `_window` makes of one section: its windows, as faithful chunks inside it that
      carry every character of its words. */
  ghost predicate SectionChunked(text: string, path: seq<string>, start: nat, end: nat, chunks: seq<Chunk>) {
    && start <= end <= |text| && Windowed(start, text[start..end], path, chunks)
    && (forall c <- chunks :: Faithful(text, c) && c.path == path && start <= c.start && c.end <= end)
    && (forall p | start <= p < end && !IsSpace(text[p]) :: Carried(chunks, p))
  }

  /** A section of at most one window: the stripped body. */
  method WholeSection(text: string, path: seq<string>, start: nat, end: nat, words: seq<Word>) returns (c: Chunk)
    requires start <= end <= |text| && WordsOf(text[start..end], words) && 0 < |words| <= TARGET_TOKENS
    ensures SectionChunked(text, path, start, end, [c])
  {
    hide WordsOf, Lead, Trail, SectionChunked, Windowed;
    var body := text[start..end];
    var stripped := Strip(body);
    StripEmptyIff(body, words);
    FindStripped(body);
    var rel := Find(body, stripped, 0);
    var at := start + if rel.Some? then rel.value else 0;
    var tokens := Words(stripped);
    SameWordCount(body, words, tokens);
    c := Chunk(stripped, path, at, at + |stripped|, |tokens|);
    StrippedIsWindowed(text, path, start, end, words, c);
    assert HasWords(c.content, c.tokens);
    StrippedCarries(text, path, start, end, c);
  }

  lemma StrippedIsWindowed(text: string, path: seq<string>, start: nat, end: nat, words: seq<Word>, c: Chunk)
    requires start <= end <= |text| && WordsOf(text[start..end], words) && 0 < |words| <= TARGET_TOKENS
    requires c.content == Strip(text[start..end]) && c.start == start + Lead(text[start..end]) && c.tokens == |words|
    ensures Windowed(start, text[start..end], path, [c])
  {
    hide WordsOf, Strip, Lead;
    assert WindowedAs(start, text[start..end], path, words, [c]);
  }

  lemma StrippedCarries(text: string, path: seq<string>, start: nat, end: nat, c: Chunk)
    requires start <= end <= |text| && Strip(text[start..end]) != "" && c.tokens <= TARGET_TOKENS
    requires c.content == Strip(text[start..end]) && c.path == path && HasWords(c.content, c.tokens)
    requires c.start == start + Lead(text[start..end]) && c.end == c.start + |c.content|
    requires Windowed(start, text[start..end], path, [c])
    ensures SectionChunked(text, path, start, end, [c])
  {
    hide Strip, Lead, Trail, Bare, IsSpace, HasWords, Windowed;
    var body := text[start..end];
    StripIsBare(body);
    BareRange(body, Lead(body), Trail(body));
    SliceOfSlice(text, start, end, Lead(body), Trail(body));
    forall p | start <= p < end && !IsSpace(text[p]) ensures c.start <= p < c.end {
      WordCharacterInside(body, Lead(body), Trail(body), p - start);
    }
    OneChunk(text, path, start, end, c);
  }

  lemma OneChunk(text: string, path: seq<string>, start: nat, end: nat, c: Chunk)
    requires start <= c.start < c.end <= end <= |text| && c.path == path
    requires c.content == text[c.start..c.end] && c.tokens <= TARGET_TOKENS && HasWords(c.content, c.tokens)
    requires Windowed(start, text[start..end], path, [c])
    requires forall p | start <= p < end && !IsSpace(text[p]) :: c.start <= p < c.end
    ensures SectionChunked(text, path, start, end, [c])
  {
    hide IsSpace, HasWords, Windowed;
    forall p | start <= p < end && !IsSpace(text[p]) ensures Carried([c], p) {
      assert [c][0].start <= p < [c][0].end;
    }
  }

  lemma BareRange(body: string, l: nat, r: nat)
    requires Bare(body, l, r)
    ensures l <= r <= |body|
  {
  }

  lemma SliceOfSlice(text: string, start: nat, end: nat, l: nat, r: nat)
    requires start <= end <= |text| && l <= r <= end - start
    ensures text[start..end][l..r] == text[start + l..start + r]
  {
    var body := text[start..end];
    assert forall i | 0 <= i < r - l :: body[l..r][i] == body[l + i] == text[start + l + i];
  }

  lemma WordCharacterInside(body: string, l: nat, r: nat, q: int)
    requires Bare(body, l, r) && 0 <= q < |body| && !IsSpace(body[q])
    ensures l <= q < r
  {
  }

  lemma RunIsListed(text: string, words: seq<Word>, w: Word)
    requires WordsOf(text, words) && IsRun(text, w)
    ensures w in words
  {
    assert Covered(words, w.start);
    var m :| 0 <= m < |words| && words[m].start <= w.start < words[m].end;
    var v := words[m];
    assert IsRun(text, v);
    assert v.start == w.start;
    assert v.end == w.end;
  }

  /** A part of the body with nothing but space around it. */
  ghost predicate Bare(body: string, l: nat, r: nat) {
    && l <= r <= |body|
    && (forall i | 0 <= i < l :: IsSpace(body[i]))
    && (forall i | r <= i < |body| :: IsSpace(body[i]))
  }

  lemma StripIsBare(body: string)
    requires Strip(body) != ""
    ensures Bare(body, Lead(body), Trail(body)) && Strip(body) == body[Lead(body)..Trail(body)]
  {
  }

  lemma RunOutward(body: string, l: nat, r: nat, w: Word)
    requires Bare(body, l, r) && IsRun(body[l..r], w)
    ensures IsRun(body, Word(w.start + l, w.end + l))
  {
    var s := body[l..r];
    assert forall i | 0 <= i < |s| :: s[i] == body[l + i];
    forall i | w.start + l <= i < w.end + l ensures !IsSpace(body[i]) { assert body[i] == s[i - l]; }
  }

  lemma RunInward(body: string, l: nat, r: nat, w: Word)
    requires Bare(body, l, r) && IsRun(body, w)
    ensures l <= w.start && w.end <= r && IsRun(body[l..r], Word(w.start - l, w.end - l))
  {
    assert !IsSpace(body[w.start]) && !IsSpace(body[w.end - 1]);
    var s := body[l..r];
    assert forall i | 0 <= i < |s| :: s[i] == body[l + i];
  }

  function MovedBy(tokens: seq<Word>, l: nat): (r: seq<Word>)
    ensures |r| == |tokens| && forall k | 0 <= k < |r| :: r[k] == Word(tokens[k].start + l, tokens[k].end + l)
  {
    seq(|tokens|, k requires 0 <= k < |tokens| => Word(tokens[k].start + l, tokens[k].end + l))
  }

  lemma WordIsRun(text: string, words: seq<Word>, k: nat)
    requires WordsOf(text, words) && k < |words|
    ensures IsRun(text, words[k])
  {
  }

  lemma MovedIsWord(body: string, words: seq<Word>, tokens: seq<Word>, k: nat)
    requires WordsOf(body, words) && WordsOf(Strip(body), tokens) && Strip(body) != "" && k < |tokens|
    ensures Word(tokens[k].start + Lead(body), tokens[k].end + Lead(body)) in words
  {
    hide WordsOf, Strip, Lead, Trail, Bare, IsRun, IsSpace;
    StripIsBare(body);
    WordIsRun(Strip(body), tokens, k);
    RunOutward(body, Lead(body), Trail(body), tokens[k]);
    RunIsListed(body, words, Word(tokens[k].start + Lead(body), tokens[k].end + Lead(body)));
  }

  lemma WordIsMoved(body: string, words: seq<Word>, tokens: seq<Word>, m: nat)
    requires WordsOf(body, words) && WordsOf(Strip(body), tokens) && Strip(body) != "" && m < |words|
    ensures words[m].start >= Lead(body) && Word(words[m].start - Lead(body), words[m].end - Lead(body)) in tokens
  {
    hide WordsOf, Strip, Lead, Trail, Bare, IsRun, IsSpace;
    StripIsBare(body);
    WordIsRun(body, words, m);
    RunInward(body, Lead(body), Trail(body), words[m]);
    RunIsListed(Strip(body), tokens, Word(words[m].start - Lead(body), words[m].end - Lead(body)));
  }

  lemma MovedAreWords(body: string, words: seq<Word>, tokens: seq<Word>, w: Word)
    requires WordsOf(body, words) && WordsOf(Strip(body), tokens) && Strip(body) != ""
    ensures w in words <==> w in MovedBy(tokens, Lead(body))
  {
    hide WordsOf, Strip, Lead;
    var moved, l := MovedBy(tokens, Lead(body)), Lead(body);
    if w in moved {
      var k :| 0 <= k < |moved| && w == moved[k];
      MovedIsWord(body, words, tokens, k);
    }
    if w in words {
      var m :| 0 <= m < |words| && words[m] == w;
      WordIsMoved(body, words, tokens, m);
      var k :| 0 <= k < |tokens| && tokens[k] == Word(w.start - l, w.end - l);
      assert moved[k] == w;
    }
  }

  lemma WordsDiffer(text: string, words: seq<Word>)
    requires WordsOf(text, words)
    ensures Graph.NoDuplicates(words)
  {
    forall i, j | 0 <= i < j < |words| ensures words[i] != words[j] { assert IsRun(text, words[j]); }
  }

  /** Stripping moves the words and changes nothing else. */
  lemma SameWordCount(body: string, words: seq<Word>, tokens: seq<Word>)
    requires WordsOf(body, words) && WordsOf(Strip(body), tokens) && Strip(body) != ""
    ensures |tokens| == |words|
  {
    hide WordsOf, MovedBy, Strip;
    var moved := MovedBy(tokens, Lead(body));
    var all := set w <- words;
    WordsDiffer(body, words);
    WordsDiffer(Strip(body), tokens);
    forall w ensures w in words <==> w in moved { MovedAreWords(body, words, tokens, w); }
    forall i, j | 0 <= i < j < |moved| ensures moved[i] != moved[j] { assert tokens[i] != tokens[j]; }
    Graph.ListedCount(words, all);
    Graph.ListedCount(moved, all);
  }

  /** The number of words is a property of the text. */
  lemma WordCountIsUnique(text: string, xs: seq<Word>, ys: seq<Word>)
    requires WordsOf(text, xs) && WordsOf(text, ys)
    ensures |xs| == |ys|
  {
    hide WordsOf;
    var all := set w <- xs;
    WordsDiffer(text, xs);
    WordsDiffer(text, ys);
    forall k | 0 <= k < |xs| ensures xs[k] in ys { WordIsRun(text, xs, k); RunIsListed(text, ys, xs[k]); }
    forall k | 0 <= k < |ys| ensures ys[k] in all { WordIsRun(text, ys, k); RunIsListed(text, xs, ys[k]); }
    Graph.ListedCount(xs, all);
    Graph.ListedCount(ys, all);
  }

  function MovedBack(words: seq<Word>, l: nat): (r: seq<Word>)
    requires forall w <- words :: l <= w.start && l <= w.end
    ensures |r| == |words| && forall k | 0 <= k < |r| :: r[k] == Word(words[k].start - l, words[k].end - l)
  {
    seq(|words|, k requires 0 <= k < |words| => Word(words[k].start - l, words[k].end - l))
  }

  lemma WordsWithin(body: string, words: seq<Word>, i: nat, j: nat, k: nat)
    requires WordsOf(body, words) && i <= k < j <= |words|
    ensures words[i].start <= words[k].start < words[k].end <= words[j - 1].end <= |body|
  {
    hide WordsOf;
    WordsAscend(body, words, i, k);
    WordsAscend(body, words, k, j - 1);
    WordIsRun(body, words, k);
    WordIsRun(body, words, j - 1);
  }

  lemma WordsApart(body: string, words: seq<Word>, k: nat, m: nat)
    requires WordsOf(body, words) && k < m < |words|
    ensures words[k].end < words[m].start
  {
  }

  lemma RunInSlice(body: string, l: nat, r: nat, w: Word)
    requires l <= r <= |body| && IsRun(body, w) && l <= w.start && w.end <= r
    ensures IsRun(body[l..r], Word(w.start - l, w.end - l))
  {
    assert forall q | 0 <= q < r - l :: body[l..r][q] == body[l + q];
  }

  lemma SliceIsCovered(body: string, words: seq<Word>, i: nat, j: nat, p: nat)
    requires WordsOf(body, words) && i < j <= |words| && words[i].start <= p < words[j - 1].end <= |body|
             && !IsSpace(body[p])
    ensures exists k | i <= k < j :: words[k].start <= p < words[k].end
  {
    forall k | 0 <= k < i ensures words[k].end < words[i].start {}
    forall k | j - 1 < k < |words| ensures words[j - 1].end < words[k].start {}
    assert Covered(words, p);
    var k :| 0 <= k < |words| && words[k].start <= p < words[k].end;
  }

  lemma MovedAreRuns(body: string, words: seq<Word>, i: nat, j: nat, moved: seq<Word>)
    requires WordsOf(body, words) && i < j <= |words| && |moved| == j - i && words[j - 1].end <= |body|
    requires words[i].start <= words[j - 1].end
    requires forall k | 0 <= k < |moved| ::
               words[i].start <= words[i + k].start < words[i + k].end <= words[j - 1].end
               && moved[k] == Word(words[i + k].start - words[i].start, words[i + k].end - words[i].start)
    ensures WordsBefore(body[words[i].start..words[j - 1].end], moved, words[j - 1].end - words[i].start)
  {
    hide WordsOf, IsRun;
    forall k | 0 <= k < |moved| ensures IsRun(body[words[i].start..words[j - 1].end], moved[k]) {
      var m := moved[k];
      WordIsRun(body, words, i + k);
      RunInSlice(body, words[i].start, words[j - 1].end, words[i + k]);
    }
    forall k, m | 0 <= k < m < |moved| ensures moved[k].end < moved[m].start {
      WordsApart(body, words, i + k, i + m);
    }
  }

  lemma MovedCover(body: string, words: seq<Word>, i: nat, j: nat, moved: seq<Word>, q: nat)
    requires WordsOf(body, words) && i < j <= |words| && |moved| == j - i
    requires words[i].start <= words[i].start + q < words[j - 1].end <= |body| && !IsSpace(body[words[i].start + q])
    requires forall k | 0 <= k < |moved| ::
               words[i].start <= words[i + k].start < words[i + k].end
               && moved[k] == Word(words[i + k].start - words[i].start, words[i + k].end - words[i].start)
    ensures Covered(moved, q)
  {
    hide WordsOf, IsSpace;
    SliceIsCovered(body, words, i, j, words[i].start + q);
    var k :| i <= k < j && words[k].start <= words[i].start + q < words[k].end;
    var m := moved[k - i];
    assert words[i + (k - i)] == words[k];
  }

  /** The text from one word to another holds exactly the words between. */
  lemma SliceHasWords(body: string, words: seq<Word>, i: nat, j: nat)
    requires WordsOf(body, words) && i < j <= |words|
    ensures words[i].start <= words[j - 1].end <= |body| && HasWords(body[words[i].start..words[j - 1].end], j - i)
  {
    hide WordsOf, WordsBefore, Covered, IsSpace;
    var l, r := words[i].start, words[j - 1].end;
    forall k | i <= k < j
      ensures l <= words[k].start < words[k].end <= r <= |body|
    {
      WordsWithin(body, words, i, j, k);
    }
    assert l <= words[i].start < words[i].end <= r;
    var slice := body[l..r];
    forall k | 0 <= k < j - i ensures l <= words[i..j][k].start && l <= words[i..j][k].end {
      assert words[i..j][k] == words[i + k];
    }
    var moved := MovedBack(words[i..j], l);
    forall k | 0 <= k < |moved| ensures moved[k] == Word(words[i + k].start - l, words[i + k].end - l) {
      assert words[i..j][k] == words[i + k];
    }
    MovedAreRuns(body, words, i, j, moved);
    forall q | 0 <= q < |slice| && !IsSpace(slice[q]) ensures Covered(moved, q) {
      assert slice[q] == body[l + q];
      MovedCover(body, words, i, j, moved, q);
    }
    WordsFromParts(slice, moved);
  }

  lemma WordsFromParts(text: string, words: seq<Word>)
    requires WordsBefore(text, words, |text|) && forall i | 0 <= i < |text| && !IsSpace(text[i]) :: Covered(words, i)
    ensures HasWords(text, |words|)
  {
    assert WordsOf(text, words);
  }

  lemma ChunkFaithful(text: string, path: seq<string>, start: nat, end: nat, words: seq<Word>, i: nat, j: nat, c: Chunk)
    requires start <= end <= |text| && WordsOf(text[start..end], words) && j <= i + TARGET_TOKENS
    requires ChunkOf(start, text[start..end], path, words, i, j, c)
    ensures Faithful(text, c) && c.path == path && start <= c.start && c.end <= end
  {
    hide IsSpace, HasWords, WordsOf;
    SliceHasWords(text[start..end], words, i, j);
    WordIsRun(text[start..end], words, i);
    WordIsRun(text[start..end], words, j - 1);
    WordsAscend(text[start..end], words, i, j - 1);
    WordSpan(text[start..end], words, i, j);
    SliceOfSlice(text, start, end, words[i].start, words[j - 1].end);
  }

  lemma ChunkSpans(base: nat, body: string, path: seq<string>, words: seq<Word>, i: nat, j: nat, w: nat, c: Chunk,
                   q: int)
    requires WordsOf(body, words) && ChunkOf(base, body, path, words, i, j, c) && i <= w < j
    requires words[w].start <= q < words[w].end
    ensures c.start <= base + q < c.end
  {
    hide WordsOf;
    WordsAscend(body, words, i, w);
    WordsAscend(body, words, w, j - 1);
  }

  lemma WindowCarries(base: nat, body: string, path: seq<string>, words: seq<Word>, chunks: seq<Chunk>, q: int)
    requires WordsOf(body, words) && AllWindows(base, body, path, words, chunks)
    requires 0 <= q < |body| && !IsSpace(body[q])
    ensures Carried(chunks, base + q)
  {
    hide IsSpace, WindowEnd, WindowStart, WordsBefore, ChunkOf;
    assert Covered(words, q);
    var w :| 0 <= w < |words| && words[w].start <= q < words[w].end;
    var k := EveryWordIsWindowed(|words|, |chunks| - 1, w);
    ChunkSpans(base, body, path, words, WindowStart(k), WindowEnd(k, |words|), w, chunks[k], q);
  }

  lemma WordsAscend(body: string, words: seq<Word>, i: nat, j: nat)
    requires WordsOf(body, words) && i <= j < |words|
    ensures words[i].start <= words[j].start && words[i].end <= words[j].end
  {
    WordIsRun(body, words, i);
    WordIsRun(body, words, j);
  }

  lemma SlidesChunk(text: string, path: seq<string>, start: nat, end: nat, words: seq<Word>, chunks: seq<Chunk>)
    requires start <= end <= |text| && WordsOf(text[start..end], words) && |words| > TARGET_TOKENS
    requires AllWindows(start, text[start..end], path, words, chunks)
    ensures SectionChunked(text, path, start, end, chunks)
  {
    hide IsSpace, WordsOf, ChunkOf, Faithful, Carried;
    var body := text[start..end];
    assert WindowedAs(start, body, path, words, chunks);
    forall c | c in chunks ensures Faithful(text, c) && c.path == path && start <= c.start && c.end <= end {
      var k :| 0 <= k < |chunks| && chunks[k] == c;
      ChunkFaithful(text, path, start, end, words, WindowStart(k), WindowEnd(k, |words|), c);
    }
    forall p | start <= p < end && !IsSpace(text[p]) ensures Carried(chunks, p) {
      assert body[p - start] == text[p];
      WindowCarries(start, body, path, words, chunks, p - start);
    }
  }

  lemma NothingToChunk(text: string, path: seq<string>, start: nat, end: nat)
    requires start <= end <= |text| && WordsOf(text[start..end], [])
    ensures SectionChunked(text, path, start, end, [])
  {
    assert WindowedAs(start, text[start..end], path, [], []);
    forall p | start <= p < end ensures IsSpace(text[p]) {
      assert text[start..end][p - start] == text[p];
    }
  }

  /** `_window`. */
  method Window(text: string, path: seq<string>, start: nat, end: nat) returns (chunks: seq<Chunk>)
    requires start <= end <= |text|
    ensures SectionChunked(text, path, start, end, chunks)
  {
    hide WordsOf, SectionChunked, AllWindows;
    var body := text[start..end];
    var words := Words(body);
    if words == [] {
      NothingToChunk(text, path, start, end);
      return [];
    }
    if |words| <= TARGET_TOKENS {
      var c := WholeSection(text, path, start, end, words);
      return [c];
    }
    chunks := SlideWindow(start, body, path, words);
    SlidesChunk(text, path, start, end, words, chunks);
  }
}

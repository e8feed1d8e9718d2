/** Frequent contiguous windows over action signatures (vyomel/learning/mining.py);
    the final sort is left out. */
module Mining {
  import opened Wrappers
  import S = Signatures

  type Signature = S.ActionSignature
  type TaskId = string
  type Sequences = seq<(TaskId, seq<Signature>)>

  /** A mined pattern; `support` in the code is the number of its tasks. */
  datatype Frequent = Frequent(signatures: seq<Signature>, tasks: set<TaskId>)

  datatype MiningError = BadThreshold

  /** `" > ".join(...)`. */
  function PatternKey(window: seq<Signature>): string {
    if window == [] then ""
    else if |window| == 1 then window[0].Key()
    else window[0].Key() + " > " + PatternKey(window[1..])
  }

  // ------------------------------------------------------------------ what to find

  predicate IsWindow(s: seq<Signature>, lo: nat, hi: int, length: nat, start: nat, key: string) {
    lo <= length <= hi && start + length <= |s| && PatternKey(s[start..start + length]) == key
  }

  /** Some window of allowed length in one task's sequence has the key. */
  ghost predicate Has(s: seq<Signature>, lo: nat, hi: int, key: string) {
    exists length: nat, start: nat :: IsWindow(s, lo, hi, length, start, key)
  }

  ghost predicate HasAt(sequences: Sequences, lo: nat, hi: int, i: int, key: string) {
    0 <= i < |sequences| && Has(sequences[i].1, lo, hi, key)
  }

  /** The tasks in which the key occurs. */
  ghost function Supporters(sequences: Sequences, lo: nat, hi: int, key: string): set<TaskId> {
    set i | 0 <= i < |sequences| && HasAt(sequences, lo, hi, i, key) :: sequences[i].0
  }

  /** A task supports a key exactly when some stretch of its actions, neither too short nor
      too long, has the key. */
  lemma SupportMeans(sequences: Sequences, lo: nat, hi: int, key: string, task: TaskId)
    ensures task in Supporters(sequences, lo, hi, key) <==>
            exists i, start, end ::
              && 0 <= i < |sequences| && sequences[i].0 == task
              && 0 <= start <= end <= |sequences[i].1| && lo <= end - start <= hi
              && PatternKey(sequences[i].1[start..end]) == key
  {
    if task in Supporters(sequences, lo, hi, key) {
      var i :| 0 <= i < |sequences| && HasAt(sequences, lo, hi, i, key) && sequences[i].0 == task;
      var length: nat, start: nat :| IsWindow(sequences[i].1, lo, hi, length, start, key);
      assert PatternKey(sequences[i].1[start..start + length]) == key;
    }
    if i, start, end :|
      && 0 <= i < |sequences| && sequences[i].0 == task
      && 0 <= start <= end <= |sequences[i].1| && lo <= end - start <= hi
      && PatternKey(sequences[i].1[start..end]) == key
    {
      assert IsWindow(sequences[i].1, lo, hi, end - start, start, key);
      assert HasAt(sequences, lo, hi, i, key);
    }
  }

  /** A key is its signatures' keys with the separator between them. */
  lemma {:induction false} PatternKeyJoins(xs: seq<Signature>, ys: seq<Signature>)
    requires xs != [] && ys != []
    ensures PatternKey(xs + ys) == PatternKey(xs) + " > " + PatternKey(ys)
    ensures PatternKey([xs[0]]) == xs[0].Key()
  {
    assert (xs + ys)[1..] == xs[1..] + ys;
    if |xs| > 1 {
      PatternKeyJoins(xs[1..], ys);
      assert PatternKey(xs + ys) ==
             xs[0].Key() + " > " + PatternKey(xs[1..]) + " > " + PatternKey(ys);
    } else {
      assert xs[1..] + ys == ys;
    }
  }

  // ----------------------------------------------------------------- one task's turn

  type SupportMap = map<string, (seq<Signature>, set<TaskId>)>

  function TasksAt(m: SupportMap, key: string): set<TaskId> {
    if key in m then m[key].1 else {}
  }

  /** Windows looked at before (length, start) in the two inner loops. */
  ghost predicate SeenBefore(s: seq<Signature>, lo: nat, hi: int, length: nat, start: nat, key: string) {
    exists l: nat, b: nat :: IsWindow(s, lo, hi, l, b, key) && (l < length || (l == length && b < start))
  }

  /** The map after recording `seen` for a task, from the map before that task. */
  ghost predicate Recorded(m0: SupportMap, m: SupportMap, task: TaskId, seen: set<string>) {
    && (forall key :: key in m <==> key in m0 || key in seen)
    && (forall key {:trigger TasksAt(m, key)} ::
        TasksAt(m, key) == TasksAt(m0, key) + if key in seen then {task} else {})
  }

  predicate WindowAt(s: seq<Signature>, start: nat, window: seq<Signature>) {
    start + |window| <= |s| && s[start..start + |window|] == window
  }

  /** The signatures are a window of allowed length of one task's sequence. */
  ghost predicate OccursIn(s: seq<Signature>, lo: nat, hi: int, window: seq<Signature>) {
    lo <= |window| <= hi && exists start: nat :: WindowAt(s, start, window)
  }

  ghost predicate Occurs(sequences: Sequences, lo: nat, hi: int, window: seq<Signature>) {
    exists i | 0 <= i < |sequences| :: OccursIn(sequences[i].1, lo, hi, window)
  }

  /** Every stored window is one of the sequences' own, under its key. */
  ghost predicate Keyed(sequences: Sequences, lo: nat, hi: int, m: SupportMap) {
    forall key <- m :: PatternKey(m[key].0) == key && Occurs(sequences, lo, hi, m[key].0)
  }

  /** A key keeps the window it was first recorded with. */
  ghost predicate KeepsWindows(m0: SupportMap, m: SupportMap) {
    forall key <- m0 :: key in m && m[key].0 == m0[key].0
  }

  method RecordWindow(m0: SupportMap, task: TaskId, seen0: set<string>, window: seq<Signature>, ghost base: SupportMap,
                      ghost sequences: Sequences, ghost lo: nat, ghost hi: int)
    returns (m: SupportMap, seen: set<string>)
    requires Recorded(base, m0, task, seen0) && Keyed(sequences, lo, hi, m0) && Occurs(sequences, lo, hi, window)
    ensures seen == seen0 + {PatternKey(window)} && Recorded(base, m, task, seen) && Keyed(sequences, lo, hi, m)
    ensures KeepsWindows(m0, m) && (PatternKey(window) !in m0 ==> m[PatternKey(window)].0 == window)
  {
    hide Occurs, PatternKey;
    var key := PatternKey(window);
    m, seen := m0, seen0 + {key};
    if key in seen0 {
      assert seen == seen0;
      return;
    }
    assert TasksAt(m0, key) == TasksAt(base, key);
    if key !in m { m := m[key := (window, {})]; }
    m := m[key := (m[key].0, m[key].1 + {task})];
    forall k: string ensures TasksAt(m, k) == TasksAt(base, k) + if k in seen then {task} else {} {
      assert TasksAt(m0, k) == TasksAt(base, k) + if k in seen0 then {task} else {};
    }
  }

  lemma SeenNext(s: seq<Signature>, lo: nat, hi: int, length: nat, start: nat, key: string)
    requires lo <= length <= hi && start + length <= |s|
    ensures SeenBefore(s, lo, hi, length, start + 1, key) <==>
            SeenBefore(s, lo, hi, length, start, key) || key == PatternKey(s[start..start + length])
  {
    if SeenBefore(s, lo, hi, length, start + 1, key) && !SeenBefore(s, lo, hi, length, start, key) {
      var l: nat, b: nat :| IsWindow(s, lo, hi, l, b, key) && (l < length || (l == length && b < start + 1));
      assert l == length && b == start;
    }
    if key == PatternKey(s[start..start + length]) { assert IsWindow(s, lo, hi, length, start, key); }
  }

  lemma LengthDone(s: seq<Signature>, lo: nat, hi: int, length: nat, start: nat, key: string)
    requires start + length > |s|
    ensures SeenBefore(s, lo, hi, length, start, key) <==> SeenBefore(s, lo, hi, length + 1, 0, key)
  {
    if SeenBefore(s, lo, hi, length + 1, 0, key) {
      var l: nat, b: nat :| IsWindow(s, lo, hi, l, b, key) && (l < length + 1 || (l == length + 1 && b < 0));
      assert l < length || (l == length && b < start);
    }
  }

  lemma WindowOccurs(sequences: Sequences, s: seq<Signature>, lo: nat, hi: int, length: nat, start: nat)
    requires Belongs(sequences, s) && lo <= length <= hi && start + length <= |s|
    ensures Occurs(sequences, lo, hi, s[start..start + length])
  {
    var i :| 0 <= i < |sequences| && sequences[i].1 == s;
    assert WindowAt(s, start, s[start..start + length]);
    assert OccursIn(sequences[i].1, lo, hi, s[start..start + length]);
  }

  ghost predicate Belongs(sequences: Sequences, s: seq<Signature>) {
    exists i | 0 <= i < |sequences| :: sequences[i].1 == s
  }

  /** The windows of one length. */
  method MineLength(m0: SupportMap, task: TaskId, s: seq<Signature>, lo: nat, hi: int, length: nat, seen0: set<string>,
                    ghost base: SupportMap, ghost sequences: Sequences)
    returns (m: SupportMap, seen: set<string>)
    requires lo <= length <= hi && length <= |s| && Belongs(sequences, s)
    requires Recorded(base, m0, task, seen0) && Keyed(sequences, lo, hi, m0)
    requires forall key :: key in seen0 <==> SeenBefore(s, lo, hi, length, 0, key)
    ensures Recorded(base, m, task, seen) && Keyed(sequences, lo, hi, m) && KeepsWindows(m0, m)
    ensures forall key :: key in seen <==> SeenBefore(s, lo, hi, length + 1, 0, key)
  {
    hide Recorded, Keyed, SeenBefore, Belongs, Occurs;
    m, seen := m0, seen0;
    var start: nat := 0;
    while start < |s| - length + 1
      invariant start <= |s| - length + 1
      invariant Recorded(base, m, task, seen) && Keyed(sequences, lo, hi, m) && KeepsWindows(m0, m)
      invariant forall key :: key in seen <==> SeenBefore(s, lo, hi, length, start, key)
    {
      forall key { SeenNext(s, lo, hi, length, start, key); }
      WindowOccurs(sequences, s, lo, hi, length, start);
      m, seen := RecordWindow(m, task, seen, s[start..start + length], base, sequences, lo, hi);
      start := start + 1;
    }
    forall key { LengthDone(s, lo, hi, length, start, key); }
  }

  /** One task: each key counts it once, however often the window recurs. */
  method MineTask(m0: SupportMap, task: TaskId, s: seq<Signature>, lo: nat, hi: int, ghost sequences: Sequences)
    returns (m: SupportMap, ghost seen: set<string>)
    requires Belongs(sequences, s) && Keyed(sequences, lo, hi, m0)
    ensures Recorded(m0, m, task, seen) && Keyed(sequences, lo, hi, m) && KeepsWindows(m0, m)
    ensures forall key :: key in seen <==> Has(s, lo, hi, key)
  {
    hide Recorded, Keyed, SeenBefore, Belongs;
    m := m0;
    NothingRecorded(m0, task);
    if |s| < lo {
      forall key ensures !Has(s, lo, hi, key) {}
      return m, {};
    }
    var seenInTask: set<string> := {};
    var upper := if |s| < hi then |s| else hi;
    var length := lo;
    forall key { NothingSeen(s, lo, hi, key); }
    while length <= upper
      invariant length >= lo && (length <= upper + 1 || length == lo)
      invariant Recorded(m0, m, task, seenInTask) && Keyed(sequences, lo, hi, m) && KeepsWindows(m0, m)
      invariant forall key :: key in seenInTask <==> SeenBefore(s, lo, hi, length, 0, key)
      decreases upper + 1 - length
    {
      m, seenInTask := MineLength(m, task, s, lo, hi, length, seenInTask, m0, sequences);
      length := length + 1;
    }
    forall key { AllSeen(s, lo, hi, length, key); }
    return m, seenInTask;
  }

  lemma NothingRecorded(m: SupportMap, task: TaskId)
    ensures Recorded(m, m, task, {})
  {
  }

  lemma NothingSeen(s: seq<Signature>, lo: nat, hi: int, key: string)
    ensures !SeenBefore(s, lo, hi, lo, 0, key)
  {
  }

  lemma AllSeen(s: seq<Signature>, lo: nat, hi: int, length: nat, key: string)
    requires length > |s| || length > hi
    ensures SeenBefore(s, lo, hi, length, 0, key) <==> Has(s, lo, hi, key)
  {
    if Has(s, lo, hi, key) {
      var l: nat, b: nat :| IsWindow(s, lo, hi, l, b, key);
      assert l < length;
    }
  }

  // ------------------------------------------------------------------- all the tasks

  /** The map holds, for every key, exactly the tasks it occurs in. */
  ghost predicate Exact(sequences: Sequences, lo: nat, hi: int, m: SupportMap) {
    && (forall key {:trigger TasksAt(m, key)} :: TasksAt(m, key) == Supporters(sequences, lo, hi, key))
    && (forall key <- m :: m[key].1 != {})
  }

  lemma ExactNext(sequences: Sequences, lo: nat, hi: int, n: nat, m0: SupportMap, m: SupportMap, seen: set<string>)
    requires n < |sequences| && Exact(sequences[..n], lo, hi, m0)
    requires Recorded(m0, m, sequences[n].0, seen) && forall key :: key in seen <==> Has(sequences[n].1, lo, hi, key)
    ensures Exact(sequences[..n + 1], lo, hi, m)
  {
    forall key ensures TasksAt(m, key) == Supporters(sequences[..n + 1], lo, hi, key) {
      SupportersNext(sequences, lo, hi, n, key);
      assert TasksAt(m0, key) == Supporters(sequences[..n], lo, hi, key);
    }
    forall key | key in m ensures m[key].1 != {} {
      assert TasksAt(m, key) == TasksAt(m0, key) + if key in seen then {sequences[n].0} else {};
      assert key in m0 ==> TasksAt(m0, key) != {};
    }
  }

  lemma SupportersNext(sequences: Sequences, lo: nat, hi: int, n: nat, key: string)
    requires n < |sequences|
    ensures Supporters(sequences[..n + 1], lo, hi, key) ==
            Supporters(sequences[..n], lo, hi, key) + if Has(sequences[n].1, lo, hi, key) then {sequences[n].0} else {}
  {
    var xs, ys := sequences[..n], sequences[..n + 1];
    forall i
      ensures HasAt(ys, lo, hi, i, key) <==> HasAt(xs, lo, hi, i, key) || (i == n && Has(sequences[n].1, lo, hi, key))
    {}
    forall t ensures t in Supporters(ys, lo, hi, key) <==>
                     t in Supporters(xs, lo, hi, key) || (Has(sequences[n].1, lo, hi, key) && t == sequences[n].0)
    {
      if t in Supporters(ys, lo, hi, key) {
        var i :| 0 <= i < |ys| && HasAt(ys, lo, hi, i, key) && ys[i].0 == t;
        if i < n { assert HasAt(xs, lo, hi, i, key) && xs[i].0 == t; }
      }
      if t in Supporters(xs, lo, hi, key) {
        var i :| 0 <= i < |xs| && HasAt(xs, lo, hi, i, key) && xs[i].0 == t;
        assert HasAt(ys, lo, hi, i, key) && ys[i].0 == t;
      }
      if Has(sequences[n].1, lo, hi, key) && t == sequences[n].0 { assert HasAt(ys, lo, hi, n, key) && ys[n].0 == t; }
    }
  }

  method CollectSupport(sequences: Sequences, lo: nat, hi: int) returns (m: SupportMap)
    ensures Exact(sequences, lo, hi, m) && Keyed(sequences, lo, hi, m)
  {
    m := map[];
    for n := 0 to |sequences|
      invariant Exact(sequences[..n], lo, hi, m) && Keyed(sequences, lo, hi, m)
    {
      ghost var m0 := m;
      ghost var seen;
      m, seen := MineTask(m, sequences[n].0, sequences[n].1, lo, hi, sequences);
      ExactNext(sequences, lo, hi, n, m0, m, seen);
    }
    assert sequences[..|sequences|] == sequences;
  }

  // -------------------------------------------------------------------- the results

  /** Sound and complete: each pattern is a window of allowed length of some task; the keys
      of the patterns are exactly those that occur in enough distinct tasks, each once and
      with exactly its tasks. */
  ghost predicate MinedExactly(sequences: Sequences, minSupport: nat, lo: nat, hi: int, results: seq<Frequent>) {
    && (forall r <- results :: Occurs(sequences, lo, hi, r.signatures))
    && (forall r <- results :: r.tasks == Supporters(sequences, lo, hi, PatternKey(r.signatures)))
    && (forall key: string :: |Supporters(sequences, lo, hi, key)| >= minSupport <==>
        exists r <- results :: PatternKey(r.signatures) == key)
    && (forall i, j | 0 <= i < j < |results| :: PatternKey(results[i].signatures) != PatternKey(results[j].signatures))
  }

  ghost predicate Filtered(m: SupportMap, minSupport: nat, todo: set<string>, results: seq<Frequent>) {
    && (forall r <- results :: PatternKey(r.signatures) in m && PatternKey(r.signatures) !in todo
                               && r == Frequent(m[PatternKey(r.signatures)].0, m[PatternKey(r.signatures)].1)
                               && |r.tasks| >= minSupport)
    && (forall key <- m :: key !in todo && |m[key].1| >= minSupport ==>
          exists r <- results :: PatternKey(r.signatures) == key)
    && (forall i, j | 0 <= i < j < |results| :: PatternKey(results[i].signatures) != PatternKey(results[j].signatures))
  }

  lemma FilterNext(m: SupportMap, minSupport: nat, todo: set<string>, results: seq<Frequent>, key: string)
    requires key in todo && key in m && PatternKey(m[key].0) == key && Filtered(m, minSupport, todo, results)
    ensures Filtered(m, minSupport, todo - {key},
                     if |m[key].1| >= minSupport then results + [Frequent(m[key].0, m[key].1)] else results)
  {
    var r := Frequent(m[key].0, m[key].1);
    if |m[key].1| >= minSupport {
      var more := results + [r];
      forall i | 0 <= i < |results| ensures PatternKey(results[i].signatures) != key { assert results[i] in results; }
      forall k | k in m && k !in todo - {key} && |m[k].1| >= minSupport
        ensures exists q <- more :: PatternKey(q.signatures) == k
      {
        if k == key { assert r in more; }
        else {
          var q :| q in results && PatternKey(q.signatures) == k;
          assert q in more;
        }
      }
    }
  }

  lemma FilteredIsExact(sequences: Sequences, minSupport: nat, lo: nat, hi: int, m: SupportMap, results: seq<Frequent>)
    requires Exact(sequences, lo, hi, m) && Keyed(sequences, lo, hi, m)
    requires Filtered(m, minSupport, {}, results) && minSupport >= 1
    ensures MinedExactly(sequences, minSupport, lo, hi, results)
  {
    forall r | r in results ensures r.tasks == Supporters(sequences, lo, hi, PatternKey(r.signatures)) {
      assert TasksAt(m, PatternKey(r.signatures)) == r.tasks;
    }
    forall key: string
      ensures |Supporters(sequences, lo, hi, key)| >= minSupport <==>
              exists r <- results :: PatternKey(r.signatures) == key
    {
      assert TasksAt(m, key) == Supporters(sequences, lo, hi, key);
    }
  }

  /** `mine_frequent_sequences` before pruning. */
  method Frequents(sequences: Sequences, minSupport: int, minLength: int, maxLength: int)
    returns (r: Result<seq<Frequent>, MiningError>)
    ensures r.Ok? <==> minSupport >= 1 && minLength >= 1
    ensures r.Ok? ==> MinedExactly(sequences, minSupport, minLength, maxLength, r.value)
  {
    hide Exact, Filtered, Keyed, MinedExactly;
    if minSupport < 1 || minLength < 1 { return Err(BadThreshold); }
    var m := CollectSupport(sequences, minLength, maxLength);
    var results: seq<Frequent> := [];
    var todo := m.Keys;
    NothingFiltered(m, minSupport);
    while todo != {}
      invariant todo <= m.Keys && Filtered(m, minSupport, todo, results)
      decreases todo
    {
      var key :| key in todo;
      KeyOfWindow(sequences, minLength, maxLength, m, key);
      FilterNext(m, minSupport, todo, results, key);
      if |m[key].1| >= minSupport { results := results + [Frequent(m[key].0, m[key].1)]; }
      todo := todo - {key};
    }
    FilteredIsExact(sequences, minSupport, minLength, maxLength, m, results);
    return Ok(results);
  }

  lemma NothingFiltered(m: SupportMap, minSupport: nat)
    ensures Filtered(m, minSupport, m.Keys, [])
  {
  }

  lemma KeyOfWindow(sequences: Sequences, lo: nat, hi: int, m: SupportMap, key: string)
    requires Keyed(sequences, lo, hi, m) && key in m
    ensures PatternKey(m[key].0) == key
  {
  }

  // ------------------------------------------------------------------------ pruning

  predicate FoundAt(hay: string, needle: string, i: int) {
    0 <= i <= |hay| - |needle| && hay[i..i + |needle|] == needle
  }

  /** `needle in hay`. */
  predicate Contains(hay: string, needle: string) {
    exists i | 0 <= i <= |hay| :: FoundAt(hay, needle, i)
  }

  predicate Dominates(other: Frequent, candidate: Frequent) {
    && |other.tasks| >= |candidate.tasks| && |other.signatures| > |candidate.signatures|
    && Contains(PatternKey(other.signatures), PatternKey(candidate.signatures))
  }

  ghost predicate IsPartOf(needle: string, hay: string) {
    exists before, after :: hay == before + needle + after
  }

  lemma ContainsMeans(hay: string, needle: string)
    ensures Contains(hay, needle) <==> IsPartOf(needle, hay)
  {
    if Contains(hay, needle) {
      var i :| 0 <= i <= |hay| && FoundAt(hay, needle, i);
      assert hay == hay[..i] + needle + hay[i + |needle|..];
    }
    if before, after :| hay == before + needle + after {
      assert FoundAt(hay, needle, |before|);
    }
  }

  /** A longer pattern at least as frequent prunes one whose key its own holds as text. */
  lemma DominatesMeans(longer: Frequent, shorter: Frequent)
    ensures Dominates(longer, shorter) <==>
            && |longer.tasks| >= |shorter.tasks| && |longer.signatures| > |shorter.signatures|
            && IsPartOf(PatternKey(shorter.signatures), PatternKey(longer.signatures))
  {
    hide PatternKey, Contains, IsPartOf;
    ContainsMeans(PatternKey(longer.signatures), PatternKey(shorter.signatures));
  }

  predicate Dominated(items: seq<Frequent>, candidate: Frequent) {
    exists o <- items :: Dominates(o, candidate)
  }

  /** `_drop_dominated`: keeps, in order, exactly the items nothing dominates. */
  method DropDominated(items: seq<Frequent>) returns (kept: seq<Frequent>)
    ensures forall x :: x in kept <==> x in items && !Dominated(items, x)
  {
    kept := [];
    for i := 0 to |items|
      invariant forall x :: x in kept <==> x in items[..i] && !Dominated(items, x)
    {
      var candidate := items[i];
      var dominated := false;
      for j := 0 to |items|
        invariant dominated <==> exists o <- items[..j] :: Dominates(o, candidate)
      {
        assert items[..j + 1] == items[..j] + [items[j]];
        if j != i && Dominates(items[j], candidate) { dominated := true; }
      }
      assert items[..|items|] == items && items[..i + 1] == items[..i] + [candidate];
      if !dominated { kept := kept + [candidate]; }
    }
    assert items[..|items|] == items;
  }

  lemma FoundInside(a: string, b: string, c: string, i: int, j: int)
    requires FoundAt(a, b, i) && FoundAt(b, c, j)
    ensures FoundAt(a, c, i + j)
  {
    forall k | 0 <= k < |c| ensures a[i + j..i + j + |c|][k] == c[k] {
      assert a[i..i + |b|][j + k] == b[j + k] == b[j..j + |c|][k];
    }
  }

  lemma ContainsTransitive(a: string, b: string, c: string)
    requires Contains(a, b) && Contains(b, c)
    ensures Contains(a, c)
  {
    var i: int :| 0 <= i <= |a| && FoundAt(a, b, i);
    var j: int :| 0 <= j <= |b| && FoundAt(b, c, j);
    FoundInside(a, b, c, i, j);
  }

  lemma DominatesTransitive(a: Frequent, b: Frequent, c: Frequent)
    requires Dominates(a, b) && Dominates(b, c)
    ensures Dominates(a, c)
  {
    ContainsTransitive(PatternKey(a.signatures), PatternKey(b.signatures), PatternKey(c.signatures));
  }

  /** Nothing is lost by pruning: each dropped pattern has a kept one that is strictly
      longer, at least as frequent, and whose key contains its own. */
  lemma {:induction false} DroppedHasKeptDominator(items: seq<Frequent>, dropped: Frequent, bound: nat)
    returns (keeper: Frequent)
    requires Dominated(items, dropped) && forall x <- items :: |x.signatures| <= bound
    ensures keeper in items && !Dominated(items, keeper) && Dominates(keeper, dropped)
    decreases bound - |dropped.signatures|
  {
    keeper :| keeper in items && Dominates(keeper, dropped);
    if Dominated(items, keeper) {
      var middle := keeper;
      keeper := DroppedHasKeptDominator(items, middle, bound);
      DominatesTransitive(keeper, middle, dropped);
    }
  }

  /** `mine_frequent_sequences`. */
  method Mine(sequences: Sequences, minSupport: int, minLength: int, maxLength: int)
    returns (r: Result<seq<Frequent>, MiningError>, ghost all: seq<Frequent>)
    ensures r.Ok? <==> minSupport >= 1 && minLength >= 1
    ensures r.Ok? ==> MinedExactly(sequences, minSupport, minLength, maxLength, all)
    ensures r.Ok? ==> forall x :: x in r.value <==> x in all && !Dominated(all, x)
  {
    all := [];
    var found := Frequents(sequences, minSupport, minLength, maxLength);
    if found.Err? { return Err(found.error), all; }
    all := found.value;
    var kept := DropDominated(found.value);
    return Ok(kept), all;
  }
}

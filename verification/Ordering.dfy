/** Python's `sorted` over a set of strings: by code point, the shorter first on a tie. */
module Ordering {
  import opened Graph

  predicate Less(a: string, b: string) {
    if b == "" then false
    else if a == "" then true
    else if a[0] != b[0] then a[0] < b[0]
    else Less(a[1..], b[1..])
  }

  /** The texts agree up to k and the first is smaller there. */
  ghost predicate FirstDiffer(a: string, b: string, k: nat) {
    k < |a| && k < |b| && a[..k] == b[..k] && a[k] < b[k]
  }

  lemma DifferLater(a: string, b: string)
    requires a != "" && b != "" && a[0] == b[0]
    ensures (a < b || exists k: nat :: FirstDiffer(a, b, k)) <==>
            a[1..] < b[1..] || exists k: nat :: FirstDiffer(a[1..], b[1..], k)
  {
    var x, y := a[1..], b[1..];
    assert a == [a[0]] + x && b == [b[0]] + y;
    if k: nat :| FirstDiffer(x, y, k) {
      assert a[..k + 1] == [a[0]] + x[..k] && b[..k + 1] == [b[0]] + y[..k];
      assert FirstDiffer(a, b, k + 1);
    }
    if k: nat :| FirstDiffer(a, b, k) {
      assert k > 0;
      assert x[..k - 1] == a[..k][1..] && y[..k - 1] == b[..k][1..];
      assert FirstDiffer(x, y, k - 1);
    }
  }

  /** One text is less than another when it is a proper beginning of it, or has the smaller
      character where they first differ. */
  lemma {:induction false} LessMeans(a: string, b: string)
    ensures Less(a, b) <==> a < b || exists k: nat :: FirstDiffer(a, b, k)
  {
    if a != "" && b != "" {
      if a[0] == b[0] {
        LessMeans(a[1..], b[1..]);
        DifferLater(a, b);
      } else {
        assert a[..0] == b[..0];
        assert FirstDiffer(a, b, 0) <==> a[0] < b[0];
        forall k: nat | 0 < k ensures !FirstDiffer(a, b, k) {
          if k < |a| && k < |b| { assert a[..k][0] != b[..k][0]; }
        }
      }
    }
  }

  lemma {:induction false} LessIsTotal(a: string, b: string)
    ensures Less(a, b) || a == b || Less(b, a)
  {
    if a != "" && b != "" && a[0] == b[0] {
      LessIsTotal(a[1..], b[1..]);
      assert a == [a[0]] + a[1..] && b == [b[0]] + b[1..];
    }
  }

  lemma {:induction false} LessIsOneWay(a: string, b: string)
    requires Less(a, b)
    ensures !Less(b, a) && a != b
  {
    if a != "" && b != "" && a[0] == b[0] { LessIsOneWay(a[1..], b[1..]); }
  }

  lemma {:induction false} LessIsTransitive(a: string, b: string, c: string)
    requires Less(a, b) && Less(b, c)
    ensures Less(a, c)
  {
    if a != "" && a[0] == b[0] == c[0] { LessIsTransitive(a[1..], b[1..], c[1..]); }
  }

  ghost predicate Ascending(l: seq<string>) {
    forall i, j | 0 <= i < j < |l| :: Less(l[i], l[j])
  }

  /** A listing of the set in ascending order. */
  ghost predicate Sorts(l: seq<string>, s: set<string>) {
    Lists(l, s) && Ascending(l)
  }

  function Insert(x: string, l: seq<string>): seq<string> {
    if l == [] then [x]
    else if Less(x, l[0]) then [x] + l
    else [l[0]] + Insert(x, l[1..])
  }

  lemma {:induction false} InsertAdds(x: string, l: seq<string>, y: string)
    ensures y in Insert(x, l) <==> y == x || y in l
  {
    if l != [] && !Less(x, l[0]) {
      InsertAdds(x, l[1..], y);
      assert y in l <==> y == l[0] || y in l[1..] by { assert l == [l[0]] + l[1..]; }
    }
  }

  lemma {:induction false} InsertAscends(x: string, l: seq<string>)
    requires Ascending(l) && x !in l
    ensures Ascending(Insert(x, l))
  {
    var r := Insert(x, l);
    if l == [] {
    } else if Less(x, l[0]) {
      forall j | 0 < j < |r| ensures Less(r[0], r[j]) {
        if j > 1 { LessIsTransitive(x, l[0], l[j - 1]); }
      }
    } else {
      InsertAscends(x, l[1..]);
      forall j | 0 < j < |r| ensures Less(r[0], r[j]) {
        InsertAdds(x, l[1..], r[j]);
        assert r[j] == Insert(x, l[1..])[j - 1];
        if r[j] == x { LessIsTotal(x, l[0]); }
      }
    }
  }

  lemma AscendingIsDistinct(l: seq<string>)
    requires Ascending(l)
    ensures NoDuplicates(l)
  {
    forall i, j | 0 <= i < j < |l| ensures l[i] != l[j] { LessIsOneWay(l[i], l[j]); }
  }

  lemma InsertSorts(x: string, l: seq<string>, s: set<string>)
    requires x in s && Sorts(l, s - {x})
    ensures Sorts(Insert(x, l), s)
  {
    InsertAscends(x, l);
    AscendingIsDistinct(Insert(x, l));
    forall y ensures y in Insert(x, l) <==> y in s { InsertAdds(x, l, y); }
  }

  /** `sorted`. */
  ghost function Sorted(s: set<string>): (l: seq<string>)
    ensures Sorts(l, s)
  {
    if s == {} then []
    else
      var x :| x in s;
      InsertSorts(x, Sorted(s - {x}), s);
      Insert(x, Sorted(s - {x}))
  }

  lemma FirstIsLeast(l: seq<string>, s: set<string>, y: string)
    requires Sorts(l, s) && y in s
    ensures l != [] && (y == l[0] || Less(l[0], y))
  {
    assert y in l;
  }

  lemma TailSorts(l: seq<string>, s: set<string>)
    requires Sorts(l, s) && l != []
    ensures Sorts(l[1..], s - {l[0]})
  {
    assert l == [l[0]] + l[1..];
  }

  lemma SameLength(l: seq<string>, m: seq<string>, s: set<string>)
    requires Sorts(l, s) && Sorts(m, s)
    ensures |l| == |m|
  {
    ListedCount(l, s);
    ListedCount(m, s);
  }

  lemma FirstListed(l: seq<string>, s: set<string>)
    requires Sorts(l, s) && l != []
    ensures l[0] in s
  {
  }

  /** There is one ascending listing of a set. */
  lemma {:induction false} SortedIsUnique(l: seq<string>, m: seq<string>, s: set<string>)
    requires Sorts(l, s) && Sorts(m, s)
    ensures l == m
    decreases |l|
  {
    hide Sorts;
    SameLength(l, m, s);
    if l != [] {
      FirstListed(l, s);
      FirstListed(m, s);
      FirstIsLeast(m, s, l[0]);
      FirstIsLeast(l, s, m[0]);
      if l[0] != m[0] { LessIsOneWay(l[0], m[0]); }
      TailSorts(l, s);
      TailSorts(m, s);
      SortedIsUnique(l[1..], m[1..], s - {l[0]});
      assert l == [l[0]] + l[1..] && m == [m[0]] + m[1..];
    }
  }
}

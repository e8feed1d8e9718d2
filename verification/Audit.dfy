/** The hash-chained audit log (vyomel/security/audit.py). The digest is a
    parameter: `digest(prev_hash or "", row id, body)`. */
module Audit {
  import opened Wrappers

  type Hash = string

  /** A row: its id, everything else that is signed, and the chain. */
  datatype Record<B> = Record(id: int, body: B, prev: Option<Hash>, hash: Hash)

  type Digest<!B> = (Hash, int, B) -> Hash

  function PrevText(prev: Option<Hash>): Hash {
    if prev.Some? then prev.value else ""
  }

  predicate Reproduces<B>(digest: Digest<B>, row: Record<B>) {
    digest(PrevText(row.prev), row.id, row.body) == row.hash
  }

  /** What the row at position k must name as its predecessor. */
  function Expected<B>(prev: Option<Hash>, rows: seq<Record<B>>, k: nat): Option<Hash>
    requires k < |rows|
  {
    if k == 0 then prev else Some(rows[k - 1].hash)
  }

  predicate RowHolds<B>(digest: Digest<B>, prev: Option<Hash>, rows: seq<Record<B>>, k: nat)
    requires k < |rows|
  {
    rows[k].prev == Expected(prev, rows, k) && Reproduces(digest, rows[k])
  }

  /** Every row links to the one before it and reproduces. */
  ghost predicate Chained<B(!new)>(digest: Digest<B>, prev: Option<Hash>, rows: seq<Record<B>>) {
    forall k | 0 <= k < |rows| :: RowHolds(digest, prev, rows, k)
  }

  ghost predicate AscendingIds<B(!new)>(rows: seq<Record<B>>) {
    forall i, j | 0 <= i < j < |rows| :: rows[i].id < rows[j].id
  }

  datatype Report = Report(ok: bool, rows: nat, firstDivergence: Option<int>)

  /** The rows a verification from `start` looks at. */
  function Cut<B>(rows: seq<Record<B>>, start: Option<int>): (k: nat)
    ensures k <= |rows|
  {
    if start.None? || rows == [] || rows[0].id >= start.value then 0 else 1 + Cut(rows[1..], start)
  }

  function SeedOf<B>(rows: seq<Record<B>>, k: nat): Option<Hash>
    requires k <= |rows|
  {
    if k == 0 then None else Some(rows[k - 1].hash)
  }

  /** A report about exactly these rows: clean when all hold, and otherwise naming the
      earliest that does not. */
  ghost predicate Reports<B(!new)>(digest: Digest<B>, seed: Option<Hash>, rows: seq<Record<B>>, r: Report) {
    && r.rows == |rows| && (r.ok <==> r.firstDivergence.None?)
    && (r.ok <==> Chained(digest, seed, rows))
    && (!r.ok ==> exists i | 0 <= i < |rows| ::
          && r.firstDivergence == Some(rows[i].id) && !RowHolds(digest, seed, rows, i)
          && forall j | 0 <= j < i :: RowHolds(digest, seed, rows, j))
  }

  lemma {:induction false} CutMeans<B(!new)>(rows: seq<Record<B>>, start: int)
    requires AscendingIds(rows)
    ensures forall i | 0 <= i < |rows| :: i < Cut(rows, Some(start)) <==> rows[i].id < start
  {
    if rows != [] && rows[0].id < start {
      CutMeans(rows[1..], start);
      forall i | 0 < i < |rows| ensures i < Cut(rows, Some(start)) <==> rows[i].id < start {
        assert rows[1..][i - 1] == rows[i];
      }
    }
  }

  /** The row names the one before it, when there is one, and its hash is that of what it
      names, its id and its body. */
  ghost predicate Holds<B(!new)>(digest: Digest<B>, rows: seq<Record<B>>, i: nat)
    requires i < |rows|
  {
    && rows[i].prev == (if i == 0 then None else Some(rows[i - 1].hash))
    && rows[i].hash == digest(if rows[i].prev == None then "" else rows[i].prev.value, rows[i].id, rows[i].body)
  }

  /** A report from `start` on: the rows with that id or a later one, the earliest of them
      that does not hold, and a clean bill exactly when all of them do. */
  ghost predicate Finds<B(!new)>(digest: Digest<B>, rows: seq<Record<B>>, start: Option<int>, r: Report) {
    r.rows <= |rows| &&
    var k := |rows| - r.rows;
    && (forall i | 0 <= i < |rows| :: i < k <==> start.Some? && rows[i].id < start.value)
    && (r.ok <==> forall i | k <= i < |rows| :: Holds(digest, rows, i))
    && (r.firstDivergence == None <==> r.ok)
    && (!r.ok ==> exists i | k <= i < |rows| ::
          r.firstDivergence == Some(rows[i].id) && !Holds(digest, rows, i)
          && forall j | k <= j < i :: Holds(digest, rows, j))
  }

  lemma HoldsInSuffix<B(!new)>(digest: Digest<B>, rows: seq<Record<B>>, k: nat, i: nat)
    requires k <= i < |rows|
    ensures RowHolds(digest, SeedOf(rows, k), rows[k..], i - k) <==> Holds(digest, rows, i)
  {
  }

  lemma ChainedFrom<B(!new)>(digest: Digest<B>, rows: seq<Record<B>>, k: nat)
    requires k <= |rows|
    ensures Chained(digest, SeedOf(rows, k), rows[k..]) <==> forall i | k <= i < |rows| :: Holds(digest, rows, i)
  {
    hide RowHolds, Holds, SeedOf;
    forall i | k <= i < |rows| { HoldsInSuffix(digest, rows, k, i); }
    if forall i | k <= i < |rows| :: Holds(digest, rows, i) {
      forall j | 0 <= j < |rows| - k ensures RowHolds(digest, SeedOf(rows, k), rows[k..], j) {
        assert Holds(digest, rows, k + j);
      }
    } else {
      var i :| k <= i < |rows| && !Holds(digest, rows, i);
      assert !RowHolds(digest, SeedOf(rows, k), rows[k..], i - k);
    }
  }

  lemma FirstFound<B(!new)>(digest: Digest<B>, rows: seq<Record<B>>, k: nat, i: nat)
    requires k + i < |rows| && !RowHolds(digest, SeedOf(rows, k), rows[k..], i)
    requires forall j | 0 <= j < i :: RowHolds(digest, SeedOf(rows, k), rows[k..], j)
    ensures !Holds(digest, rows, k + i) && rows[k..][i] == rows[k + i]
    ensures forall j | k <= j < k + i :: Holds(digest, rows, j)
  {
    hide RowHolds, Holds, SeedOf;
    HoldsInSuffix(digest, rows, k, k + i);
    forall j | k <= j < k + i ensures Holds(digest, rows, j) {
      HoldsInSuffix(digest, rows, k, j);
      assert RowHolds(digest, SeedOf(rows, k), rows[k..], j - k);
    }
  }

  lemma ReportFinds<B(!new)>(digest: Digest<B>, rows: seq<Record<B>>, start: Option<int>, r: Report)
    requires AscendingIds(rows)
    requires var k := Cut(rows, start); Reports(digest, SeedOf(rows, k), rows[k..], r)
    ensures Finds(digest, rows, start, r)
  {
    hide RowHolds, Holds, SeedOf, Chained, AscendingIds;
    var k := Cut(rows, start);
    if start.Some? { CutMeans(rows, start.value); }
    ChainedFrom(digest, rows, k);
    if !r.ok {
      var i :| 0 <= i < |rows| - k && r.firstDivergence == Some(rows[k..][i].id)
               && !RowHolds(digest, SeedOf(rows, k), rows[k..], i)
               && forall j | 0 <= j < i :: RowHolds(digest, SeedOf(rows, k), rows[k..], j);
      FirstFound(digest, rows, k, i);
    }
  }

  class AuditTrail<B(==,!new)> {
    const digest: Digest<B>
    var rows: seq<Record<B>>
    var sequence: int

    ghost predicate Valid()
      reads this
    {
      && Chained(digest, None, rows) && AscendingIds(rows)
      && forall r <- rows :: r.id < sequence
    }

    constructor (digest: Digest<B>)
      ensures Valid() && rows == [] && this.digest == digest
    {
      this.digest := digest;
      rows, sequence := [], 1;
    }

    /** A rolled-back append burns a sequence value and leaves a gap. */
    method Burn()
      requires Valid()
      modifies this`sequence
      ensures Valid() && sequence == old(sequence) + 1
    {
      sequence := sequence + 1;
    }

    /** `append`: one row linked to the last, so a log built this way always verifies. */
    method Append(body: B) returns (record: Record<B>)
      requires Valid()
      modifies this
      ensures Valid() && rows == old(rows) + [record]
      ensures record.id == old(sequence) && record.body == body && sequence == old(sequence) + 1
      ensures record.prev == if old(rows) == [] then None else Some(old(rows)[|old(rows)| - 1].hash)
      ensures record.hash == digest(if old(rows) == [] then "" else old(rows)[|old(rows)| - 1].hash, record.id, body)
    {
      var prev := if rows == [] then None else Some(rows[|rows| - 1].hash);
      var id := sequence;
      sequence := sequence + 1;
      record := Record(id, body, prev, digest(PrevText(prev), id, body));
      ghost var before := rows;
      rows := rows + [record];
      forall k | 0 <= k < |rows| ensures RowHolds(digest, None, rows, k) {
        if k < |before| { assert RowHolds(digest, None, before, k); }
      }
    }

    /** `verify` over whatever the table now holds: reports the earliest row, from
        `start` on, that does not link or does not reproduce. */
    method Verify(start: Option<int>) returns (r: Report)
      requires AscendingIds(rows)
      ensures var k := Cut(rows, start); Reports(digest, SeedOf(rows, k), rows[k..], r)
      ensures Finds(digest, rows, start, r)
    {
      hide Reproduces, Finds;
      var k := Cut(rows, start);
      var seed := SeedOf(rows, k);
      var chosen := rows[k..];
      var prev := seed;
      for i := 0 to |chosen|
        invariant prev == if i == 0 then seed else Some(chosen[i - 1].hash)
        invariant forall j | 0 <= j < i :: RowHolds(digest, seed, chosen, j)
      {
        var row := chosen[i];
        assert RowHolds(digest, seed, chosen, i) <==> row.prev == prev && Reproduces(digest, row);
        if row.prev != prev || !Reproduces(digest, row) {
          r := Report(false, |chosen|, Some(row.id));
          ReportFinds(digest, rows, start, r);
          return;
        }
        prev := Some(row.hash);
      }
      r := Report(true, |chosen|, None);
      ReportFinds(digest, rows, start, r);
    }
  }

  /** Verifying the whole is verifying a prefix and then the suffix from its last hash. */
  lemma VerifySplits<B(!new)>(digest: Digest<B>, prev: Option<Hash>, rows: seq<Record<B>>, k: nat)
    requires k <= |rows|
    ensures Chained(digest, prev, rows) <==>
            && Chained(digest, prev, rows[..k])
            && Chained(digest, if k == 0 then prev else Some(rows[k - 1].hash), rows[k..])
  {
    var seed := if k == 0 then prev else Some(rows[k - 1].hash);
    forall i | 0 <= i < k ensures RowHolds(digest, prev, rows[..k], i) <==> RowHolds(digest, prev, rows, i) {}
    forall i | 0 <= i < |rows| - k
      ensures RowHolds(digest, seed, rows[k..], i) <==> RowHolds(digest, prev, rows, k + i)
    {}
    if Chained(digest, prev, rows[..k]) && Chained(digest, seed, rows[k..]) {
      forall i | 0 <= i < |rows| ensures RowHolds(digest, prev, rows, i) {
        if i < k {
          assert RowHolds(digest, prev, rows[..k], i);
        } else {
          assert RowHolds(digest, seed, rows[k..], i - k);
        }
      }
    }
  }

  ghost predicate CollisionFree<B(!new)>(digest: Digest<B>) {
    && (forall p, i, b, q, j, c :: digest(p, i, b) == digest(q, j, c) ==> p == q && i == j && b == c)
    && (forall p, i, b :: digest(p, i, b) != "")
  }

  /** With a collision-free digest, a verifying log is determined by its last hash. */
  lemma {:induction false} LastHashDetermines<B(!new)>(digest: Digest<B>, xs: seq<Record<B>>, ys: seq<Record<B>>)
    requires CollisionFree(digest) && Chained(digest, None, xs) && Chained(digest, None, ys)
    requires xs != [] && ys != [] && xs[|xs| - 1].hash == ys[|ys| - 1].hash
    ensures xs == ys
    decreases |xs|
  {
    var m, n := |xs| - 1, |ys| - 1;
    var x, y := xs[m], ys[n];
    assert RowHolds(digest, None, xs, m) && RowHolds(digest, None, ys, n);
    assert digest(PrevText(x.prev), x.id, x.body) == digest(PrevText(y.prev), y.id, y.body);
    if m > 0 { PreviousIsNamed(digest, xs); }
    if n > 0 { PreviousIsNamed(digest, ys); }
    assert m == 0 <==> n == 0;
    if m > 0 {
      VerifySplits(digest, None, xs, m);
      VerifySplits(digest, None, ys, n);
      LastHashDetermines(digest, xs[..m], ys[..n]);
    }
    assert xs == xs[..m] + [x] && ys == ys[..n] + [y];
  }

  lemma PreviousIsNamed<B(!new)>(digest: Digest<B>, xs: seq<Record<B>>)
    requires CollisionFree(digest) && Chained(digest, None, xs) && |xs| > 1
    ensures xs[|xs| - 1].prev == Some(xs[|xs| - 2].hash) && PrevText(xs[|xs| - 1].prev) == xs[|xs| - 2].hash != ""
  {
    var m := |xs| - 1;
    assert RowHolds(digest, None, xs, m) && RowHolds(digest, None, xs, m - 1);
    assert digest(PrevText(xs[m - 1].prev), xs[m - 1].id, xs[m - 1].body) == xs[m - 1].hash;
  }

  /** Any change to a verifying log that keeps its last hash is reported; cutting rows
      off its end is not. */
  lemma TamperingShows<B(!new)>(digest: Digest<B>, xs: seq<Record<B>>, ys: seq<Record<B>>)
    requires CollisionFree(digest) && Chained(digest, None, xs) && xs != [] && ys != [] && xs != ys
    requires xs[|xs| - 1].hash == ys[|ys| - 1].hash
    ensures !Chained(digest, None, ys)
  {
    if Chained(digest, None, ys) { LastHashDetermines(digest, xs, ys); }
  }

  lemma TruncationIsSilent<B(!new)>(digest: Digest<B>, xs: seq<Record<B>>, k: nat)
    requires Chained(digest, None, xs) && k <= |xs|
    ensures Chained(digest, None, xs[..k])
  {
    VerifySplits(digest, None, xs, k);
  }
}

/** Row-major grouping of a grid's children: consecutive runs of `k`
    elements, the last run possibly shorter. */
module Grouping {
  import opened Values

  /** The runs of `k` consecutive elements of `s`, in order. */
  function Chunks<T>(s: seq<T>, k: nat): (rows: seq<seq<T>>)
    requires k >= 1
    ensures forall r :: 0 <= r < |rows| ==> 1 <= |rows[r]| <= k
  {
    ChunksFrom(s, k, 0)
  }

  /** The runs of `k` consecutive elements of `s` from index `i` on. */
  function ChunksFrom<T>(s: seq<T>, k: nat, i: nat): (rows: seq<seq<T>>)
    requires k >= 1 && i <= |s|
    ensures forall r :: 0 <= r < |rows| ==> 1 <= |rows[r]| <= k
    decreases |s| - i
  {
    if i == |s| then []
    else if |s| - i <= k then [Segment(s, i, |s|)]
    else [Segment(s, i, i + k)] + ChunksFrom(s, k, i + k)
  }

  /** The rows laid end to end. */
  function Flatten<T>(rows: seq<seq<T>>): seq<T>
  {
    FlattenTo(rows, |rows|)
  }

  /** The first `k` rows laid end to end. */
  function FlattenTo<T>(rows: seq<seq<T>>, k: nat): seq<T>
    requires k <= |rows|
    decreases k
  {
    if k == 0 then [] else FlattenTo(rows, k - 1) + rows[k - 1]
  }

  /** Only the first `k` rows count. */
  lemma {:induction false} FlattenToSame<T>(a: seq<seq<T>>, b: seq<seq<T>>, k: nat)
    requires k <= |a| && k <= |b|
    requires forall i :: 0 <= i < k ==> a[i] == b[i]
    ensures FlattenTo(a, k) == FlattenTo(b, k)
    decreases k
  {
    if k > 0 {
      FlattenToSame(a, b, k - 1);
    }
  }

  lemma FlattenSnoc<T>(rows: seq<seq<T>>, row: seq<T>)
    ensures Flatten(rows + [row]) == Flatten(rows) + row
  {
    FlattenToSame(rows + [row], rows, |rows|);
  }

  lemma FlattenConcat<T>(a: seq<seq<T>>, b: seq<seq<T>>)
    ensures Flatten(a + b) == Flatten(a) + Flatten(b)
  {
    FlattenToConcat(a, b, |b|);
  }

  lemma {:induction false} FlattenToConcat<T>(a: seq<seq<T>>, b: seq<seq<T>>, j: nat)
    requires j <= |b|
    ensures FlattenTo(a + b, |a| + j) == Flatten(a) + FlattenTo(b, j)
    decreases j
  {
    if j == 0 {
      FlattenToSame(a + b, a, |a|);
    } else {
      FlattenToConcat(a, b, j - 1);
      assert (a + b)[|a| + j - 1] == b[j - 1];
    }
  }

  lemma FlattenOne<T>(row: seq<T>)
    ensures Flatten([row]) == row
  {
    assert Flatten([row]) == FlattenTo([row], 0) + row;
  }

  /** Grouping loses, duplicates and reorders nothing. */
  lemma FlattenChunks<T>(s: seq<T>, k: nat)
    requires k >= 1
    ensures Flatten(Chunks(s, k)) == s
  {
    FlattenChunksFrom(s, k, 0);
    SegmentAt(s, 0, |s|);
    assert Segment(s, 0, |s|) == s;
  }

  lemma {:induction false} FlattenChunksFrom<T>(s: seq<T>, k: nat, i: nat)
    requires k >= 1 && i <= |s|
    ensures Flatten(ChunksFrom(s, k, i)) == Segment(s, i, |s|)
    decreases |s| - i
  {
    if i == |s| {
    } else if |s| - i <= k {
      FlattenOne(Segment(s, i, |s|));
    } else {
      FlattenChunksFrom(s, k, i + k);
      FlattenConcat([Segment(s, i, i + k)], ChunksFrom(s, k, i + k));
      FlattenOne(Segment(s, i, i + k));
      SegmentJoin(s, i, i + k, |s|);
    }
  }

  /** Every row but the last is full. */
  lemma ChunksFull<T>(s: seq<T>, k: nat)
    requires k >= 1
    ensures forall r :: 0 <= r < |Chunks(s, k)| - 1 ==> |Chunks(s, k)[r]| == k
  {
    ChunksFromFull(s, k, 0);
  }

  lemma {:induction false} ChunksFromFull<T>(s: seq<T>, k: nat, i: nat)
    requires k >= 1 && i <= |s|
    ensures forall r :: 0 <= r < |ChunksFrom(s, k, i)| - 1 ==> |ChunksFrom(s, k, i)[r]| == k
    decreases |s| - i
  {
    if i < |s| && |s| - i > k {
      ChunksFromFull(s, k, i + k);
      var rows := ChunksFrom(s, k, i);
      assert forall r :: 1 <= r < |rows| ==> rows[r] == ChunksFrom(s, k, i + k)[r - 1];
    }
  }

  /** There are ⌈|s| / k⌉ rows. */
  lemma ChunksCount<T>(s: seq<T>, k: nat)
    requires k >= 1
    ensures |Chunks(s, k)| == (|s| + k - 1) / k
  {
    ChunksFromCount(s, k, 0);
    CeilDivIsDiv(|s|, k);
  }

  /** ⌈n / k⌉ by repeated subtraction. */
  function CeilDiv(n: nat, k: nat): nat
    requires k >= 1
    decreases n
  {
    if n == 0 then 0 else if n <= k then 1 else 1 + CeilDiv(n - k, k)
  }

  lemma {:induction false} ChunksFromCount<T>(s: seq<T>, k: nat, i: nat)
    requires k >= 1 && i <= |s|
    ensures |ChunksFrom(s, k, i)| == CeilDiv(|s| - i, k)
    decreases |s| - i
  {
    ChunksFromLength(s, k, i);
    if i < |s| && |s| - i > k {
      ChunksFromCount(s, k, i + k);
    }
  }

  /** One step of the grouping: no row, one last row, or a full row and
      the rest. */
  lemma ChunksFromLength<T>(s: seq<T>, k: nat, i: nat)
    requires k >= 1 && i <= |s|
    ensures |ChunksFrom(s, k, i)| == if i == |s| then 0 else if |s| - i <= k then 1 else 1 + |ChunksFrom(s, k, i + k)|
  {
  }

  lemma {:induction false} CeilDivIsDiv(n: nat, k: nat)
    requires k >= 1
    ensures CeilDiv(n, k) == (n + k - 1) / k
    decreases n
  {
    if n == 0 {
      DivUnique(k - 1, k, 0, k - 1);
    } else if n <= k {
      DivUnique(n + k - 1, k, 1, n - 1);
    } else {
      CeilDivIsDiv(n - k, k);
      DivStep(n + k - 1, k);
    }
  }

  lemma DivStep(a: nat, k: nat)
    requires k >= 1 && a >= k
    ensures (a - k + k) / k == 1 + (a - k) / k
  {
    var q := (a - k) / k;
    var m := (a - k) % k;
    assert a - k == q * k + m;
    assert a == (q + 1) * k + m by {
      assert (q + 1) * k == q * k + k;
    }
    DivUnique(a, k, q + 1, m);
  }

  /** Euclidean division is determined by quotient and remainder. */
  lemma DivUnique(a: int, k: int, q: int, m: int)
    requires k >= 1 && 0 <= m < k && a == q * k + m
    ensures a / k == q
  {
    var d := a / k;
    assert a == d * k + a % k;
    if d > q {
      MulGap(d, q, k);
      assert false;
    } else if d < q {
      MulGap(q, d, k);
      assert false;
    }
  }

  lemma MulGap(a: int, b: int, k: int)
    requires a > b && k >= 1
    ensures a * k - b * k >= k
  {
    MulMonotone(a - b, k);
    assert (a - b) * k == a * k - b * k;
  }

  lemma MulMonotone(a: int, k: int)
    requires a >= 1 && k >= 1
    ensures a * k >= k
  {
  }

  /** Every element of a row is an element of the grouped sequence. */
  lemma ChunksMembers<T>(s: seq<T>, k: nat)
    requires k >= 1
    ensures forall r, x :: 0 <= r < |Chunks(s, k)| && x in Chunks(s, k)[r] ==> x in s
  {
    ChunksFromMembers(s, k, 0);
  }

  lemma {:induction false} ChunksFromMembers<T>(s: seq<T>, k: nat, i: nat)
    requires k >= 1 && i <= |s|
    ensures forall r, x :: 0 <= r < |ChunksFrom(s, k, i)| && x in ChunksFrom(s, k, i)[r] ==> x in s
    decreases |s| - i
  {
    if i < |s| {
      SegmentMembers(s, i, |s|);
      if |s| - i > k {
        ChunksFromMembers(s, k, i + k);
        var rows := ChunksFrom(s, k, i);
        assert forall r :: 1 <= r < |rows| ==> rows[r] == ChunksFrom(s, k, i + k)[r - 1];
        SegmentMembers(s, i, i + k);
      }
    }
  }

  lemma SegmentMembers<T>(s: seq<T>, i: nat, j: nat)
    requires i <= j <= |s|
    ensures forall x :: x in Segment(s, i, j) ==> x in s
  {
    forall x | x in Segment(s, i, j)
      ensures x in s
    {
      SegmentAt(s, i, j);
      var k :| 0 <= k < j - i && Segment(s, i, j)[k] == x;
      assert s[i + k] == x;
    }
  }

  /** Rows that are full but for a non-empty last one and that flatten to
      `s` are exactly the grouping of `s`. */
  lemma ChunksUnique<T>(rows: seq<seq<T>>, s: seq<T>, k: nat)
    requires k >= 1
    requires forall r :: 0 <= r < |rows| ==> 1 <= |rows[r]| <= k
    requires forall r :: 0 <= r < |rows| - 1 ==> |rows[r]| == k
    requires Flatten(rows) == s
    ensures rows == Chunks(s, k)
  {
    SegmentAt(s, 0, |s|);
    assert Segment(s, 0, |s|) == s;
    ChunksFromUnique(rows, s, k, 0);
  }

  lemma {:induction false} ChunksFromUnique<T>(rows: seq<seq<T>>, s: seq<T>, k: nat, i: nat)
    requires k >= 1 && i <= |s|
    requires forall r :: 0 <= r < |rows| ==> 1 <= |rows[r]| <= k
    requires forall r :: 0 <= r < |rows| - 1 ==> |rows[r]| == k
    requires Flatten(rows) == Segment(s, i, |s|)
    ensures rows == ChunksFrom(s, k, i)
    decreases |rows|
  {
    if rows == [] {
    } else if |rows| == 1 {
      FlattenOne(rows[0]);
    } else {
      var rest := rows[1..];
      assert rows == [rows[0]] + rest;
      FlattenConcat([rows[0]], rest);
      FlattenOne(rows[0]);
      var t := Segment(s, i, |s|);
      SegmentAt(s, i, |s|);
      SegmentAt(s, i, i + k);
      SegmentAt(s, i + k, |s|);
      assert t == rows[0] + Flatten(rest);
      FlattenLength(rest);
      assert Segment(s, i, i + k) == rows[0] by {
        assert forall m :: 0 <= m < k ==> t[m] == rows[0][m];
      }
      assert Segment(s, i + k, |s|) == Flatten(rest) by {
        assert forall m :: 0 <= m < |s| - i - k ==> t[k + m] == Flatten(rest)[m];
      }
      ChunksFromUnique(rest, s, k, i + k);
    }
  }

  lemma {:induction false} FlattenLength<T>(rows: seq<seq<T>>)
    requires forall r :: 0 <= r < |rows| ==> |rows[r]| >= 1
    ensures |rows| > 0 ==> |Flatten(rows)| > 0
  {
    if rows != [] {
      assert Flatten(rows) == FlattenTo(rows, |rows| - 1) + rows[|rows| - 1];
    }
  }
}

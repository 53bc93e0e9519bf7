/** Arithmetic helpers over `real`: the maximum of two numbers and the sum of
    a sequence, defined over a prefix length so that a loop that accumulates
    from the front extends the sum by one element. */
module Reals {

  function Max(a: real, b: real): (r: real)
    ensures r >= a && r >= b
    ensures r == a || r == b
  {
    if a >= b then a else b
  }

  /** Python's `min(a, b)`. */
  function Min(a: real, b: real): (r: real)
    ensures r <= a && r <= b
    ensures r == a || r == b
  {
    if b < a then b else a
  }

  function Sum(s: seq<real>): real
  {
    SumTo(s, |s|)
  }

  /** The sum of the first `k` elements. */
  function SumTo(s: seq<real>, k: nat): real
    requires k <= |s|
  {
    if k == 0 then 0.0 else SumTo(s, k - 1) + s[k - 1]
  }

  /** Only the first `k` elements count. */
  lemma {:induction false} SumToSame(a: seq<real>, b: seq<real>, k: nat)
    requires k <= |a| && k <= |b|
    requires forall i :: 0 <= i < k ==> a[i] == b[i]
    ensures SumTo(a, k) == SumTo(b, k)
  {
    if k > 0 {
      SumToSame(a, b, k - 1);
    }
  }

  /** The sum of a concatenation is the sum of its parts. */
  lemma SumConcat(a: seq<real>, b: seq<real>)
    ensures Sum(a + b) == Sum(a) + Sum(b)
  {
    SumToConcat(a, b, |b|);
  }

  lemma {:induction false} SumToConcat(a: seq<real>, b: seq<real>, j: nat)
    requires j <= |b|
    ensures SumTo(a + b, |a| + j) == Sum(a) + SumTo(b, j)
  {
    if j == 0 {
      SumToSame(a + b, a, |a|);
    } else {
      SumToConcat(a, b, j - 1);
      assert (a + b)[|a| + j - 1] == b[j - 1];
    }
  }

  /** A sum of non-negative terms is non-negative. */
  lemma SumNonNegative(s: seq<real>)
    requires forall i :: 0 <= i < |s| ==> s[i] >= 0.0
    ensures Sum(s) >= 0.0
  {
    SumToNonNegative(s, |s|);
  }

  lemma {:induction false} SumToNonNegative(s: seq<real>, k: nat)
    requires k <= |s|
    requires forall i :: 0 <= i < |s| ==> s[i] >= 0.0
    ensures SumTo(s, k) >= 0.0
  {
    if k > 0 {
      SumToNonNegative(s, k - 1);
    }
  }

  /** The space taken by the gaps between `n` items laid side by side,
      `gap * (n - 1)`, accumulated one gap at a time. */
  function Gaps(gap: real, n: nat): real
  {
    if n <= 1 then 0.0 else Gaps(gap, n - 1) + gap
  }

  lemma {:induction false} GapsProduct(gap: real, n: nat)
    requires n >= 1
    ensures Gaps(gap, n) == gap * (n - 1) as real
  {
    if n > 1 {
      GapsProduct(gap, n - 1);
      assert gap * (n - 1) as real == gap * (n - 2) as real + gap;
    }
  }
}

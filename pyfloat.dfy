/** Python's `float(s[lo:hi])` on the decimal spellings the toolkit feeds it:
    "50" out of "50%", "120" out of "120px", "1.5" out of "1.5fr".  The
    grammar is the one of Python's float literal: optional surrounding
    whitespace, an optional sign, digits with an optional fraction (at least
    one digit in all), and an optional exponent.  `None` stands for the
    ValueError.  The slice is read by index, never copied. */
module PyFloat {
  import opened Values

  predicate IsDigit(c: char)
  {
    '0' <= c <= '9'
  }

  function DigitVal(c: char): (d: nat)
    requires IsDigit(c)
    ensures d < 10
  {
    c as int - '0' as int
  }

  /** `s[i:j]` is made of decimal digits only. */
  predicate AllDigits(s: string, i: nat, j: nat)
    requires i <= j <= |s|
  {
    forall k :: i <= k < j ==> IsDigit(s[k])
  }

  /** The first index from `i` on that is not whitespace, or `hi`. */
  function SkipSpace(s: string, i: nat, hi: nat): (j: nat)
    requires i <= hi <= |s|
    ensures i <= j <= hi
    ensures j < hi ==> !IsSpace(s[j])
    decreases hi - i
  {
    if i < hi && IsSpace(s[i]) then SkipSpace(s, i + 1, hi) else i
  }

  /** The end of `s[lo:j]` once trailing whitespace is cut off. */
  function TrimEnd(s: string, lo: nat, j: nat): (e: nat)
    requires lo <= j <= |s|
    ensures lo <= e <= j
    ensures e > lo ==> !IsSpace(s[e - 1])
    decreases j
  {
    if j > lo && IsSpace(s[j - 1]) then TrimEnd(s, lo, j - 1) else j
  }

  /** The end of the run of digits that starts at `i`, not past `hi`. */
  function DigitsEnd(s: string, i: nat, hi: nat): (j: nat)
    requires i <= hi <= |s|
    ensures i <= j <= hi
    ensures j < hi ==> !IsDigit(s[j])
    decreases hi - i
  {
    if i < hi && IsDigit(s[i]) then DigitsEnd(s, i + 1, hi) else i
  }

  /** The number the digits `s[i:j]` spell in base 10. */
  function DigitsValue(s: string, i: nat, j: nat): nat
    requires i <= j <= |s| && AllDigits(s, i, j)
    decreases j - i
  {
    if j == i then 0 else DigitsValue(s, i, j - 1) * 10 + DigitVal(s[j - 1])
  }

  function Pow10(e: nat): (r: nat)
    ensures r >= 1
  {
    if e == 0 then 1 else 10 * Pow10(e - 1)
  }

  /** m * 10^e for an integer exponent, one power of ten at a time. */
  function Scale(m: real, e: int): real
    decreases if e >= 0 then e else -e
  {
    if e == 0 then m
    else if e > 0 then 10.0 * Scale(m, e - 1)
    else Scale(m, e + 1) / 10.0
  }

  /** The digits `s[i:k]` followed by the digits `s[k+1:f]`, read as one
      integer: the mantissa of `int.frac` before the point is moved. */
  function Mantissa(s: string, i: nat, k: nat, f: nat): nat
    requires i <= k < f <= |s| && AllDigits(s, i, k) && AllDigits(s, k + 1, f)
    decreases f
  {
    if f == k + 1 then DigitsValue(s, i, k) else Mantissa(s, i, k, f - 1) * 10 + DigitVal(s[f - 1])
  }

  /** The mantissa is the integer part shifted left by the fraction's
      length, plus the fraction's digits. */
  lemma {:induction false} MantissaValue(s: string, i: nat, k: nat, f: nat)
    requires i <= k < f <= |s| && AllDigits(s, i, k) && AllDigits(s, k + 1, f)
    ensures Mantissa(s, i, k, f) == DigitsValue(s, i, k) * Pow10(f - k - 1) + DigitsValue(s, k + 1, f)
    decreases f
  {
    if f > k + 1 {
      MantissaValue(s, i, k, f - 1);
      var a := DigitsValue(s, i, k);
      var p := Pow10(f - 1 - k - 1);
      assert Pow10(f - k - 1) == 10 * p;
      assert (a * p) * 10 == a * (10 * p);
    }
  }

  /** What may follow the mantissa in `s[i:hi]`: nothing, or e/E, an
      optional sign and at least one digit, reaching `hi`. */
  function ParseExponent(s: string, i: nat, hi: nat): (r: Option<int>)
    requires i <= hi <= |s|
    ensures i == hi ==> r == Some(0)
  {
    if i == hi then Some(0)
    else if s[i] != 'e' && s[i] != 'E' then None
    else
      var neg := i + 1 < hi && s[i + 1] == '-';
      var d := if i + 1 < hi && (s[i + 1] == '-' || s[i + 1] == '+') then i + 2 else i + 1;
      if d == hi || DigitsEnd(s, d, hi) != hi then None
      else
        DigitsEndAll(s, d, hi);
        var v: int := DigitsValue(s, d, hi);
        Some(if neg then -v else v)
  }

  /** An unsigned decimal in `s[i:hi]`: digits, optionally '.', optionally
      digits, at least one digit overall, then an optional exponent. */
  function ParseUnsigned(s: string, i: nat, hi: nat): Option<real>
    requires i <= hi <= |s|
  {
    var k := DigitsEnd(s, i, hi);
    DigitsEndAll(s, i, hi);
    if k < hi && s[k] == '.' then
      var f := DigitsEnd(s, k + 1, hi);
      DigitsEndAll(s, k + 1, hi);
      if k == i && f == k + 1 then None
      else
        match ParseExponent(s, f, hi)
        case None => None
        case Some(e) =>
          var places := f - (k + 1);
          Some(Scale(Mantissa(s, i, k, f) as real, e - places))
    else if k == i then None
    else
      match ParseExponent(s, k, hi)
      case None => None
      case Some(e) => Some(Scale(DigitsValue(s, i, k) as real, e))
  }

  /** `float(s[lo:hi])`: `Some(value)`, or `None` where Python raises
      ValueError. */
  function ParseSlice(s: string, lo: nat, hi: nat): Option<real>
    requires lo <= hi <= |s|
  {
    var i := SkipSpace(s, lo, hi);
    var j := TrimEnd(s, i, hi);
    if i < j && (s[i] == '+' || s[i] == '-') then
      match ParseUnsigned(s, i + 1, j)
      case None => None
      case Some(v) => Some(if s[i] == '-' then -v else v)
    else ParseUnsigned(s, i, j)
  }

  /** `float(s)` */
  function Parse(s: string): Option<real>
  {
    ParseSlice(s, 0, |s|)
  }

  /** A style value that is a string ending in `%` has a number before the
      sign, so `float(val[:-1])` does not raise. */
  predicate PercentOk(v: Option<Value>)
  {
    v.Some? && v.value.Str? && EndsWith(v.value.s, "%") ==> ParseSlice(v.value.s, 0, |v.value.s| - 1).Some?
  }

  /** The run `DigitsEnd` finds is made of digits. */
  lemma {:induction false} DigitsEndAll(s: string, i: nat, hi: nat)
    requires i <= hi <= |s|
    ensures AllDigits(s, i, DigitsEnd(s, i, hi))
    decreases hi - i
  {
    if i < hi && IsDigit(s[i]) {
      DigitsEndAll(s, i + 1, hi);
    }
  }

  /** Over a run of digits, `DigitsEnd` reaches the end of the run. */
  lemma {:induction false} DigitsEndRun(s: string, i: nat, hi: nat)
    requires i <= hi <= |s| && AllDigits(s, i, hi)
    ensures DigitsEnd(s, i, hi) == hi
    decreases hi - i
  {
    if i < hi {
      DigitsEndRun(s, i + 1, hi);
    }
  }

  /** Digits up to a non-digit at `k` stop `DigitsEnd` at `k`. */
  lemma {:induction false} DigitsEndPrefix(s: string, i: nat, k: nat, hi: nat)
    requires i <= k < hi <= |s| && AllDigits(s, i, k) && !IsDigit(s[k])
    ensures DigitsEnd(s, i, hi) == k
    decreases k - i
  {
    if i < k {
      DigitsEndPrefix(s, i + 1, k, hi);
    }
  }

  /** A plain run of digits parses to the integer it spells. */
  lemma {:induction false} ParseDigits(s: string, lo: nat, hi: nat)
    requires lo < hi <= |s| && AllDigits(s, lo, hi)
    ensures ParseSlice(s, lo, hi) == Some(DigitsValue(s, lo, hi) as real)
  {
    assert SkipSpace(s, lo, hi) == lo;
    assert TrimEnd(s, lo, hi) == hi;
    DigitsEndRun(s, lo, hi);
  }

  /** A leading minus sign negates the value of the digits after it. */
  lemma {:induction false} ParseNegative(s: string, lo: nat, hi: nat)
    requires lo + 1 < hi <= |s| && s[lo] == '-' && AllDigits(s, lo + 1, hi)
    ensures ParseSlice(s, lo, hi) == Some(-(DigitsValue(s, lo + 1, hi) as real))
  {
    assert SkipSpace(s, lo, hi) == lo;
    assert TrimEnd(s, lo, hi) == hi;
    DigitsEndRun(s, lo + 1, hi);
  }

  /** Digits, a point and digits: the integer part and the fraction make
      one mantissa, scaled down by the number of fraction digits. */
  lemma {:induction false} ParseDecimal(s: string, lo: nat, dot: nat, hi: nat)
    requires lo < dot < hi <= |s| && s[dot] == '.'
    requires AllDigits(s, lo, dot) && AllDigits(s, dot + 1, hi)
    ensures ParseSlice(s, lo, hi)
            == Some(Scale((DigitsValue(s, lo, dot) * Pow10(hi - dot - 1) + DigitsValue(s, dot + 1, hi)) as real,
                          -(hi - dot - 1)))
  {
    assert SkipSpace(s, lo, hi) == lo;
    assert !IsSpace(s[hi - 1]) by {
      if hi - 1 > dot {
        assert IsDigit(s[hi - 1]);
      }
    }
    assert TrimEnd(s, lo, hi) == hi;
    DigitsEndPrefix(s, lo, dot, hi);
    DigitsEndRun(s, dot + 1, hi);
    MantissaValue(s, lo, dot, hi);
  }

  /** Text with no digit at all never parses. */
  lemma {:induction false} ParseNeedsDigit(s: string, lo: nat, hi: nat)
    requires lo <= hi <= |s|
    requires forall k :: lo <= k < hi ==> !IsDigit(s[k])
    ensures ParseSlice(s, lo, hi) == None
  {
    var i := SkipSpace(s, lo, hi);
    var j := TrimEnd(s, i, hi);
    if i < j && (s[i] == '+' || s[i] == '-') {
      NoDigitUnsigned(s, i + 1, j);
    } else {
      NoDigitUnsigned(s, i, j);
    }
  }

  lemma NoDigitUnsigned(s: string, i: nat, hi: nat)
    requires i <= hi <= |s|
    requires forall k :: i <= k < hi ==> !IsDigit(s[k])
    ensures ParseUnsigned(s, i, hi) == None
  {
    assert DigitsEnd(s, i, hi) == i;
    if i < hi && s[i] == '.' {
      assert DigitsEnd(s, i + 1, hi) == i + 1;
    }
  }

  /** Surrounding whitespace does not change the value. */
  lemma {:induction false} ParseSpaces(s: string, lo: nat, a: nat, b: nat, hi: nat)
    requires lo <= a < b <= hi <= |s|
    requires forall k :: lo <= k < a ==> IsSpace(s[k])
    requires forall k :: b <= k < hi ==> IsSpace(s[k])
    requires !IsSpace(s[a]) && !IsSpace(s[b - 1])
    ensures ParseSlice(s, lo, hi) == ParseSlice(s, a, b)
  {
    SkipSpaceRun(s, lo, a, hi);
    SkipSpaceRun(s, a, a, b);
    TrimEndRun(s, a, b, hi);
    TrimEndRun(s, a, b, b);
  }

  lemma {:induction false} SkipSpaceRun(s: string, i: nat, a: nat, hi: nat)
    requires i <= a < hi <= |s|
    requires forall k :: i <= k < a ==> IsSpace(s[k])
    requires !IsSpace(s[a])
    ensures SkipSpace(s, i, hi) == a
    decreases a - i
  {
    if i < a {
      SkipSpaceRun(s, i + 1, a, hi);
    }
  }

  lemma {:induction false} TrimEndRun(s: string, lo: nat, b: nat, j: nat)
    requires lo < b <= j <= |s|
    requires forall k :: b <= k < j ==> IsSpace(s[k])
    requires !IsSpace(s[b - 1])
    ensures TrimEnd(s, lo, j) == b
    decreases j
  {
    if b < j {
      TrimEndRun(s, lo, b, j - 1);
    }
  }
}

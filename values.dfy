/** Values that flow through the toolkit: optional results, style values and
    style dictionaries, and the few string operations (suffix test, Python's
    whitespace `split()`) that the layout engine and the widgets rely on. */
module Values {

  datatype Option<T> = None | Some(value: T)

  /** A value stored in a style dictionary: a Python number (int or float),
      a string, or any other object (a list, a tuple, ...). A dictionary
      entry holding None is not representable: `style.get` cannot tell it
      from a missing key, and the model takes such keys to be absent. */
  datatype Value = Num(n: real) | Str(s: string) | Other

  /** An element's `style` dictionary. */
  type Style = map<string, Value>

  /** `style.get(key)`: the stored value, or None when the key is absent. */
  function Get(style: Style, key: string): (r: Option<Value>)
    ensures r.Some? <==> key in style
    ensures r.Some? ==> r.value == style[key]
  {
    if key in style then Some(style[key]) else None
  }

  /** `style.get(key, default)` where the caller does arithmetic with the
      result: the code raises unless a present value is a number. */
  predicate NumOrAbsent(style: Style, key: string)
  {
    key in style ==> style[key].Num?
  }

  /** The number stored under `key`, or `default` when it is absent.  Callers
      establish `NumOrAbsent` wherever the code computes with the value. */
  function NumOr(style: Style, key: string, default: real): (r: real)
    ensures key !in style ==> r == default
    ensures key in style && style[key].Num? ==> r == style[key].n
  {
    if key in style && style[key].Num? then style[key].n else default
  }

  /** The effect of a run of `if k not in style: style[k] = v` writes, one
      per entry of `defaults`: present keys keep their value, absent ones get the
      default, and nothing else is added. */
  function WithDefaults(style: Style, defaults: Style): (r: Style)
    ensures r.Keys == style.Keys + defaults.Keys
    ensures forall k :: k in style ==> r[k] == style[k]
    ensures forall k :: k in defaults && k !in style ==> r[k] == defaults[k]
  {
    defaults + style
  }

  /** The defaults a run of conditional writes lists, one `(key, value)`
      pair per write in order; the first pair of each key is the one that
      can take effect. */
  function DefaultsOf(ds: seq<(string, Value)>): Style
  {
    DefaultsTo(ds, |ds|)
  }

  /** The defaults of the first `k` writes. */
  function DefaultsTo(ds: seq<(string, Value)>, k: nat): Style
    requires k <= |ds|
    decreases k
  {
    if k == 0 then map[]
    else
      var m := DefaultsTo(ds, k - 1);
      if ds[k - 1].0 in m then m else m[ds[k - 1].0 := ds[k - 1].1]
  }

  /** No key is written twice. */
  predicate DistinctKeys(ds: seq<(string, Value)>)
  {
    forall i, j :: 0 <= i < j < |ds| ==> ds[i].0 != ds[j].0
  }

  /** The keys are the listed ones. */
  lemma {:induction false} DefaultsToKeys(ds: seq<(string, Value)>, k: nat)
    requires k <= |ds|
    ensures forall key :: key in DefaultsTo(ds, k) <==> exists i :: 0 <= i < k && ds[i].0 == key
    decreases k
  {
    if k > 0 {
      DefaultsToKeys(ds, k - 1);
      var m := DefaultsTo(ds, k - 1);
      forall key | key in DefaultsTo(ds, k)
        ensures exists i :: 0 <= i < k && ds[i].0 == key
      {
        if key !in m {
          assert ds[k - 1].0 == key;
        }
      }
      forall key | exists i :: 0 <= i < k && ds[i].0 == key
        ensures key in DefaultsTo(ds, k)
      {
        var i :| 0 <= i < k && ds[i].0 == key;
        if i < k - 1 {
          assert key in m;
        }
      }
    }
  }

  /** Each key has the value of its first write. */
  lemma {:induction false} DefaultsToFirst(ds: seq<(string, Value)>, k: nat, i: nat)
    requires i < k <= |ds|
    requires forall j :: 0 <= j < i ==> ds[j].0 != ds[i].0
    ensures ds[i].0 in DefaultsTo(ds, k) && DefaultsTo(ds, k)[ds[i].0] == ds[i].1
    decreases k
  {
    var m := DefaultsTo(ds, k - 1);
    if i == k - 1 {
      DefaultsToKeys(ds, k - 1);
      assert ds[i].0 !in m;
    } else {
      DefaultsToFirst(ds, k - 1, i);
    }
  }

  /** With distinct keys, the defaults are exactly the listed pairs. */
  lemma DefaultsOfDistinct(ds: seq<(string, Value)>)
    requires DistinctKeys(ds)
    ensures forall key :: key in DefaultsOf(ds) <==> exists i :: 0 <= i < |ds| && ds[i].0 == key
    ensures forall i :: 0 <= i < |ds| ==> DefaultsOf(ds)[ds[i].0] == ds[i].1
  {
    DefaultsToKeys(ds, |ds|);
    forall i | 0 <= i < |ds|
      ensures DefaultsOf(ds)[ds[i].0] == ds[i].1
    {
      DefaultsToFirst(ds, |ds|, i);
    }
  }

  /** The run of `if k not in style: style[k] = v` writes itself. */
  method FillDefaults(style: Style, ds: seq<(string, Value)>) returns (r: Style)
    ensures r == WithDefaults(style, DefaultsOf(ds))
  {
    r := style;
    var i := 0;
    while i < |ds|
      invariant i <= |ds|
      invariant r == WithDefaults(style, DefaultsTo(ds, i))
    {
      if ds[i].0 !in r {
        r := r[ds[i].0 := ds[i].1];
      }
      i := i + 1;
    }
  }

  /** `whole * (p / 100)`: `p` percent of `whole`. */
  function Percent(whole: real, p: real): real
  {
    whole * (p / 100.0)
  }

  /** `s.endswith(suffix)`: the last `|suffix|` characters are `suffix`. */
  predicate EndsWith(s: string, suffix: string)
  {
    |suffix| <= |s| && forall i :: 0 <= i < |suffix| ==> s[|s| - |suffix| + i] == suffix[i]
  }

  /** The characters Python's `str.isspace()` accepts, which `str.split()`
      splits on: \t to \r, the separators \x1c to \x1f, space, NEL, the
      no-break space, the Ogham space mark, the spaces U+2000 to U+200A, the
      line and paragraph separators, the narrow no-break space, the medium
      mathematical space and the ideographic space. */
  predicate IsSpace(c: char)
  {
    ('\t' <= c <= '\r') || ('\U{1C}' <= c <= ' ') || c == '\U{85}' || c == '\U{A0}' ||
    c == '\U{1680}' || ('\U{2000}' <= c <= '\U{200A}') || c == '\U{2028}' || c == '\U{2029}' ||
    c == '\U{202F}' || c == '\U{205F}' || c == '\U{3000}'
  }

  predicate NoSpace(s: string)
  {
    forall i :: 0 <= i < |s| ==> !IsSpace(s[i])
  }

  /** `s[i:j]`, built element by element so that no slice of a slice is
      ever formed. */
  function Segment<T>(s: seq<T>, i: nat, j: nat): (r: seq<T>)
    requires i <= j <= |s|
    ensures |r| == j - i
    decreases j - i
  {
    if j == i then [] else Segment(s, i, j - 1) + [s[j - 1]]
  }

  /** The elements of a segment are those of `s` from `i` on. */
  lemma {:induction false} SegmentAt<T>(s: seq<T>, i: nat, j: nat)
    requires i <= j <= |s|
    ensures forall k :: 0 <= k < j - i ==> Segment(s, i, j)[k] == s[i + k]
    decreases j - i
  {
    if j > i {
      SegmentAt(s, i, j - 1);
    }
  }

  /** Adjacent segments join into one. */
  lemma {:induction false} SegmentJoin<T>(s: seq<T>, i: nat, m: nat, j: nat)
    requires i <= m <= j <= |s|
    ensures Segment(s, i, m) + Segment(s, m, j) == Segment(s, i, j)
    decreases j - m
  {
    if j > m {
      SegmentJoin(s, i, m, j - 1);
      assert Segment(s, i, m) + Segment(s, m, j) == (Segment(s, i, m) + Segment(s, m, j - 1)) + [s[j - 1]];
    }
  }

  /** The end of the run of non-space characters that starts at `i`. */
  function TokenEnd(s: string, i: nat): (j: nat)
    requires i <= |s|
    ensures i <= j <= |s|
    ensures j < |s| ==> IsSpace(s[j])
    decreases |s| - i
  {
    if i < |s| && !IsSpace(s[i]) then TokenEnd(s, i + 1) else i
  }

  /** `s[i:].split()` with no separator: the maximal runs of non-space
      characters from `i` on, in order. */
  function SplitFrom(s: string, i: nat): (parts: seq<string>)
    requires i <= |s|
    ensures forall p :: 0 <= p < |parts| ==> parts[p] != [] && NoSpace(parts[p])
    decreases |s| - i
  {
    if i == |s| then []
    else if IsSpace(s[i]) then SplitFrom(s, i + 1)
    else
      var j := TokenEnd(s, i);
      TokenEndRun(s, i);
      SegmentAt(s, i, j);
      [Segment(s, i, j)] + SplitFrom(s, j)
  }

  /** `s.split()` */
  function Split(s: string): (parts: seq<string>)
    ensures forall p :: 0 <= p < |parts| ==> parts[p] != [] && NoSpace(parts[p])
  {
    SplitFrom(s, 0)
  }

  /** The run `TokenEnd` finds has no whitespace in it. */
  lemma {:induction false} TokenEndRun(s: string, i: nat)
    requires i <= |s|
    ensures forall m :: i <= m < TokenEnd(s, i) ==> !IsSpace(s[m])
    decreases |s| - i
  {
    if i < |s| && !IsSpace(s[i]) {
      TokenEndRun(s, i + 1);
    }
  }

  /** A run without whitespace that ends at `k` (at a space or at the end)
      is the token `TokenEnd` finds. */
  lemma {:induction false} TokenEndAt(s: string, i: nat, k: nat)
    requires i <= k <= |s|
    requires forall m :: i <= m < k ==> !IsSpace(s[m])
    requires k < |s| ==> IsSpace(s[k])
    ensures TokenEnd(s, i) == k
    decreases k - i
  {
    if i < k {
      TokenEndAt(s, i + 1, k);
    }
  }

  /** A string made only of non-space characters is split into itself. */
  lemma {:induction false} SplitSingle(s: string)
    requires s != []
    requires NoSpace(s)
    ensures Split(s) == [s]
  {
    TokenEndAt(s, 0, |s|);
    SegmentAt(s, 0, |s|);
    assert Segment(s, 0, |s|) == s;
    assert SplitFrom(s, |s|) == [];
    assert SplitFrom(s, 0) == [Segment(s, 0, |s|)] + SplitFrom(s, |s|);
  }

  /** Splitting `a + [sep] + b` for two space-free words and any
      whitespace character `sep` gives the two words. */
  lemma {:induction false} SplitTwo(a: string, sep: char, b: string)
    requires a != [] && b != []
    requires NoSpace(a) && IsSpace(sep)
    requires NoSpace(b)
    ensures Split(a + [sep] + b) == [a, b]
  {
    var s := a + [sep] + b;
    var j := |a| + 1;
    assert forall m :: 0 <= m < |a| ==> s[m] == a[m];
    assert forall m :: 0 <= m < |b| ==> s[j + m] == b[m];
    assert s[|a|] == sep;
    SplitWord(s, 0, |a|);
    SegmentIs(s, 0, |a|, a);
    SplitWord(s, j, |s|);
    SegmentIs(s, j, |s|, b);
  }

  /** Unicode whitespace separates words as ASCII whitespace does: a
      no-break space splits "100\u00a0200" in two, and a lone ideographic
      space splits into nothing. */
  lemma UnicodeSpaces()
    ensures Split("100\U{A0}200") == ["100", "200"]
    ensures Split("\U{3000}") == []
  {
    assert NoSpace("100") && NoSpace("200");
    assert "100\U{A0}200" == "100" + ['\U{A0}'] + "200";
    SplitTwo("100", '\U{A0}', "200");
    assert SplitFrom("\U{3000}", 1) == [];
  }

  /** From the start of a word that ends at `k`, at a space or at the end,
      the split is that word and the split from `k` on. */
  lemma SplitWord(s: string, i: nat, k: nat)
    requires i < k <= |s|
    requires forall m :: i <= m < k ==> !IsSpace(s[m])
    requires k < |s| ==> IsSpace(s[k])
    ensures SplitFrom(s, i) == [Segment(s, i, k)] + SplitFrom(s, k)
  {
    TokenEndAt(s, i, k);
  }

  /** A segment that agrees with `t` index by index is `t`. */
  lemma SegmentIs<T>(s: seq<T>, i: nat, j: nat, t: seq<T>)
    requires i <= j <= |s| && |t| == j - i
    requires forall m :: 0 <= m < |t| ==> s[i + m] == t[m]
    ensures Segment(s, i, j) == t
  {
    SegmentAt(s, i, j);
  }
}

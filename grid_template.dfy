/** The track list of a grid container, `grid_template_columns`: a
    whitespace-separated list of `Npx` (fixed), `Nfr` (a share of the space
    left over) and bare numbers (fixed), turned into one width per column. */
module GridTemplate {
  import opened Values
  import opened Reals
  import PyFloat

  /** One parsed token: a fixed width or a fractional weight. */
  datatype Track = Px(px: real) | Fr(weight: real)

  /** Tokens ending in `px` or `fr` must have a number before the unit; the
      code raises otherwise.  Bare tokens are always accepted. */
  predicate TokenOk(p: string)
  {
    (EndsWith(p, "px") || EndsWith(p, "fr")) ==> PyFloat.ParseSlice(p, 0, |p| - 2).Some?
  }

  predicate TemplateOk(template: string)
  {
    TokensOk(Split(template))
  }

  /** A token's track: a `px` suffix first, then an `fr` suffix, then a bare
      number, and a width of 0 for anything unparseable. */
  function ParseToken(p: string): Track
    requires TokenOk(p)
  {
    if EndsWith(p, "px") then Px(PyFloat.ParseSlice(p, 0, |p| - 2).value)
    else if EndsWith(p, "fr") then Fr(PyFloat.ParseSlice(p, 0, |p| - 2).value)
    else
      match PyFloat.Parse(p)
      case Some(v) => Px(v)
      case None => Px(0.0)
  }

  predicate TokensOk(parts: seq<string>)
  {
    forall i :: 0 <= i < |parts| ==> TokenOk(parts[i])
  }

  /** The parsed tokens, in order. */
  function Tracks(parts: seq<string>): (ts: seq<Track>)
    requires TokensOk(parts)
    ensures |ts| == |parts|
  {
    TracksTo(parts, |parts|)
  }

  /** The first `k` tokens, parsed. */
  function TracksTo(parts: seq<string>, k: nat): (ts: seq<Track>)
    requires TokensOk(parts) && k <= |parts|
    ensures |ts| == k
  {
    if k == 0 then [] else TracksTo(parts, k - 1) + [ParseToken(parts[k - 1])]
  }

  /** Track `i` is token `i` parsed. */
  lemma {:induction false} TracksAt(parts: seq<string>, k: nat, i: nat)
    requires TokensOk(parts) && i < k <= |parts|
    ensures TracksTo(parts, k)[i] == ParseToken(parts[i])
    decreases k
  {
    if i < k - 1 {
      TracksAt(parts, k - 1, i);
    }
  }

  /** Total of the fixed widths of the first `k` tracks. */
  function FixedTo(ts: seq<Track>, k: nat): real
    requires k <= |ts|
  {
    if k == 0 then 0.0
    else FixedTo(ts, k - 1) + (match ts[k - 1] case Px(v) => v case Fr(_) => 0.0)
  }

  function FixedWidth(ts: seq<Track>): real
  {
    FixedTo(ts, |ts|)
  }

  /** Total of the fractional weights of the first `k` tracks. */
  function TotalFrTo(ts: seq<Track>, k: nat): real
    requires k <= |ts|
  {
    if k == 0 then 0.0
    else TotalFrTo(ts, k - 1) + (match ts[k - 1] case Px(_) => 0.0 case Fr(w) => w)
  }

  function TotalFr(ts: seq<Track>): real
  {
    TotalFrTo(ts, |ts|)
  }

  function TrackWidth(t: Track, unit: real): real
  {
    match t
    case Px(v) => v
    case Fr(w) => w * unit
  }

  /** The space the `fr` tracks share: what is left of `available` after the
      fixed widths and the gaps, never negative. */
  function Remaining(ts: seq<Track>, available: real, gap: real): (r: real)
    ensures r >= 0.0
    ensures r >= available - FixedWidth(ts) - Gaps(gap, |ts|)
  {
    Max(0.0, available - FixedWidth(ts) - Gaps(gap, |ts|))
  }

  /** The width of one `fr` unit; 0 when there is no positive total weight. */
  function FrUnit(ts: seq<Track>, available: real, gap: real): real
  {
    if TotalFr(ts) > 0.0 then Remaining(ts, available, gap) / TotalFr(ts) else 0.0
  }

  /** One width per track: fixed tracks keep their width, `fr` tracks get
      their weight times the unit. */
  function Widths(ts: seq<Track>, available: real, gap: real): (widths: seq<real>)
    ensures |widths| == |ts|
  {
    WidthsTo(ts, |ts|, FrUnit(ts, available, gap))
  }

  /** The widths of the first `k` tracks for a given unit. */
  function WidthsTo(ts: seq<Track>, k: nat, unit: real): (widths: seq<real>)
    requires k <= |ts|
    ensures |widths| == k
  {
    if k == 0 then [] else WidthsTo(ts, k - 1, unit) + [TrackWidth(ts[k - 1], unit)]
  }

  /** Width `i` is the width of track `i`. */
  lemma {:induction false} WidthsAt(ts: seq<Track>, k: nat, unit: real)
    requires k <= |ts|
    ensures forall i :: 0 <= i < k ==> WidthsTo(ts, k, unit)[i] == TrackWidth(ts[i], unit)
  {
    if k > 0 {
      WidthsAt(ts, k - 1, unit);
    }
  }

  /** `_parse_grid_template`: one width per token, or the whole available
      width as a single column when the template has no token. */
  function Columns(template: string, available: real, gap: real): (widths: seq<real>)
    requires TemplateOk(template)
    ensures |widths| >= 1
    ensures |widths| == if Split(template) == [] then 1 else |Split(template)|
  {
    var parts := Split(template);
    if parts == [] then [available] else Widths(Tracks(parts), available, gap)
  }

  /** The body of the code's first loop: a `px` suffix, an `fr` suffix,
      else a bare number, with 0 where `float` raises. */
  method ParseTrack(p: string) returns (t: Track)
    requires TokenOk(p)
    ensures t == ParseToken(p)
  {
    if EndsWith(p, "px") {
      var v := PyFloat.ParseSlice(p, 0, |p| - 2).value;
      t := Px(v);
    } else if EndsWith(p, "fr") {
      var v := PyFloat.ParseSlice(p, 0, |p| - 2).value;
      t := Fr(v);
    } else {
      var o := PyFloat.Parse(p);
      if o.Some? {
        t := Px(o.value);
      } else {
        t := Px(0.0);
      }
    }
  }

  /** The code's first loop: parse the tokens in order while totalling the
      fixed widths and the weights. */
  method ParseTracks(parts: seq<string>) returns (parsed: seq<Track>, fixedWidth: real, totalFr: real)
    requires TokensOk(parts)
    ensures parsed == Tracks(parts)
    ensures fixedWidth == FixedWidth(parsed) && totalFr == TotalFr(parsed)
  {
    ghost var ts := Tracks(parts);
    fixedWidth := 0.0;
    totalFr := 0.0;
    parsed := [];
    var i := 0;
    while i < |parts|
      invariant 0 <= i <= |parts|
      invariant parsed == TracksTo(parts, i)
      invariant fixedWidth == FixedTo(ts, i)
      invariant totalFr == TotalFrTo(ts, i)
    {
      var t := ParseTrack(parts[i]);
      TracksAt(parts, |parts|, i);
      assert FixedTo(ts, i + 1) == FixedTo(ts, i) + (match t case Px(v) => v case Fr(_) => 0.0);
      assert TotalFrTo(ts, i + 1) == TotalFrTo(ts, i) + (match t case Px(_) => 0.0 case Fr(w) => w);
      match t {
        case Px(v) => fixedWidth := fixedWidth + v;
        case Fr(w) => totalFr := totalFr + w;
      }
      parsed := parsed + [t];
      i := i + 1;
    }
  }

  /** The code's arithmetic for the `fr` unit agrees with `FrUnit`. */
  lemma UnitAgrees(ts: seq<Track>, fixedWidth: real, totalFr: real, available: real, gap: real, n: nat)
    requires n == |ts| && fixedWidth == FixedWidth(ts) && totalFr == TotalFr(ts)
    ensures (if totalFr > 0.0 then Max(0.0, available - fixedWidth - Gaps(gap, n)) / totalFr else 0.0)
         == FrUnit(ts, available, gap)
  {
  }

  lemma WidthsPointwise(ts: seq<Track>, available: real, gap: real, ws: seq<real>)
    requires |ws| == |ts|
    requires forall k :: 0 <= k < |ws| ==> ws[k] == TrackWidth(ts[k], FrUnit(ts, available, gap))
    ensures ws == Widths(ts, available, gap)
  {
    WidthsAt(ts, |ts|, FrUnit(ts, available, gap));
  }

  lemma ColumnsOfTokens(template: string, available: real, gap: real)
    requires TemplateOk(template) && Split(template) != []
    ensures Columns(template, available, gap) == Widths(Tracks(Split(template)), available, gap)
  {
  }

  /** `_parse_grid_template` as the code runs it: split, parse the tokens,
      work out the `fr` unit, then turn each track into a width. */
  method ParseGridTemplate(template: string, available: real, gap: real) returns (widths: seq<real>)
    requires TemplateOk(template)
    ensures widths == Columns(template, available, gap)
  {
    var parts := Split(template);
    if parts == [] {
      return [available];
    }
    var totalGap := TotalGap(gap, |parts|);
    var parsed, fixedWidth, totalFr := ParseTracks(parts);
    var remaining := Max(0.0, available - fixedWidth - totalGap);
    var frUnit := if totalFr > 0.0 then remaining / totalFr else 0.0;
    widths := TrackWidths(parsed, frUnit);
    CodeWidths(parsed, available, gap, |parts|, fixedWidth, totalFr, frUnit, widths);
    ColumnsOfParsed(template, available, gap, parsed, widths);
  }

  /** `gap * (len(parts) - 1)` */
  method TotalGap(gap: real, n: nat) returns (t: real)
    requires n >= 1
    ensures t == Gaps(gap, n)
  {
    t := gap * (n - 1) as real;
    GapsProduct(gap, n);
  }

  /** The code's running totals and per-track widths are `Widths`. */
  lemma CodeWidths(parsed: seq<Track>, available: real, gap: real, n: nat,
                   fixedWidth: real, totalFr: real, frUnit: real, widths: seq<real>)
    requires n == |parsed|
    requires fixedWidth == FixedWidth(parsed) && totalFr == TotalFr(parsed)
    requires frUnit == if totalFr > 0.0 then Max(0.0, available - fixedWidth - Gaps(gap, n)) / totalFr else 0.0
    requires |widths| == |parsed|
    requires forall k :: 0 <= k < |parsed| ==> widths[k] == TrackWidth(parsed[k], frUnit)
    ensures widths == Widths(parsed, available, gap)
  {
    UnitAgrees(parsed, fixedWidth, totalFr, available, gap, n);
    WidthsPointwise(parsed, available, gap, widths);
  }

  lemma ColumnsOfParsed(template: string, available: real, gap: real, parsed: seq<Track>, widths: seq<real>)
    requires TemplateOk(template) && Split(template) != []
    requires parsed == Tracks(Split(template))
    requires widths == Widths(parsed, available, gap)
    ensures widths == Columns(template, available, gap)
  {
    ColumnsOfTokens(template, available, gap);
  }

  /** The code's last loop: a fixed track keeps its width, an `fr` track
      gets its weight times the unit. */
  method TrackWidths(parsed: seq<Track>, frUnit: real) returns (widths: seq<real>)
    ensures |widths| == |parsed|
    ensures forall k :: 0 <= k < |parsed| ==> widths[k] == TrackWidth(parsed[k], frUnit)
  {
    widths := [];
    var j := 0;
    while j < |parsed|
      invariant 0 <= j <= |parsed|
      invariant |widths| == j
      invariant forall k :: 0 <= k < j ==> widths[k] == TrackWidth(parsed[k], frUnit)
    {
      match parsed[j] {
        case Px(v) => widths := widths + [v];
        case Fr(w) => widths := widths + [w * frUnit];
      }
      j := j + 1;
    }
  }

  /** A template with no token gives one column spanning the whole width. */
  lemma EmptyTemplate(template: string, available: real, gap: real)
    requires Split(template) == []
    ensures TemplateOk(template)
    ensures Columns(template, available, gap) == [available]
  {
  }

  /** A `px` token, and a bare token that parses as a number, is a fixed
      width whatever the available space; an unparseable bare token is 0. */
  lemma FixedToken(template: string, available: real, gap: real, i: nat)
    requires TemplateOk(template)
    requires i < |Split(template)|
    ensures var p := Split(template)[i];
            var w := Columns(template, available, gap)[i];
            && (EndsWith(p, "px") ==> w == PyFloat.ParseSlice(p, 0, |p| - 2).value)
            && (!EndsWith(p, "px") && !EndsWith(p, "fr") ==>
                  w == match PyFloat.Parse(p) case Some(v) => v case None => 0.0)
  {
    ColumnAt(template, available, gap, i);
  }

  /** Column `i` is the width of track `i`. */
  lemma ColumnAt(template: string, available: real, gap: real, i: nat)
    requires TemplateOk(template)
    requires i < |Split(template)|
    ensures var parts := Split(template);
            var ts := Tracks(parts);
            Columns(template, available, gap)[i] == TrackWidth(ParseToken(parts[i]), FrUnit(ts, available, gap))
  {
    var parts := Split(template);
    var ts := Tracks(parts);
    TracksAt(parts, |parts|, i);
    WidthsAt(ts, |ts|, FrUnit(ts, available, gap));
  }

  /** An `fr` token is a weight, the number before `fr`, and its column is
      that weight times the width of one `fr` unit. */
  lemma FrToken(template: string, available: real, gap: real, i: nat)
    requires TemplateOk(template)
    requires i < |Split(template)|
    requires var p := Split(template)[i]; !EndsWith(p, "px") && EndsWith(p, "fr")
    ensures var p := Split(template)[i];
            ParseToken(p) == Fr(PyFloat.ParseSlice(p, 0, |p| - 2).value)
    ensures var parts := Split(template);
            var p := parts[i];
            Columns(template, available, gap)[i]
              == ParseToken(p).weight * FrUnit(Tracks(parts), available, gap)
  {
    ColumnAt(template, available, gap, i);
  }

  /** Sum of the widths the first `k` `fr` tracks get for a given unit. */
  function FrWidthsTo(ts: seq<Track>, k: nat, unit: real): real
    requires k <= |ts|
  {
    if k == 0 then 0.0
    else FrWidthsTo(ts, k - 1, unit) + (match ts[k - 1] case Px(_) => 0.0 case Fr(w) => w * unit)
  }

  function FrWidths(ts: seq<Track>, unit: real): real
  {
    FrWidthsTo(ts, |ts|, unit)
  }

  lemma {:induction false} FrWidthsScale(ts: seq<Track>, k: nat, unit: real)
    requires k <= |ts|
    ensures FrWidthsTo(ts, k, unit) == TotalFrTo(ts, k) * unit
  {
    if k > 0 {
      FrWidthsScale(ts, k - 1, unit);
    }
  }

  /** Fixed widths plus `fr` widths: the sum of the columns, track by track. */
  lemma {:induction false} WidthsSum(ts: seq<Track>, unit: real, ws: seq<real>, k: nat)
    requires |ws| == |ts| && k <= |ts|
    requires forall i :: 0 <= i < |ts| ==> ws[i] == TrackWidth(ts[i], unit)
    ensures SumTo(ws, k) == FixedTo(ts, k) + FrWidthsTo(ts, k, unit)
  {
    if k > 0 {
      WidthsSum(ts, unit, ws, k - 1);
    }
  }

  /** With a positive total weight the `fr` tracks share exactly the
      remaining space, and when the fixed widths and gaps fit, the columns
      and gaps together fill the available width. */
  lemma FrShareRemaining(ts: seq<Track>, available: real, gap: real)
    requires TotalFr(ts) > 0.0
    ensures FrWidths(ts, FrUnit(ts, available, gap)) == Remaining(ts, available, gap)
    ensures available - FixedWidth(ts) - Gaps(gap, |ts|) >= 0.0 ==>
              Sum(Widths(ts, available, gap)) + Gaps(gap, |ts|) == available
  {
    var unit := FrUnit(ts, available, gap);
    FrWidthsScale(ts, |ts|, unit);
    WidthsAt(ts, |ts|, unit);
    WidthsSum(ts, unit, Widths(ts, available, gap), |ts|);
  }

  /** The same for a template: with some `fr` weight, columns and gaps fill
      the width whenever the fixed tracks and gaps fit. */
  lemma TemplateFills(template: string, available: real, gap: real)
    requires TemplateOk(template) && Split(template) != []
    requires TotalFr(Tracks(Split(template))) > 0.0
    requires var ts := Tracks(Split(template));
             available - FixedWidth(ts) - Gaps(gap, |ts|) >= 0.0
    ensures Sum(Columns(template, available, gap)) + Gaps(gap, |Split(template)|) == available
  {
    var ts := Tracks(Split(template));
    FrShareRemaining(ts, available, gap);
    ColumnsOfTokens(template, available, gap);
  }

  /** `"1fr 2fr"` over 300 with no gap gives columns of 100 and 200. */
  lemma OneTwoFr()
    ensures TemplateOk("1fr 2fr")
    ensures Columns("1fr 2fr", 300.0, 0.0) == [100.0, 200.0]
  {
    NoSpaceWord("1fr");
    NoSpaceWord("2fr");
    SplitTwo("1fr", ' ', "2fr");
    assert "1fr" + " " + "2fr" == "1fr 2fr";
    OneTwoTracks();
    OneTwoWidths();
    ColumnsOfTokens("1fr 2fr", 300.0, 0.0);
  }

  lemma OneTwoTracks()
    ensures TokensOk(["1fr", "2fr"])
    ensures Tracks(["1fr", "2fr"]) == [Fr(1.0), Fr(2.0)]
  {
    FrDigit("1fr");
    FrDigit("2fr");
    TracksPair("1fr", "2fr");
  }

  lemma TracksPair(a: string, b: string)
    requires TokenOk(a) && TokenOk(b)
    ensures TokensOk([a, b])
    ensures Tracks([a, b]) == [ParseToken(a), ParseToken(b)]
  {
    var parts := [a, b];
    assert TokensOk(parts);
    assert TracksTo(parts, 1) == [ParseToken(a)];
  }

  /** The default template `"1fr"` is a single track taking all the space
      there is, and none when the available width is negative. */
  lemma DefaultTemplate(available: real, gap: real)
    ensures Split("1fr") == ["1fr"]
    ensures TemplateOk("1fr")
    ensures Columns("1fr", available, gap) == [Max(0.0, available)]
  {
    NoSpaceWord("1fr");
    SplitSingle("1fr");
    FrDigit("1fr");
    var ts := Tracks(["1fr"]);
    assert ts == [Fr(1.0)];
    OneTrack(available, gap);
  }

  lemma OneTrack(available: real, gap: real)
    ensures Widths([Fr(1.0)], available, gap) == [Max(0.0, available)]
  {
    var ts := [Fr(1.0)];
    assert Gaps(gap, 1) == 0.0;
    assert TotalFr(ts) == 1.0;
    assert FixedWidth(ts) == 0.0;
  }

  /** A one-digit weight followed by `fr` is that weight. */
  lemma FrDigit(p: string)
    requires |p| == 3 && PyFloat.IsDigit(p[0]) && p[1..] == "fr"
    ensures TokenOk(p)
    ensures ParseToken(p) == Fr(PyFloat.DigitVal(p[0]) as real)
  {
    assert p[1] == p[1..][0] == 'f' && p[2] == p[1..][1] == 'r';
    assert EndsWith(p, "fr");
    assert !EndsWith(p, "px") by {
      assert p[|p| - 2 + 1] != "px"[1];
    }
    PyFloat.ParseDigits(p, 0, 1);
  }

  lemma OneTwoWidths()
    ensures Widths([Fr(1.0), Fr(2.0)], 300.0, 0.0) == [100.0, 200.0]
  {
    var ts := [Fr(1.0), Fr(2.0)];
    assert TotalFrTo(ts, 1) == 1.0;
    assert TotalFr(ts) == 3.0;
    assert FixedTo(ts, 1) == 0.0;
    assert FixedWidth(ts) == 0.0;
    assert Gaps(0.0, 2) == 0.0;
    assert Remaining(ts, 300.0, 0.0) == 300.0;
    assert FrUnit(ts, 300.0, 0.0) == 100.0;
  }

  lemma NoSpaceWord(w: string)
    requires forall i :: 0 <= i < |w| ==> 'a' <= w[i] <= 'z' || '0' <= w[i] <= '9'
    ensures NoSpace(w)
  {
  }
}

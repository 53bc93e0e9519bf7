/** What `compute_layout` promises about the bounds it assigns: a node's own
    box, the heights an auto-sized column, row or grid settles on, where
    `justify` puts the first and last child of a stack, how the grid's rows
    and cells are sized and placed, and that a node of an unknown layout
    mode leaves its children alone. */
module LayoutFacts {
  import opened Values
  import opened Reals
  import opened Tree
  import opened Grouping
  import opened Layout
  import PyFloat
  import Images

  /** `Image.measure`'s own `resolve` is `_resolve_dim`. */
  lemma ResolveAgrees(v: Option<Value>, parent: Option<real>)
    ensures Images.Resolve(v, parent) == ResolveDim(v, parent)
  {
  }

  /** `_resolve_dim` case by case: absent is auto, a number is itself, a
      percentage of an auto parent is 0, and a value that is neither a
      number nor a percentage string is 0. */
  lemma ResolveDimCases(v: Option<Value>, parent: Option<real>)
    ensures v.None? ==> ResolveDim(v, parent).None?
    ensures v.Some? && v.value.Num? ==> ResolveDim(v, parent) == Some(v.value.n)
    ensures v.Some? && v.value.Str? && EndsWith(v.value.s, "%") && parent.None? ==> ResolveDim(v, parent) == Some(0.0)
    ensures v.Some? && !v.value.Num? && !(v.value.Str? && EndsWith(v.value.s, "%")) ==> ResolveDim(v, parent) == Some(0.0)
  {
  }

  /** A percentage written as digits and `%` is that share of the parent's
      size. */
  lemma {:induction false} ResolvePercent(s: string, parent: real)
    requires |s| >= 2 && s[|s| - 1] == '%' && PyFloat.AllDigits(s, 0, |s| - 1)
    ensures ResolveDim(Some(Str(s)), Some(parent)) == Some(Percent(parent, PyFloat.DigitsValue(s, 0, |s| - 1) as real))
  {
    assert EndsWith(s, "%") by {
      assert s[|s| - 1] == "%"[0];
    }
    PyFloat.ParseDigits(s, 0, |s| - 1);
  }

  /** `"50%"` of 300 is 150. */
  lemma HalfOfParent()
    ensures ResolveDim(Some(Str("50%")), Some(300.0)) == Some(150.0)
  {
    ResolvePercent("50%", 300.0);
    assert PyFloat.DigitsValue("50%", 0, 2) == 50 by {
      assert PyFloat.DigitsValue("50%", 0, 1) == 5;
    }
  }

  /** A node's own box starts at the origin it is given; a numeric `w` is
      kept whatever the parent's size; without `w` the width is the
      intrinsic width plus padding on both sides for a node that measures
      itself and the parent's width otherwise; a resolved `h` is kept. */
  lemma OwnBounds(n: Node, pw: real, ph: Option<real>, px: real, py: real, mt: TextMeasure)
    ensures var b := Layout.Layout(n, pw, ph, px, py, mt).bounds;
      b.x == px && b.y == py && b.w == OwnWidth(n, pw, ph, mt) &&
      ("w" in n.style && n.style["w"].Num? ==> b.w == n.style["w"].n) &&
      ("w" !in n.style && Measurable(n) ==> b.w == Intrinsic(n, pw, ph, mt).0 + Padding(n.style) * 2.0) &&
      ("w" !in n.style && !Measurable(n) ==> b.w == pw) &&
      (ResolveDim(Get(n.style, "h"), ph).Some? ==> b.h == ResolveDim(Get(n.style, "h"), ph))
  {
    match ModeOf(n.style)
    case Grid =>
    case Unknown =>
    case _ =>
      var p := Padding(n.style);
      var s := StackLayout(n, ModeOf(n.style) == Col, OwnWidth(n, pw, ph, mt) - p * 2.0,
                           ResolveDim(Get(n.style, "h"), ph), AvailHeight(n, ph), px + p, py + p, mt);
      assert Layout.Layout(n, pw, ph, px, py, mt).bounds.h == Some(s.height);
  }

  /** A node whose layout mode is none of grid, col and row keeps its
      children as they are, and an auto height stays unresolved. */
  lemma UnknownMode(n: Node, pw: real, ph: Option<real>, px: real, py: real, mt: TextMeasure)
    requires ModeOf(n.style) == Unknown
    ensures Layout.Layout(n, pw, ph, px, py, mt).children == n.children
    ensures "h" !in n.style ==> Layout.Layout(n, pw, ph, px, py, mt).bounds.h.None?
  {
  }

  // ----- stacks -----

  /** Sizes laid one after another with `gap` between each two, 0 when
      there are none. */
  function Stacked(sizes: seq<real>, gap: real): real
  {
    if |sizes| == 0 then 0.0 else Sum(sizes) + gap * (|sizes| - 1) as real
  }

  /** The sizes of a stack's children along the stacking direction. */
  function Mains(ms: seq<(real, real)>, col: bool): (r: seq<real>)
    ensures |r| == |ms| && forall i :: 0 <= i < |ms| ==> r[i] == MainOf(ms[i], col)
  {
    seq(|ms|, i requires 0 <= i < |ms| => MainOf(ms[i], col))
  }

  /** The distance covered by the first `k` children is their sizes plus
      one step each. */
  lemma {:induction false} AdvanceSum(ms: seq<(real, real)>, k: nat, col: bool, step: real)
    requires k <= |ms|
    ensures Advance(ms, k, col, step) == SumTo(Mains(ms, col), k) + k as real * step
    decreases k
  {
    if k > 0 {
      AdvanceSum(ms, k - 1, col, step);
      assert (k - 1) as real * step + step == k as real * step;
    }
  }

  /** `main_size` is the sum of the children's sizes and a gap between each
      two, and 0 without children. */
  lemma MainSizeSum(ms: seq<(real, real)>, col: bool, gap: real)
    ensures MainSize(ms, col, gap) == Stacked(Mains(ms, col), gap)
  {
    if ms != [] {
      AdvanceSum(ms, |ms|, col, gap);
      assert |ms| as real * gap - gap == gap * (|ms| - 1) as real;
    }
  }

  /** `cross_size` is the largest cross size, 0 when there is none larger. */
  lemma {:induction false} CrossSizeIsMax(ms: seq<(real, real)>, k: nat, col: bool)
    requires k <= |ms|
    ensures CrossSize(ms, k, col) >= 0.0
    ensures forall i :: 0 <= i < k ==> CrossSize(ms, k, col) >= CrossOf(ms[i], col)
    ensures CrossSize(ms, k, col) == 0.0 || exists i :: 0 <= i < k && CrossSize(ms, k, col) == CrossOf(ms[i], col)
    decreases k
  {
    if k > 0 {
      CrossSizeIsMax(ms, k - 1, col);
    }
  }

  /** The measured size of each child of a stack: its `_measure_element`
      against the content box. */
  lemma {:induction false} SizesAt(n: Node, k: nat, contentW: real, availH: Option<real>, mt: TextMeasure)
    requires k <= |n.children|
    ensures forall i :: 0 <= i < k ==>
      Sizes(n, k, contentW, availH, mt)[i] ==
        (Measure(n.children[i], contentW, availH, mt).0, MeasuredHeight(n.children[i], contentW, availH, mt))
    decreases k
  {
    if k > 0 {
      SizesAt(n, k - 1, contentW, availH, mt);
    }
  }

  /** The measured sizes the stack branch of `Layout` works from. */
  function StackSizes(n: Node, pw: real, ph: Option<real>, mt: TextMeasure): (ms: seq<(real, real)>)
    ensures |ms| == |n.children|
  {
    Sizes(n, |n.children|, OwnWidth(n, pw, ph, mt) - Padding(n.style) * 2.0, AvailHeight(n, ph), mt)
  }

  /** A column without a height is as tall as its children's heights and
      the gaps between them, plus padding on both sides: just the padding
      when it has no children. */
  lemma ColumnAutoHeight(n: Node, pw: real, ph: Option<real>, px: real, py: real, mt: TextMeasure)
    requires ModeOf(n.style) == Col && "h" !in n.style
    ensures var ms := StackSizes(n, pw, ph, mt);
      var heights := Mains(ms, true);
      (forall i :: 0 <= i < |n.children| ==>
         heights[i] == MeasuredHeight(n.children[i], OwnWidth(n, pw, ph, mt) - Padding(n.style) * 2.0, AvailHeight(n, ph), mt)) &&
      Layout.Layout(n, pw, ph, px, py, mt).bounds.h == Some(Stacked(heights, Gap(n.style)) + Padding(n.style) * 2.0)
  {
    var ms := StackSizes(n, pw, ph, mt);
    var p := Padding(n.style);
    SizesAt(n, |n.children|, OwnWidth(n, pw, ph, mt) - p * 2.0, AvailHeight(n, ph), mt);
    MainSizeSum(ms, true, Gap(n.style));
    assert ResolveDim(Get(n.style, "h"), ph) == None;
    var s := StackLayout(n, true, OwnWidth(n, pw, ph, mt) - p * 2.0, None, AvailHeight(n, ph), px + p, py + p, mt);
    assert s.height == MainSize(ms, true, Gap(n.style)) + p * 2.0;
    assert Layout.Layout(n, pw, ph, px, py, mt) == StackNode(n, pw, ph, px, py, mt);
  }

  /** A row without a height is as tall as its tallest child plus padding
      on both sides. */
  lemma RowAutoHeight(n: Node, pw: real, ph: Option<real>, px: real, py: real, mt: TextMeasure)
    requires ModeOf(n.style) == Row && "h" !in n.style
    ensures var ms := StackSizes(n, pw, ph, mt);
      var tallest := CrossSize(ms, |ms|, false);
      Layout.Layout(n, pw, ph, px, py, mt).bounds.h == Some(tallest + Padding(n.style) * 2.0) &&
      tallest >= 0.0 &&
      (forall i :: 0 <= i < |ms| ==> tallest >= ms[i].1) &&
      (tallest == 0.0 || exists i :: 0 <= i < |ms| && tallest == ms[i].1)
  {
    var ms := StackSizes(n, pw, ph, mt);
    var p := Padding(n.style);
    CrossSizeIsMax(ms, |ms|, false);
    assert ResolveDim(Get(n.style, "h"), ph) == None;
    var s := StackLayout(n, false, OwnWidth(n, pw, ph, mt) - p * 2.0, None, AvailHeight(n, ph), px + p, py + p, mt);
    assert s.height == CrossSize(ms, |ms|, false) + p * 2.0;
    assert Layout.Layout(n, pw, ph, px, py, mt) == StackNode(n, pw, ph, px, py, mt);
  }

  /** Where child `i` of a stack starts along the stacking direction,
      measured from the content box. */
  function Lead(n: Node, ms: seq<(real, real)>, i: nat, col: bool, spread: Spread): real
    requires i <= |ms|
  {
    spread.start + Advance(ms, i, col, Gap(n.style) + spread.extra)
  }

  /** `justify` over the free main-axis space of `contentMain`: `start`
      packs the children from 0, `center` leaves equal space before the
      first and after the last, `end` puts the last child's far edge at
      the end of the content box, and `space-between` with two or more
      children puts the first at 0 and the last at the end; with fewer it
      spreads nothing. */
  lemma {:induction false} JustifyEdges(n: Node, ms: seq<(real, real)>, col: bool, contentMain: real)
    requires |ms| >= 1
    ensures var main := MainSize(ms, col, Gap(n.style));
      var spread := Justify(n.style, contentMain - main, |ms|);
      var j := Get(n.style, "justify");
      var last := Lead(n, ms, |ms| - 1, col, spread) + MainOf(ms[|ms| - 1], col);
      Lead(n, ms, 0, col, spread) == spread.start &&
      (j != Some(Str("center")) && j != Some(Str("end")) && j != Some(Str("space-between")) ==>
         spread.start == 0.0 && last == main) &&
      (j == Some(Str("center")) ==> spread.start == contentMain - last) &&
      (j == Some(Str("end")) ==> last == contentMain) &&
      (j == Some(Str("space-between")) && |ms| >= 2 ==> spread.start == 0.0 && last == contentMain) &&
      (j == Some(Str("space-between")) && |ms| < 2 ==> spread == Spread(0.0, 0.0))
  {
    var gap := Gap(n.style);
    var main := MainSize(ms, col, gap);
    var free := contentMain - main;
    var spread := Justify(n.style, free, |ms|);
    var k := |ms| - 1;
    var mains := Mains(ms, col);
    MainSizeSum(ms, col, gap);
    AdvanceSum(ms, k, col, gap + spread.extra);
    assert Sum(mains) == SumTo(mains, k) + mains[k];
    var last := Lead(n, ms, k, col, spread) + MainOf(ms[k], col);
    assert last == spread.start + main + k as real * spread.extra;
    if Get(n.style, "justify") == Some(Str("space-between")) && |ms| >= 2 {
      assert spread.extra == free / k as real;
      assert k as real * (free / k as real) == free;
    }
  }

  /** `align` across the stacking direction: `start` puts the child at the
      start of the content box, `center` centres it, `end` puts its far
      edge at the far end. */
  lemma AlignEdges(style: Style, contentCross: real, cross: real)
    ensures var off := CrossOffset(style, contentCross - cross);
      var a := Get(style, "align");
      (a != Some(Str("center")) && a != Some(Str("end")) ==> off == 0.0) &&
      (a == Some(Str("center")) ==> off + cross / 2.0 == contentCross / 2.0) &&
      (a == Some(Str("end")) ==> off + cross == contentCross)
  {
  }

  /** Child `i` of a stack is laid out at its measured size, at the
      content box's origin moved by its lead along the stacking direction
      and by the alignment offset across it, and then by its own `left`
      and `top`. */
  lemma {:induction false} StackCellAt(n: Node, k: nat, ms: seq<(real, real)>, col: bool, contentW: real, contentH: real,
                                       cx: real, cy: real, spread: Spread, mt: TextMeasure, i: nat)
    requires i < k <= |n.children| == |ms|
    ensures var c := n.children[i];
      var off := CrossOffset(n.style, (if col then contentW else contentH) - CrossOf(ms[i], col));
      var pos := Lead(n, ms, i, col, spread);
      StackCells(n, k, ms, col, contentW, contentH, cx, cy, spread, mt)[i] ==
        Layout.Layout(c, ms[i].0, Some(ms[i].1),
                      (if col then cx + off else cx + pos) + NumOr(c.style, "left", 0.0),
                      (if col then cy + pos else cy + off) + NumOr(c.style, "top", 0.0), mt)
    decreases k
  {
    if i < k - 1 {
      StackCellAt(n, k - 1, ms, col, contentW, contentH, cx, cy, spread, mt, i);
    }
  }

  // ----- grid -----

  /** A running offset over sizes with a gap after each is their sum plus
      one gap each. */
  lemma {:induction false} LeadSum(sizes: seq<real>, k: nat, gap: real)
    requires k <= |sizes|
    ensures Layout.Lead(sizes, k, gap) == SumTo(sizes, k) + k as real * gap
    decreases k
  {
    if k > 0 {
      LeadSum(sizes, k - 1, gap);
      assert (k - 1) as real * gap + gap == k as real * gap;
    }
  }

  /** A grid row is as tall as its tallest cell measured at its column's
      width, and 0 when it has none taller. */
  lemma {:induction false} RowHeightIsMax(n: Node, row: seq<Node>, c: nat, colW: seq<real>, availH: Option<real>,
                                          mt: TextMeasure)
    requires c <= |row| <= |colW| && forall m :: m in row ==> m in n.children
    ensures RowHeight(n, row, c, colW, availH, mt) >= 0.0
    ensures forall i :: 0 <= i < c ==> RowHeight(n, row, c, colW, availH, mt) >= MeasuredHeight(row[i], colW[i], availH, mt)
    ensures RowHeight(n, row, c, colW, availH, mt) == 0.0 ||
      exists i :: 0 <= i < c && RowHeight(n, row, c, colW, availH, mt) == MeasuredHeight(row[i], colW[i], availH, mt)
    decreases c
  {
    if c > 0 {
      RowHeightIsMax(n, row, c - 1, colW, availH, mt);
    }
  }

  /** Cell `c` of a grid row is the child laid out with its column width
      and the row height as parent size, after the earlier columns and one
      gap for each. */
  lemma {:induction false} RowCellAt(n: Node, row: seq<Node>, k: nat, colW: seq<real>, height: real,
                                     cx: real, y: real, mt: TextMeasure, c: nat)
    requires c < k <= |row| <= |colW| && forall m :: m in row ==> m in n.children
    ensures PlaceRow(n, row, k, colW, height, cx, y, mt)[c] ==
      Layout.Layout(row[c], colW[c], Some(height), cx + SumTo(colW, c) + c as real * Gap(n.style), y, mt)
    decreases k
  {
    var rest := PlaceRow(n, row, k - 1, colW, height, cx, y, mt);
    var last := Layout.Layout(row[k - 1], colW[k - 1], Some(height), cx + Layout.Lead(colW, k - 1, Gap(n.style)), y, mt);
    assert row[k - 1] in n.children;
    assert PlaceRow(n, row, k, colW, height, cx, y, mt) == rest + [last];
    if c < k - 1 {
      RowCellAt(n, row, k - 1, colW, height, cx, y, mt, c);
      assert (rest + [last])[c] == rest[c];
    } else {
      LeadSum(colW, c, Gap(n.style));
      assert (rest + [last])[c] == last;
    }
  }

  /** The rows of a grid over the given content width: its children,
      `cols` to a row. */
  function GridRows(n: Node, contentW: real): seq<seq<Node>>
  {
    Chunks(n.children, |Columns(n, contentW)|)
  }

  /** The heights `GridLayout` gives the rows of a grid. */
  function GridRowHeights(n: Node, contentW: real, availH: Option<real>, mt: TextMeasure): (rh: seq<real>)
    ensures |rh| == |GridRows(n, contentW)|
  {
    var colW := Columns(n, contentW);
    var rows := Chunks(n.children, |colW|);
    ChunksMembers(n.children, |colW|);
    RowHeights(n, rows, |rows|, colW, availH, mt)
  }

  /** Row `r` of a grid is as tall as `RowHeight` says of it. */
  lemma {:induction false} RowHeightsAt(n: Node, rows: seq<seq<Node>>, k: nat, colW: seq<real>, availH: Option<real>,
                                        mt: TextMeasure, r: nat)
    requires r < k <= |rows| && RowsOf(n, rows, |colW|)
    ensures RowHeights(n, rows, k, colW, availH, mt)[r] == RowHeight(n, rows[r], |rows[r]|, colW, availH, mt)
    decreases k
  {
    if r < k - 1 {
      RowHeightsAt(n, rows, k - 1, colW, availH, mt, r);
    }
  }

  /** Every row of a grid is as tall as its tallest cell, each measured at
      its column's width. */
  lemma GridRowIsMax(n: Node, contentW: real, availH: Option<real>, mt: TextMeasure, r: nat)
    requires r < |GridRows(n, contentW)|
    ensures var colW := Columns(n, contentW);
      var row := GridRows(n, contentW)[r];
      var h := GridRowHeights(n, contentW, availH, mt)[r];
      h >= 0.0 && |row| <= |colW| &&
      (forall i :: 0 <= i < |row| ==> h >= MeasuredHeight(row[i], colW[i], availH, mt)) &&
      (h == 0.0 || exists i :: 0 <= i < |row| && h == MeasuredHeight(row[i], colW[i], availH, mt))
  {
    var colW := Columns(n, contentW);
    var rows := Chunks(n.children, |colW|);
    ChunksMembers(n.children, |colW|);
    RowHeightsAt(n, rows, |rows|, colW, availH, mt, r);
    RowHeightIsMax(n, rows[r], |rows[r]|, colW, availH, mt);
  }

  /** A grid without a height has one row per `cols` children, rounded up,
      and is as tall as its rows and the gaps between them plus padding on
      both sides. */
  lemma GridAutoHeight(n: Node, pw: real, ph: Option<real>, px: real, py: real, mt: TextMeasure)
    requires ModeOf(n.style) == Grid && "h" !in n.style
    ensures |GridRows(n, OwnWidth(n, pw, ph, mt) - Padding(n.style) * 2.0)| ==
      (|n.children| + |Columns(n, OwnWidth(n, pw, ph, mt) - Padding(n.style) * 2.0)| - 1)
        / |Columns(n, OwnWidth(n, pw, ph, mt) - Padding(n.style) * 2.0)|
    ensures Layout.Layout(n, pw, ph, px, py, mt).bounds.h ==
      Some(Stacked(GridRowHeights(n, OwnWidth(n, pw, ph, mt) - Padding(n.style) * 2.0, AvailHeight(n, ph), mt), Gap(n.style))
           + Padding(n.style) * 2.0)
  {
    var p := Padding(n.style);
    var contentW := OwnWidth(n, pw, ph, mt) - p * 2.0;
    var colW := Columns(n, contentW);
    ChunksCount(n.children, |colW|);
    GridNodeHeight(n, pw, ph, px, py, mt);
    GridHeightSum(n, contentW, AvailHeight(n, ph), px + p, py + p, mt);
  }

  /** An auto-height grid node is as tall as its grid plus padding. */
  lemma GridNodeHeight(n: Node, pw: real, ph: Option<real>, px: real, py: real, mt: TextMeasure)
    requires ModeOf(n.style) == Grid && "h" !in n.style
    ensures Layout.Layout(n, pw, ph, px, py, mt).bounds.h ==
      Some(GridLayout(n, OwnWidth(n, pw, ph, mt) - Padding(n.style) * 2.0, AvailHeight(n, ph),
                      px + Padding(n.style), py + Padding(n.style), mt).height + Padding(n.style) * 2.0)
  {
    LayoutOfGrid(n, pw, ph, px, py, mt);
    assert ResolveDim(Get(n.style, "h"), ph) == None;
  }

  /** A node in grid mode is laid out as a grid container. */
  lemma LayoutOfGrid(n: Node, pw: real, ph: Option<real>, px: real, py: real, mt: TextMeasure)
    requires ModeOf(n.style) == Grid
    ensures Layout.Layout(n, pw, ph, px, py, mt) == GridNode(n, pw, ph, px, py, mt)
  {
  }

  /** The grid's height is its rows' heights and the gaps between them. */
  lemma GridHeightSum(n: Node, contentW: real, availH: Option<real>, cx: real, cy: real, mt: TextMeasure)
    ensures GridLayout(n, contentW, availH, cx, cy, mt).height == Stacked(GridRowHeights(n, contentW, availH, mt), Gap(n.style))
  {
    var rh := GridRowHeights(n, contentW, availH, mt);
    var height := GridLayout(n, contentW, availH, cx, cy, mt).height;
    assert height == if rh == [] then 0.0 else Sum(rh) + Gaps(Gap(n.style), |rh|);
    GapsTotal(height, rh, Gap(n.style));
  }

  /** Sizes with `gap` between each two, as a product. */
  lemma GapsTotal(total: real, sizes: seq<real>, gap: real)
    requires total == if sizes == [] then 0.0 else Sum(sizes) + Gaps(gap, |sizes|)
    ensures total == Stacked(sizes, gap)
  {
    if sizes != [] {
      GapsProduct(gap, |sizes|);
    }
  }
}

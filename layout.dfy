/** The layout engine: `compute_layout` gives every node of the tree its
    `computed_bounds` from its style, its parent's size and its origin.
    A node lays out its children as a column, a row or a grid and sizes
    itself from them when its own size is left open; `_measure_element`
    sizes a child by a dry run at the origin before the real pass places
    it.  This module states the result as a function of the tree. */
module Layout {
  import opened Values
  import opened Reals
  import opened Tree
  import opened Grouping
  import PyFloat
  import GridTemplate
  import Inputs
  import Images

  /** `Renderer.measure_text`, a call into Skia: the size of a text run
      drawn in a style. */
  type TextMeasure = (string, Style) -> (real, real)

  /** `_resolve_dim`: no value means "auto" (None), a number is itself, a
      percentage is that share of the parent's size (0 when the parent's
      size is itself auto), anything else is 0.  A percentage `float`
      rejects makes the code raise; `PercentOk` rules that out wherever
      the code runs, and the function gives 0 there. */
  function ResolveDim(v: Option<Value>, parent: Option<real>): (r: Option<real>)
    ensures r.None? <==> v.None?
  {
    match v
    case None => None
    case Some(Num(n)) => Some(n)
    case Some(Str(s)) =>
      if EndsWith(s, "%") && parent.Some? then
        match PyFloat.ParseSlice(s, 0, |s| - 1)
        case Some(f) => Some(Percent(parent.value, f))
        case None => Some(0.0)
      else Some(0.0)
    case Some(Other) => Some(0.0)
  }

  /** `style.get('layout', 'col')`, compared against the three known modes. */
  datatype Mode = Grid | Col | Row | Unknown

  function ModeOf(style: Style): Mode
  {
    match Get(style, "layout")
    case None => Col
    case Some(v) =>
      if v == Str("grid") then Grid
      else if v == Str("col") then Col
      else if v == Str("row") then Row
      else Unknown
  }

  function Padding(style: Style): real
  {
    NumOr(style, "padding", 0.0)
  }

  function Gap(style: Style): real
  {
    NumOr(style, "gap", 0.0)
  }

  /** What `measure` needs of a node's style not to raise. */
  predicate MeasureOk(n: Node)
  {
    n.kind.InputField? ==> Inputs.MeasureOk(n.style)
  }

  /** What sizing a node needs of its own style: percentages that parse, a
      numeric padding, and a `measure` that works where the code calls it
      for the node's own width. */
  predicate OwnOk(n: Node)
  {
    && PyFloat.PercentOk(Get(n.style, "w"))
    && PyFloat.PercentOk(Get(n.style, "h"))
    && NumOrAbsent(n.style, "padding")
    && (Measurable(n) && "w" !in n.style ==> MeasureOk(n))
  }

  /** A node whose measured height is a number: anything the parent adds
      up or compares. */
  predicate HeightResolves(n: Node)
  {
    Measurable(n) || "h" in n.style || ModeOf(n.style) != Unknown
  }

  /** What a parent that measures and places a child needs of it. */
  predicate ChildFits(c: Node)
  {
    HeightResolves(c) && (Measurable(c) ==> MeasureOk(c))
  }

  /** `grid_template_columns`, when given, is a template string. */
  predicate TemplateOk(style: Style)
  {
    "grid_template_columns" in style ==>
      style["grid_template_columns"].Str? && GridTemplate.TemplateOk(style["grid_template_columns"].s)
  }

  /** The template has at least one track; the default `1fr` has one. */
  predicate HasTracks(style: Style)
  {
    "grid_template_columns" in style ==>
      style["grid_template_columns"].Str? && Split(style["grid_template_columns"].s) != []
  }


  /** The inputs on which `compute_layout` runs without raising: every
      node sizes itself; a grid has a usable template and a numeric gap
      once it has tracks or children; a stack has a numeric gap once it has
      children and numeric `left`/`top` offsets on them; every child that
      is measured and placed fits.  A node of another layout mode never
      looks at its children. */
  predicate LayoutOk(n: Node)
    decreases n
  {
    && OwnOk(n)
    && match ModeOf(n.style)
       case Unknown => true
       case Grid =>
         && TemplateOk(n.style)
         && (HasTracks(n.style) || n.children != [] ==> NumOrAbsent(n.style, "gap"))
         && forall c :: c in n.children ==> LayoutOk(c) && ChildFits(c)
       case _ =>
         && (n.children != [] ==> NumOrAbsent(n.style, "gap"))
         && forall c :: c in n.children ==>
              LayoutOk(c) && ChildFits(c) && NumOrAbsent(c.style, "left") && NumOrAbsent(c.style, "top")
  }

  /** `element.measure(parent_w, parent_h)`; a plain element measures as
      nothing. */
  function Intrinsic(n: Node, pw: real, ph: Option<real>, mt: TextMeasure): (real, real)
  {
    match n.kind
    case Plain => (0.0, 0.0)
    case TextLeaf(t) => mt(t, n.style)
    case InputField => Inputs.Measure(n.style)
    case Picture(image) => Images.Measure(n.style, image, pw, ph)
  }

  /** A node's own width: its resolved `w`, else its intrinsic width plus
      padding on both sides, else the parent's width. */
  function OwnWidth(n: Node, pw: real, ph: Option<real>, mt: TextMeasure): real
  {
    match ResolveDim(Get(n.style, "w"), Some(pw))
    case Some(w) => w
    case None => if Measurable(n) then Intrinsic(n, pw, ph, mt).0 + Padding(n.style) * 2.0 else pw
  }

  /** The height left for the content: the own height less padding, else
      the parent's. */
  function AvailHeight(n: Node, ph: Option<real>): Option<real>
  {
    match ResolveDim(Get(n.style, "h"), ph)
    case Some(h) => Some(h - Padding(n.style) * 2.0)
    case None => ph
  }

  /** The laid-out children of a container and its height before padding. */
  datatype Placed = Placed(children: seq<Node>, height: real)

  /** `compute_layout(element, parent_w, parent_h, parent_x, parent_y)`:
      the node with its bounds and its children's bounds filled in. */
  function Layout(n: Node, pw: real, ph: Option<real>, px: real, py: real, mt: TextMeasure): (r: Node)
    ensures |r.children| == |n.children|
    decreases n, 6
  {
    match ModeOf(n.style)
    case Grid => GridNode(n, pw, ph, px, py, mt)
    case Unknown => n.(bounds := Bounds(px, py, OwnWidth(n, pw, ph, mt), ResolveDim(Get(n.style, "h"), ph)))
    case _ => StackNode(n, pw, ph, px, py, mt)
  }

  /** A grid container: its cells and, without an own height, the grid's
      height plus padding. */
  function GridNode(n: Node, pw: real, ph: Option<real>, px: real, py: real, mt: TextMeasure): (r: Node)
    ensures |r.children| == |n.children|
    ensures r.bounds.h.Some?
    decreases n, 5
  {
    var w := OwnWidth(n, pw, ph, mt);
    var h := ResolveDim(Get(n.style, "h"), ph);
    var p := Padding(n.style);
    var g := GridLayout(n, w - p * 2.0, AvailHeight(n, ph), px + p, py + p, mt);
    n.(children := g.children, bounds := Bounds(px, py, w, Some(if h.Some? then h.value else g.height + p * 2.0)))
  }

  /** A column or row container: its placed children and the stack's
      height. */
  function StackNode(n: Node, pw: real, ph: Option<real>, px: real, py: real, mt: TextMeasure): (r: Node)
    ensures |r.children| == |n.children|
    ensures r.bounds.h.Some?
    decreases n, 5
  {
    var w := OwnWidth(n, pw, ph, mt);
    var p := Padding(n.style);
    var s := StackLayout(n, ModeOf(n.style) == Col, w - p * 2.0, ResolveDim(Get(n.style, "h"), ph), AvailHeight(n, ph),
                         px + p, py + p, mt);
    n.(children := s.children, bounds := Bounds(px, py, w, Some(s.height)))
  }

  /** `_measure_element`: the intrinsic size of a node that has one, else
      the size a dry run of the layout at the origin gives it. */
  function Measure(c: Node, pw: real, ph: Option<real>, mt: TextMeasure): (m: (real, Option<real>))
    ensures HeightResolves(c) ==> m.1.Some?
    decreases c, 7
  {
    if Measurable(c) then
      var s := Intrinsic(c, pw, ph, mt);
      (s.0, Some(s.1))
    else
      var b := Layout(c, pw, ph, 0.0, 0.0, mt).bounds;
      (b.w, b.h)
  }

  /** The measured height of a child; a child that fits always has one,
      and the code raises on one that does not. */
  function MeasuredHeight(c: Node, pw: real, ph: Option<real>, mt: TextMeasure): real
    decreases c, 8
  {
    match Measure(c, pw, ph, mt).1
    case Some(h) => h
    case None => 0.0
  }

  // ----- grid -----

  /** The column widths of a grid over the given content width.  Without a
      template the code parses `1fr`, one column taking the whole width
      (`GridTemplate.DefaultTemplate` shows that this is what `1fr` gives);
      a template that is not a usable string makes the code raise. */
  function Columns(n: Node, contentW: real): (colW: seq<real>)
    ensures |colW| >= 1
  {
    if "grid_template_columns" !in n.style then [Max(0.0, contentW)]
    else
      var t := n.style["grid_template_columns"];
      if t.Str? && GridTemplate.TemplateOk(t.s) then GridTemplate.Columns(t.s, contentW, Gap(n.style))
      else [contentW]
  }

  /** The rows of a grid are runs of its children, and every member of one
      is a child of the container. */
  predicate RowsOf(n: Node, rows: seq<seq<Node>>, cols: nat)
  {
    forall r :: 0 <= r < |rows| ==> |rows[r]| <= cols && forall c :: c in rows[r] ==> c in n.children
  }

  /** The grid of a container: its children grouped into rows, every row as
      tall as its tallest child measured at its column's width, and every
      child laid out in its cell. */
  function GridLayout(n: Node, contentW: real, availH: Option<real>, cx: real, cy: real, mt: TextMeasure): (g: Placed)
    ensures |g.children| == |n.children|
    decreases n, 4
  {
    var colW := Columns(n, contentW);
    var rows := Chunks(n.children, |colW|);
    ChunksMembers(n.children, |colW|);
    var rh := RowHeights(n, rows, |rows|, colW, availH, mt);
    var laid := PlaceRows(n, rows, |rows|, colW, rh, cx, cy, mt);
    FlattenChunks(n.children, |colW|);
    FlattenSameShape(laid, rows);
    Placed(Flatten(laid), if rh == [] then 0.0 else Sum(rh) + Gaps(Gap(n.style), |rh|))
  }

  /** `row_heights` for the first `k` rows. */
  function RowHeights(n: Node, rows: seq<seq<Node>>, k: nat, colW: seq<real>, availH: Option<real>, mt: TextMeasure)
    : (rh: seq<real>)
    requires k <= |rows| && RowsOf(n, rows, |colW|)
    ensures |rh| == k
    decreases n, 3, k
  {
    if k == 0 then []
    else RowHeights(n, rows, k - 1, colW, availH, mt) + [RowHeight(n, rows[k - 1], |rows[k - 1]|, colW, availH, mt)]
  }

  /** One row's height over its first `c` cells: `max_h`, starting from 0. */
  function RowHeight(n: Node, row: seq<Node>, c: nat, colW: seq<real>, availH: Option<real>, mt: TextMeasure): real
    requires c <= |row| <= |colW| && forall m :: m in row ==> m in n.children
    decreases n, 2, c
  {
    if c == 0 then 0.0
    else
      var cell := row[c - 1];
      assert cell in n.children;
      Max(RowHeight(n, row, c - 1, colW, availH, mt), MeasuredHeight(cell, colW[c - 1], availH, mt))
  }

  /** The running offset after the first `k` sizes, each followed by a
      gap: `current += size + gap`. */
  function Lead(sizes: seq<real>, k: nat, gap: real): real
    requires k <= |sizes|
  {
    if k == 0 then 0.0 else Lead(sizes, k - 1, gap) + sizes[k - 1] + gap
  }

  /** The first `k` rows, each placed at its vertical offset. */
  function PlaceRows(n: Node, rows: seq<seq<Node>>, k: nat, colW: seq<real>, rh: seq<real>,
                     cx: real, cy: real, mt: TextMeasure): (laid: seq<seq<Node>>)
    requires k <= |rows| && RowsOf(n, rows, |colW|) && |rh| == |rows|
    ensures |laid| == k && forall r :: 0 <= r < k ==> |laid[r]| == |rows[r]|
    decreases n, 3, k
  {
    if k == 0 then []
    else
      PlaceRows(n, rows, k - 1, colW, rh, cx, cy, mt)
        + [PlaceRow(n, rows[k - 1], |rows[k - 1]|, colW, rh[k - 1], cx, cy + Lead(rh, k - 1, Gap(n.style)), mt)]
  }

  /** The first `c` cells of one row: each as wide as its column, as tall as
      the row, after the earlier columns and their gaps. */
  function PlaceRow(n: Node, row: seq<Node>, c: nat, colW: seq<real>, height: real,
                    cx: real, y: real, mt: TextMeasure): (laid: seq<Node>)
    requires c <= |row| <= |colW| && forall m :: m in row ==> m in n.children
    ensures |laid| == c
    decreases n, 2, c
  {
    if c == 0 then []
    else
      var cell := row[c - 1];
      assert cell in n.children;
      PlaceRow(n, row, c - 1, colW, height, cx, y, mt)
        + [Layout(cell, colW[c - 1], Some(height), cx + Lead(colW, c - 1, Gap(n.style)), y, mt)]
  }

  lemma FlattenSameShape<S, T>(a: seq<seq<S>>, b: seq<seq<T>>)
    requires |a| == |b| && forall r :: 0 <= r < |a| ==> |a[r]| == |b[r]|
    ensures |Flatten(a)| == |Flatten(b)|
  {
    FlattenToSameShape(a, b, |a|);
  }

  lemma {:induction false} FlattenToSameShape<S, T>(a: seq<seq<S>>, b: seq<seq<T>>, k: nat)
    requires k <= |a| == |b| && forall r :: 0 <= r < |a| ==> |a[r]| == |b[r]|
    ensures |FlattenTo(a, k)| == |FlattenTo(b, k)|
    decreases k
  {
    if k > 0 {
      FlattenToSameShape(a, b, k - 1);
    }
  }

  // ----- column and row -----

  /** A child's size along the stacking direction and across it. */
  function MainOf(m: (real, real), col: bool): real
  {
    if col then m.1 else m.0
  }

  function CrossOf(m: (real, real), col: bool): real
  {
    if col then m.0 else m.1
  }

  /** The measured sizes of the first `k` children of a stack. */
  function Sizes(n: Node, k: nat, contentW: real, availH: Option<real>, mt: TextMeasure): (ms: seq<(real, real)>)
    requires k <= |n.children|
    ensures |ms| == k
    decreases n, 3, k
  {
    if k == 0 then []
    else
      var c := n.children[k - 1];
      Sizes(n, k - 1, contentW, availH, mt) + [(Measure(c, contentW, availH, mt).0, MeasuredHeight(c, contentW, availH, mt))]
  }

  /** The main-axis distance covered by the first `k` sizes, each followed
      by `step`. */
  function Advance(ms: seq<(real, real)>, k: nat, col: bool, step: real): real
    requires k <= |ms|
  {
    if k == 0 then 0.0 else Advance(ms, k - 1, col, step) + MainOf(ms[k - 1], col) + step
  }

  /** `main_size`: the children's main sizes with a gap between each two. */
  function MainSize(ms: seq<(real, real)>, col: bool, gap: real): real
  {
    if ms == [] then 0.0 else Advance(ms, |ms|, col, gap) - gap
  }

  /** `cross_size` over the first `k` sizes: the largest, starting from 0. */
  function CrossSize(ms: seq<(real, real)>, k: nat, col: bool): real
    requires k <= |ms|
  {
    if k == 0 then 0.0 else Max(CrossSize(ms, k - 1, col), CrossOf(ms[k - 1], col))
  }

  /** Where the first child starts on the main axis and the space added to
      every gap. */
  datatype Spread = Spread(start: real, extra: real)

  /** `justify`: center and end shift the start by half or all of the free
      space; space-between spreads it over the gaps of two or more
      children; anything else starts at 0. */
  function Justify(style: Style, free: real, count: nat): Spread
  {
    var j := Get(style, "justify");
    if j == Some(Str("center")) then Spread(free / 2.0, 0.0)
    else if j == Some(Str("end")) then Spread(free, 0.0)
    else if j == Some(Str("space-between")) && count > 1 then Spread(0.0, free / (count - 1) as real)
    else Spread(0.0, 0.0)
  }

  /** `align`: the cross-axis offset for the free cross space. */
  function CrossOffset(style: Style, freeCross: real): real
  {
    var a := Get(style, "align");
    if a == Some(Str("center")) then freeCross / 2.0
    else if a == Some(Str("end")) then freeCross
    else 0.0
  }

  /** A column or a row: the children measured against the content box,
      the container's height settled from them when it is auto, then every
      child placed along the main axis and aligned across it. */
  function StackLayout(n: Node, col: bool, contentW: real, h: Option<real>, availH: Option<real>,
                       cx: real, cy: real, mt: TextMeasure): (s: Placed)
    ensures |s.children| == |n.children|
    decreases n, 4
  {
    var ms := Sizes(n, |n.children|, contentW, availH, mt);
    var p := Padding(n.style);
    var main := MainSize(ms, col, Gap(n.style));
    var height := if h.Some? then h.value else (if col then main else CrossSize(ms, |ms|, col)) + p * 2.0;
    var contentH := height - p * 2.0;
    var spread := Justify(n.style, (if col then contentH else contentW) - main, |ms|);
    Placed(StackCells(n, |n.children|, ms, col, contentW, contentH, cx, cy, spread, mt), height)
  }

  /** The first `k` children of a stack, each in place. */
  function StackCells(n: Node, k: nat, ms: seq<(real, real)>, col: bool, contentW: real, contentH: real,
                      cx: real, cy: real, spread: Spread, mt: TextMeasure): (laid: seq<Node>)
    requires k <= |n.children| == |ms|
    ensures |laid| == k
    decreases n, 3, k
  {
    if k == 0 then []
    else StackCells(n, k - 1, ms, col, contentW, contentH, cx, cy, spread, mt)
           + [PlaceInStack(n, k - 1, ms, col, contentW, contentH, cx, cy, spread, mt)]
  }

  /** Child `i` of a stack, laid out at its measured size where
      `StackOrigin` puts it. */
  function PlaceInStack(n: Node, i: nat, ms: seq<(real, real)>, col: bool, contentW: real, contentH: real,
                        cx: real, cy: real, spread: Spread, mt: TextMeasure): Node
    requires i < |n.children| == |ms|
    decreases n, 2
  {
    var o := StackOrigin(n, i, ms, col, contentW, contentH, cx, cy, spread);
    Layout(n.children[i], ms[i].0, Some(ms[i].1), o.0, o.1, mt)
  }

  /** Where child `i` of a stack goes: the cursor along the main axis, the
      alignment offset across it, shifted by the child's own `left`/`top`. */
  function StackOrigin(n: Node, i: nat, ms: seq<(real, real)>, col: bool, contentW: real, contentH: real,
                       cx: real, cy: real, spread: Spread): (real, real)
    requires i < |n.children| == |ms|
  {
    var c := n.children[i];
    var pos := spread.start + Advance(ms, i, col, Gap(n.style) + spread.extra);
    var off := CrossOffset(n.style, (if col then contentW else contentH) - CrossOf(ms[i], col));
    ((if col then cx + off else cx + pos) + NumOr(c.style, "left", 0.0),
     (if col then cy + pos else cy + off) + NumOr(c.style, "top", 0.0))
  }
}

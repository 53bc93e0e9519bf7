/** `compute_layout` and `_measure_element` as the code runs them: the
    measuring and placing loops with their accumulators, each proved to
    compute what `Layout` states. */
module LayoutPass {
  import opened Values
  import opened Reals
  import opened Tree
  import opened Grouping
  import opened Layout
  import GridTemplate

  /** `compute_layout(element, parent_w, parent_h, parent_x, parent_y)` */
  method ComputeLayout(n: Node, pw: real, ph: Option<real>, px: real, py: real, mt: TextMeasure) returns (r: Node)
    requires LayoutOk(n)
    ensures r == Layout.Layout(n, pw, ph, px, py, mt)
    decreases n, 6
  {
    var style := n.style;
    var w := ResolveDim(Get(style, "w"), Some(pw));
    var h := ResolveDim(Get(style, "h"), ph);
    var width: real;
    if w.Some? {
      width := w.value;
    } else if Measurable(n) {
      var intrinsic := Intrinsic(n, pw, ph, mt);
      width := intrinsic.0 + Padding(style) * 2.0;
    } else {
      width := pw;
    }
    assert width == OwnWidth(n, pw, ph, mt);
    var padding := Padding(style);
    var mode := ModeOf(style);
    var availH := if h.Some? then Some(h.value - padding * 2.0) else ph;
    var contentW := width - padding * 2.0;
    var contentX := px + padding;
    var contentY := py + padding;
    if mode == Grid {
      var g := LayoutGrid(n, contentW, availH, contentX, contentY, mt);
      if h.None? {
        h := Some(g.height + padding * 2.0);
      }
      r := n.(children := g.children, bounds := Bounds(px, py, width, h));
      GridCase(n, pw, ph, px, py, mt, contentW, availH, g);
    } else if mode == Col || mode == Row {
      var s := LayoutStack(n, mode == Col, contentW, h, availH, contentX, contentY, mt);
      r := n.(children := s.children, bounds := Bounds(px, py, width, Some(s.height)));
      StackCase(n, pw, ph, px, py, mt, contentW, availH, s);
    } else {
      r := n.(bounds := Bounds(px, py, width, h));
    }
  }

  /** A grid container: its cells and, without an own height, the grid's
      height plus padding. */
  lemma {:induction false} GridCase(n: Node, pw: real, ph: Option<real>, px: real, py: real, mt: TextMeasure,
                 contentW: real, availH: Option<real>, g: Placed)
    requires ModeOf(n.style) == Grid
    requires contentW == OwnWidth(n, pw, ph, mt) - Padding(n.style) * 2.0
    requires availH == AvailHeight(n, ph)
    requires g == GridLayout(n, contentW, availH, px + Padding(n.style), py + Padding(n.style), mt)
    ensures
      var own := ResolveDim(Get(n.style, "h"), ph);
      var h := if own.Some? then own else Some(g.height + Padding(n.style) * 2.0);
      n.(children := g.children, bounds := Bounds(px, py, OwnWidth(n, pw, ph, mt), h)) == GridNode(n, pw, ph, px, py, mt)
  {
  }

  /** A column or row container: its placed children and the stack's
      height. */
  lemma {:induction false} StackCase(n: Node, pw: real, ph: Option<real>, px: real, py: real, mt: TextMeasure,
                  contentW: real, availH: Option<real>, s: Placed)
    requires ModeOf(n.style) == Col || ModeOf(n.style) == Row
    requires contentW == OwnWidth(n, pw, ph, mt) - Padding(n.style) * 2.0
    requires availH == AvailHeight(n, ph)
    requires s == StackLayout(n, ModeOf(n.style) == Col, contentW, ResolveDim(Get(n.style, "h"), ph), availH,
                              px + Padding(n.style), py + Padding(n.style), mt)
    ensures n.(children := s.children, bounds := Bounds(px, py, OwnWidth(n, pw, ph, mt), Some(s.height)))
            == StackNode(n, pw, ph, px, py, mt)
  {
  }

  /** `_measure_element` */
  method MeasureElement(c: Node, pw: real, ph: Option<real>, mt: TextMeasure) returns (m: (real, Option<real>))
    requires LayoutOk(c) && (Measurable(c) ==> MeasureOk(c))
    ensures m == Measure(c, pw, ph, mt)
    decreases c, 7
  {
    if Measurable(c) {
      var s := Intrinsic(c, pw, ph, mt);
      return (s.0, Some(s.1));
    }
    var dry := ComputeLayout(c, pw, ph, 0.0, 0.0, mt);
    m := (dry.bounds.w, dry.bounds.h);
  }

  // ----- grid -----

  /** The grid branch: parse the template, group the children into rows,
      measure the rows, total the height, place every cell. */
  method LayoutGrid(n: Node, contentW: real, availH: Option<real>, cx: real, cy: real, mt: TextMeasure) returns (g: Placed)
    requires LayoutOk(n) && ModeOf(n.style) == Grid
    ensures g == GridLayout(n, contentW, availH, cx, cy, mt)
    decreases n, 4
  {
    var gap := Gap(n.style);
    var colW := GridColumns(n, contentW);
    var rows := GroupRows(n.children, |colW|);
    ChunksUnique(rows, n.children, |colW|);
    ChunksMembers(n.children, |colW|);
    var rowHeights := MeasureRows(n, rows, colW, availH, mt);
    var total := 0.0;
    if rowHeights != [] {
      var totalGap := GridTemplate.TotalGap(gap, |rowHeights|);
      total := Sum(rowHeights) + totalGap;
    }
    var laid := PlaceGrid(n, rows, colW, rowHeights, cx, cy, mt);
    g := Placed(laid, total);
    GridWhole(n, contentW, availH, cx, cy, mt, colW, rows, rowHeights, g);
  }

  /** `parse_grid_template(style.get('grid_template_columns', '1fr'), ...)` */
  method GridColumns(n: Node, contentW: real) returns (colW: seq<real>)
    requires TemplateOk(n.style)
    ensures colW == Columns(n, contentW)
  {
    var gap := Gap(n.style);
    if "grid_template_columns" in n.style {
      colW := GridTemplate.ParseGridTemplate(n.style["grid_template_columns"].s, contentW, gap);
    } else {
      GridTemplate.DefaultTemplate(contentW, gap);
      colW := GridTemplate.ParseGridTemplate("1fr", contentW, gap);
    }
  }

  /** The grid a container gets, from its columns, its rows, their heights
      and the placed cells. */
  lemma {:induction false} GridWhole(n: Node, contentW: real, availH: Option<real>, cx: real, cy: real, mt: TextMeasure,
                  colW: seq<real>, rows: seq<seq<Node>>, rh: seq<real>, g: Placed)
    requires colW == Columns(n, contentW) && rows == Chunks(n.children, |colW|)
    requires RowsOf(n, rows, |colW|) && rh == RowHeights(n, rows, |rows|, colW, availH, mt)
    requires g.children == Flatten(PlaceRows(n, rows, |rows|, colW, rh, cx, cy, mt))
    requires g.height == if rh == [] then 0.0 else Sum(rh) + Gaps(Gap(n.style), |rh|)
    ensures g == GridLayout(n, contentW, availH, cx, cy, mt)
  {
  }

  /** `grid_rows`: append each child to the current row and close the row
      once it has a child per column; a partial last row is kept. */
  method GroupRows<T>(children: seq<T>, numCols: nat) returns (rows: seq<seq<T>>)
    requires numCols >= 1
    ensures forall r :: 0 <= r < |rows| ==> 1 <= |rows[r]| <= numCols
    ensures forall r :: 0 <= r < |rows| - 1 ==> |rows[r]| == numCols
    ensures Flatten(rows) == children
  {
    rows := [];
    var current: seq<T> := [];
    var colIdx := 0;
    for i := 0 to |children|
      invariant |current| == colIdx < numCols
      invariant forall r :: 0 <= r < |rows| ==> |rows[r]| == numCols
      invariant Flatten(rows) + current == children[..i]
    {
      GroupStep(rows, current, children, i);
      current := current + [children[i]];
      colIdx := colIdx + 1;
      if colIdx >= numCols {
        FlattenSnoc(rows, current);
        rows := rows + [current];
        current := [];
        colIdx := 0;
      }
    }
    assert children[..|children|] == children;
    if current != [] {
      FlattenSnoc(rows, current);
      rows := rows + [current];
    }
  }

  /** Appending the next child to the current row keeps the rows and the
      current row a prefix of the children. */
  lemma {:induction false} GroupStep<T>(rows: seq<seq<T>>, current: seq<T>, children: seq<T>, i: nat)
    requires i < |children| && Flatten(rows) + current == children[..i]
    ensures Flatten(rows) + (current + [children[i]]) == children[..i + 1]
  {
    assert children[..i + 1] == children[..i] + [children[i]];
  }

  /** `row_heights`: for each row, the largest height of its children
      measured at their column's width. */
  method MeasureRows(n: Node, rows: seq<seq<Node>>, colW: seq<real>, availH: Option<real>, mt: TextMeasure)
    returns (rowHeights: seq<real>)
    requires LayoutOk(n) && ModeOf(n.style) == Grid && RowsOf(n, rows, |colW|)
    ensures rowHeights == RowHeights(n, rows, |rows|, colW, availH, mt)
    decreases n, 3
  {
    rowHeights := [];
    for r := 0 to |rows|
      invariant rowHeights == RowHeights(n, rows, r, colW, availH, mt)
    {
      var row := rows[r];
      var maxH := 0.0;
      for i := 0 to |row|
        invariant maxH == RowHeight(n, row, i, colW, availH, mt)
      {
        var child := row[i];
        assert child in n.children;
        var m := MeasureElement(child, colW[i], availH, mt);
        maxH := Max(maxH, m.1.value);
      }
      rowHeights := rowHeights + [maxH];
    }
  }

  /** The placing loops: rows top to bottom, each cell left to right. */
  method PlaceGrid(n: Node, rows: seq<seq<Node>>, colW: seq<real>, rowHeights: seq<real>,
                   cx: real, cy: real, mt: TextMeasure) returns (laid: seq<Node>)
    requires LayoutOk(n) && ModeOf(n.style) == Grid && RowsOf(n, rows, |colW|) && |rowHeights| == |rows|
    ensures laid == Flatten(PlaceRows(n, rows, |rows|, colW, rowHeights, cx, cy, mt))
    decreases n, 3
  {
    var gap := Gap(n.style);
    laid := [];
    var currentY := cy;
    for r := 0 to |rows|
      invariant laid == Flatten(PlaceRows(n, rows, r, colW, rowHeights, cx, cy, mt))
      invariant currentY == cy + Lead(rowHeights, r, gap)
    {
      var rowLaid := PlaceGridRow(n, rows[r], colW, rowHeights[r], cx, currentY, mt);
      FlattenSnoc(PlaceRows(n, rows, r, colW, rowHeights, cx, cy, mt), rowLaid);
      laid := laid + rowLaid;
      currentY := currentY + rowHeights[r] + gap;
    }
  }

  method PlaceGridRow(n: Node, row: seq<Node>, colW: seq<real>, height: real,
                      cx: real, y: real, mt: TextMeasure) returns (rowLaid: seq<Node>)
    requires LayoutOk(n) && ModeOf(n.style) == Grid
    requires |row| <= |colW| && forall c :: c in row ==> c in n.children
    ensures rowLaid == PlaceRow(n, row, |row|, colW, height, cx, y, mt)
    decreases n, 2
  {
    var gap := Gap(n.style);
    rowLaid := [];
    var currentX := cx;
    for c := 0 to |row|
      invariant rowLaid == PlaceRow(n, row, c, colW, height, cx, y, mt)
      invariant currentX == cx + Lead(colW, c, gap)
    {
      var cw := colW[c];
      assert row[c] in n.children;
      var cell := ComputeLayout(row[c], cw, Some(height), currentX, y, mt);
      rowLaid := rowLaid + [cell];
      currentX := currentX + cw + gap;
    }
  }

  // ----- column and row -----

  /** The stack branch: measure the children, settle the height, spread
      the free main-axis space, place every child. */
  method LayoutStack(n: Node, col: bool, contentW: real, h: Option<real>, availH: Option<real>,
                     cx: real, cy: real, mt: TextMeasure) returns (s: Placed)
    requires LayoutOk(n) && (ModeOf(n.style) == Col || ModeOf(n.style) == Row)
    ensures s == StackLayout(n, col, contentW, h, availH, cx, cy, mt)
    decreases n, 4
  {
    var ms, mainSize, crossSize := MeasureChildren(n, col, contentW, availH, mt);
    var padding := Padding(n.style);
    var height: real;
    if h.Some? {
      height := h.value;
    } else if col {
      height := mainSize + padding * 2.0;
    } else {
      height := crossSize + padding * 2.0;
    }
    var contentH := height - padding * 2.0;
    var free := (if col then contentH else contentW) - mainSize;
    var start := 0.0;
    var extra := 0.0;
    var justify := Get(n.style, "justify");
    if justify == Some(Str("center")) {
      start := free / 2.0;
    } else if justify == Some(Str("end")) {
      start := free;
    } else if justify == Some(Str("space-between")) && |n.children| > 1 {
      extra := free / (|n.children| - 1) as real;
    }
    var spread := Spread(start, extra);
    assert spread == Justify(n.style, free, |ms|);
    var laid := PlaceStack(n, col, ms, contentW, contentH, cx, cy, spread, mt);
    s := Placed(laid, height);
    StackWhole(n, col, contentW, h, availH, cx, cy, mt, ms, height, spread);
  }

  /** The stack a container gets, from its measured sizes, its settled
      height and its spread. */
  lemma {:induction false} StackWhole(n: Node, col: bool, contentW: real, h: Option<real>, availH: Option<real>,
                   cx: real, cy: real, mt: TextMeasure, ms: seq<(real, real)>, height: real, spread: Spread)
    requires ms == Sizes(n, |n.children|, contentW, availH, mt)
    requires height == if h.Some? then h.value
                       else (if col then MainSize(ms, col, Gap(n.style)) else CrossSize(ms, |ms|, col)) + Padding(n.style) * 2.0
    requires spread == Justify(n.style, (if col then height - Padding(n.style) * 2.0 else contentW)
                                        - MainSize(ms, col, Gap(n.style)), |ms|)
    ensures StackLayout(n, col, contentW, h, availH, cx, cy, mt)
            == Placed(StackCells(n, |n.children|, ms, col, contentW, height - Padding(n.style) * 2.0, cx, cy, spread, mt),
                      height)
  {
  }

  /** The measuring loop: every child's size, `main_size` with the last gap
      taken off again, and `cross_size`. */
  method MeasureChildren(n: Node, col: bool, contentW: real, availH: Option<real>, mt: TextMeasure)
    returns (ms: seq<(real, real)>, mainSize: real, crossSize: real)
    requires LayoutOk(n) && (ModeOf(n.style) == Col || ModeOf(n.style) == Row)
    ensures ms == Sizes(n, |n.children|, contentW, availH, mt)
    ensures mainSize == MainSize(ms, col, Gap(n.style))
    ensures crossSize == CrossSize(ms, |ms|, col)
    decreases n, 3
  {
    var gap := Gap(n.style);
    ms := [];
    mainSize := 0.0;
    crossSize := 0.0;
    for i := 0 to |n.children|
      invariant ms == Sizes(n, i, contentW, availH, mt)
      invariant mainSize == Advance(ms, i, col, gap)
      invariant crossSize == CrossSize(ms, i, col)
    {
      ms, mainSize, crossSize := MeasureNext(n, i, col, contentW, availH, mt, ms, mainSize, crossSize);
    }
    if n.children != [] {
      mainSize := mainSize - gap;
    }
  }

  /** The body of the measuring loop for child `i`: its size is appended,
      its main size and a gap are added, its cross size may raise the
      maximum. */
  method MeasureNext(n: Node, i: nat, col: bool, contentW: real, availH: Option<real>, mt: TextMeasure,
                     ms: seq<(real, real)>, mainSize: real, crossSize: real)
    returns (ms': seq<(real, real)>, mainSize': real, crossSize': real)
    requires LayoutOk(n) && (ModeOf(n.style) == Col || ModeOf(n.style) == Row) && i < |n.children|
    requires ms == Sizes(n, i, contentW, availH, mt)
    requires mainSize == Advance(ms, i, col, Gap(n.style)) && crossSize == CrossSize(ms, i, col)
    ensures ms' == Sizes(n, i + 1, contentW, availH, mt)
    ensures mainSize' == Advance(ms', i + 1, col, Gap(n.style)) && crossSize' == CrossSize(ms', i + 1, col)
    decreases n, 2
  {
    var gap := Gap(n.style);
    var child := n.children[i];
    StackChild(n, i);
    var m := MeasureElement(child, contentW, availH, mt);
    var cw := m.0;
    var ch := m.1.value;
    SizesStep(n, i, contentW, availH, mt, ms, col, gap, cw, ch);
    if col {
      mainSize' := mainSize + ch + gap;
      crossSize' := Max(crossSize, cw);
    } else {
      mainSize' := mainSize + cw + gap;
      crossSize' := Max(crossSize, ch);
    }
    ms' := ms + [(cw, ch)];
  }

  /** One more measured child extends the sizes, the distance covered and
      the largest cross size. */
  lemma {:induction false} SizesStep(n: Node, i: nat, contentW: real, availH: Option<real>, mt: TextMeasure,
                  ms: seq<(real, real)>, col: bool, gap: real, cw: real, ch: real)
    requires i < |n.children| && ms == Sizes(n, i, contentW, availH, mt)
    requires (cw, Some(ch)) == Measure(n.children[i], contentW, availH, mt)
    ensures ms + [(cw, ch)] == Sizes(n, i + 1, contentW, availH, mt)
    ensures Advance(ms + [(cw, ch)], i + 1, col, gap) == Advance(ms, i, col, gap) + (if col then ch else cw) + gap
    ensures CrossSize(ms + [(cw, ch)], i + 1, col) == Max(CrossSize(ms, i, col), if col then cw else ch)
  {
    AdvanceSame(ms + [(cw, ch)], ms, i, col, gap);
    CrossSame(ms + [(cw, ch)], ms, i, col);
  }

  /** Only the first `k` sizes count. */
  lemma {:induction false} AdvanceSame(a: seq<(real, real)>, b: seq<(real, real)>, k: nat, col: bool, step: real)
    requires k <= |a| && k <= |b| && forall j :: 0 <= j < k ==> a[j] == b[j]
    ensures Advance(a, k, col, step) == Advance(b, k, col, step)
  {
    if k > 0 {
      AdvanceSame(a, b, k - 1, col, step);
    }
  }

  lemma {:induction false} CrossSame(a: seq<(real, real)>, b: seq<(real, real)>, k: nat, col: bool)
    requires k <= |a| && k <= |b| && forall j :: 0 <= j < k ==> a[j] == b[j]
    ensures CrossSize(a, k, col) == CrossSize(b, k, col)
  {
    if k > 0 {
      CrossSame(a, b, k - 1, col);
    }
  }

  /** The placing loop: the cursor moves by each child's main size, the
      gap and the space-between share; the cross offset follows `align`. */
  method PlaceStack(n: Node, col: bool, ms: seq<(real, real)>, contentW: real, contentH: real,
                    cx: real, cy: real, spread: Spread, mt: TextMeasure) returns (laid: seq<Node>)
    requires LayoutOk(n) && (ModeOf(n.style) == Col || ModeOf(n.style) == Row)
    requires |ms| == |n.children|
    ensures laid == StackCells(n, |n.children|, ms, col, contentW, contentH, cx, cy, spread, mt)
    decreases n, 3
  {
    var currentPos := spread.start;
    laid := [];
    for i := 0 to |n.children|
      invariant laid == StackCells(n, i, ms, col, contentW, contentH, cx, cy, spread, mt)
      invariant currentPos == spread.start + Advance(ms, i, col, Gap(n.style) + spread.extra)
    {
      var child := n.children[i];
      StackChild(n, i);
      var x, y, next := CellOrigin(n, i, ms, col, contentW, contentH, cx, cy, spread, currentPos);
      var placed := ComputeLayout(child, ms[i].0, Some(ms[i].1), x, y, mt);
      StackCell(n, i, ms, col, contentW, contentH, cx, cy, spread, mt, x, y);
      laid := laid + [placed];
      currentPos := next;
    }
  }

  /** What a stack needs of child `i`: it lays out, it fits, and its
      offsets are numbers. */
  lemma StackChild(n: Node, i: nat)
    requires LayoutOk(n) && (ModeOf(n.style) == Col || ModeOf(n.style) == Row) && i < |n.children|
    ensures var c := n.children[i];
            LayoutOk(c) && ChildFits(c) && NumOrAbsent(c.style, "left") && NumOrAbsent(c.style, "top")
  {
    assert n.children[i] in n.children;
  }

  /** The body of the placing loop for child `i`: the cross offset from
      `align`, the position from the cursor, the child's own `left`/`top`,
      and the cursor moved on by the child's main size, the gap and the
      space-between share. */
  method CellOrigin(n: Node, i: nat, ms: seq<(real, real)>, col: bool, contentW: real, contentH: real,
                    cx: real, cy: real, spread: Spread, currentPos: real) returns (x: real, y: real, next: real)
    requires i < |n.children| == |ms|
    requires currentPos == spread.start + Advance(ms, i, col, Gap(n.style) + spread.extra)
    ensures (x, y) == StackOrigin(n, i, ms, col, contentW, contentH, cx, cy, spread)
    ensures next == spread.start + Advance(ms, i + 1, col, Gap(n.style) + spread.extra)
  {
    var child := n.children[i];
    var gap := Gap(n.style);
    var align := Get(n.style, "align");
    var cw := ms[i].0;
    var ch := ms[i].1;
    var freeCross := (if col then contentW else contentH) - (if col then cw else ch);
    var crossOffset := 0.0;
    if align == Some(Str("center")) {
      crossOffset := freeCross / 2.0;
    } else if align == Some(Str("end")) {
      crossOffset := freeCross;
    }
    if col {
      x := cx + crossOffset;
      y := cy + currentPos;
      next := currentPos + ch + gap + spread.extra;
    } else {
      x := cx + currentPos;
      y := cy + crossOffset;
      next := currentPos + cw + gap + spread.extra;
    }
    x := x + NumOr(child.style, "left", 0.0);
    y := y + NumOr(child.style, "top", 0.0);
  }

  /** Child `i` of a stack is laid out where the loop puts it. */
  lemma {:induction false} StackCell(n: Node, i: nat, ms: seq<(real, real)>, col: bool, contentW: real, contentH: real,
                  cx: real, cy: real, spread: Spread, mt: TextMeasure, x: real, y: real)
    requires i < |n.children| == |ms|
    requires (x, y) == StackOrigin(n, i, ms, col, contentW, contentH, cx, cy, spread)
    ensures StackCells(n, i + 1, ms, col, contentW, contentH, cx, cy, spread, mt)
            == StackCells(n, i, ms, col, contentW, contentH, cx, cy, spread, mt)
               + [Layout.Layout(n.children[i], ms[i].0, Some(ms[i].1), x, y, mt)]
  {
  }
}

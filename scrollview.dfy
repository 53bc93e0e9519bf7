/** `ScrollView`: a box whose children are drawn shifted by its scroll
    offsets, with the vertical offset clamped to the content's extent and a
    scrollbar thumb sized and placed from it. */
module ScrollViews {
  import opened Values
  import opened Tree
  import opened Reals
  import opened Elements

  /** Pixels per scroll step. */
  const ScrollSpeed := 20.0

  const ScrollDefaults: seq<(string, Value)> := [("overflow", Str("hidden"))]

  /** How far the content can scroll up: `max(0, content_height - h)`. */
  function MaxScroll(contentHeight: real, viewHeight: real): (r: real)
    ensures r >= 0.0 && r >= contentHeight - viewHeight
    ensures r == 0.0 || r == contentHeight - viewHeight
  {
    Max(0.0, contentHeight - viewHeight)
  }

  /** `max(0, min(v, limit))` for a limit that is not negative: the offset
      is kept in [0, limit], unchanged when already there. */
  function Clamp(v: real, limit: real): (r: real)
    requires limit >= 0.0
    ensures 0.0 <= r <= limit
    ensures 0.0 <= v <= limit ==> r == v
    ensures v < 0.0 ==> r == 0.0
    ensures v > limit ==> r == limit
  {
    Max(0.0, Min(v, limit))
  }

  /** The largest bottom edge among the first `k` children, starting from
      0 as the loop of `_calculate_content_size` does. */
  function MaxBottom(cs: seq<Element>, k: nat): real
    reads cs
    requires k <= |cs| && forall c :: c in cs ==> c.bounds.h.Some?
    decreases k
  {
    if k == 0 then 0.0
    else Max(MaxBottom(cs, k - 1), cs[k - 1].bounds.y + cs[k - 1].bounds.h.value)
  }

  /** The largest right edge among the first `k` children, from 0. */
  function MaxRight(cs: seq<Element>, k: nat): real
    reads cs
    requires k <= |cs|
    decreases k
  {
    if k == 0 then 0.0
    else Max(MaxRight(cs, k - 1), cs[k - 1].bounds.x + cs[k - 1].bounds.w)
  }

  /** The content's bottom is 0 or the bottom of some child, and no child
      reaches lower. */
  lemma {:induction false} MaxBottomIsMax(cs: seq<Element>, k: nat)
    requires k <= |cs| && forall c :: c in cs ==> c.bounds.h.Some?
    ensures MaxBottom(cs, k) >= 0.0
    ensures forall i :: 0 <= i < k ==> MaxBottom(cs, k) >= cs[i].bounds.y + cs[i].bounds.h.value
    ensures MaxBottom(cs, k) == 0.0 || exists i :: 0 <= i < k && MaxBottom(cs, k) == cs[i].bounds.y + cs[i].bounds.h.value
    decreases k
  {
    if k > 0 {
      MaxBottomIsMax(cs, k - 1);
    }
  }

  /** The content's right edge is 0 or that of some child, and no child
      reaches further. */
  lemma {:induction false} MaxRightIsMax(cs: seq<Element>, k: nat)
    requires k <= |cs|
    ensures MaxRight(cs, k) >= 0.0
    ensures forall i :: 0 <= i < k ==> MaxRight(cs, k) >= cs[i].bounds.x + cs[i].bounds.w
    ensures MaxRight(cs, k) == 0.0 || exists i :: 0 <= i < k && MaxRight(cs, k) == cs[i].bounds.x + cs[i].bounds.w
    decreases k
  {
    if k > 0 {
      MaxRightIsMax(cs, k - 1);
    }
  }

  /** The loop of `_calculate_content_size` over the children's bounds. */
  method FurthestEdges(cs: seq<Element>) returns (maxY: real, maxX: real)
    requires forall c :: c in cs ==> c.bounds.h.Some?
    ensures maxY == MaxBottom(cs, |cs|) && maxX == MaxRight(cs, |cs|)
  {
    maxY := 0.0;
    maxX := 0.0;
    var i := 0;
    while i < |cs|
      invariant i <= |cs|
      invariant maxY == MaxBottom(cs, i) && maxX == MaxRight(cs, i)
    {
      var b := cs[i].bounds;
      maxY := Max(maxY, b.y + b.h.value);
      maxX := Max(maxX, b.x + b.w);
      i := i + 1;
    }
  }

  /** The thumb `_draw_scrollbar` draws for a view `b` whose content is
      `contentHeight` tall and scrolled by `scrollY`; none when the content
      fits. */
  function Thumb(b: Bounds, contentHeight: real, scrollY: real): (r: Option<Rect>)
    requires b.h.Some?
    requires contentHeight > b.h.value ==> contentHeight != 0.0
  {
    var viewH := b.h.value;
    if contentHeight <= viewH then None
    else
      var ratio := viewH / contentHeight;
      Some(Rect(b.x + b.w - 6.0, b.y + (scrollY / contentHeight) * viewH, 4.0, Max(20.0, viewH * ratio)))
  }

  /** The thumb is 4 wide, 6 in from the right edge, at least 20 tall, and
      as tall as the visible fraction of the track when that is longer. A
      clamped offset puts the top of that fraction inside the track and
      its bottom no lower than the track's end. */
  lemma {:induction false} ThumbGeometry(b: Bounds, contentHeight: real, scrollY: real)
    requires b.h.Some? && contentHeight > b.h.value && b.h.value >= 0.0
    requires 0.0 <= scrollY <= MaxScroll(contentHeight, b.h.value)
    ensures Thumb(b, contentHeight, scrollY).Some?
    ensures var t := Thumb(b, contentHeight, scrollY).value;
      var natural := b.h.value * (b.h.value / contentHeight);
      t.x == b.x + b.w - 6.0 && t.w == 4.0 && t.h >= 20.0 && t.h == Max(20.0, natural) &&
      b.y <= t.y && t.y + natural <= b.y + b.h.value
  {
    var viewH := b.h.value;
    VisibleSpan(viewH, contentHeight, scrollY, scrollY / contentHeight, viewH / contentHeight);
  }

  /** For a view `v` tall over content `c` tall scrolled by `y` within its
      limit, with `f` and `r` the fractions `y / c` and `v / c`: the
      visible part of the track starts at or after its top and ends no
      later than its end. */
  lemma VisibleSpan(v: real, c: real, y: real, f: real, r: real)
    requires c > v >= 0.0 && 0.0 <= y <= c - v
    requires f * c == y && r * c == v
    ensures 0.0 <= f * v
    ensures (f + r) * v <= v
  {
    DivLe(0.0, f, c);
    MulLe(0.0, f, v);
    assert (f + r) * c == y + v by {
      assert (f + r) * c == f * c + r * c;
    }
    AtMostOne(f + r, c, y + v);
    MulLe(f + r, 1.0, v);
  }

  /** `g * c == s <= c` with `c > 0` gives `g <= 1`. */
  lemma AtMostOne(g: real, c: real, s: real)
    requires c > 0.0 && g * c == s && s <= c
    ensures g <= 1.0
  {
  }

  lemma MulLe(a: real, b: real, c: real)
    requires a <= b && c >= 0.0
    ensures a * c <= b * c
  {
  }

  /** `x * k <= y * k` with `k > 0` gives `x <= y`. */
  lemma DivLe(x: real, y: real, k: real)
    requires k > 0.0 && x * k <= y * k
    ensures x <= y
  {
  }

  /** `ScrollView`: the element it extends, its scroll offsets and its
      content extent. */
  class ScrollView {
    const elem: Element
    var scrollY: real
    var scrollX: real
    var contentHeight: real
    var contentWidth: real

    /** `ScrollView(**kwargs)`, given the element `super().__init__` built. */
    constructor (e: Element)
      modifies e`style
      ensures elem == e && scrollY == 0.0 && scrollX == 0.0 && contentHeight == 0.0 && contentWidth == 0.0
      ensures e.style == WithDefaults(old(e.style), DefaultsOf(ScrollDefaults))
    {
      elem := e;
      scrollY := 0.0;
      scrollX := 0.0;
      contentHeight := 0.0;
      contentWidth := 0.0;
      new;
      e.style := FillDefaults(e.style, ScrollDefaults);
    }

    /** `on_scroll(dx, dy)`: both offsets move by 20 per step; the vertical
        one is then clamped into [0, max(0, content_height - h)], the
        horizontal one is not clamped. */
    method OnScroll(dx: real, dy: real)
      requires elem.bounds.h.Some?
      modifies this
      ensures scrollY == Clamp(old(scrollY) - dy * ScrollSpeed, MaxScroll(contentHeight, elem.bounds.h.value))
      ensures scrollX == old(scrollX) - dx * ScrollSpeed
      ensures contentHeight == old(contentHeight) && contentWidth == old(contentWidth)
    {
      scrollY := scrollY - dy * ScrollSpeed;
      scrollX := scrollX - dx * ScrollSpeed;
      var maxScrollY := Max(0.0, contentHeight - elem.bounds.h.value);
      scrollY := Max(0.0, Min(scrollY, maxScrollY));
    }

    /** `_calculate_content_size`: the furthest child edges, from 0,
        relative to the view's own position. */
    method CalculateContentSize()
      requires forall c :: c in elem.children ==> c.bounds.h.Some?
      modifies this
      ensures contentHeight == MaxBottom(elem.children, |elem.children|) - elem.bounds.y
      ensures contentWidth == MaxRight(elem.children, |elem.children|) - elem.bounds.x
      ensures scrollY == old(scrollY) && scrollX == old(scrollX)
    {
      var maxY, maxX := FurthestEdges(elem.children);
      contentHeight := maxY - elem.bounds.y;
      contentWidth := maxX - elem.bounds.x;
    }
  }
}

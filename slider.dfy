/** `Slider`: a horizontal track whose value follows the mouse while it
    is dragged, mapped linearly from the track onto [min, max]. */
module Sliders {
  import opened Values
  import opened Tree
  import opened Reals
  import opened Elements

  /** The style keys `Slider.__init__` fills in when the caller has not. */
  const SliderDefaults: seq<(string, Value)> := [
    ("w", Num(200.0)), ("h", Num(20.0)), ("track_color", Str("#444444")),
    ("active_color", Str("#007ACC")), ("thumb_color", Str("white"))]

  /** `_update_value_from_pos(x)`: the mouse's offset into the track,
      clamped to [0, w], as a fraction of the width, scaled onto
      [lo, hi]. */
  function ValueAt(b: Bounds, lo: real, hi: real, x: real): real
    requires b.w != 0.0
  {
    var rel := Max(0.0, Min(x - b.x, b.w));
    lo + (rel / b.w) * (hi - lo)
  }

  /** With lo <= hi the value is always in [lo, hi]; the left end of the
      track and anything before it give lo, the right end and beyond give
      hi. */
  lemma {:induction false} ValueAtRange(b: Bounds, lo: real, hi: real, x: real)
    requires b.w != 0.0 && lo <= hi
    ensures lo <= ValueAt(b, lo, hi, x) <= hi
    ensures x <= b.x ==> ValueAt(b, lo, hi, x) == lo
    ensures b.w > 0.0 && x >= b.x + b.w ==> ValueAt(b, lo, hi, x) == hi
  {
    var rel := Max(0.0, Min(x - b.x, b.w));
    if b.w > 0.0 {
      var f := rel / b.w;
      Fraction(rel, b.w);
      assert f * (hi - lo) <= 1.0 * (hi - lo);
    } else {
      assert rel == 0.0;
    }
  }

  /** A part of a positive whole is a fraction in [0, 1]. */
  lemma Fraction(a: real, d: real)
    requires 0.0 <= a <= d && d > 0.0
    ensures 0.0 <= a / d <= 1.0
  {
    var f := a / d;
    assert f * d == a;
  }

  /** The thumb's x in `render`: the left edge plus the width scaled by
      the value's fraction of [min, max]. */
  function ThumbX(b: Bounds, lo: real, hi: real, value: real): real
    requires hi != lo
  {
    b.x + b.w * ((value - lo) / (hi - lo))
  }

  /** Clicking where the thumb is drawn gives back the value it shows. */
  lemma {:induction false} ThumbRoundTrip(b: Bounds, lo: real, hi: real, value: real)
    requires b.w > 0.0 && lo < hi && lo <= value <= hi
    ensures ValueAt(b, lo, hi, ThumbX(b, lo, hi, value)) == value
  {
    var f := (value - lo) / (hi - lo);
    Fraction(value - lo, hi - lo);
    assert b.w * f <= b.w * 1.0;
    var rel := Max(0.0, Min(ThumbX(b, lo, hi, value) - b.x, b.w));
    assert rel == b.w * f;
    assert rel / b.w == f;
    assert f * (hi - lo) == value - lo;
  }

  /** `Slider`: its element, the value and its range, whether an
      `on_change` callback was given, the values passed to it so far, and
      whether the thumb is being dragged. */
  class Slider {
    const elem: Element
    var value: real
    const minVal: real
    const maxVal: real
    const onChange: bool
    var changes: seq<real>
    var dragging: bool

    /** `Slider(value, min_val, max_val, on_change, **kwargs)`, given the
        element built from the caller's style and keyword arguments. The
        source fills the defaults into the caller's dictionary before the
        arguments are written over it; `Elements.DefaultsCommute` shows
        that filling them afterwards gives the same style. */
    constructor (e: Element, value: real, minVal: real, maxVal: real, onChange: bool)
      modifies e`style
      ensures elem == e && this.value == value && this.minVal == minVal && this.maxVal == maxVal
      ensures this.onChange == onChange && changes == [] && !dragging
      ensures e.style == WithDefaults(old(e.style), DefaultsOf(SliderDefaults))
    {
      elem := e;
      this.value := value;
      this.minVal := minVal;
      this.maxVal := maxVal;
      this.onChange := onChange;
      changes := [];
      dragging := false;
      new;
      e.style := FillDefaults(e.style, SliderDefaults);
    }

    method OnMouseDown()
      modifies this
      ensures dragging && value == old(value) && changes == old(changes)
    {
      dragging := true;
    }

    method OnMouseUp()
      modifies this
      ensures !dragging && value == old(value) && changes == old(changes)
    {
      dragging := false;
    }

    /** `on_mouse_move(x, y)`: the value moves only while dragging. */
    method OnMouseMove(x: real, y: real)
      requires dragging ==> elem.bounds.w != 0.0
      modifies this
      ensures dragging == old(dragging)
      ensures !dragging ==> value == old(value) && changes == old(changes)
      ensures dragging ==> (value == ValueAt(elem.bounds, minVal, maxVal, x) &&
        changes == old(changes) + (if onChange then [value] else []))
    {
      if dragging {
        UpdateValueFromPos(x);
      }
    }

    /** `_update_value_from_pos(x)`: set the value from the mouse and
        pass it to `on_change` when there is one. */
    method UpdateValueFromPos(x: real)
      requires elem.bounds.w != 0.0
      modifies this
      ensures value == ValueAt(elem.bounds, minVal, maxVal, x)
      ensures minVal <= maxVal ==> minVal <= value <= maxVal
      ensures changes == old(changes) + (if onChange then [value] else [])
      ensures dragging == old(dragging)
    {
      var b := elem.bounds;
      var relX := Max(0.0, Min(x - b.x, b.w));
      var ratio := relX / b.w;
      value := minVal + ratio * (maxVal - minVal);
      if minVal <= maxVal {
        ValueAtRange(b, minVal, maxVal, x);
      }
      if onChange {
        changes := changes + [value];
      }
    }
  }
}

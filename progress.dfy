/** `ProgressBar`: a track with a fill whose width is the value, kept in
    [0, 1], times the track's width. */
module Progress {
  import opened Values
  import opened Tree
  import opened Reals
  import opened Elements

  /** The style keys `ProgressBar.__init__` fills in when absent. */
  const ProgressDefaults: seq<(string, Value)> := [
    ("w", Num(200.0)), ("h", Num(10.0)), ("bg", Str("#333")), ("radius", Num(5.0))]

  /** `max(0.0, min(1.0, v))`. */
  function Clamp01(v: real): (r: real)
    ensures 0.0 <= r <= 1.0
    ensures 0.0 <= v <= 1.0 ==> r == v
    ensures v < 0.0 ==> r == 0.0
    ensures v > 1.0 ==> r == 1.0
  {
    Max(0.0, Min(1.0, v))
  }

  /** The fill `render` draws over the track `b`: none for a value that
      is not positive, otherwise from the track's corner, as tall as the
      track and `w * value` wide. */
  function Fill(b: Bounds, value: real): (r: Option<Rect>)
    requires value > 0.0 ==> b.h.Some?
  {
    if value > 0.0 then Some(Rect(b.x, b.y, b.w * value, b.h.value)) else None
  }

  /** For a stored value the fill is drawn exactly when the value is
      positive, and never extends past the track. */
  lemma {:induction false} FillWithinTrack(b: Bounds, value: real)
    requires b.h.Some? && b.w >= 0.0 && 0.0 <= value <= 1.0
    ensures Fill(b, value).Some? <==> value > 0.0
    ensures Fill(b, value).Some? ==> var f := Fill(b, value).value;
      f.x == b.x && f.y == b.y && f.h == b.h.value && 0.0 <= f.w <= b.w
  {
    if value > 0.0 {
      assert b.w * value <= b.w * 1.0;
    }
  }

  /** `ProgressBar`: its element, the value and the colour of the fill. */
  class ProgressBar {
    const elem: Element
    var value: real
    const fillColor: Value

    /** `ProgressBar(value, **kwargs)`, given the element `super().__init__`
        built and the `fill_color` keyword argument if there was one. */
    constructor (e: Element, value: real, fillColor: Option<Value>)
      modifies e`style
      ensures elem == e && this.value == Clamp01(value)
      ensures this.fillColor == (if fillColor.Some? then fillColor.value else Str("#007ACC"))
      ensures e.style == WithDefaults(old(e.style), DefaultsOf(ProgressDefaults))
    {
      elem := e;
      this.value := Max(0.0, Min(1.0, value));
      this.fillColor := if fillColor.Some? then fillColor.value else Str("#007ACC");
      new;
      e.style := FillDefaults(e.style, ProgressDefaults);
    }

    /** `set_value(v)`: store `v` clamped into [0, 1]. */
    method SetValue(v: real)
      modifies this
      ensures value == Clamp01(v)
    {
      value := Max(0.0, Min(1.0, v));
    }
  }
}

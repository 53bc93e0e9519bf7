/** `Toggle`: a switch whose click flips `checked`, drawn as a track in
    one of two colours with a round thumb at the left or right end. */
module Toggles {
  import opened Values
  import opened Tree
  import opened Elements

  /** The style keys `Toggle.__init__` fills in when the caller has not. */
  const ToggleDefaults: seq<(string, Value)> := [
    ("w", Num(50.0)), ("h", Num(26.0)), ("bg_on", Str("#007ACC")), ("bg_off", Str("#444444")),
    ("thumb_color", Str("white")), ("radius", Num(13.0))]

  /** The copy of the style `render` draws the track with: `bg` is the
      on or off colour, every other key is the element's own. */
  function TrackStyle(style: Style, checked: bool): (r: Style)
    requires "bg_on" in style && "bg_off" in style
    ensures r.Keys == style.Keys + {"bg"}
    ensures r["bg"] == (if checked then style["bg_on"] else style["bg_off"])
    ensures forall k :: k in style && k != "bg" ==> r[k] == style[k]
  {
    style["bg" := if checked then style["bg_on"] else style["bg_off"]]
  }

  /** A circle to draw: centre and radius. */
  datatype Circle = Circle(cx: real, cy: real, r: real)

  /** The thumb of `render`: radius (h - 4) / 2, 2 pixels in from the
      left end when off and from the right end when on, centred
      vertically. */
  function ThumbOf(b: Bounds, checked: bool): Circle
    requires b.h.Some?
  {
    var h := b.h.value;
    var r := (h - 4.0) / 2.0;
    var cx := if checked then b.x + b.w - 2.0 - r else b.x + 2.0 + r;
    Circle(cx, b.y + h / 2.0, r)
  }

  /** The thumb keeps 2 pixels from the top and bottom of the track and
      from the end it sits at, and stays on the track when the track is at
      least `h - 2` wide; the on and off thumbs are mirror images about the
      track's centre. */
  lemma {:induction false} ThumbPlacement(b: Bounds)
    requires b.h.Some? && b.w >= b.h.value - 2.0
    ensures forall checked: bool :: var t := ThumbOf(b, checked);
      t.cy - t.r == b.y + 2.0 && t.cy + t.r == b.y + b.h.value - 2.0 &&
      b.x <= t.cx - t.r && t.cx + t.r <= b.x + b.w
    ensures ThumbOf(b, false).cx - ThumbOf(b, false).r == b.x + 2.0
    ensures ThumbOf(b, true).cx + ThumbOf(b, true).r == b.x + b.w - 2.0
    ensures ThumbOf(b, false).cx + ThumbOf(b, true).cx == 2.0 * b.x + b.w
    ensures ThumbOf(b, false).cy == ThumbOf(b, true).cy && ThumbOf(b, false).r == ThumbOf(b, true).r
  {
    var h := b.h.value;
    var r := (h - 4.0) / 2.0;
    assert 2.0 * r == h - 4.0;
    forall checked: bool
      ensures var t := ThumbOf(b, checked);
        t.cy - t.r == b.y + 2.0 && t.cy + t.r == b.y + h - 2.0 &&
        b.x <= t.cx - t.r && t.cx + t.r <= b.x + b.w
    {
    }
  }

  /** `Toggle`: its element, the flag, whether an `on_change` callback was
      given, and the values passed to it so far. */
  class Toggle {
    const elem: Element
    var checked: bool
    const onChange: bool
    var changes: seq<bool>

    /** `Toggle(checked, on_change, **kwargs)`, given the element built from
        the caller's style and keyword arguments; the defaults go into the
        caller's dictionary first, which `Elements.DefaultsCommute` shows
        is the same as filling them afterwards. */
    constructor (e: Element, checked: bool, onChange: bool)
      modifies e`style
      ensures elem == e && this.checked == checked && this.onChange == onChange && changes == []
      ensures e.style == WithDefaults(old(e.style), DefaultsOf(ToggleDefaults))
    {
      elem := e;
      this.checked := checked;
      this.onChange := onChange;
      changes := [];
      new;
      e.style := FillDefaults(e.style, ToggleDefaults);
    }

    /** `on_click`: flip the flag, then report the new value. */
    method OnClick()
      modifies this
      ensures checked == !old(checked)
      ensures changes == old(changes) + (if onChange then [checked] else [])
    {
      checked := !checked;
      if onChange {
        changes := changes + [checked];
      }
    }

    /** The `value` property's getter. */
    method GetValue() returns (v: bool)
      ensures v == checked
    {
      v := checked;
    }

    /** The `value` property's setter. */
    method SetValue(v: bool)
      modifies this
      ensures checked == v && changes == old(changes)
    {
      checked := v;
    }
  }
}

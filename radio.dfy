/** `Radio`: a round box that a click checks and never unchecks. */
module Radios {
  import opened Values
  import opened Elements

  /** The style keys `Radio.__init__` fills in when absent. */
  const RadioDefaults: seq<(string, Value)> := [
    ("w", Num(20.0)), ("h", Num(20.0)), ("border_color", Str("#666")), ("bg", Str("transparent"))]

  /** The border colour `render` writes for a state. */
  function Border(checked: bool): (v: Value)
    ensures v.Str? && (v == Str("#007ACC") <==> checked)
  {
    if checked then Str("#007ACC") else Str("#666")
  }

  /** `Radio`: its element, the flag, whether an `on_change` callback was
      given, and the values passed to it so far. Its click handler is
      `Toggle`. */
  class Radio {
    const elem: Element
    var checked: bool
    const onChange: bool
    var changes: seq<bool>

    /** `Radio(checked, on_change, **kwargs)`, given the element
        `super().__init__` built. After the defaults the radius is always
        half the width, replacing any radius the caller gave; a width that
        is not a number makes the division raise. */
    constructor (e: Element, checked: bool, onChange: bool)
      requires NumOrAbsent(e.style, "w")
      modifies e`style
      ensures elem == e && this.checked == checked && this.onChange == onChange && changes == []
      ensures e.style == WithDefaults(old(e.style), DefaultsOf(RadioDefaults))["radius" := Num(NumOr(old(e.style), "w", 20.0) / 2.0)]
      ensures "w" in e.style && e.style["w"] == Num(NumOr(old(e.style), "w", 20.0))
      ensures "radius" in e.style && e.style["radius"] == Num(NumOr(old(e.style), "w", 20.0) / 2.0)
    {
      elem := e;
      this.checked := checked;
      this.onChange := onChange;
      changes := [];
      new;
      DefaultsToFirst(RadioDefaults, |RadioDefaults|, 0);
      e.style := FillDefaults(e.style, RadioDefaults);
      e.style := e.style["radius" := Num(e.style["w"].n / 2.0)];
    }

    /** `_toggle`: an unchecked radio becomes checked and reports it; a
        checked one is left alone. */
    method Toggle()
      modifies this
      ensures checked
      ensures old(checked) ==> changes == old(changes)
      ensures !old(checked) ==> changes == old(changes) + (if onChange then [true] else [])
    {
      if !checked {
        checked := true;
        if onChange {
          changes := changes + [checked];
        }
      }
    }

    /** The style write of `render`. */
    method Render()
      modifies elem`style
      ensures elem.style == old(elem.style)["border_color" := Border(checked)]
    {
      if checked {
        elem.style := elem.style["border_color" := Str("#007ACC")];
      } else {
        elem.style := elem.style["border_color" := Str("#666")];
      }
    }
  }
}

/** `Checkbox`: a box that flips its `checked` flag on every click and
    shows the flag through the colours `render` writes into its style. */
module Checkboxes {
  import opened Values
  import opened Elements

  /** The style keys `Checkbox.__init__` fills in when absent. */
  const CheckboxDefaults: seq<(string, Value)> := [
    ("w", Num(20.0)), ("h", Num(20.0)), ("radius", Num(4.0)),
    ("border_color", Str("#666")), ("bg", Str("transparent"))]

  const Accent := Str("#007ACC")

  /** The style `render` leaves behind: the accent colour for both the
      background and the border when checked, a transparent background
      and a grey border otherwise; every other key is kept. */
  function Rendered(style: Style, checked: bool): (r: Style)
    ensures r.Keys == style.Keys + {"bg", "border_color"}
    ensures forall k :: k in style && k != "bg" && k != "border_color" ==> r[k] == style[k]
    ensures checked ==> r["bg"] == Accent && r["border_color"] == Accent
    ensures !checked ==> r["bg"] == Str("transparent") && r["border_color"] == Str("#666")
    ensures ShownChecked(r) == checked
  {
    if checked then style["bg" := Accent]["border_color" := Accent]
    else style["bg" := Str("transparent")]["border_color" := Str("#666")]
  }

  /** Reading the state back from a rendered style. */
  predicate ShownChecked(style: Style)
  {
    "bg" in style && style["bg"] == Accent
  }

  /** `Checkbox`: its element, the flag, whether an `on_change` callback
      was given, and the values passed to it so far. Its click handler is
      `Toggle`. */
  class Checkbox {
    const elem: Element
    var checked: bool
    const onChange: bool
    var changes: seq<bool>

    /** `Checkbox(checked, on_change, **kwargs)`, given the element
        `super().__init__` built. */
    constructor (e: Element, checked: bool, onChange: bool)
      modifies e`style
      ensures elem == e && this.checked == checked && this.onChange == onChange && changes == []
      ensures e.style == WithDefaults(old(e.style), DefaultsOf(CheckboxDefaults))
    {
      elem := e;
      this.checked := checked;
      this.onChange := onChange;
      changes := [];
      new;
      e.style := FillDefaults(e.style, CheckboxDefaults);
    }

    /** `_toggle`: flip the flag and report the new value. */
    method Toggle()
      modifies this
      ensures checked == !old(checked)
      ensures changes == old(changes) + (if onChange then [checked] else [])
    {
      checked := !checked;
      if onChange {
        changes := changes + [checked];
      }
    }

    /** The style writes of `render`. */
    method Render()
      modifies elem`style
      ensures elem.style == Rendered(old(elem.style), checked)
    {
      if checked {
        elem.style := elem.style["bg" := Accent];
        elem.style := elem.style["border_color" := Accent];
      } else {
        elem.style := elem.style["bg" := Str("transparent")];
        elem.style := elem.style["border_color" := Str("#666")];
      }
    }
  }
}

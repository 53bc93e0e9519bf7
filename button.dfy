/** `Button`: a box with a centred label whose background follows the
    mouse: lighter while hovered, darker while pressed. */
module Buttons {
  import opened Values
  import opened Elements

  /** The style keys `Button.__init__` fills in when the caller has not. */
  const ButtonDefaults: seq<(string, Value)> := [
    ("bg", Str("#007ACC")), ("radius", Num(6.0)), ("padding", Num(10.0)),
    ("align", Str("center")), ("justify", Str("center")), ("cursor", Str("hand"))]

  /** `_lighten_color(c, 20)`, which returns one fixed colour whatever `c`
      is. */
  function Lighten(c: Value): (r: Value)
    ensures r == Str("#3399FF")
  {
    Str("#3399FF")
  }

  /** `_darken_color(c, 20)`, likewise fixed. It mirrors `Lighten` because
      button.py writes the two helpers as mirror images of each other. */
  function Darken(c: Value): (r: Value)
    ensures r == Str("#005599")
  {
    Str("#005599")
  }

  /** `Button`: its element, its label, whether a click handler was given
      and how often it has run, and the three background colours. */
  class Button {
    const elem: Element
    const text: string
    const hasHandler: bool
    var clicks: nat
    const normalBg: Value
    const hoverBg: Value
    const pressedBg: Value

    /** `Button(text, on_click, **kwargs)`, given the element built from
        the caller's style and keyword arguments; the defaults go into the
        caller's dictionary first, which `Elements.DefaultsCommute` shows
        is the same as filling them afterwards. The label is kept as a
        field: no `Text` child is added. */
    constructor (e: Element, text: string, onClick: bool)
      modifies e`style
      ensures elem == e && this.text == text && hasHandler == onClick && clicks == 0
      ensures e.style == WithDefaults(old(e.style), DefaultsOf(ButtonDefaults))
      ensures "bg" in e.style && normalBg == e.style["bg"]
      ensures normalBg == (if "bg" in old(e.style) then old(e.style)["bg"] else Str("#007ACC"))
      ensures hoverBg == Str("#3399FF") && pressedBg == Str("#005599")
      ensures e.children == old(e.children)
    {
      DefaultsToFirst(ButtonDefaults, |ButtonDefaults|, 0);
      var style := FillDefaults(e.style, ButtonDefaults);
      elem := e;
      this.text := text;
      hasHandler := onClick;
      clicks := 0;
      normalBg := style["bg"];
      hoverBg := Lighten(style["bg"]);
      pressedBg := Darken(style["bg"]);
      new;
      e.style := style;
    }

    method OnMouseEnter()
      modifies elem`style
      ensures elem.style == old(elem.style)["bg" := hoverBg]
    {
      elem.style := elem.style["bg" := hoverBg];
    }

    method OnMouseLeave()
      modifies elem`style
      ensures elem.style == old(elem.style)["bg" := normalBg]
    {
      elem.style := elem.style["bg" := normalBg];
    }

    method OnMouseDown()
      modifies elem`style
      ensures elem.style == old(elem.style)["bg" := pressedBg]
    {
      elem.style := elem.style["bg" := pressedBg];
    }

    method OnMouseUp()
      modifies elem`style
      ensures elem.style == old(elem.style)["bg" := hoverBg]
    {
      elem.style := elem.style["bg" := hoverBg];
    }

    /** `on_click`: run the handler exactly when there is one. */
    method OnClick()
      modifies this
      ensures clicks == old(clicks) + (if hasHandler then 1 else 0)
    {
      if hasHandler {
        clicks := clicks + 1;
      }
    }
  }
}

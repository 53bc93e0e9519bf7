/** `Dropdown`: a box showing the chosen option that, when clicked, opens
    a full-screen overlay holding a menu of the options below itself, and
    closes it again on a second click, a click outside the menu or a
    choice. */
module Dropdowns {
  import opened Values
  import opened Tree
  import opened Elements

  /** The style keys `Dropdown.__init__` fills in when absent. */
  const DropdownDefaults: seq<(string, Value)> := [
    ("w", Num(200.0)), ("h", Num(40.0)), ("bg", Str("#2D333B")), ("radius", Num(6.0)),
    ("padding", Num(10.0)), ("color", Str("white")), ("border_color", Str("#444")),
    ("border_width", Num(1.0))]

  /** The application object as the dropdown uses it: a list of overlay
      roots, oldest first, that it can add one to and remove one from. */
  class OverlayHost {
    var overlays: seq<Element>

    constructor ()
      ensures overlays == []
    {
      overlays := [];
    }

    /** `add_overlay(o)`: the new overlay is the newest. */
    method AddOverlay(o: Element)
      modifies this
      ensures overlays == old(overlays) + [o]
    {
      overlays := overlays + [o];
    }

    /** `remove_overlay(o)`. */
    method RemoveOverlay(o: Element)
      modifies this
      ensures overlays == RemoveFirst(old(overlays), o)
    {
      overlays := RemoveFirst(overlays, o);
    }
  }

  /** The full-screen, absolutely placed overlay box. */
  const OverlayStyle: Style := map["w" := Str("100%"), "h" := Str("100%"),
    "position" := Str("absolute"), "x" := Num(0.0), "y" := Num(0.0)]

  /** The menu box: as wide as the dropdown, its left edge at the
      dropdown's and its top 5 pixels below the dropdown's bottom, with the
      dropdown's background, radius and border colour (the last only when
      the dropdown has one). */
  function MenuStyle(style: Style, b: Bounds): (r: Style)
    requires "bg" in style && "radius" in style && b.h.Some?
    ensures "w" in r && "left" in r && "top" in r && "bg" in r && "radius" in r
    ensures r["w"] == Num(b.w) && r["left"] == Num(b.x) && r["top"] == Num(b.y + b.h.value + 5.0)
    ensures r["bg"] == style["bg"] && r["radius"] == style["radius"]
    ensures "border_color" in r <==> "border_color" in style
    ensures "border_color" in r ==> r["border_color"] == style["border_color"]
  {
    var base := map["w" := Num(b.w), "bg" := style["bg"], "radius" := style["radius"],
      "shadow" := Num(10.0), "layout" := Str("col"), "padding" := Num(5.0), "gap" := Num(2.0),
      "left" := Num(b.x), "top" := Num(b.y + b.h.value + 5.0), "border_width" := Num(1.0)];
    if "border_color" in style then base["border_color" := style["border_color"]] else base
  }

  /** One option's box, with the dropdown's background. */
  function ItemStyle(style: Style): (r: Style)
    requires "bg" in style
    ensures "bg" in r && "h" in r && r["bg"] == style["bg"] && r["h"] == Num(30.0)
  {
    map["w" := Str("100%"), "h" := Num(30.0), "padding" := Num(5.0), "radius" := Num(4.0), "bg" := style["bg"]]
  }

  /** The option's text, in the dropdown's text colour. */
  function LabelStyle(style: Style): (r: Style)
    requires "color" in style
    ensures "color" in r && r["color"] == style["color"]
  {
    map["color" := style["color"], "font_size" := Num(14.0)]
  }

  /** The loop of `open` over the options: one box per option, in order,
      each holding one text element with the option, appended to the
      menu. */
  method BuildItems(menu: Element, options: seq<string>, style: Style) returns (items: seq<Element>, texts: seq<Element>)
    requires "bg" in style && "color" in style
    modifies menu`children
    ensures |items| == |options| && |texts| == |options|
    ensures menu.children == old(menu.children) + items
    ensures forall i :: 0 <= i < |options| ==> fresh(items[i]) && fresh(texts[i])
    ensures forall i :: 0 <= i < |options| ==>
      items[i].style == ItemStyle(style) && items[i].children == [texts[i]] && items[i].parent == menu &&
      texts[i].text == Some(options[i]) && texts[i].style == LabelStyle(style) && texts[i].parent == items[i]
  {
    var none := new ContextStack();
    items := [];
    texts := [];
    var k := 0;
    while k < |options|
      invariant k <= |options| && |items| == k && |texts| == k && none.items == []
      invariant menu.children == old(menu.children) + items
      invariant forall i :: 0 <= i < k ==> fresh(items[i]) && fresh(texts[i])
      invariant forall i :: 0 <= i < k ==>
        items[i].style == ItemStyle(style) && items[i].children == [texts[i]] && items[i].parent == menu &&
        texts[i].text == Some(options[i]) && texts[i].style == LabelStyle(style) && texts[i].parent == items[i]
    {
      var item, caption := BuildItem(options[k], style, none);
      var _ := menu.Add(item);
      items := items + [item];
      texts := texts + [caption];
      k := k + 1;
    }
  }

  /** One pass of that loop: the option's box holding its text. */
  method BuildItem(option: string, style: Style, none: ContextStack) returns (item: Element, caption: Element)
    requires "bg" in style && "color" in style && none.items == []
    ensures fresh(item) && fresh(caption)
    ensures item.style == ItemStyle(style) && item.children == [caption] && item.parent == null
    ensures caption.text == Some(option) && caption.style == LabelStyle(style) && caption.parent == item
    ensures none.items == []
  {
    item := new Element(ItemStyle(style), [], [], none);
    caption := NewText(option, LabelStyle(style), none);
    var _ := item.Add(caption);
  }

  /** A menu as `open` builds it: the menu box's style, one option box per
      option in order, each holding the option's text element. */
  predicate MenuOk(menu: Element, items: seq<Element>, texts: seq<Element>, options: seq<string>, style: Style, b: Bounds)
    reads menu, items, texts
  {
    "bg" in style && "radius" in style && "color" in style && b.h.Some? &&
    menu.style == MenuStyle(style, b) && menu.children == items &&
    |items| == |options| && |texts| == |options| &&
    forall i :: 0 <= i < |options| ==>
      items[i].style == ItemStyle(style) && items[i].children == [texts[i]] &&
      texts[i].text == Some(options[i]) && texts[i].style == LabelStyle(style)
  }

  /** The elements `open` creates: the overlay box holding the menu. */
  method BuildOverlay(style: Style, b: Bounds, options: seq<string>)
    returns (ov: Element, menu: Element, items: seq<Element>, texts: seq<Element>)
    requires "bg" in style && "radius" in style && "color" in style && b.h.Some?
    ensures fresh(ov) && fresh(menu) && ov.style == OverlayStyle && ov.children == [menu]
    ensures MenuOk(menu, items, texts, options, style, b)
  {
    var none := new ContextStack();
    ov := new Element(OverlayStyle, [], [], none);
    menu := new Element(MenuStyle(style, b), [], [], none);
    items, texts := BuildItems(menu, options, style);
    var _ := ov.Add(menu);
  }

  /** `Dropdown`: its element, the options and the chosen value, whether
      an `on_change` callback was given and what it was passed so far, the
      open flag and overlay, the hover flag, the application object (null
      when there is none), and the option boxes of the last menu built and
      their text elements, which its per-option handlers refer to. */
  class Dropdown {
    const elem: Element
    const options: seq<string>
    var value: string
    const onChange: bool
    var changes: seq<string>
    var isOpen: bool
    var overlay: Element?
    var hovered: bool
    const app: OverlayHost?
    var items: seq<Element>
    var texts: seq<Element>

    /** The dropdown is open exactly when it holds an overlay. */
    predicate Valid()
      reads this
    {
      isOpen <==> overlay != null
    }

    /** `Dropdown(options, value, on_change, **kwargs)`, given the element
        `super().__init__` built: the value given, else the first option,
        else the empty string. */
    constructor (e: Element, options: seq<string>, value: Option<string>, onChange: bool, app: OverlayHost?)
      modifies e`style
      ensures elem == e && this.options == options && this.onChange == onChange && this.app == app
      ensures this.value == (if value.Some? then value.value else if options != [] then options[0] else "")
      ensures !isOpen && overlay == null && !hovered && changes == [] && items == [] && texts == []
      ensures e.style == WithDefaults(old(e.style), DefaultsOf(DropdownDefaults))
      ensures Valid()
    {
      elem := e;
      this.options := options;
      this.value := if value.Some? then value.value else if options != [] then options[0] else "";
      this.onChange := onChange;
      changes := [];
      isOpen := false;
      overlay := null;
      hovered := false;
      this.app := app;
      items := [];
      texts := [];
      new;
      e.style := FillDefaults(e.style, DropdownDefaults);
    }

    method OnMouseEnter()
      modifies this
      ensures hovered && isOpen == old(isOpen) && overlay == old(overlay) && value == old(value)
    {
      hovered := true;
    }

    method OnMouseLeave()
      modifies this
      ensures !hovered && isOpen == old(isOpen) && overlay == old(overlay) && value == old(value)
    {
      hovered := false;
    }

    /** `open`: nothing when already open or without an application;
        otherwise build the overlay with the menu and hand it to the
        application as its newest overlay. */
    method Open()
      requires Valid()
      requires !isOpen && app != null ==>
        "bg" in elem.style && "radius" in elem.style && "color" in elem.style && elem.bounds.h.Some?
      modifies this, app
      ensures Valid() && value == old(value) && changes == old(changes) && hovered == old(hovered)
      ensures old(isOpen) || app == null ==>
        isOpen == old(isOpen) && overlay == old(overlay) && items == old(items) && texts == old(texts) &&
        (app != null ==> app.overlays == old(app.overlays))
      ensures !old(isOpen) && app != null ==>
        isOpen && overlay != null && fresh(overlay) && overlay !in old(app.overlays) &&
        app.overlays == old(app.overlays) + [overlay] &&
        overlay.style == OverlayStyle && |overlay.children| == 1 &&
        MenuOk(overlay.children[0], items, texts, options, elem.style, elem.bounds)
    {
      if isOpen {
        return;
      }
      if app == null {
        return;
      }
      var ov, menu, built, made := BuildOverlay(elem.style, elem.bounds, options);
      isOpen := true;
      overlay := ov;
      items := built;
      texts := made;
      app.AddOverlay(ov);
    }

    /** `close`: nothing when not open; otherwise the overlay is taken
        away from the application and forgotten. */
    method Close()
      requires Valid()
      modifies this, app
      ensures Valid() && !isOpen && overlay == null
      ensures value == old(value) && changes == old(changes) && hovered == old(hovered) && items == old(items) && texts == old(texts)
      ensures app != null ==>
        app.overlays == if old(isOpen) then RemoveFirst(old(app.overlays), old(overlay) as Element) else old(app.overlays)
    {
      if !isOpen {
        return;
      }
      if app != null && overlay != null {
        app.RemoveOverlay(overlay);
      }
      isOpen := false;
      overlay := null;
    }

    /** `on_click`, that is `toggle`: close when open, open when closed. */
    method OnClick()
      requires Valid()
      requires !isOpen && app != null ==>
        "bg" in elem.style && "radius" in elem.style && "color" in elem.style && elem.bounds.h.Some?
      modifies this, app
      ensures Valid() && value == old(value) && changes == old(changes)
      ensures old(isOpen) ==> !isOpen
      ensures !old(isOpen) ==> isOpen == (app != null)
    {
      if isOpen {
        Close();
      } else {
        Open();
      }
    }

    /** The `on_select` handler of option `i`: choose it, report it, then
        close. */
    method Select(i: nat)
      requires Valid() && i < |options|
      modifies this, app
      ensures Valid() && value == options[i] && !isOpen && overlay == null
      ensures changes == old(changes) + (if onChange then [options[i]] else [])
      ensures app != null ==>
        app.overlays == if old(isOpen) then RemoveFirst(old(app.overlays), old(overlay) as Element) else old(app.overlays)
    {
      value := options[i];
      if onChange {
        changes := changes + [options[i]];
      }
      Close();
    }

    /** The `on_enter` handler of an option's box: highlight it. */
    method ItemEnter(item: Element)
      modifies item`style
      ensures item.style == old(item.style)["bg" := Str("#1F6FEB")]
    {
      item.style := item.style["bg" := Str("#1F6FEB")];
    }

    /** The `on_leave` handler of an option's box: back to the dropdown's
        own background. */
    method ItemLeave(item: Element)
      requires "bg" in elem.style
      modifies item`style
      ensures item.style == old(item.style)["bg" := old(elem.style["bg"])]
    {
      item.style := item.style["bg" := elem.style["bg"]];
    }
  }
}

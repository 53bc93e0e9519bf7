/** `Toast` and `ToastManager`: short messages stacked at the bottom right
    of the window, faded in when shown, faded out once their time is up and
    removed from the manager when the fade-out completes. */
module Toasts {
  import opened Values
  import opened Elements
  import opened Animations

  /** The style keys `Toast.__init__` fills in when the caller has not. */
  const ToastDefaults: seq<(string, Value)> := [
    ("bg", Str("#333")), ("radius", Num(5.0)), ("padding", Num(10.0)),
    ("shadow", Num(5.0)), ("w", Num(300.0))]

  /** The targets of the fade-in `show` starts and of the fade-out
      `update` starts. */
  const FadeIn: seq<(string, real)> := [("opacity", 1.0), ("y_offset", 0.0)]
  const FadeOut: seq<(string, real)> := [("opacity", 0.0), ("y_offset", 20.0)]

  /** The style of the text element holding the message. */
  const MessageStyle: Style := map["color" := Str("white")]

  /** A toast's style: the defaults filled in, then the starting point of
      the fade-in written over whatever the caller gave. */
  function ToastStyle(style: Style): Style
  {
    WithDefaults(style, DefaultsOf(ToastDefaults))["opacity" := Num(0.0)]["y_offset" := Num(20.0)]
  }

  /** The five defaults, as a map. */
  lemma ToastDefaultsMap()
    ensures DefaultsOf(ToastDefaults) ==
      map["bg" := Str("#333"), "radius" := Num(5.0), "padding" := Num(10.0), "shadow" := Num(5.0), "w" := Num(300.0)]
  {
    var ds := ToastDefaults;
    assert DefaultsTo(ds, 1) == map["bg" := Str("#333")];
    assert DefaultsTo(ds, 2) == map["bg" := Str("#333"), "radius" := Num(5.0)];
    assert DefaultsTo(ds, 3) == map["bg" := Str("#333"), "radius" := Num(5.0), "padding" := Num(10.0)];
    assert DefaultsTo(ds, 4) == map["bg" := Str("#333"), "radius" := Num(5.0), "padding" := Num(10.0), "shadow" := Num(5.0)];
  }

  /** A toast's style has the caller's keys, the five defaults and the two
      fade-in keys, and no others. */
  lemma ToastStyleKeys(style: Style)
    ensures ToastStyle(style).Keys == style.Keys + {"bg", "radius", "padding", "shadow", "w", "opacity", "y_offset"}
  {
    ToastDefaultsMap();
    var w := WithDefaults(style, DefaultsOf(ToastDefaults));
    assert w.Keys == style.Keys + {"bg", "radius", "padding", "shadow", "w"};
  }

  /** A toast starts invisible and 20 below its place, has the caller's
      other keys as given and the five defaults where the caller had none,
      and no further keys. */
  lemma {:induction false} ToastStyleSpec(style: Style)
    ensures var r := ToastStyle(style);
      r.Keys == style.Keys + {"bg", "radius", "padding", "shadow", "w", "opacity", "y_offset"} &&
      r["opacity"] == Num(0.0) && r["y_offset"] == Num(20.0) &&
      (forall k :: k in style && k != "opacity" && k != "y_offset" ==> r[k] == style[k]) &&
      ("bg" !in style ==> r["bg"] == Str("#333")) &&
      ("radius" !in style ==> r["radius"] == Num(5.0)) &&
      ("padding" !in style ==> r["padding"] == Num(10.0)) &&
      ("shadow" !in style ==> r["shadow"] == Num(5.0)) &&
      ("w" !in style ==> r["w"] == Num(300.0))
  {
    ToastStyleKeys(style);
    ToastDefaultsMap();
  }

  /** The background `show` gives a toast of the given kind. */
  function KindColor(kind: string): (bg: string)
    ensures kind == "success" ==> bg == "#2e7d32"
    ensures kind == "error" ==> bg == "#c62828"
    ensures kind == "warning" ==> bg == "#f9a825"
    ensures bg == "#333" <==> kind != "success" && kind != "error" && kind != "warning"
  {
    if kind == "success" then "#2e7d32"
    else if kind == "error" then "#c62828"
    else if kind == "warning" then "#f9a825"
    else "#333"
  }

  /** `Toast`: its element, the message and how long it stays, the time it
      was created, the identifier its `remove` callback is known by, the
      dying flag, and the text element showing the message. */
  class Toast {
    const elem: Element
    const message: string
    const duration: real
    const startTime: real
    const id: nat
    const text: Element
    var isDying: bool

    /** `Toast(message, duration, **kwargs)` created at time `now`, given the
        element `super().__init__` built: the defaults and the fade-in
        start go into its style and a text element with the message is
        added as its last child. */
    constructor (e: Element, message: string, duration: real, now: real, id: nat)
      modifies e`style, e`children
      ensures elem == e && this.message == message && this.duration == duration
      ensures startTime == now && this.id == id && !isDying
      ensures e.style == ToastStyle(old(e.style))
      ensures fresh(text) && text.text == Some(message) && text.style == MessageStyle
      ensures text.children == [] && text.parent == e
      ensures e.children == old(e.children) + [text]
    {
      elem := e;
      this.message := message;
      this.duration := duration;
      startTime := now;
      this.id := id;
      isDying := false;
      var none := new ContextStack();
      var t := NewText(message, MessageStyle, none);
      text := t;
      new;
      e.style := FillDefaults(e.style, ToastDefaults);
      e.style := e.style["opacity" := Num(0.0)];
      e.style := e.style["y_offset" := Num(20.0)];
      var _ := e.Add(t);
    }

    /** `update()` at time `now`: the first update after the toast's time
        is up marks it dying and starts the half-second fade-out, whose
        completion calls `remove`; any other update does nothing. */
    method Update(now: real, manager: AnimationManager) returns (fade: Animation?)
      modifies this, manager
      ensures isDying == (old(isDying) || now - startTime > duration)
      ensures old(isDying) || now - startTime <= duration ==>
        fade == null && manager.animations == old(manager.animations) && manager.completed == old(manager.completed)
      ensures !old(isDying) && now - startTime > duration ==>
        fade != null && fresh(fade) && fade.element == elem && fade.targets == FadeOut &&
        fade.duration == 0.5 && fade.easing == Linear && fade.onComplete == Some(id) &&
        manager.animations == old(manager.animations) + [fade] && manager.completed == old(manager.completed)
    {
      fade := null;
      var elapsed := now - startTime;
      if elapsed > duration && !isDying {
        isDying := true;
        fade := Animate(elem, FadeOut, 0.5, None, Some(id), manager);
      }
    }

    /** `remove()`: when the toast has a parent, that parent (a manager)
        takes it out of its children; without a parent nothing changes. */
    method Remove(host: ToastManager?)
      requires elem.parent != null ==> host != null && host.elem == elem.parent
      modifies (if host == null then {} else {host.elem})`children
      ensures elem.parent == null ==> host == null || unchanged(host.elem)
      ensures elem.parent != null ==> host.elem.children == RemoveFirst(old(host.elem.children), elem)
    {
      if elem.parent != null {
        host.RemoveToast(this);
      }
    }
  }

  /** `ToastManager`: the element the toasts are children of. */
  class ToastManager {
    const elem: Element

    /** `ToastManager(**kwargs)`, given the element `super().__init__`
        built: its size, layout, alignment, padding and gap are always
        set, whatever the caller gave. */
    constructor (e: Element)
      modifies e`style
      ensures elem == e
      ensures e.style.Keys == old(e.style).Keys + {"w", "h", "layout", "align", "justify", "padding", "gap"}
      ensures forall k :: k in old(e.style) && k !in {"w", "h", "layout", "align", "justify", "padding", "gap"} ==>
        e.style[k] == old(e.style)[k]
      ensures e.style["w"] == Str("100%") && e.style["h"] == Str("100%") && e.style["layout"] == Str("col")
      ensures e.style["align"] == Str("end") && e.style["justify"] == Str("end")
      ensures e.style["padding"] == Num(20.0) && e.style["gap"] == Num(10.0)
    {
      elem := e;
      new;
      e.style := e.style["w" := Str("100%")];
      e.style := e.style["h" := Str("100%")];
      e.style := e.style["layout" := Str("col")];
      e.style := e.style["align" := Str("end")];
      e.style := e.style["justify" := Str("end")];
      e.style := e.style["padding" := Num(20.0)];
      e.style := e.style["gap" := Num(10.0)];
    }

    /** `show(message, duration, type)` at time `now`: a toast coloured by
        its kind becomes the last child, and its fade-in to full opacity
        and its place starts. `id` is the identifier of the new toast's
        `remove` callback. */
    method Show(message: string, duration: real, kind: string, now: real, id: nat, manager: AnimationManager)
      returns (t: Toast)
      modifies elem`children, manager
      ensures fresh(t) && fresh(t.elem) && t.message == message && t.duration == duration
      ensures t.startTime == now && t.id == id && !t.isDying
      ensures t.elem.style == ToastStyle(map["bg" := Str(KindColor(kind))]) && t.elem.style["bg"] == Str(KindColor(kind))
      ensures t.elem.children == [t.text] && t.text.text == Some(message) && t.text.style == MessageStyle
      ensures t.elem.parent == elem && elem.children == old(elem.children) + [t.elem]
      ensures |manager.animations| == |old(manager.animations)| + 1 && manager.completed == old(manager.completed)
      ensures manager.animations[..|old(manager.animations)|] == old(manager.animations)
      ensures var a := manager.animations[|old(manager.animations)|];
        fresh(a) && a.element == t.elem && a.targets == FadeIn && a.duration == 0.3 && a.easing == OutQuad &&
        a.onComplete == None && a.startValues == map["opacity" := 0.0, "y_offset" := 20.0]
    {
      var bg := KindColor(kind);
      var none := new ContextStack();
      var e := new Element(map["bg" := Str(bg)], [], [], none);
      assert Merged(map["bg" := Str(bg)], []) == map["bg" := Str(bg)];
      t := new Toast(e, message, duration, now, id);
      var _ := elem.Add(e);
      var a := Animate(e, FadeIn, 0.3, Some(OutQuad), None, manager);
      ToastStyleSpec(map["bg" := Str(bg)]);
      StartsToSpec(e.style, FadeIn, 2);
    }

    /** `remove_toast(toast)`: the toast leaves the children when it is one
        of them; otherwise nothing changes. The toast keeps its parent
        link. */
    method RemoveToast(t: Toast)
      modifies elem`children
      ensures elem.children == RemoveFirst(old(elem.children), t.elem)
      ensures t.elem !in old(elem.children) ==> elem.children == old(elem.children)
    {
      if t.elem in elem.children {
        elem.children := RemoveFirst(elem.children, t.elem);
      }
    }
  }
}

/** `Image.measure`: the style's `w`/`h` resolved against the parent, with
    the loaded image's own size filling in what the style leaves out. */
module Images {
  import opened Values
  import PyFloat

  /** The `resolve` helper nested in `Image.measure`. image.py repeats
      `_resolve_dim` of layout.py here, so this mirrors `Layout.ResolveDim`;
      `LayoutFacts.ResolveAgrees` proves the two equal. */
  function Resolve(v: Option<Value>, parent: Option<real>): (r: Option<real>)
    ensures r.None? <==> v.None?
  {
    match v
    case None => None
    case Some(Num(n)) => Some(n)
    case Some(Str(s)) =>
      if EndsWith(s, "%") && parent.Some? then
        match PyFloat.ParseSlice(s, 0, |s| - 1)
        case Some(f) => Some(Percent(parent.value, f))
        case None => Some(0.0)
      else Some(0.0)
    case Some(Other) => Some(0.0)
  }

  /** `w or 0`: a missing size counts as 0. */
  function OrZero(v: Option<real>): real
  {
    if v.Some? then v.value else 0.0
  }

  /** The intrinsic size of an image element; `image` is the loaded
      picture's (width, height), None when loading failed. */
  function Measure(style: Style, image: Option<(real, real)>, pw: real, ph: Option<real>): (r: (real, real))
    ensures "w" in style ==> r.0 == Resolve(Get(style, "w"), Some(pw)).value
    ensures "h" in style ==> r.1 == Resolve(Get(style, "h"), ph).value
    ensures "w" !in style ==> r.0 == (if image.Some? then image.value.0 else 0.0)
    ensures "h" !in style ==> r.1 == (if image.Some? then image.value.1 else 0.0)
  {
    var w := Resolve(Get(style, "w"), Some(pw));
    var h := Resolve(Get(style, "h"), ph);
    var w' := if w.None? && image.Some? then Some(image.value.0) else w;
    var h' := if h.None? && image.Some? then Some(image.value.1) else h;
    (OrZero(w'), OrZero(h'))
  }
}

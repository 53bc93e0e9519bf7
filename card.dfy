/** `Card`: a box with a panel look and a column layout by default. */
module Cards {
  import opened Values
  import opened Elements

  /** The style keys `Card.__init__` fills in when the caller has not. */
  const CardDefaults: seq<(string, Value)> := [
    ("bg", Str("#2D2D2D")), ("radius", Num(12.0)), ("padding", Num(20.0)),
    ("shadow", Num(10.0)), ("layout", Str("col")), ("gap", Num(10.0))]

  /** A card's style: the caller's keys kept as they are, the six
      defaults for the others, and nothing else. */
  lemma {:induction false} CardStyle(style: Style)
    ensures var r := WithDefaults(style, DefaultsOf(CardDefaults));
      r.Keys == style.Keys + {"bg", "radius", "padding", "shadow", "layout", "gap"} &&
      (forall k :: k in style ==> r[k] == style[k]) &&
      ("layout" !in style ==> r["layout"] == Str("col")) &&
      ("gap" !in style ==> r["gap"] == Num(10.0)) &&
      ("bg" !in style ==> r["bg"] == Str("#2D2D2D")) &&
      ("radius" !in style ==> r["radius"] == Num(12.0)) &&
      ("padding" !in style ==> r["padding"] == Num(20.0)) &&
      ("shadow" !in style ==> r["shadow"] == Num(10.0))
  {
    DefaultsOfDistinct(CardDefaults);
    var d := DefaultsOf(CardDefaults);
    assert CardDefaults[0].0 in d && CardDefaults[1].0 in d && CardDefaults[2].0 in d;
    assert CardDefaults[3].0 in d && CardDefaults[4].0 in d && CardDefaults[5].0 in d;
    assert d.Keys == {"bg", "radius", "padding", "shadow", "layout", "gap"};
  }

  /** `Card`: the element it extends. */
  class Card {
    const elem: Element

    /** `Card(**kwargs)`, given the element built from the caller's style
        and keyword arguments; the defaults go into the caller's dictionary
        first, which `Elements.DefaultsCommute` shows is the same as
        filling them afterwards. */
    constructor (e: Element)
      modifies e`style
      ensures elem == e
      ensures e.style == WithDefaults(old(e.style), DefaultsOf(CardDefaults))
    {
      elem := e;
      new;
      e.style := FillDefaults(e.style, CardDefaults);
    }
  }
}

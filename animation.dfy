/** Style animations: an `Animation` moves numeric style properties of one
    element from their values at creation towards targets, and the
    `AnimationManager` advances every animation in its list once per frame,
    dropping the finished ones. The current time is a parameter. */
module Animations {
  import opened Values
  import opened Reals
  import opened Elements

  /** The polynomial easing curves of `Easing`. */
  datatype Easing = Linear | InQuad | OutQuad | InOutQuad

  /** Each curve starts at 0 and ends at 1. */
  function Ease(e: Easing, t: real): (r: real)
    ensures t == 0.0 ==> r == 0.0
    ensures t == 1.0 ==> r == 1.0
  {
    match e
    case Linear => t
    case InQuad => t * t
    case OutQuad => t * (2.0 - t)
    case InOutQuad => if t < 0.5 then 2.0 * t * t else -1.0 + (4.0 - 2.0 * t) * t
  }

  /** On [0, 1] every curve stays within [0, 1]. */
  lemma {:induction false} EaseRange(e: Easing, t: real)
    requires 0.0 <= t <= 1.0
    ensures 0.0 <= Ease(e, t) <= 1.0
  {
    match e
    case Linear =>
    case InQuad =>
      assert t * t <= t * 1.0 by {
        MulMono(t, 1.0, t);
      }
    case OutQuad =>
      assert t * (2.0 - t) == 1.0 - (1.0 - t) * (1.0 - t);
      MulMono(1.0 - t, 1.0, 1.0 - t);
    case InOutQuad =>
      if t < 0.5 {
        MulMono(t, 0.5, t);
        assert 2.0 * t * t == 2.0 * (t * t);
      } else {
        assert -1.0 + (4.0 - 2.0 * t) * t == 1.0 - 2.0 * ((1.0 - t) * (1.0 - t));
        MulMono(1.0 - t, 0.5, 1.0 - t);
      }
  }

  /** `a * c <= b * c` for `a <= b` and `c >= 0`, with the product not
      negative for `a >= 0`. */
  lemma MulMono(a: real, b: real, c: real)
    requires a <= b && c >= 0.0
    ensures a * c <= b * c
    ensures a >= 0.0 ==> a * c >= 0.0
  {
  }

  /** `start + (target - start) * p`: the start at 0, the target at 1, and
      between the two for p in [0, 1]. */
  function Lerp(start: real, target: real, p: real): (r: real)
    ensures p == 0.0 ==> r == start
    ensures p == 1.0 ==> r == target
  {
    start + (target - start) * p
  }

  lemma {:induction false} LerpBetween(start: real, target: real, p: real)
    requires 0.0 <= p <= 1.0
    ensures Min(start, target) <= Lerp(start, target, p) <= Max(start, target)
  {
    var d := target - start;
    assert Lerp(start, target, p) == start + d * p;
    if d >= 0.0 {
      assert 0.0 <= d * p <= d;
    } else {
      assert d <= d * p <= 0.0;
    }
  }

  /** The start values the constructor records for the first `k`
      properties: the current number, or 0 for a missing key; a property
      holding anything else is skipped. */
  function StartsTo(style: Style, props: seq<(string, real)>, k: nat): map<string, real>
    requires k <= |props|
    decreases k
  {
    if k == 0 then map[]
    else
      var m := StartsTo(style, props, k - 1);
      var key := props[k - 1].0;
      if NumOrAbsent(style, key) then m[key := NumOr(style, key, 0.0)] else m
  }

  /** A property has a start value exactly when it is numeric or missing,
      and that value is its number, or 0. */
  lemma {:induction false} StartsToSpec(style: Style, props: seq<(string, real)>, k: nat)
    requires k <= |props|
    ensures forall key :: key in StartsTo(style, props, k) <==>
      NumOrAbsent(style, key) && exists i :: 0 <= i < k && props[i].0 == key
    ensures forall key :: key in StartsTo(style, props, k) ==> StartsTo(style, props, k)[key] == NumOr(style, key, 0.0)
    decreases k
  {
    if k > 0 {
      StartsToSpec(style, props, k - 1);
      forall key | NumOrAbsent(style, key) && exists i :: 0 <= i < k && props[i].0 == key
        ensures key in StartsTo(style, props, k)
      {
        var i :| 0 <= i < k && props[i].0 == key;
        if i < k - 1 {
          assert key in StartsTo(style, props, k - 1);
        }
      }
    }
  }

  /** The loop of `Animation.__init__`. */
  method CaptureStarts(style: Style, props: seq<(string, real)>) returns (m: map<string, real>)
    ensures m == StartsTo(style, props, |props|)
  {
    m := map[];
    var i := 0;
    while i < |props|
      invariant i <= |props|
      invariant m == StartsTo(style, props, i)
    {
      var key := props[i].0;
      var v := Get(style, key);
      var n := if v.None? then Num(0.0) else v.value;
      if n.Num? {
        m := m[key := n.n];
      }
      i := i + 1;
    }
  }

  /** The style after the first `k` writes of `Animation.update(p)`: each
      property with a start value gets its interpolated number. */
  function InterpolatedTo(style: Style, props: seq<(string, real)>, starts: map<string, real>, p: real, k: nat): Style
    requires k <= |props|
    decreases k
  {
    if k == 0 then style
    else
      var s := InterpolatedTo(style, props, starts, p, k - 1);
      var key := props[k - 1].0;
      if key in starts then s[key := Num(Lerp(starts[key], props[k - 1].1, p))] else s
  }

  /** A property with a start value holds its interpolated number, from
      the last entry for that property. */
  lemma {:induction false} InterpolatedToWritten(style: Style, props: seq<(string, real)>, starts: map<string, real>, p: real, k: nat, i: nat)
    requires i < k <= |props| && props[i].0 in starts
    requires forall j :: i < j < k ==> props[j].0 != props[i].0
    ensures var r := InterpolatedTo(style, props, starts, p, k);
      props[i].0 in r && r[props[i].0] == Num(Lerp(starts[props[i].0], props[i].1, p))
    decreases k
  {
    if i < k - 1 {
      InterpolatedToWritten(style, props, starts, p, k - 1, i);
    }
  }

  /** A key that is not animated, or has no start value, is untouched. */
  lemma {:induction false} InterpolatedToKept(style: Style, props: seq<(string, real)>, starts: map<string, real>, p: real, k: nat, key: string)
    requires k <= |props|
    requires key !in starts || forall i :: 0 <= i < k ==> props[i].0 != key
    ensures var r := InterpolatedTo(style, props, starts, p, k);
      (key in r <==> key in style) && (key in style ==> r[key] == style[key])
    decreases k
  {
    if k > 0 {
      InterpolatedToKept(style, props, starts, p, k - 1, key);
    }
  }

  /** `Animation`: the element, its targets in order, the duration, the
      curve, the completion callback (an identifier), the recorded start
      values and the clock. */
  class Animation {
    const element: Element
    const targets: seq<(string, real)>
    const duration: real
    const easing: Easing
    const onComplete: Option<nat>
    const startValues: map<string, real>
    var startTime: real
    var started: bool

    /** `Animation(element, properties, duration, easing, on_complete)`;
        a missing curve means linear. */
    constructor (element: Element, properties: seq<(string, real)>, duration: real, easing: Option<Easing>, onComplete: Option<nat>)
      ensures this.element == element && targets == properties && this.duration == duration
      ensures this.easing == (if easing.Some? then easing.value else Linear)
      ensures this.onComplete == onComplete
      ensures startValues == StartsTo(element.style, properties, |properties|)
      ensures startTime == 0.0 && !started
    {
      var m := CaptureStarts(element.style, properties);
      this.element := element;
      targets := properties;
      this.duration := duration;
      this.easing := if easing.Some? then easing.value else Linear;
      this.onComplete := onComplete;
      startValues := m;
      startTime := 0.0;
      started := false;
    }

    /** `update(progress)`: write every interpolated property into the
        element's style. */
    method Update(progress: real)
      modifies element`style
      ensures element.style == InterpolatedTo(old(element.style), targets, startValues, progress, |targets|)
    {
      var i := 0;
      while i < |targets|
        invariant i <= |targets|
        invariant element.style == InterpolatedTo(old(element.style), targets, startValues, progress, i)
      {
        var key := targets[i].0;
        if key in startValues {
          element.style := element.style[key := Num(Lerp(startValues[key], targets[i].1, progress))];
        }
        i := i + 1;
      }
    }
  }

  /** One pass of the manager's loop over `a`: start the clock if needed,
      then apply the eased progress. */
  method Tick(a: Animation, now: real) returns (progress: real)
    requires a.duration != 0.0
    modifies a, a.element`style
    ensures a.started && a.startTime == old(Start(a, now))
    ensures progress == old(Progress(a, now))
    ensures a.element.style == old(InterpolatedTo(a.element.style, a.targets, a.startValues, Ease(a.easing, Progress(a, now)), |a.targets|))
  {
    if !a.started {
      a.startTime := now;
      a.started := true;
    }
    progress := Min(1.0, (now - a.startTime) / a.duration);
    a.Update(Ease(a.easing, progress));
  }

  /** The start time an update uses: the recorded one, or `now` for an
      animation that has not started. */
  function Start(a: Animation, now: real): real
    reads a
  {
    if a.started then a.startTime else now
  }

  /** `min(1.0, elapsed / duration)`. */
  function Progress(a: Animation, now: real): (p: real)
    reads a
    requires a.duration != 0.0
    ensures p <= 1.0
  {
    Min(1.0, (now - Start(a, now)) / a.duration)
  }

  predicate Timed(anims: seq<Animation>)
  {
    forall i :: 0 <= i < |anims| ==> anims[i].duration != 0.0
  }

  /** The animations among the first `k` that are still running after an
      update at `now`, in their order. */
  function KeptTo(anims: seq<Animation>, now: real, k: nat): seq<Animation>
    reads anims
    requires k <= |anims| && Timed(anims)
    decreases k
  {
    if k == 0 then []
    else KeptTo(anims, now, k - 1) + (if Progress(anims[k - 1], now) < 1.0 then [anims[k - 1]] else [])
  }

  /** The completion callbacks the first `k` animations fire at `now`. */
  function FiredTo(anims: seq<Animation>, now: real, k: nat): seq<nat>
    reads anims
    requires k <= |anims| && Timed(anims)
    decreases k
  {
    if k == 0 then []
    else
      var a := anims[k - 1];
      FiredTo(anims, now, k - 1) + (if Progress(a, now) >= 1.0 && a.onComplete.Some? then [a.onComplete.value] else [])
  }

  /** An animation is kept exactly when one of its entries is still
      running, and the kept list is no longer than the list. */
  lemma {:induction false} KeptToSpec(anims: seq<Animation>, now: real, k: nat)
    requires k <= |anims| && Timed(anims)
    ensures |KeptTo(anims, now, k)| <= k
    ensures forall a :: a in KeptTo(anims, now, k) <==>
      exists i :: 0 <= i < k && anims[i] == a && Progress(a, now) < 1.0
    decreases k
  {
    if k > 0 {
      KeptToSpec(anims, now, k - 1);
      var a := anims[k - 1];
      if Progress(a, now) < 1.0 {
        assert a in KeptTo(anims, now, k);
      }
    }
  }

  /** Every animation that finishes fires its callback, once per entry. */
  lemma {:induction false} FiredToSpec(anims: seq<Animation>, now: real, k: nat)
    requires k <= |anims| && Timed(anims)
    ensures |FiredTo(anims, now, k)| + |KeptTo(anims, now, k)| <= k
    ensures forall i :: 0 <= i < k && Progress(anims[i], now) >= 1.0 && anims[i].onComplete.Some? ==>
      anims[i].onComplete.value in FiredTo(anims, now, k)
    decreases k
  {
    if k > 0 {
      FiredToSpec(anims, now, k - 1);
    }
  }

  /** The style of `e` once the first `k` animations have written theirs,
      in list order, from `base`. */
  function StyleAfter(anims: seq<Animation>, now: real, k: nat, e: Element, base: Style): Style
    reads anims
    requires k <= |anims| && Timed(anims)
    decreases k
  {
    if k == 0 then base
    else
      var s := StyleAfter(anims, now, k - 1, e, base);
      var a := anims[k - 1];
      if a.element == e then InterpolatedTo(s, a.targets, a.startValues, Ease(a.easing, Progress(a, now)), |a.targets|)
      else s
  }

  /** The loop of `update()`: tick every animation in list order,
      keeping the running ones and collecting the callbacks of the
      finished ones. */
  method TickAll(anims: seq<Animation>, now: real) returns (active: seq<Animation>, fired: seq<nat>)
    requires Timed(anims)
    modifies set a | a in anims, (set a | a in anims :: a.element)`style
    ensures active == old(KeptTo(anims, now, |anims|))
    ensures fired == old(FiredTo(anims, now, |anims|))
    ensures forall a :: a in anims ==> a.started && a.startTime == old(Start(a, now))
    ensures forall a :: a in anims ==>
      a.element.style == old(StyleAfter(anims, now, |anims|, a.element, a.element.style))
  {
    active := [];
    fired := [];
    var i := 0;
    while i < |anims|
      invariant i <= |anims|
      invariant active == old(KeptTo(anims, now, i))
      invariant fired == old(FiredTo(anims, now, i))
      invariant forall a :: a in anims ==> Start(a, now) == old(Start(a, now))
      invariant forall j :: 0 <= j < i ==> anims[j].started
      invariant forall a :: a in anims ==>
        a.element.style == old(StyleAfter(anims, now, i, a.element, a.element.style))
    {
      var anim := anims[i];
      assert Progress(anim, now) == old(Progress(anim, now));
      var progress := Tick(anim, now);
      if progress < 1.0 {
        active := active + [anim];
      } else if anim.onComplete.Some? {
        fired := fired + [anim.onComplete.value];
      }
      i := i + 1;
    }
  }

  /** `AnimationManager`: the running animations, and the completion
      callbacks fired so far, in order. */
  class AnimationManager {
    var animations: seq<Animation>
    var completed: seq<nat>

    constructor ()
      ensures animations == [] && completed == []
    {
      animations := [];
      completed := [];
    }

    /** `add(animation)`: appended last. */
    method Add(a: Animation)
      modifies this
      ensures animations == old(animations) + [a] && completed == old(completed)
    {
      animations := animations + [a];
    }

    /** `update()` at time `now`. */
    method Update(now: real) returns (redraw: bool)
      requires Timed(animations)
      modifies this, set a | a in animations, (set a | a in animations :: a.element)`style
      ensures redraw <==> old(animations) != []
      ensures old(animations) == [] ==> animations == [] && completed == old(completed)
      ensures animations == old(KeptTo(animations, now, |animations|))
      ensures completed == old(completed) + old(FiredTo(animations, now, |animations|))
      ensures forall a :: a in old(animations) ==> a.started && a.startTime == old(Start(a, now))
      ensures forall a :: a in old(animations) ==>
        a.element.style == old(StyleAfter(animations, now, |animations|, a.element, a.element.style))
    {
      if animations == [] {
        return false;
      }
      var active, fired := TickAll(animations, now);
      completed := completed + fired;
      animations := active;
      redraw := true;
    }
  }

  /** `Element.animate(properties, duration, easing, on_complete)`: a new
      animation of the element, appended to the manager's list. */
  method Animate(e: Element, properties: seq<(string, real)>, duration: real, easing: Option<Easing>,
                 onComplete: Option<nat>, manager: AnimationManager) returns (a: Animation)
    modifies manager
    ensures fresh(a) && a.element == e && a.targets == properties && a.duration == duration
    ensures a.easing == (if easing.Some? then easing.value else Linear) && a.onComplete == onComplete
    ensures a.startValues == StartsTo(e.style, properties, |properties|) && !a.started
    ensures manager.animations == old(manager.animations) + [a] && manager.completed == old(manager.completed)
  {
    a := new Animation(e, properties, duration, easing, onComplete);
    manager.Add(a);
  }
}

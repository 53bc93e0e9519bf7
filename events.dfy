/** The event dispatcher: hit testing over the laid-out tree, the choice of
    target among overlays and root, the first-handler dispatch up the parent
    chain, and the `EventManager` state machine that turns each host sample
    (cursor position, left button) into handler calls. */
module Events {
  import opened Values
  import opened Tree

  // ---------------------------------------------------------------------
  // Hit testing

  /** `_hit_test` reads `b['h']` only once `x` is within the horizontal
      extent and `y` is not above the top edge (the chained comparisons
      short-circuit); an unresolved height there makes the code raise. */
  predicate BoundsOk(b: Bounds, x: real, y: real)
  {
    b.x <= x <= b.x + b.w && b.y <= y ==> b.h.Some?
  }

  /** The inclusive containment test of `_hit_test`. */
  predicate Inside(b: Bounds, x: real, y: real)
    requires BoundsOk(b, x, y)
  {
    b.x <= x <= b.x + b.w && b.y <= y <= b.y + b.h.value
  }

  const Blank := Node(0, Plain, map[], [], Zero, {})

  /** A hit: the node found first, then its parent, up to the node the test
      started from. */
  type Chain = c: seq<Node> | |c| >= 1 witness [Blank]

  /** Every node of the chain is a child of the next one. */
  predicate ChainOk(c: seq<Node>)
  {
    forall i :: 0 <= i < |c| - 1 ==> c[i] in c[i + 1].children
  }

  /** The test of `n` at `(x, y)` never raises: its own bounds can be
      compared, and when they contain the point so can every child the
      loop reaches (it stops at the first hit). */
  predicate HitOk(n: Node, x: real, y: real)
    decreases n, 2
  {
    BoundsOk(n.bounds, x, y) && (Inside(n.bounds, x, y) ==> ChildrenOk(n, |n.children|, x, y))
  }

  /** The loop over `reversed(children)`, from child `k - 1` down, does not
      raise. */
  predicate ChildrenOk(n: Node, k: nat, x: real, y: real)
    requires k <= |n.children|
    decreases n, 1, k
  {
    k == 0 || (HitOk(n.children[k - 1], x, y) && (Hit(n.children[k - 1], x, y).None? ==> ChildrenOk(n, k - 1, x, y)))
  }

  /** `_hit_test(n, x, y)`: None when the point is outside, else the chain
      from the hit node up to `n`. */
  function Hit(n: Node, x: real, y: real): (r: Option<Chain>)
    requires HitOk(n, x, y)
    ensures r.Some? <==> Inside(n.bounds, x, y)
    ensures r.Some? ==> r.value[|r.value| - 1] == n
    decreases n, 3
  {
    if !Inside(n.bounds, x, y) then None
    else match HitChildren(n, |n.children|, x, y)
         case Some(p) => var c: Chain := p + [n]; Some(c)
         case None => var c: Chain := [n]; Some(c)
  }

  /** The first hit among children `k - 1` down to `0`. */
  function HitChildren(n: Node, k: nat, x: real, y: real): (r: Option<Chain>)
    requires k <= |n.children| && ChildrenOk(n, k, x, y)
    decreases n, 2, k
  {
    if k == 0 then None
    else match Hit(n.children[k - 1], x, y)
         case Some(p) => Some(p)
         case None => HitChildren(n, k - 1, x, y)
  }

  /** The loop over the children returns a hit exactly when some child is
      hit, and then it is that of the last such child. */
  lemma {:induction false} HitChildrenFirst(n: Node, k: nat, x: real, y: real)
    requires k <= |n.children| && ChildrenOk(n, k, x, y)
    ensures HitChildren(n, k, x, y).None? <==>
      forall j :: 0 <= j < k ==> HitOk(n.children[j], x, y) && Hit(n.children[j], x, y).None?
    ensures HitChildren(n, k, x, y).Some? ==>
      exists j :: 0 <= j < k && HitOk(n.children[j], x, y) && Hit(n.children[j], x, y) == HitChildren(n, k, x, y) &&
        forall m :: j < m < k ==> HitOk(n.children[m], x, y) && Hit(n.children[m], x, y).None?
    decreases k
  {
    if k > 0 {
      var c := n.children[k - 1];
      if Hit(c, x, y).None? {
        HitChildrenFirst(n, k - 1, x, y);
      } else {
        assert Hit(c, x, y) == HitChildren(n, k, x, y);
      }
    }
  }

  /** A hit is a chain of parent links from `n` down to a node that contains
      the point and none of whose children does. */
  lemma {:induction false} HitChain(n: Node, x: real, y: real)
    requires HitOk(n, x, y) && Hit(n, x, y).Some?
    ensures ChainOk(Hit(n, x, y).value)
    ensures var p := Hit(n, x, y).value;
      HitOk(p[0], x, y) && Inside(p[0].bounds, x, y) &&
      forall c :: c in p[0].children ==> HitOk(c, x, y) && !Inside(c.bounds, x, y)
    decreases n
  {
    var k := |n.children|;
    HitChildrenFirst(n, k, x, y);
    match HitChildren(n, k, x, y)
    case None =>
      forall c | c in n.children
        ensures HitOk(c, x, y) && !Inside(c.bounds, x, y)
      {
        var j :| 0 <= j < k && n.children[j] == c;
      }
    case Some(q) =>
      var j :| 0 <= j < k && HitOk(n.children[j], x, y) && Hit(n.children[j], x, y) == Some(q);
      HitChain(n.children[j], x, y);
      var p := q + [n];
      assert p[|p| - 2] == n.children[j];
      forall i | 0 <= i < |p| - 1
        ensures p[i] in p[i + 1].children
      {
        if i < |q| - 1 {
          assert p[i] == q[i] && p[i + 1] == q[i + 1];
        }
      }
  }

  // ---------------------------------------------------------------------
  // The target of a sample

  /** The loop over `reversed(overlays)`, from overlay `k - 1` down, does
      not raise before it stops at the first hit. */
  predicate OverlaysOk(overlays: seq<Node>, k: nat, x: real, y: real)
    requires k <= |overlays|
    decreases k
  {
    k == 0 || (HitOk(overlays[k - 1], x, y) && (Hit(overlays[k - 1], x, y).None? ==> OverlaysOk(overlays, k - 1, x, y)))
  }

  /** The first hit among overlays `k - 1` down to `0`. */
  function OverlayHit(overlays: seq<Node>, k: nat, x: real, y: real): (r: Option<Chain>)
    requires k <= |overlays| && OverlaysOk(overlays, k, x, y)
    decreases k
  {
    if k == 0 then None
    else match Hit(overlays[k - 1], x, y)
         case Some(p) => Some(p)
         case None => OverlayHit(overlays, k - 1, x, y)
  }

  /** Hit testing a sample never raises: the overlays the loop reaches,
      and the root when no overlay is hit. */
  predicate TargetOk(root: Option<Node>, overlays: seq<Node>, x: real, y: real)
  {
    OverlaysOk(overlays, |overlays|, x, y) &&
    (OverlayHit(overlays, |overlays|, x, y).None? && root.Some? ==> HitOk(root.value, x, y))
  }

  /** The `target` of `process_events`: the newest overlay hit, else the
      root's hit. */
  function Target(root: Option<Node>, overlays: seq<Node>, x: real, y: real): (r: Option<Chain>)
    requires TargetOk(root, overlays, x, y)
  {
    match OverlayHit(overlays, |overlays|, x, y)
    case Some(p) => Some(p)
    case None => if root.Some? then Hit(root.value, x, y) else None
  }

  /** The overlay loop finds a hit exactly when some overlay is hit, and
      then it is that of the newest such overlay. */
  lemma {:induction false} OverlayHitFirst(overlays: seq<Node>, k: nat, x: real, y: real)
    requires k <= |overlays| && OverlaysOk(overlays, k, x, y)
    ensures OverlayHit(overlays, k, x, y).None? <==>
      forall j :: 0 <= j < k ==> HitOk(overlays[j], x, y) && Hit(overlays[j], x, y).None?
    ensures OverlayHit(overlays, k, x, y).Some? ==>
      exists j :: 0 <= j < k && HitOk(overlays[j], x, y) && Hit(overlays[j], x, y) == OverlayHit(overlays, k, x, y) &&
        forall m :: j < m < k ==> HitOk(overlays[m], x, y) && Hit(overlays[m], x, y).None?
    decreases k
  {
    if k > 0 {
      if Hit(overlays[k - 1], x, y).None? {
        OverlayHitFirst(overlays, k - 1, x, y);
      } else {
        assert Hit(overlays[k - 1], x, y) == OverlayHit(overlays, k, x, y);
      }
    }
  }

  /** Overlays win outright: the root is consulted only when no overlay
      contains the point, and with neither there is no target. */
  lemma TargetChoice(root: Option<Node>, overlays: seq<Node>, x: real, y: real)
    requires TargetOk(root, overlays, x, y)
    ensures (exists j :: 0 <= j < |overlays| && HitOk(overlays[j], x, y) && Inside(overlays[j].bounds, x, y)) ==>
      Target(root, overlays, x, y).Some? && Target(root, overlays, x, y) == OverlayHit(overlays, |overlays|, x, y)
    ensures (forall j :: 0 <= j < |overlays| ==> HitOk(overlays[j], x, y) && !Inside(overlays[j].bounds, x, y)) ==>
      OverlayHit(overlays, |overlays|, x, y).None? &&
      (root.None? ==> Target(root, overlays, x, y).None?) &&
      (root.Some? ==> HitOk(root.value, x, y) && Target(root, overlays, x, y) == Hit(root.value, x, y))
    ensures root.None? && overlays == [] ==> Target(root, overlays, x, y).None?
  {
    OverlayHitFirst(overlays, |overlays|, x, y);
  }

  /** Whatever is hit is a chain of parent links ending at the overlay or
      the root it was found in, and its first node contains the point. */
  lemma TargetChain(root: Option<Node>, overlays: seq<Node>, x: real, y: real)
    requires TargetOk(root, overlays, x, y)
    requires Target(root, overlays, x, y).Some?
    ensures var p := Target(root, overlays, x, y).value;
      ChainOk(p) && HitOk(p[0], x, y) && Inside(p[0].bounds, x, y) &&
      (p[|p| - 1] in overlays || (root.Some? && p[|p| - 1] == root.value))
  {
    OverlayHitFirst(overlays, |overlays|, x, y);
    match OverlayHit(overlays, |overlays|, x, y)
    case Some(q) =>
      var j :| 0 <= j < |overlays| && HitOk(overlays[j], x, y) && Hit(overlays[j], x, y) == Some(q);
      HitChain(overlays[j], x, y);
    case None =>
      HitChain(root.value, x, y);
  }

  // ---------------------------------------------------------------------
  // Dispatch

  /** The keyword arguments a handler is called with. */
  datatype Args = NoArgs | Pos(x: real, y: real) | Key(key: int, mods: int) | CharArg(codepoint: int) | Delta(dx: real, dy: real)

  /** One handler invocation: the element whose method ran, which method,
      and with what. */
  datatype Call = Call(id: nat, handler: Handler, args: Args)

  /** The position, from `i` on, of the first node of the chain whose class
      defines `h`. */
  function FirstWith(chain: seq<Node>, h: Handler, i: nat): (r: Option<nat>)
    requires i <= |chain|
    ensures r.Some? ==> (i <= r.value < |chain| && h in chain[r.value].handlers &&
      forall m :: i <= m < r.value ==> h !in chain[m].handlers)
    ensures r.None? ==> forall m :: i <= m < |chain| ==> h !in chain[m].handlers
    decreases |chain| - i
  {
    if i == |chain| then None
    else if h in chain[i].handlers then Some(i)
    else FirstWith(chain, h, i + 1)
  }

  /** `_dispatch(element, name, **kwargs)`: the one call made, on the first
      node up the chain that has the handler; none when no node has it. */
  function Dispatch(chain: seq<Node>, h: Handler, args: Args): (r: Option<Call>)
  {
    match FirstWith(chain, h, 0)
    case Some(i) => Some(Call(chain[i].id, h, args))
    case None => None
  }

  /** The calls a dispatch to an optional target makes. */
  function Fire(t: Option<Chain>, h: Handler, args: Args): (r: seq<Call>)
    ensures |r| <= 1
  {
    if t.None? then []
    else match Dispatch(t.value, h, args)
         case Some(c) => [c]
         case None => []
  }

  /** A dispatch calls `h` with the given arguments on a node of the target's
      chain, and on nothing at all when there is no target. */
  lemma FireTargets(t: Option<Chain>, h: Handler, args: Args)
    ensures t.None? ==> Fire(t, h, args) == []
    ensures forall c :: c in Fire(t, h, args) ==>
      c.handler == h && c.args == args && exists i :: 0 <= i < |t.value| && t.value[i].id == c.id && h in t.value[i].handlers
  {
    if t.Some? {
      var r := FirstWith(t.value, h, 0);
      if r.Some? {
        assert Fire(t, h, args) == [Call(t.value[r.value].id, h, args)];
      }
    }
  }

  /** The dispatch reaches the first node that has the handler, so a
      handler on the hit node itself shadows those of its ancestors. */
  lemma FireFirst(t: Chain, h: Handler, args: Args)
    ensures h in t[0].handlers ==> Fire(Some(t), h, args) == [Call(t[0].id, h, args)]
    ensures Fire(Some(t), h, args) == [] <==> forall i :: 0 <= i < |t| ==> h !in t[i].handlers
  {
    var r := FirstWith(t, h, 0);
    if r.Some? {
      assert h in t[r.value].handlers;
    }
  }

  /** The `while curr` loop of `_dispatch`, following the chain one parent
      at a time. */
  method DispatchWalk(chain: seq<Node>, h: Handler, args: Args) returns (call: Option<Call>)
    ensures call == Dispatch(chain, h, args)
  {
    var i := 0;
    call := None;
    while i < |chain|
      invariant i <= |chain|
      invariant FirstWith(chain, h, i) == FirstWith(chain, h, 0)
      decreases |chain| - i
    {
      if h in chain[i].handlers {
        call := Some(Call(chain[i].id, h, args));
        return;
      }
      i := i + 1;
    }
  }

  // ---------------------------------------------------------------------
  // The state machine of `process_events`

  /** The element identity the code compares with `!=` and `==`. */
  predicate Same(a: Option<Chain>, b: Option<Chain>)
  {
    (a.None? && b.None?) || (a.Some? && b.Some? && a.value[0].id == b.value[0].id)
  }

  /** `hovered_element`, `focused_element`, `mouse_down_element` and
      whether `last_mouse_state` is PRESS. */
  datatype State = State(hovered: Option<Chain>, focused: Option<Chain>, down: Option<Chain>, pressed: bool)

  /** Step 2: when the target is another element, leave the old one and
      enter the new one. */
  function Hover(s: State, target: Option<Chain>): (State, seq<Call>)
  {
    if Same(target, s.hovered) then (s, [])
    else (s.(hovered := target), Fire(s.hovered, OnMouseLeave, NoArgs) + Fire(target, OnMouseEnter, NoArgs))
  }

  /** The move event: to the captured element, else to the hovered one. */
  function Move(s: State, x: real, y: real): seq<Call>
  {
    Fire(if s.down.Some? then s.down else s.hovered, OnMouseMove, Pos(x, y))
  }

  /** Step 3: a press edge captures the target, moves focus to it when it
      is another element, and sends it `on_mouse_down`; a release edge sends
      `on_mouse_up`, `on_click` when released on the captured element, and
      ends the capture. */
  function Button(s: State, target: Option<Chain>, x: real, y: real, pressed: bool): (State, seq<Call>)
  {
    if pressed && !s.pressed then
      var focus := if Same(target, s.focused) then []
                   else Fire(s.focused, OnBlur, NoArgs) + Fire(target, OnFocus, NoArgs);
      (s.(down := target, focused := if Same(target, s.focused) then s.focused else target),
       focus + Fire(target, OnMouseDown, Pos(x, y)))
    else if !pressed && s.pressed then
      var click := if target.Some? && Same(target, s.down) then Fire(target, OnClick, NoArgs) else [];
      (s.(down := None), Fire(target, OnMouseUp, NoArgs) + click)
    else (s, [])
  }

  /** One sample, from the hit-test target on: the new state and the calls
      made, in order. */
  function Step(s: State, target: Option<Chain>, x: real, y: real, pressed: bool): (State, seq<Call>)
  {
    var (s1, hover) := Hover(s, target);
    var (s2, button) := Button(s1, target, x, y, pressed);
    (s2.(pressed := pressed), hover + Move(s1, x, y) + button)
  }

  /** True when some call of `cs` is to handler `h`. */
  predicate Calls(cs: seq<Call>, h: Handler)
  {
    exists i :: 0 <= i < |cs| && cs[i].handler == h
  }

  lemma {:induction false} FireCalls(t: Option<Chain>, h: Handler, args: Args, h': Handler)
    ensures Calls(Fire(t, h, args), h') ==> h' == h
    ensures Calls(Fire(t, h, args), h) <==> t.Some? && Dispatch(t.value, h, args).Some?
  {
    FireTargets(t, h, args);
  }

  lemma CallsConcat(a: seq<Call>, b: seq<Call>, h: Handler)
    ensures Calls(a + b, h) <==> Calls(a, h) || Calls(b, h)
  {
    if Calls(a + b, h) {
      var i :| 0 <= i < |a + b| && (a + b)[i].handler == h;
      if i >= |a| {
        assert b[i - |a|].handler == h;
      }
    }
    if Calls(a, h) {
      var i :| 0 <= i < |a| && a[i].handler == h;
      assert (a + b)[i].handler == h;
    }
    if Calls(b, h) {
      var i :| 0 <= i < |b| && b[i].handler == h;
      assert (a + b)[|a| + i].handler == h;
    }
  }

  /** Hover is edge-triggered: afterwards the target is the hovered element,
      and leave and enter fire only when the target changed. */
  lemma {:induction false} HoverEdge(s: State, target: Option<Chain>, x: real, y: real, pressed: bool)
    ensures Same(Step(s, target, x, y, pressed).0.hovered, target)
    ensures Same(target, s.hovered) ==>
      !Calls(Step(s, target, x, y, pressed).1, OnMouseEnter) && !Calls(Step(s, target, x, y, pressed).1, OnMouseLeave)
    ensures !Same(target, s.hovered) ==>
      Step(s, target, x, y, pressed).1[..|Hover(s, target).1|] == Fire(s.hovered, OnMouseLeave, NoArgs) + Fire(target, OnMouseEnter, NoArgs)
  {
    var (s1, hover) := Hover(s, target);
    var (s2, button) := Button(s1, target, x, y, pressed);
    var move := Move(s1, x, y);
    var cs := hover + move + button;
    assert Step(s, target, x, y, pressed).1 == cs;
    assert cs == hover + (move + button);
    if Same(target, s.hovered) {
      forall h | h == OnMouseEnter || h == OnMouseLeave
        ensures !Calls(cs, h)
      {
        CallsConcat(hover, move + button, h);
        CallsConcat(move, button, h);
        FireCalls(if s1.down.Some? then s1.down else s1.hovered, OnMouseMove, Pos(x, y), h);
        ButtonHandlers(s1, target, x, y, pressed, h);
      }
    }
  }

  /** The handlers a button step can call. */
  lemma {:induction false} ButtonHandlers(s: State, target: Option<Chain>, x: real, y: real, pressed: bool, h: Handler)
    ensures Calls(Button(s, target, x, y, pressed).1, h) ==> h in {OnBlur, OnFocus, OnMouseDown, OnMouseUp, OnClick}
  {
    var cs := Button(s, target, x, y, pressed).1;
    if pressed && !s.pressed {
      var focus := if Same(target, s.focused) then []
                   else Fire(s.focused, OnBlur, NoArgs) + Fire(target, OnFocus, NoArgs);
      CallsConcat(focus, Fire(target, OnMouseDown, Pos(x, y)), h);
      FireCalls(target, OnMouseDown, Pos(x, y), h);
      if !Same(target, s.focused) {
        CallsConcat(Fire(s.focused, OnBlur, NoArgs), Fire(target, OnFocus, NoArgs), h);
        FireCalls(s.focused, OnBlur, NoArgs, h);
        FireCalls(target, OnFocus, NoArgs, h);
      }
    } else if !pressed && s.pressed {
      var click := if target.Some? && Same(target, s.down) then Fire(target, OnClick, NoArgs) else [];
      CallsConcat(Fire(target, OnMouseUp, NoArgs), click, h);
      FireCalls(target, OnMouseUp, NoArgs, h);
      FireCalls(target, OnClick, NoArgs, h);
    }
  }

  /** A step's calls are those of its hover, move and button phases. */
  lemma {:induction false} StepCalls(s: State, target: Option<Chain>, x: real, y: real, pressed: bool, h: Handler)
    ensures var s1 := Hover(s, target).0;
      Calls(Step(s, target, x, y, pressed).1, h) <==>
        Calls(Hover(s, target).1, h) || Calls(Move(s1, x, y), h) || Calls(Button(s1, target, x, y, pressed).1, h)
  {
    var (s1, hover) := Hover(s, target);
    var button := Button(s1, target, x, y, pressed).1;
    var move := Move(s1, x, y);
    assert Step(s, target, x, y, pressed).1 == hover + move + button;
    CallsConcat(hover + move, button, h);
    CallsConcat(hover, move, h);
  }

  /** Focus changes only on a press edge, and only there do blur and
      focus fire. */
  lemma {:induction false} FocusOnPress(s: State, target: Option<Chain>, x: real, y: real, pressed: bool)
    ensures !(pressed && !s.pressed) ==>
      Step(s, target, x, y, pressed).0.focused == s.focused &&
      !Calls(Step(s, target, x, y, pressed).1, OnFocus) && !Calls(Step(s, target, x, y, pressed).1, OnBlur)
    ensures pressed && !s.pressed ==>
      Same(Step(s, target, x, y, pressed).0.focused, target) && Step(s, target, x, y, pressed).0.down == target
    ensures pressed && !s.pressed && Same(target, s.focused) ==>
      Step(s, target, x, y, pressed).0.focused == s.focused &&
      !Calls(Step(s, target, x, y, pressed).1, OnFocus) && !Calls(Step(s, target, x, y, pressed).1, OnBlur)
  {
    var s1 := Hover(s, target).0;
    forall h | h == OnFocus || h == OnBlur
      ensures !(pressed && !s.pressed) || Same(target, s.focused) ==> !Calls(Step(s, target, x, y, pressed).1, h)
    {
      StepCalls(s, target, x, y, pressed, h);
      if !Same(target, s.hovered) {
        CallsConcat(Fire(s.hovered, OnMouseLeave, NoArgs), Fire(target, OnMouseEnter, NoArgs), h);
        FireCalls(s.hovered, OnMouseLeave, NoArgs, h);
        FireCalls(target, OnMouseEnter, NoArgs, h);
      }
      FireCalls(if s1.down.Some? then s1.down else s1.hovered, OnMouseMove, Pos(x, y), h);
      if pressed && !s.pressed {
        CallsConcat([], Fire(target, OnMouseDown, Pos(x, y)), h);
        FireCalls(target, OnMouseDown, Pos(x, y), h);
      } else if !pressed && s.pressed {
        var click := if target.Some? && Same(target, s.down) then Fire(target, OnClick, NoArgs) else [];
        CallsConcat(Fire(target, OnMouseUp, NoArgs), click, h);
        FireCalls(target, OnMouseUp, NoArgs, h);
        FireCalls(target, OnClick, NoArgs, h);
      }
    }
  }

  /** A click fires exactly on a release edge over the element the press
      captured, when its chain has an `on_click`; a release always ends the
      capture. */
  lemma {:induction false} ClickOnRelease(s: State, target: Option<Chain>, x: real, y: real, pressed: bool)
    ensures Calls(Step(s, target, x, y, pressed).1, OnClick) <==>
      !pressed && s.pressed && target.Some? && Same(target, s.down) && Dispatch(target.value, OnClick, NoArgs).Some?
    ensures !pressed && s.pressed ==> Step(s, target, x, y, pressed).0.down.None?
    ensures pressed == s.pressed ==> Step(s, target, x, y, pressed).0.down == s.down
    ensures Step(s, target, x, y, pressed).0.pressed == pressed
  {
    var s1 := Hover(s, target).0;
    var h := OnClick;
    StepCalls(s, target, x, y, pressed, h);
    if !Same(target, s.hovered) {
      CallsConcat(Fire(s.hovered, OnMouseLeave, NoArgs), Fire(target, OnMouseEnter, NoArgs), h);
      FireCalls(s.hovered, OnMouseLeave, NoArgs, h);
      FireCalls(target, OnMouseEnter, NoArgs, h);
    }
    FireCalls(if s1.down.Some? then s1.down else s1.hovered, OnMouseMove, Pos(x, y), h);
    if pressed && !s.pressed {
      ButtonHandlers(s1, target, x, y, pressed, h);
      var focus := if Same(target, s.focused) then []
                   else Fire(s.focused, OnBlur, NoArgs) + Fire(target, OnFocus, NoArgs);
      CallsConcat(focus, Fire(target, OnMouseDown, Pos(x, y)), h);
      FireCalls(target, OnMouseDown, Pos(x, y), h);
      if !Same(target, s.focused) {
        CallsConcat(Fire(s.focused, OnBlur, NoArgs), Fire(target, OnFocus, NoArgs), h);
        FireCalls(s.focused, OnBlur, NoArgs, h);
        FireCalls(target, OnFocus, NoArgs, h);
      }
    } else if !pressed && s.pressed {
      var click := if target.Some? && Same(target, s.down) then Fire(target, OnClick, NoArgs) else [];
      CallsConcat(Fire(target, OnMouseUp, NoArgs), click, h);
      FireCalls(target, OnMouseUp, NoArgs, h);
      FireCalls(target, OnClick, NoArgs, h);
    }
  }

  /** Moves are captured: while an element holds the press every move goes
      to its chain, otherwise to the hovered element's. */
  lemma {:induction false} MoveCapture(s: State, target: Option<Chain>, x: real, y: real, pressed: bool)
    ensures var cs := Step(s, target, x, y, pressed).1;
      forall i :: 0 <= i < |cs| && cs[i].handler == OnMouseMove ==>
        cs[i] == Dispatch((if s.down.Some? then s.down else Hover(s, target).0.hovered).value, OnMouseMove, Pos(x, y)).value
  {
    var (s1, hover) := Hover(s, target);
    var button := Button(s1, target, x, y, pressed).1;
    var mover := if s1.down.Some? then s1.down else s1.hovered;
    var move := Move(s1, x, y);
    var cs := hover + move + button;
    assert Step(s, target, x, y, pressed).1 == cs;
    forall i | 0 <= i < |cs| && cs[i].handler == OnMouseMove
      ensures cs[i] == Dispatch(mover.value, OnMouseMove, Pos(x, y)).value
    {
      if i < |hover| {
        assert Calls(hover, OnMouseMove);
        if !Same(target, s.hovered) {
          CallsConcat(Fire(s.hovered, OnMouseLeave, NoArgs), Fire(target, OnMouseEnter, NoArgs), OnMouseMove);
          FireCalls(s.hovered, OnMouseLeave, NoArgs, OnMouseMove);
          FireCalls(target, OnMouseEnter, NoArgs, OnMouseMove);
        }
      } else if i >= |hover| + |move| {
        assert button[i - |hover| - |move|] == cs[i];
        assert Calls(button, OnMouseMove);
        ButtonHandlers(s1, target, x, y, pressed, OnMouseMove);
      } else {
        assert move[i - |hover|] == cs[i];
      }
    }
  }

  /** Every chain the state holds is a chain of parent links. */
  predicate StateOk(s: State)
  {
    (s.hovered.Some? ==> ChainOk(s.hovered.value)) &&
    (s.focused.Some? ==> ChainOk(s.focused.value)) &&
    (s.down.Some? ==> ChainOk(s.down.value))
  }

  lemma AppendAssoc<T>(a: seq<T>, b: seq<T>, c: seq<T>, d: seq<T>)
    ensures a + b + c + d == a + (b + c + d)
  {
  }

  /** The GLFW action codes of a key event. */
  const Release := 0
  const Press := 1
  const Repeat := 2

  /** `_on_key`: a key event goes to the focused element alone, as
      `on_keydown`, `on_keyup` or `on_keyrepeat` by action. */
  function KeyCalls(focused: Option<Chain>, key: int, action: int, mods: int): seq<Call>
  {
    if focused.None? then []
    else if action == Press then Fire(focused, OnKeyDown, Key(key, mods))
    else if action == Release then Fire(focused, OnKeyUp, Key(key, mods))
    else if action == Repeat then Fire(focused, OnKeyRepeat, Key(key, mods))
    else []
  }

  /** Key events reach only the focused element's chain, with the handler
      the action names; without focus, or for another action, nothing is
      called. */
  lemma KeyToFocus(focused: Option<Chain>, key: int, action: int, mods: int)
    ensures focused.None? || action !in {Press, Release, Repeat} ==> KeyCalls(focused, key, action, mods) == []
    ensures forall c :: c in KeyCalls(focused, key, action, mods) ==>
      c.args == Key(key, mods) &&
      c.handler == (if action == Press then OnKeyDown else if action == Release then OnKeyUp else OnKeyRepeat) &&
      exists i :: 0 <= i < |focused.value| && focused.value[i].id == c.id && c.handler in focused.value[i].handlers
  {
    FireTargets(focused, OnKeyDown, Key(key, mods));
    FireTargets(focused, OnKeyUp, Key(key, mods));
    FireTargets(focused, OnKeyRepeat, Key(key, mods));
  }

  /** `_on_scroll` dispatches to the hovered element, else the focused
      one. */
  function ScrollTarget(s: State): Option<Chain>
  {
    if s.hovered.Some? then s.hovered else s.focused
  }

  /** The overlay loop and root fallback that pick the target. */
  method FindTarget(root: Option<Node>, overlays: seq<Node>, x: real, y: real) returns (target: Option<Chain>)
    requires TargetOk(root, overlays, x, y)
    ensures target == Target(root, overlays, x, y)
  {
    target := None;
    var k: nat := |overlays|;
    while k > 0
      invariant k <= |overlays| && OverlaysOk(overlays, k, x, y)
      invariant target.None?
      invariant OverlayHit(overlays, k, x, y) == OverlayHit(overlays, |overlays|, x, y)
      decreases k
    {
      var hit := Hit(overlays[k - 1], x, y);
      if hit.Some? {
        target := hit;
        break;
      }
      k := k - 1;
    }
    if target.None? && root.Some? {
      target := Hit(root.value, x, y);
    }
  }

  /** `EventManager`: the three tracked elements, the last button state,
      and every handler call made so far, in order. */
  class EventManager {
    var hovered: Option<Chain>
    var focused: Option<Chain>
    var mouseDown: Option<Chain>
    var lastPressed: bool
    var calls: seq<Call>

    function Snapshot(): State
      reads this
    {
      State(hovered, focused, mouseDown, lastPressed)
    }

    /** Every tracked element is held with its chain of parent links. */
    predicate Valid()
      reads this
    {
      StateOk(Snapshot())
    }

    /** Nothing is tracked and the button counts as released. */
    constructor ()
      ensures Snapshot() == State(None, None, None, false) && calls == []
      ensures Valid()
    {
      hovered := None;
      focused := None;
      mouseDown := None;
      lastPressed := false;
      calls := [];
    }

    /** `_dispatch` to an optional target, recording the call it makes. */
    method Send(t: Option<Chain>, h: Handler, args: Args)
      modifies this
      ensures Snapshot() == old(Snapshot())
      ensures calls == old(calls) + Fire(t, h, args)
    {
      if t.Some? {
        var c := DispatchWalk(t.value, h, args);
        if c.Some? {
          calls := calls + [c.value];
        }
      }
    }

    /** `process_events(root, overlays)` for one sample of the cursor
        position and the left button. */
    method ProcessEvents(root: Option<Node>, overlays: seq<Node>, x: real, y: real, pressed: bool)
      requires TargetOk(root, overlays, x, y)
      requires Valid()
      modifies this
      ensures Valid()
      ensures root.None? && overlays == [] ==> Snapshot() == old(Snapshot()) && calls == old(calls)
      ensures root.Some? || overlays != [] ==>
        Snapshot() == Step(old(Snapshot()), Target(root, overlays, x, y), x, y, pressed).0 &&
        calls == old(calls) + Step(old(Snapshot()), Target(root, overlays, x, y), x, y, pressed).1
    {
      if root.None? && overlays == [] {
        return;
      }
      var target := FindTarget(root, overlays, x, y);
      if target.Some? {
        TargetChain(root, overlays, x, y);
      }
      ghost var s0 := Snapshot();
      HoverPhase(target);
      ghost var s1 := Snapshot();
      MovePhase(x, y);
      ButtonPhase(target, x, y, pressed);
      ghost var s2 := Snapshot();
      lastPressed := pressed;
      assert Step(s0, target, x, y, pressed) ==
        (s2.(pressed := pressed), Hover(s0, target).1 + Move(s1, x, y) + Button(s1, target, x, y, pressed).1);
      AppendAssoc(old(calls), Hover(s0, target).1, Move(s1, x, y), Button(s1, target, x, y, pressed).1);
    }

    /** Step 2 of `process_events`: leave and enter on a change of target. */
    method HoverPhase(target: Option<Chain>)
      requires Valid() && (target.Some? ==> ChainOk(target.value))
      modifies this
      ensures Valid()
      ensures Snapshot() == Hover(old(Snapshot()), target).0
      ensures calls == old(calls) + Hover(old(Snapshot()), target).1
    {
      if !Same(target, hovered) {
        Send(hovered, OnMouseLeave, NoArgs);
        hovered := target;
        Send(hovered, OnMouseEnter, NoArgs);
      }
    }

    /** The move event of `process_events`. */
    method MovePhase(x: real, y: real)
      modifies this
      ensures Snapshot() == old(Snapshot())
      ensures calls == old(calls) + Move(old(Snapshot()), x, y)
    {
      if mouseDown.Some? {
        Send(mouseDown, OnMouseMove, Pos(x, y));
      } else if hovered.Some? {
        Send(hovered, OnMouseMove, Pos(x, y));
      }
    }

    /** Step 3 of `process_events`: the press and release edges. */
    method ButtonPhase(target: Option<Chain>, x: real, y: real, pressed: bool)
      requires Valid() && (target.Some? ==> ChainOk(target.value))
      modifies this
      ensures Valid()
      ensures Snapshot() == Button(old(Snapshot()), target, x, y, pressed).0
      ensures calls == old(calls) + Button(old(Snapshot()), target, x, y, pressed).1
    {
      if pressed && !lastPressed {
        mouseDown := target;
        if !Same(target, focused) {
          Send(focused, OnBlur, NoArgs);
          focused := target;
          Send(focused, OnFocus, NoArgs);
        }
        Send(target, OnMouseDown, Pos(x, y));
      } else if !pressed && lastPressed {
        Send(target, OnMouseUp, NoArgs);
        if target.Some? && Same(target, mouseDown) {
          Send(target, OnClick, NoArgs);
        }
        mouseDown := None;
      }
    }

    /** `_on_key(window, key, scancode, action, mods)` */
    method HandleKey(key: int, action: int, mods: int)
      modifies this
      ensures Snapshot() == old(Snapshot())
      ensures calls == old(calls) + KeyCalls(old(focused), key, action, mods)
    {
      if focused.Some? {
        if action == Press {
          Send(focused, OnKeyDown, Key(key, mods));
        } else if action == Release {
          Send(focused, OnKeyUp, Key(key, mods));
        } else if action == Repeat {
          Send(focused, OnKeyRepeat, Key(key, mods));
        }
      }
    }

    /** `_on_char(window, codepoint)`: to the focused element only. */
    method HandleChar(codepoint: int)
      modifies this
      ensures Snapshot() == old(Snapshot())
      ensures calls == old(calls) + (if old(focused).Some? then Fire(old(focused), OnChar, CharArg(codepoint)) else [])
    {
      if focused.Some? {
        Send(focused, OnChar, CharArg(codepoint));
      }
    }

    /** `_on_scroll(window, xoffset, yoffset)` */
    method HandleScroll(dx: real, dy: real)
      modifies this
      ensures Snapshot() == old(Snapshot())
      ensures calls == old(calls) + Fire(ScrollTarget(old(Snapshot())), OnScroll, Delta(dx, dy))
    {
      var target := if hovered.Some? then hovered else focused;
      Send(target, OnScroll, Delta(dx, dy));
    }
  }
}

/** Building the element tree: `Element.__init__` with its keyword
    arguments, `add`, and the context stack through which `with` blocks
    parent the elements created inside them. */
module Elements {
  import opened Values
  import opened Tree

  /** The style once `__init__` has written the keyword arguments into it,
      one `style[k] = v` per argument in order. */
  function Merged(style: Style, kwargs: seq<(string, Value)>): Style
  {
    MergedTo(style, kwargs, |kwargs|)
  }

  /** The style after the first `k` writes. */
  function MergedTo(style: Style, kwargs: seq<(string, Value)>, k: nat): Style
    requires k <= |kwargs|
    decreases k
  {
    if k == 0 then style
    else MergedTo(style, kwargs, k - 1)[kwargs[k - 1].0 := kwargs[k - 1].1]
  }

  /** The keys are those of the style and those of the arguments. */
  lemma {:induction false} MergedToKeys(style: Style, kwargs: seq<(string, Value)>, k: nat)
    requires k <= |kwargs|
    ensures forall key :: key in MergedTo(style, kwargs, k) <==>
      key in style || exists i :: 0 <= i < k && kwargs[i].0 == key
    decreases k
  {
    if k > 0 {
      MergedToKeys(style, kwargs, k - 1);
      forall key | exists i :: 0 <= i < k && kwargs[i].0 == key
        ensures key in MergedTo(style, kwargs, k)
      {
        var i :| 0 <= i < k && kwargs[i].0 == key;
        if i < k - 1 {
          assert key in MergedTo(style, kwargs, k - 1);
        }
      }
    }
  }

  /** An argument overrides the style's value; of two arguments with one
      key the later one wins. */
  lemma {:induction false} MergedToLast(style: Style, kwargs: seq<(string, Value)>, k: nat, i: nat)
    requires i < k <= |kwargs|
    requires forall j :: i < j < k ==> kwargs[j].0 != kwargs[i].0
    ensures kwargs[i].0 in MergedTo(style, kwargs, k) && MergedTo(style, kwargs, k)[kwargs[i].0] == kwargs[i].1
    decreases k
  {
    if i < k - 1 {
      MergedToLast(style, kwargs, k - 1, i);
    }
  }

  /** A key no argument names keeps the style's value. */
  lemma {:induction false} MergedToKept(style: Style, kwargs: seq<(string, Value)>, k: nat, key: string)
    requires k <= |kwargs| && key in style
    requires forall i :: 0 <= i < k ==> kwargs[i].0 != key
    ensures key in MergedTo(style, kwargs, k) && MergedTo(style, kwargs, k)[key] == style[key]
    decreases k
  {
    if k > 0 {
      MergedToKept(style, kwargs, k - 1, key);
    }
  }

  /** Writing the arguments and then filling the absent defaults gives the
      style that filling the caller's dictionary first and writing the
      arguments after gives: `Toggle`, `Slider`, `Button` and `Card` fill
      first, the other widgets after `__init__`. */
  lemma DefaultsCommute(style: Style, kwargs: seq<(string, Value)>, defaults: Style)
    ensures WithDefaults(Merged(style, kwargs), defaults) == Merged(WithDefaults(style, defaults), kwargs)
  {
    var k := |kwargs|;
    var a := WithDefaults(Merged(style, kwargs), defaults);
    var b := Merged(WithDefaults(style, defaults), kwargs);
    MergedToKeys(style, kwargs, k);
    MergedToKeys(WithDefaults(style, defaults), kwargs, k);
    forall key | key in a
      ensures key in b && a[key] == b[key]
    {
      if i :| 0 <= i < k && kwargs[i].0 == key {
        var last := LastIndex(kwargs, key, i);
        MergedToLast(style, kwargs, k, last);
        MergedToLast(WithDefaults(style, defaults), kwargs, k, last);
      } else if key in style {
        MergedToKept(style, kwargs, k, key);
        MergedToKept(WithDefaults(style, defaults), kwargs, k, key);
      } else {
        MergedToKept(WithDefaults(style, defaults), kwargs, k, key);
      }
    }
    assert a.Keys == b.Keys;
  }

  /** The last argument with a given key, at or after `i`. */
  lemma LastIndex(kwargs: seq<(string, Value)>, key: string, i: nat) returns (last: nat)
    requires i < |kwargs| && kwargs[i].0 == key
    ensures i <= last < |kwargs| && kwargs[last].0 == key
    ensures forall j :: last < j < |kwargs| ==> kwargs[j].0 != key
    decreases |kwargs| - i
  {
    if j :| i < j < |kwargs| && kwargs[j].0 == key {
      last := LastIndex(kwargs, key, j);
    } else {
      last := i;
    }
  }

  /** `style[k] = v` for every keyword argument, in order. */
  method MergeKwargs(style: Style, kwargs: seq<(string, Value)>) returns (r: Style)
    ensures r == Merged(style, kwargs)
  {
    r := style;
    var i := 0;
    while i < |kwargs|
      invariant i <= |kwargs|
      invariant r == MergedTo(style, kwargs, i)
    {
      r := r[kwargs[i].0 := kwargs[i].1];
      i := i + 1;
    }
  }

  /** `neui._context_stack`: the elements of the enclosing `with` blocks,
      innermost last. */
  class ContextStack {
    var items: seq<Element>

    constructor ()
      ensures items == []
    {
      items := [];
    }

    /** The innermost element, as a frame. */
    function Top(): set<Element>
      reads this
    {
      if items == [] then {} else {items[|items| - 1]}
    }

    /** The element the innermost block will attach to once the current one
        is popped, as a frame. */
    function Below(): set<Element>
      reads this
    {
      if |items| < 2 then {} else {items[|items| - 2]}
    }
  }

  /** An element: its children in order, its parent, its style dictionary,
      its `computed_bounds`, and for a `Text` element its text. */
  class Element {
    var children: seq<Element>
    var parent: Element?
    var style: Style
    var bounds: Bounds
    var text: Option<string>

    /** `Element(style=style, children=kids, **kwargs)`, where `kwargs` are
        the other keyword arguments in order. */
    constructor (style: Style, kwargs: seq<(string, Value)>, kids: seq<Element>, stack: ContextStack)
      modifies (set c | c in kids)`parent, stack.Top()`children
      ensures this.style == Merged(style, kwargs) && bounds == Zero && text == None
      ensures children == kids
      ensures forall c :: c in kids ==> c.parent == this
      ensures stack.items == old(stack.items)
      ensures old(stack.items) == [] ==> parent == null
      ensures old(stack.items) != [] ==>
        var top := old(stack.items[|stack.items| - 1]);
        parent == top && top.children == old(top.children) + [this]
    {
      children := [];
      parent := null;
      this.style := style;
      bounds := Zero;
      text := None;
      new;
      this.style := MergeKwargs(style, kwargs);
      var i := 0;
      while i < |kids|
        invariant i <= |kids|
        invariant children == kids[..i] && parent == null
        invariant forall j :: 0 <= j < i ==> kids[j].parent == this
        invariant stack.items == old(stack.items)
        invariant forall c :: c in old(stack.Top()) ==> c.children == old(c.children)
        invariant this.style == Merged(style, kwargs) && bounds == Zero && text == None
      {
        var _ := Add(kids[i]);
        i := i + 1;
      }
      if stack.items != [] && parent == null {
        var top := stack.items[|stack.items| - 1];
        var _ := top.Add(this);
      }
    }

    /** `add(child)`: the child is attached and appended last. */
    method Add(child: Element) returns (r: Element)
      modifies this`children, child`parent
      ensures children == old(children) + [child]
      ensures child.parent == this
      ensures r == child
    {
      child.parent := this;
      children := children + [child];
      r := child;
    }

    /** `__enter__`: push this element. */
    method Enter(stack: ContextStack) returns (r: Element)
      modifies stack
      ensures stack.items == old(stack.items) + [this]
      ensures r == this
    {
      stack.items := stack.items + [this];
      r := this;
    }

    /** `__exit__`: pop the innermost element, then attach this one to the
        new innermost element if it has no parent yet. */
    method Exit(stack: ContextStack)
      requires stack.items != []
      modifies stack, this`parent, stack.Below()`children
      ensures stack.items == old(stack.items[..|stack.items| - 1])
      ensures old(parent) == null && stack.items != [] ==>
        var top := stack.items[|stack.items| - 1];
        parent == top && top.children == old(top.children) + [this]
      ensures old(parent) != null || stack.items == [] ==>
        parent == old(parent) && forall c :: c in old(stack.Below()) ==> c.children == old(c.children)
    {
      stack.items := stack.items[..|stack.items| - 1];
      if parent == null && stack.items != [] {
        var top := stack.items[|stack.items| - 1];
        var _ := top.Add(this);
      }
    }
  }
  /** `Text(text, style=style)`: an element that also carries its text. */
  method NewText(text: string, style: Style, stack: ContextStack) returns (t: Element)
    modifies stack.Top()`children
    ensures fresh(t) && t.text == Some(text) && t.style == style && t.children == [] && t.bounds == Zero
    ensures stack.items == old(stack.items)
    ensures old(stack.items) == [] ==> t.parent == null
    ensures old(stack.items) != [] ==>
      var top := old(stack.items[|stack.items| - 1]);
      t.parent == top && top.children == old(top.children) + [t]
  {
    t := new Element(style, [], [], stack);
    t.text := Some(text);
  }

  /** `list.remove(x)` guarded by `x in list`: the first occurrence of `x`
      is taken out, and a list without `x` is left as it is. */
  function RemoveFirst<T(==)>(s: seq<T>, x: T): (r: seq<T>)
    ensures x !in s ==> r == s
    ensures x in s ==> |r| == |s| - 1 && multiset(r) == multiset(s) - multiset{x}
  {
    if s == [] then []
    else
      assert s == [s[0]] + s[1..];
      if s[0] == x then s[1..]
      else [s[0]] + RemoveFirst(s[1..], x)
  }

  /** The removed occurrence is the first one: what precedes it is kept
      and what follows it moves up by one. */
  lemma {:induction false} RemoveFirstAt<T>(s: seq<T>, x: T, i: nat)
    requires i < |s| && s[i] == x && x !in s[..i]
    ensures RemoveFirst(s, x) == s[..i] + s[i + 1..]
  {
    if i > 0 {
      assert s[0] != x by {
        assert s[0] == s[..i][0];
      }
      assert s[1..][..i - 1] == s[1..i];
      RemoveFirstAt(s[1..], x, i - 1);
      assert s[..i] == [s[0]] + s[1..][..i - 1];
      assert s[i + 1..] == s[1..][i..];
    }
  }

  /** Removing an element that was just appended, and was not there
      before, restores the list. */
  lemma AppendThenRemove<T>(s: seq<T>, x: T)
    requires x !in s
    ensures RemoveFirst(s + [x], x) == s
  {
    assert (s + [x])[..|s|] == s;
    RemoveFirstAt(s + [x], x, |s|);
  }
}

/** The single-line text field `Input`: its intrinsic size, and its text
    and cursor editing. */
module Inputs {
  import opened Values
  import opened Elements

  /** `measure` computes with `font_size` and `padding` and returns `w` as
      the width unless it is a string; any other non-number would end up
      as the width. */
  predicate MeasureOk(style: Style)
  {
    && NumOrAbsent(style, "font_size")
    && NumOrAbsent(style, "padding")
    && ("w" in style ==> !style["w"].Other?)
  }

  /** `Input.measure`: the style width (200 when absent or a string) and the
      font size plus padding on both sides (defaults 14 and 10). */
  function Measure(style: Style): (r: (real, real))
    ensures r.0 == (if "w" in style && style["w"].Num? then style["w"].n else 200.0)
    ensures r.1 == NumOr(style, "font_size", 14.0) + 2.0 * NumOr(style, "padding", 10.0)
  {
    var w := if "w" in style then style["w"] else Num(200.0);
    var w' := if w.Num? then w.n else 200.0;
    (w', NumOr(style, "font_size", 14.0) + NumOr(style, "padding", 10.0) * 2.0)
  }

  /** GLFW key codes the field reacts to. */
  const KeyBackspace := 259
  const KeyRight := 262
  const KeyLeft := 263
  const KeyHome := 268
  const KeyEnd := 269

  /** The style defaults `__init__` fills in when absent. */
  const InputDefaults: seq<(string, Value)> :=
    [("padding", Num(10.0)), ("bg", Str("#333333")), ("radius", Num(5.0)), ("w", Num(200.0))]

  /** The border `on_focus` adds. */
  const FocusBorder := Str("2px solid #007ACC")

  /** The code points `chr` maps to a character (GLFW delivers no
      surrogates). */
  predicate IsCodePoint(cp: int)
  {
    (0 <= cp < 0xD800) || (0xE000 <= cp < 0x11_0000)
  }

  /** `on_char`: the text with `c` inserted at the cursor. */
  function Insert(text: string, cursor: nat, c: char): (r: string)
    requires cursor <= |text|
    ensures |r| == |text| + 1
    ensures forall i :: 0 <= i < cursor ==> r[i] == text[i]
    ensures r[cursor] == c
    ensures forall i :: cursor <= i < |text| ==> r[i + 1] == text[i]
  {
    text[..cursor] + [c] + text[cursor..]
  }

  /** `on_keydown(key, mods)`: the new text and cursor.  Every key keeps
      the cursor within the text; only Backspace changes the text, by
      removing the character before the cursor. */
  function KeyEdit(text: string, cursor: nat, key: int): (r: (string, nat))
    requires cursor <= |text|
    ensures r.1 <= |r.0|
    ensures key != KeyBackspace ==> r.0 == text
    ensures key == KeyBackspace && cursor > 0 ==>
      r.1 == cursor - 1 && |r.0| == |text| - 1 &&
      (forall i :: 0 <= i < r.1 ==> r.0[i] == text[i]) &&
      (forall i :: r.1 <= i < |r.0| ==> r.0[i] == text[i + 1])
    ensures key == KeyBackspace && cursor == 0 ==> r == (text, cursor)
    ensures key == KeyLeft ==> r.1 == (if cursor > 0 then cursor - 1 else 0)
    ensures key == KeyRight ==> r.1 == (if cursor < |text| then cursor + 1 else |text|)
    ensures key == KeyHome ==> r.1 == 0
    ensures key == KeyEnd ==> r.1 == |text|
    ensures key !in {KeyBackspace, KeyLeft, KeyRight, KeyHome, KeyEnd} ==> r == (text, cursor)
  {
    if key == KeyBackspace then
      if cursor > 0 then (text[..cursor - 1] + text[cursor..], cursor - 1) else (text, cursor)
    else if key == KeyLeft then
      (text, if cursor > 0 then cursor - 1 else cursor)
    else if key == KeyRight then
      (text, if cursor < |text| then cursor + 1 else cursor)
    else if key == KeyHome then (text, 0)
    else if key == KeyEnd then (text, |text|)
    else (text, cursor)
  }

  /** Backspace right after typing a character undoes it. */
  lemma {:induction false} BackspaceUndoesInsert(text: string, cursor: nat, c: char)
    requires cursor <= |text|
    ensures KeyEdit(Insert(text, cursor, c), cursor + 1, KeyBackspace) == (text, cursor)
  {
    var t := Insert(text, cursor, c);
    var u := t[..cursor] + t[cursor + 1..];
    assert u == text by {
      assert forall i :: 0 <= i < cursor ==> u[i] == text[i];
      assert forall i :: cursor <= i < |text| ==> u[i] == t[i + 1];
    }
  }

  /** `Input`: the element it extends, the typed text with its cursor, and
      the focus and caret-blink state. */
  class Input {
    const elem: Element
    const placeholder: string
    const password: bool
    var text: string
    var cursor: nat
    var focused: bool
    var cursorVisible: bool
    var lastBlink: real

    /** The cursor sits within the text. */
    predicate Valid()
      reads this
    {
      cursor <= |text|
    }

    /** `Input(placeholder, password, **kwargs)`, given the element that
        `super().__init__(**kwargs)` built. */
    constructor (e: Element, placeholder: string, password: bool)
      modifies e`style
      ensures elem == e && this.placeholder == placeholder && this.password == password
      ensures text == "" && cursor == 0 && !focused && cursorVisible && lastBlink == 0.0
      ensures e.style == WithDefaults(old(e.style), DefaultsOf(InputDefaults))
      ensures Valid()
    {
      elem := e;
      this.placeholder := placeholder;
      this.password := password;
      text := "";
      cursor := 0;
      focused := false;
      cursorVisible := true;
      lastBlink := 0.0;
      new;
      e.style := FillDefaults(e.style, InputDefaults);
    }

    /** `on_focus`, at time `now`: focused, with the focus border, and the
        caret shown from now on. */
    method OnFocus(now: real)
      modifies this, elem`style
      ensures focused && cursorVisible && lastBlink == now
      ensures text == old(text) && cursor == old(cursor)
      ensures elem.style == old(elem.style)["border" := FocusBorder]
    {
      focused := true;
      elem.style := elem.style["border" := FocusBorder];
      cursorVisible := true;
      lastBlink := now;
    }

    /** `on_blur`: unfocused, without a border key. */
    method OnBlur()
      modifies this, elem`style
      ensures !focused
      ensures text == old(text) && cursor == old(cursor)
      ensures cursorVisible == old(cursorVisible) && lastBlink == old(lastBlink)
      ensures elem.style == old(elem.style) - {"border"}
    {
      focused := false;
      if "border" in elem.style {
        elem.style := elem.style - {"border"};
      }
    }

    /** `on_char(codepoint)`: the character is typed at the cursor. */
    method OnChar(codepoint: int)
      requires Valid() && IsCodePoint(codepoint)
      modifies this
      ensures Valid()
      ensures text == Insert(old(text), old(cursor), codepoint as char) && cursor == old(cursor) + 1
      ensures focused == old(focused) && cursorVisible == old(cursorVisible) && lastBlink == old(lastBlink)
    {
      var c := codepoint as char;
      text := text[..cursor] + [c] + text[cursor..];
      cursor := cursor + 1;
    }

    /** `on_keydown(key, mods)` */
    method OnKeyDown(key: int, mods: int)
      requires Valid()
      modifies this
      ensures Valid()
      ensures (text, cursor) == KeyEdit(old(text), old(cursor), key)
      ensures focused == old(focused) && cursorVisible == old(cursorVisible) && lastBlink == old(lastBlink)
    {
      if key == KeyBackspace {
        if cursor > 0 {
          text := text[..cursor - 1] + text[cursor..];
          cursor := cursor - 1;
        }
      } else if key == KeyLeft {
        if cursor > 0 {
          cursor := cursor - 1;
        }
      } else if key == KeyRight {
        if cursor < |text| {
          cursor := cursor + 1;
        }
      } else if key == KeyHome {
        cursor := 0;
      } else if key == KeyEnd {
        cursor := |text|;
      }
    }
  }
}

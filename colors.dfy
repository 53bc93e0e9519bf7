/** The renderer's colour-string parser: `#rgb`, `#rrggbb` and `#rrggbbaa`
    hex forms, five colour names matched without regard to case, and white
    for everything else. */
module Colors {
  import opened Values

  type Byte = n: nat | n < 256

  /** A colour as its 8-bit alpha, red, green and blue channels. */
  datatype Color = Color(a: Byte, r: Byte, g: Byte, b: Byte)

  const White := Color(255, 255, 255, 255)
  const Black := Color(255, 0, 0, 0)
  const Red := Color(255, 255, 0, 0)
  const Blue := Color(255, 0, 0, 255)
  const Green := Color(255, 0, 255, 0)

  predicate IsHexDigit(c: char)
  {
    '0' <= c <= '9' || 'a' <= c <= 'f' || 'A' <= c <= 'F'
  }

  predicate AllHex(s: string)
  {
    forall i :: 0 <= i < |s| ==> IsHexDigit(s[i])
  }

  /** The value of one hex digit, either case. */
  function HexValue(c: char): (d: nat)
    requires IsHexDigit(c)
    ensures d < 16
  {
    if c <= '9' then c as nat - '0' as nat
    else if c <= 'F' then c as nat - 'A' as nat + 10
    else c as nat - 'a' as nat + 10
  }

  /** `int(s[i:i+2], 16)` for two hex digits. */
  function Pair(s: string, i: nat): (n: Byte)
    requires i + 2 <= |s| && IsHexDigit(s[i]) && IsHexDigit(s[i + 1])
  {
    HexValue(s[i]) * 16 + HexValue(s[i + 1])
  }

  /** `s.lstrip('#')`: the string without its leading `#` characters. */
  function StripHashes(s: string): (r: string)
    ensures |r| <= |s| && (|r| > 0 ==> r[0] != '#')
    ensures !StartsWithHash(s) ==> r == s
    decreases |s|
  {
    if StartsWithHash(s) then StripHashes(s[1..]) else s
  }

  /** Three digits are widened by writing each one twice; other lengths
      are left alone. */
  function Expanded(h: string): (r: string)
    ensures |h| == 3 ==> r == [h[0], h[0], h[1], h[1], h[2], h[2]]
    ensures |h| != 3 ==> r == h
  {
    if |h| == 3 then [h[0], h[0], h[1], h[1], h[2], h[2]] else h
  }

  /** The hex digits a `#` string is read from. */
  function HexPart(s: string): string
  {
    Expanded(StripHashes(s))
  }

  predicate StartsWithHash(s: string)
  {
    |s| > 0 && s[0] == '#'
  }

  /** `c.lower()` as far as comparing with an ASCII name can tell: ASCII
      capitals and the Kelvin sign U+212A lower to ASCII letters; every
      other character lowers to something that is not an ASCII letter, or
      to itself. */
  function Fold(c: char): char
  {
    if 'A' <= c <= 'Z' then (c as int - 'A' as int + 'a' as int) as char
    else if c == '\U{212A}' then 'k'
    else c
  }

  /** `s.lower() == name` for a lower-case ASCII name. */
  predicate NameIs(s: string, name: string)
  {
    |s| == |name| && forall i :: 0 <= i < |s| ==> Fold(s[i]) == name[i]
  }

  /** What `_parse_color` needs to run without raising: a `#` string of
      six or eight digits (after widening) holds hex digits only. */
  predicate Readable(v: Value)
  {
    v.Str? && StartsWithHash(v.s) && |HexPart(v.s)| in {6, 8} ==> AllHex(HexPart(v.s))
  }

  /** `Renderer._parse_color`. */
  function ParseColor(v: Value): (r: Color)
    requires Readable(v)
    ensures !v.Str? ==> r == White
    ensures v.Str? && StartsWithHash(v.s) && |StripHashes(v.s)| !in {3, 6, 8} ==> r == White
    ensures v.Str? && StartsWithHash(v.s) && |HexPart(v.s)| == 6 ==> r.a == 255
    ensures v.Str? && !StartsWithHash(v.s) ==>
      r == (if NameIs(v.s, "black") then Black
            else if NameIs(v.s, "red") then Red
            else if NameIs(v.s, "blue") then Blue
            else if NameIs(v.s, "green") then Green
            else White)
  {
    match v
    case Str(s) =>
      if StartsWithHash(s) then
        var h := HexPart(s);
        if |h| == 6 then Color(255, Pair(h, 0), Pair(h, 2), Pair(h, 4))
        else if |h| == 8 then Color(Pair(h, 6), Pair(h, 0), Pair(h, 2), Pair(h, 4))
        else White
      else if NameIs(s, "white") then White
      else if NameIs(s, "black") then Black
      else if NameIs(s, "red") then Red
      else if NameIs(s, "blue") then Blue
      else if NameIs(s, "green") then Green
      else White
    case _ => White
  }

  /** Any number of leading `#` reads like one. */
  lemma ExtraHash(s: string)
    requires StartsWithHash(s) && Readable(Str(s))
    ensures Readable(Str("#" + s)) && ParseColor(Str("#" + s)) == ParseColor(Str(s))
  {
    assert ("#" + s)[1..] == s;
  }

  /** `#rgb` reads as `#rrggbb`. */
  lemma ShortForm(x: char, y: char, z: char)
    requires IsHexDigit(x) && IsHexDigit(y) && IsHexDigit(z)
    ensures Readable(Str(['#', x, y, z])) && Readable(Str(['#', x, x, y, y, z, z]))
    ensures ParseColor(Str(['#', x, y, z])) == ParseColor(Str(['#', x, x, y, y, z, z]))
    ensures ParseColor(Str(['#', x, y, z])) == Color(255, HexValue(x) * 17, HexValue(y) * 17, HexValue(z) * 17)
  {
    assert StripHashes(['#', x, y, z]) == [x, y, z] by {
      assert ['#', x, y, z][1..] == [x, y, z];
    }
    assert StripHashes(['#', x, x, y, y, z, z]) == [x, x, y, y, z, z] by {
      assert ['#', x, x, y, y, z, z][1..] == [x, x, y, y, z, z];
    }
  }

  /** The digit for a value below 16. */
  function Digit(d: nat): (c: char)
    requires d < 16
    ensures IsHexDigit(c) && HexValue(c) == d
  {
    "0123456789abcdef"[d]
  }

  /** A byte as two lower-case hex digits. */
  function Hex2(n: Byte): (s: string)
    ensures |s| == 2 && AllHex(s) && Pair(s, 0) == n
  {
    [Digit(n / 16), Digit(n % 16)]
  }

  /** A colour written as `#rrggbbaa`. */
  function HexOf(c: Color): string
  {
    "#" + Hex2(c.r) + Hex2(c.g) + Hex2(c.b) + Hex2(c.a)
  }

  /** A colour written as `#rrggbb`, dropping the alpha. */
  function OpaqueHexOf(c: Color): string
  {
    "#" + Hex2(c.r) + Hex2(c.g) + Hex2(c.b)
  }

  /** Every colour written in hex reads back as itself. */
  lemma HexRoundTrip(c: Color)
    ensures Readable(Str(HexOf(c))) && ParseColor(Str(HexOf(c))) == c
  {
    var s := HexOf(c);
    var h := Hex2(c.r) + Hex2(c.g) + Hex2(c.b) + Hex2(c.a);
    assert s[1..] == h;
    assert h[0..2] == Hex2(c.r) && h[2..4] == Hex2(c.g) && h[4..6] == Hex2(c.b) && h[6..8] == Hex2(c.a);
    assert HexPart(s) == h;
  }

  /** Six digits give the colour with full alpha. */
  lemma OpaqueRoundTrip(c: Color)
    ensures Readable(Str(OpaqueHexOf(c))) && ParseColor(Str(OpaqueHexOf(c))) == c.(a := 255)
  {
    var s := OpaqueHexOf(c);
    var h := Hex2(c.r) + Hex2(c.g) + Hex2(c.b);
    assert s[1..] == h;
    assert h[0..2] == Hex2(c.r) && h[2..4] == Hex2(c.g) && h[4..6] == Hex2(c.b);
    assert HexPart(s) == h;
  }

  /** Two names that lower to the same string read as the same colour. */
  lemma CaseInsensitive(s: string, t: string)
    requires |s| == |t| && forall i :: 0 <= i < |s| ==> Fold(s[i]) == Fold(t[i])
    requires !StartsWithHash(s)
    ensures !StartsWithHash(t) && ParseColor(Str(s)) == ParseColor(Str(t))
  {
    if |t| > 0 {
      assert Fold(t[0]) == Fold(s[0]);
    }
    forall name | name in ["white", "black", "red", "blue", "green"]
      ensures NameIs(s, name) <==> NameIs(t, name)
    {
    }
  }

  /** A few readings: capitals, the Kelvin sign, a name the parser does not
      know and a `#` string of the wrong length. */
  lemma Samples()
    ensures ParseColor(Str("BLACK")) == Black
    ensures ParseColor(Str("blac\U{212A}")) == Black
    ensures ParseColor(Str("Green")) == Green
    ensures ParseColor(Str("transparent")) == White
    ensures ParseColor(Str("#12345")) == White
    ensures ParseColor(Num(0.0)) == White
  {
    assert NameIs("BLACK", "black");
    assert NameIs("blac\U{212A}", "black");
    assert Fold("BLACK"[0]) == 'b';
    assert !NameIs("blac\U{212A}", "white");
    assert NameIs("Green", "green");
    assert !NameIs("Green", "white") && !NameIs("Green", "black") && !NameIs("Green", "red") && !NameIs("Green", "blue");
    assert |StripHashes("#12345")| == 5 by {
      assert "#12345"[1..] == "12345";
    }
  }
}

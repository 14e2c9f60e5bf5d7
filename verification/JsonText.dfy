/** `JSON.stringify` of strings (RFC 8259 section 7, with lone surrogates escaped), over UTF-16 code
    units, and a decoder that shows it loses nothing. */
module JsonText {
  type Unit = n: nat | n < 0x1_0000
  type Text = seq<Unit>

  const QUOTE: Unit := 34
  const COMMA: Unit := 44
  const BACKSLASH: Unit := 92
  const LETTER_U: Unit := 117

  predicate High(u: Unit) { 0xD800 <= u <= 0xDBFF }

  predicate Low(u: Unit) { 0xDC00 <= u <= 0xDFFF }

  function HexDigit(d: nat): Unit
    requires d < 16
  {
    if d < 10 then 48 + d else 87 + d
  }

  function HexByte(b: nat): (hex: Text)
    requires b < 0x100
    ensures |hex| == 2 && ByteValue(hex[0], hex[1]) == b
  {
    [HexDigit(b / 16), HexDigit(b % 16)]
  }

  function ByteValue(hi: Unit, lo: Unit): (b: nat)
    ensures b < 0x100
  {
    16 * HexValue(hi) + HexValue(lo)
  }

  function HexValue(u: Unit): (d: nat)
    ensures d < 16
  {
    if 48 <= u <= 57 then u - 48 else if 97 <= u <= 102 then u - 87 else 0
  }

  /** The letter after the backslash in a two-character escape, or 0. */
  function ShortEscape(u: Unit): Unit {
    if u == 8 then 98 else if u == 9 then 116 else if u == 10 then 110 else if u == 12 then 102
    else if u == 13 then 114 else if u == QUOTE || u == BACKSLASH then u else 0
  }

  function FromShortEscape(u: Unit): Unit {
    if u == 98 then 8 else if u == 116 then 9 else if u == 110 then 10 else if u == 102 then 12
    else if u == 114 then 13 else u
  }

  function EscapeUnit(u: Unit): Text {
    if ShortEscape(u) != 0 then [BACKSLASH, ShortEscape(u)]
    else if u < 0x20 || High(u) || Low(u) then
      [BACKSLASH, LETTER_U] + HexByte(u / 0x100) + HexByte(u % 0x100)
    else [u]
  }

  /** Only controls, quotes, backslashes and surrogates are escaped, in printable ASCII: the line and
      page controls and the two signs by one letter, the others by their number. */
  lemma EscapesOnlyWhatItMust(u: Unit)
    ensures EscapeUnit(u) == [u] <==> u >= 0x20 && u != QUOTE && u != BACKSLASH && !(0xD800 <= u <= 0xDFFF)
    ensures EscapeUnit(u) != [u] ==>
              EscapeUnit(u)[0] == BACKSLASH && forall v :: v in EscapeUnit(u)[1..] ==> 0x20 <= v < 0x7F
    ensures |EscapeUnit(u)| == 2 <==> u in {8, 9, 10, 12, 13, QUOTE, BACKSLASH}
    ensures |EscapeUnit(u)| == 2 || |EscapeUnit(u)| == 6 || EscapeUnit(u) == [u]
  {}

  /** A surrogate pair is written as it is; a surrogate on its own is escaped. */
  function Escape(s: Text): Text {
    if s == [] then []
    else if |s| >= 2 && High(s[0]) && Low(s[1]) then s[..2] + Escape(s[2..])
    else EscapeUnit(s[0]) + Escape(s[1..])
  }

  function Quote(s: Text): Text {
    [QUOTE] + Escape(s) + [QUOTE]
  }

  /** Reads up to the closing quote: the string, and what follows. */
  function Decode(t: Text): (Text, Text) {
    if t == [] then ([], [])
    else if t[0] == QUOTE then ([], t[1..])
    else if t[0] == BACKSLASH && |t| >= 6 && t[1] == LETTER_U then
      var n := 0x100 * ByteValue(t[2], t[3]) + ByteValue(t[4], t[5]);
      var (s, rest) := Decode(t[6..]);
      ([n] + s, rest)
    else if t[0] == BACKSLASH && |t| >= 2 then
      var (s, rest) := Decode(t[2..]);
      ([FromShortEscape(t[1])] + s, rest)
    else
      var (s, rest) := Decode(t[1..]);
      ([t[0]] + s, rest)
  }

  lemma DecodeRaw(u: Unit, t: Text)
    requires u != QUOTE && u != BACKSLASH
    ensures Decode([u] + t) == ([u] + Decode(t).0, Decode(t).1)
  {
    assert ([u] + t)[1..] == t;
  }

  lemma DecodeHex(u: Unit, t: Text)
    ensures Decode([BACKSLASH, LETTER_U] + HexByte(u / 0x100) + HexByte(u % 0x100) + t)
            == ([u] + Decode(t).0, Decode(t).1)
  {
    var hi, lo := HexByte(u / 0x100), HexByte(u % 0x100);
    var e := [BACKSLASH, LETTER_U] + hi + lo + t;
    assert e == [BACKSLASH, LETTER_U, hi[0], hi[1], lo[0], lo[1]] + t;
    assert e[6..] == t;
  }

  lemma DecodeUnit(u: Unit, t: Text)
    ensures Decode(EscapeUnit(u) + t) == ([u] + Decode(t).0, Decode(t).1)
  {
    if ShortEscape(u) != 0 {
      assert (EscapeUnit(u) + t)[2..] == t;
    } else if u < 0x20 || High(u) || Low(u) {
      DecodeHex(u, t);
    } else {
      DecodeRaw(u, t);
    }
  }

  /** Decoding what was written gives the string back, and the text after it untouched. */
  lemma {:induction false} DecodeEscape(s: Text, rest: Text)
    ensures Decode(Escape(s) + ([QUOTE] + rest)) == (s, rest)
  {
    if s == [] {
      assert Escape(s) + ([QUOTE] + rest) == [QUOTE] + rest;
    } else if |s| >= 2 && High(s[0]) && Low(s[1]) {
      DecodeEscape(s[2..], rest);
      DecodePair(s[0], s[1], Escape(s[2..]), [QUOTE] + rest);
      assert s[..2] == [s[0], s[1]] && [s[0], s[1]] + s[2..] == s;
    } else {
      DecodeEscape(s[1..], rest);
      DecodeUnit(s[0], Escape(s[1..]) + ([QUOTE] + rest));
      assert EscapeUnit(s[0]) + Escape(s[1..]) + ([QUOTE] + rest)
          == EscapeUnit(s[0]) + (Escape(s[1..]) + ([QUOTE] + rest));
      assert [s[0]] + s[1..] == s;
    }
  }

  lemma DecodePair(hi: Unit, lo: Unit, t: Text, rest: Text)
    requires High(hi) && Low(lo)
    ensures Decode([hi, lo] + t + rest) == ([hi, lo] + Decode(t + rest).0, Decode(t + rest).1)
  {
    DecodeRaw(lo, t + rest);
    DecodeRaw(hi, [lo] + (t + rest));
    assert [hi, lo] + t + rest == [hi] + ([lo] + (t + rest));
    assert [hi] + ([lo] + Decode(t + rest).0) == [hi, lo] + Decode(t + rest).0;
  }

  /** A quoted string ends where it says it does, so one never runs into another. */
  lemma QuoteInjective(a: Text, x: Text, b: Text, y: Text)
    requires Quote(a) + x == Quote(b) + y
    ensures a == b && x == y
  {
    var s, t := Escape(a) + ([QUOTE] + x), Escape(b) + ([QUOTE] + y);
    assert Quote(a) + x == [QUOTE] + s && Quote(b) + y == [QUOTE] + t;
    assert ([QUOTE] + s)[1..] == s && ([QUOTE] + t)[1..] == t;
    DecodeEscape(a, x);
    DecodeEscape(b, y);
  }

  /** One string element of an array, and the rest of the array. */
  function Element(s: Text, rest: Text): Text {
    Quote(s) + ([COMMA] + rest)
  }

  lemma ElementInjective(a: Text, x: Text, b: Text, y: Text)
    requires Element(a, x) == Element(b, y)
    ensures a == b && x == y
  {
    QuoteInjective(a, [COMMA] + x, b, [COMMA] + y);
    assert ([COMMA] + x)[1..] == x && ([COMMA] + y)[1..] == y;
  }
}

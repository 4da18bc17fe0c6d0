/** The JavaScript literals the analytics loader prints, against a reader of string
    literals after section 12.9.4 of ECMA-262. Source text is a sequence of code
    points; the value of a literal is a sequence of UTF-16 code units. */
module JsLiteral {
  import opened Wrappers
  import opened Ordering

  // ----- The printer -----

  function HexDigit(n: int): char
    requires 0 <= n < 16
  {
    if n < 10 then '0' + n as char else 'a' + (n - 10) as char
  }

  function EscapeOf(c: char): string {
    if c == '"' then ['\\', '"']
    else if c == '\\' then ['\\', '\\']
    else if c == '\n' then ['\\', 'n']
    else if c == '\r' then ['\\', 'r']
    else if c == '<' then ['\\', 'u', '0', '0', '3', 'c']
    else if c == '>' then ['\\', 'u', '0', '0', '3', 'e']
    else if c == '&' then ['\\', 'u', '0', '0', '2', '6']
    else if c as int < 0x20 then ['\\', 'u', '0', '0', HexDigit(c as int / 16), HexDigit(c as int % 16)]
    else [c]
  }

  function Escaped(s: string): string {
    if s == [] then [] else EscapeOf(s[0]) + Escaped(s[1..])
  }

  function StringText(s: string): string {
    ['"'] + Escaped(s) + ['"']
  }

  lemma {:induction false} EscapedAppend(s: string, c: char)
    ensures Escaped(s + [c]) == Escaped(s) + EscapeOf(c)
  {
    if s == [] {
      assert [c][1..] == [];
    } else {
      assert (s + [c])[1..] == s[1..] + [c];
      EscapedAppend(s[1..], c);
    }
  }

  method JsString(value: string) returns (b: string)
    ensures b == StringText(value)
  {
    b := ['"'];
    for i := 0 to |value|
      invariant b == ['"'] + Escaped(value[..i])
    {
      var c := value[i];
      assert value[..i + 1] == value[..i] + [c];
      EscapedAppend(value[..i], c);
      var piece := [c];
      if c == '"' {
        piece := ['\\', '"'];
      } else if c == '\\' {
        piece := ['\\', '\\'];
      } else if c == '\n' {
        piece := ['\\', 'n'];
      } else if c == '\r' {
        piece := ['\\', 'r'];
      } else if c == '<' {
        piece := ['\\', 'u', '0', '0', '3', 'c'];
      } else if c == '>' {
        piece := ['\\', 'u', '0', '0', '3', 'e'];
      } else if c == '&' {
        piece := ['\\', 'u', '0', '0', '2', '6'];
      } else if c as int < 0x20 {
        piece := ['\\', 'u', '0', '0', HexDigit(c as int / 16), HexDigit(c as int % 16)];
      }
      assert piece == EscapeOf(c);
      assert ['"'] + Escaped(value[..i]) + piece == ['"'] + (Escaped(value[..i]) + piece);
      b := b + piece;
    }
    assert value[..|value|] == value;
    b := b + ['"'];
  }

  // ----- The reader -----

  type Units = seq<int>

  /** The code units of a code point: itself, or a high and a low surrogate. */
  function UnitsOfNumber(n: int): Units {
    if n < 0x10000 then [n] else [0xD800 + (n - 0x10000) / 0x400, 0xDC00 + (n - 0x10000) % 0x400]
  }

  function UnitsOf(c: char): Units {
    UnitsOfNumber(c as int)
  }

  /** The surrogates carry ten bits each of what is left of a code point above 0xFFFF. */
  lemma UnitsAreUtf16(n: int)
    requires 0 <= n <= 0x10FFFF
    ensures var units := UnitsOfNumber(n);
            if n <= 0xFFFF then units == [n]
            else && |units| == 2 && 0xD800 <= units[0] <= 0xDBFF && 0xDC00 <= units[1] <= 0xDFFF
                 && n == 0x10000 + 0x400 * (units[0] - 0xD800) + (units[1] - 0xDC00)
  {
  }

  function Utf16(s: string): Units {
    if s == [] then [] else UnitsOf(s[0]) + Utf16(s[1..])
  }

  function HexValue(c: char): Option<int> {
    if '0' <= c <= '9' then Some(c as int - '0' as int)
    else if 'a' <= c <= 'f' then Some(c as int - 'a' as int + 10)
    else if 'A' <= c <= 'F' then Some(c as int - 'A' as int + 10)
    else None
  }

  /** The value of the first n hexadecimal digits. */
  function HexNumber(src: string, n: nat): Option<int> {
    if n == 0 then Some(0)
    else if |src| < n then None
    else
      var high, low := HexNumber(src, n - 1), HexValue(src[n - 1]);
      if high.Some? && low.Some? then Some(16 * high.value + low.value) else None
  }

  /** \u{...}: digits up to the closing brace, no more than 0x10FFFF. */
  function Braced(src: string, sofar: int, digits: nat): Option<(int, string)> {
    if src == [] then None
    else if src[0] == '}' then if digits > 0 then Some((sofar, src[1..])) else None
    else
      var digit := HexValue(src[0]);
      if digit.None? || 16 * sofar + digit.value > 0x10FFFF then None else Braced(src[1..], 16 * sofar + digit.value, digits + 1)
  }

  predicate IsLineTerminator(c: char) {
    c == '\n' || c == '\r' || c == '\U{2028}' || c == '\U{2029}'
  }

  /** What an escape contributes, read after its backslash, and where reading goes on. */
  function Escape(src: string): (r: Option<(Units, string)>)
    ensures r.Some? ==> |r.value.1| < |src|
  {
    if src == [] then None
    else
      var c, rest := src[0], src[1..];
      if c == 'u' && rest != [] && rest[0] == '{' then
        var code := Braced(rest[1..], 0, 0);
        BracedShortens(rest[1..], 0, 0);
        if code.Some? then Some((UnitsOfNumber(code.value.0), code.value.1)) else None
      else if c == 'u' then
        var unit := HexNumber(rest, 4);
        if |rest| >= 4 && unit.Some? then Some(([unit.value], rest[4..])) else None
      else if c == 'x' then
        var unit := HexNumber(rest, 2);
        if |rest| >= 2 && unit.Some? then Some(([unit.value], rest[2..])) else None
      else if c == '0' then
        if rest != [] && '0' <= rest[0] <= '9' then None else Some(([0], rest))
      else if '1' <= c <= '9' then None
      else if c == 'b' then Some(([8], rest))
      else if c == 't' then Some(([9], rest))
      else if c == 'n' then Some(([10], rest))
      else if c == 'v' then Some(([11], rest))
      else if c == 'f' then Some(([12], rest))
      else if c == 'r' then Some(([13], rest))
      else if c == '\r' && rest != [] && rest[0] == '\n' then Some(([], rest[1..]))
      else if IsLineTerminator(c) then Some(([], rest))
      else Some((UnitsOf(c), rest))
  }

  lemma {:induction false} BracedShortens(src: string, sofar: int, digits: nat)
    ensures var r := Braced(src, sofar, digits); r.Some? ==> |r.value.1| < |src|
  {
    if src != [] && src[0] != '}' && HexValue(src[0]).Some? {
      BracedShortens(src[1..], 16 * sofar + HexValue(src[0]).value, digits + 1);
    }
  }

  function Before(units: Units, r: Option<(Units, string)>): Option<(Units, string)> {
    if r.Some? then Some((units + r.value.0, r.value.1)) else None
  }

  /** The rest of a double-quoted literal: its value, and the text after the quote
      that ends it. */
  function ReadBody(src: string): Option<(Units, string)>
    decreases |src|
  {
    if src == [] then None
    else if src[0] == '"' then Some(([], src[1..]))
    else if src[0] == '\\' then
      var escape := Escape(src[1..]);
      if escape.None? then None else Before(escape.value.0, ReadBody(escape.value.1))
    else if src[0] == '\n' || src[0] == '\r' then None
    else Before(UnitsOf(src[0]), ReadBody(src[1..]))
  }

  function ReadString(src: string): Option<(Units, string)> {
    if src == [] || src[0] != '"' then None else ReadBody(src[1..])
  }

  // ----- Reading back what was printed -----

  lemma {:induction false} HexDigitsRead(c: char, high: char, low: char, rest: string)
    requires HexValue(high).Some? && HexValue(low).Some? && c as int == 16 * HexValue(high).value + HexValue(low).value
    requires c as int < 0x80
    ensures ReadBody(['\\', 'u', '0', '0', high, low] + rest) == Before(UnitsOf(c), ReadBody(rest))
  {
    var src := ['\\', 'u', '0', '0', high, low] + rest;
    var digits := ['0', '0', high, low] + rest;
    assert src[1..] == ['u'] + digits && src[1..][1..] == digits && digits[4..] == rest;
    assert HexNumber(digits, 1) == Some(0);
    assert HexNumber(digits, 2) == Some(0);
    assert HexNumber(digits, 3) == HexValue(high);
    assert HexNumber(digits, 4) == Some(c as int);
  }

  lemma {:induction false} ShortEscapeReads(c: char, letter: char, rest: string)
    requires letter in ['"', '\\', 'n', 'r']
    requires c == if letter == 'n' then '\n' else if letter == 'r' then '\r' else letter
    ensures ReadBody(['\\', letter] + rest) == Before(UnitsOf(c), ReadBody(rest))
  {
  }

  lemma {:induction false} EscapeReads(c: char, rest: string)
    ensures ReadBody(EscapeOf(c) + rest) == Before(UnitsOf(c), ReadBody(rest))
  {
    if c == '"' || c == '\\' {
      ShortEscapeReads(c, c, rest);
    } else if c == '\n' {
      ShortEscapeReads(c, 'n', rest);
    } else if c == '\r' {
      ShortEscapeReads(c, 'r', rest);
    } else if c == '<' {
      HexDigitsRead(c, '3', 'c', rest);
    } else if c == '>' {
      HexDigitsRead(c, '3', 'e', rest);
    } else if c == '&' {
      HexDigitsRead(c, '2', '6', rest);
    } else if c as int < 0x20 {
      HexDigitsRead(c, HexDigit(c as int / 16), HexDigit(c as int % 16), rest);
    } else {
      assert ([c] + rest)[1..] == rest;
    }
  }

  lemma {:induction false} EscapedReads(s: string, rest: string)
    ensures ReadBody(Escaped(s) + ['"'] + rest) == Some((Utf16(s), rest))
  {
    if s == [] {
      assert ([] + ['"'] + rest)[1..] == rest;
    } else {
      var tail := Escaped(s[1..]) + ['"'] + rest;
      EscapedReads(s[1..], rest);
      EscapeReads(s[0], tail);
      assert Escaped(s) + ['"'] + rest == EscapeOf(s[0]) + tail;
    }
  }

  /** A printed literal reads back as the text it was printed from, and the reader
      stops right behind it, whatever follows: no quote inside ends it early. */
  lemma {:induction false} StringRoundTrip(s: string, rest: string)
    ensures ReadString(StringText(s) + rest) == Some((Utf16(s), rest))
  {
    EscapedReads(s, rest);
    assert (StringText(s) + rest)[1..] == Escaped(s) + ['"'] + rest;
  }

  lemma {:induction false} EmptyUnits(s: string)
    ensures Utf16(s) == [] <==> s == []
  {
  }

  lemma {:induction false} Utf16IsInjective(s: string, t: string)
    requires Utf16(s) == Utf16(t)
    ensures s == t
  {
    EmptyUnits(s);
    EmptyUnits(t);
    if s != [] && t != [] {
      var a, b := UnitsOf(s[0]), UnitsOf(t[0]);
      assert Utf16(s)[0] == a[0] && Utf16(t)[0] == b[0];
      if |a| == 2 && |b| == 2 {
        assert Utf16(s)[1] == a[1] && Utf16(t)[1] == b[1];
      }
      assert s[0] == t[0] && a == b;
      assert Utf16(s)[|a|..] == Utf16(s[1..]) && Utf16(t)[|a|..] == Utf16(t[1..]);
      Utf16IsInjective(s[1..], t[1..]);
      assert s == [s[0]] + s[1..] && t == [t[0]] + t[1..];
    }
  }

  predicate IsSafe(c: char) {
    c as int >= 0x20 && c != '<' && c != '>' && c != '&'
  }

  /** Nothing in the literal can close a script element, start an entity or break the
      line. */
  lemma {:induction false} EscapedIsSafe(s: string)
    ensures forall c | c in Escaped(s) :: IsSafe(c)
  {
    if s != [] {
      EscapedIsSafe(s[1..]);
      forall c | c in EscapeOf(s[0]) + Escaped(s[1..])
        ensures IsSafe(c)
      {
        if c !in Escaped(s[1..]) {
          assert c in EscapeOf(s[0]);
        }
      }
    }
  }

  lemma LiteralIsSafe(s: string)
    ensures forall c | c in StringText(s) :: IsSafe(c)
  {
    EscapedIsSafe(s);
  }
}

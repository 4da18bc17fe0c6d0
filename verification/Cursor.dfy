/** The opaque page cursor: "offset:" and a decimal number, in unpadded base64url
    (section 5 of RFC 4648). */
module Cursor {
  import opened Wrappers
  import opened Text

  type Byte = b: int | 0 <= b < 256

  type Sextet = v: int | 0 <= v < 64

  const MAX_INT := 0x7fff_ffff_ffff_ffff

  // ---- base64url --------------------------------------------------------------

  function Symbol(v: Sextet): char {
    if v < 26 then 'A' + v as char
    else if v < 52 then 'a' + (v - 26) as char
    else if v < 62 then '0' + (v - 52) as char
    else if v == 62 then '-'
    else '_'
  }

  function SextetOf(c: char): Option<Sextet> {
    if 'A' <= c <= 'Z' then Some((c - 'A') as int)
    else if 'a' <= c <= 'z' then Some((c - 'a') as int + 26)
    else if '0' <= c <= '9' then Some((c - '0') as int + 52)
    else if c == '-' then Some(62)
    else if c == '_' then Some(63)
    else None
  }

  function Encode(b: seq<Byte>): string {
    if |b| == 0 then ""
    else if |b| == 1 then [Symbol(b[0] / 4), Symbol(b[0] % 4 * 16)]
    else if |b| == 2 then [Symbol(b[0] / 4), Symbol(b[0] % 4 * 16 + b[1] / 16), Symbol(b[1] % 16 * 4)]
    else
      [Symbol(b[0] / 4), Symbol(b[0] % 4 * 16 + b[1] / 16), Symbol(b[1] % 16 * 4 + b[2] / 64), Symbol(b[2] % 64)]
      + Encode(b[3..])
  }

  /** Line breaks in the input are skipped, as encoding/base64 does. */
  function WithoutLineBreaks(s: string): string {
    if s == "" then ""
    else if s[0] == '\n' || s[0] == '\r' then WithoutLineBreaks(s[1..])
    else [s[0]] + WithoutLineBreaks(s[1..])
  }

  function Decode(s: string): Option<seq<Byte>> {
    DecodeQuads(WithoutLineBreaks(s))
  }

  /** Bits beyond the last whole byte are dropped without a check. */
  function DecodeQuads(s: string): Option<seq<Byte>> {
    if s == "" then Some([])
    else if |s| == 1 || SextetOf(s[0]).None? || SextetOf(s[1]).None? then None
    else
      var v0, v1 := SextetOf(s[0]).value, SextetOf(s[1]).value;
      var b0: Byte := v0 * 4 + v1 / 16;
      if |s| == 2 then Some([b0])
      else if SextetOf(s[2]).None? then None
      else
        var v2 := SextetOf(s[2]).value;
        var b1: Byte := v1 % 16 * 16 + v2 / 4;
        if |s| == 3 then Some([b0, b1])
        else if SextetOf(s[3]).None? then None
        else
          var b2: Byte := v2 % 4 * 64 + SextetOf(s[3]).value;
          match DecodeQuads(s[4..])
          case None => None
          case Some(rest) => Some([b0, b1, b2] + rest)
  }

  lemma SymbolsAreDistinct(v: Sextet)
    ensures SextetOf(Symbol(v)) == Some(v)
    ensures !IsSpace(Symbol(v))
  {
  }

  ghost predicate AllSymbols(s: string) {
    forall i | 0 <= i < |s| :: SextetOf(s[i]).Some?
  }

  lemma SymbolsAreNotSpace(c: char)
    requires SextetOf(c).Some?
    ensures !IsSpace(c) && c != '\n' && c != '\r'
  {
  }

  lemma {:induction false} SymbolsSurvive(s: string)
    requires AllSymbols(s)
    ensures WithoutLineBreaks(s) == s
  {
    if s != "" {
      SymbolsSurvive(s[1..]);
      SymbolsAreNotSpace(s[0]);
      assert s == [s[0]] + s[1..];
    }
  }

  lemma {:induction false} EncodeUsesSymbols(b: seq<Byte>)
    ensures AllSymbols(Encode(b))
  {
    if |b| >= 3 {
      EncodeUsesSymbols(b[3..]);
    }
  }

  lemma BitsRecombine(b0: Byte, b1: Byte, b2: Byte)
    ensures b0 == b0 / 4 * 4 + (b0 % 4 * 16 + b1 / 16) / 16
    ensures b1 == (b0 % 4 * 16 + b1 / 16) % 16 * 16 + (b1 % 16 * 4 + b2 / 64) / 4
    ensures b2 == (b1 % 16 * 4 + b2 / 64) % 4 * 64 + b2 % 64
  {
  }

  lemma {:induction false} SymbolsDecode(s: string, v0: Sextet, v1: Sextet, v2: Sextet, v3: Sextet)
    requires |s| >= 4 && SextetOf(s[0]) == Some(v0) && SextetOf(s[1]) == Some(v1)
    requires SextetOf(s[2]) == Some(v2) && SextetOf(s[3]) == Some(v3)
    ensures DecodeQuads(s)
            == match DecodeQuads(s[4..])
               case None => None
               case Some(r) => Some([v0 * 4 + v1 / 16, v1 % 16 * 16 + v2 / 4, v2 % 4 * 64 + v3] + r)
  {
  }

  lemma {:induction false} QuadDecodes(b0: Byte, b1: Byte, b2: Byte, rest: string)
    ensures var quad := [Symbol(b0 / 4), Symbol(b0 % 4 * 16 + b1 / 16), Symbol(b1 % 16 * 4 + b2 / 64), Symbol(b2 % 64)];
            DecodeQuads(quad + rest)
            == match DecodeQuads(rest) { case None => None case Some(r) => Some([b0, b1, b2] + r) }
  {
    var v0, v1, v2, v3 := b0 / 4, b0 % 4 * 16 + b1 / 16, b1 % 16 * 4 + b2 / 64, b2 % 64;
    var s := [Symbol(v0), Symbol(v1), Symbol(v2), Symbol(v3)] + rest;
    assert s[4..] == rest;
    SymbolsAreDistinct(v0);
    SymbolsAreDistinct(v1);
    SymbolsAreDistinct(v2);
    SymbolsAreDistinct(v3);
    SymbolsDecode(s, v0, v1, v2, v3);
    BitsRecombine(b0, b1, b2);
  }

  lemma OneByteDecodes(b0: Byte)
    ensures DecodeQuads([Symbol(b0 / 4), Symbol(b0 % 4 * 16)]) == Some([b0])
  {
  }

  lemma TwoBytesDecode(b0: Byte, b1: Byte)
    ensures DecodeQuads([Symbol(b0 / 4), Symbol(b0 % 4 * 16 + b1 / 16), Symbol(b1 % 16 * 4)]) == Some([b0, b1])
  {
    SymbolsAreDistinct(b0 / 4);
    SymbolsAreDistinct(b0 % 4 * 16 + b1 / 16);
    SymbolsAreDistinct(b1 % 16 * 4);
    BitsRecombine(b0, b1, 0);
  }

  lemma {:induction false} QuadsRoundTrip(b: seq<Byte>)
    ensures DecodeQuads(Encode(b)) == Some(b)
  {
    if |b| >= 3 {
      QuadsRoundTrip(b[3..]);
      QuadDecodes(b[0], b[1], b[2], Encode(b[3..]));
      assert b == [b[0], b[1], b[2]] + b[3..];
    } else if |b| == 2 {
      TwoBytesDecode(b[0], b[1]);
      assert b == [b[0], b[1]];
    } else if |b| == 1 {
      OneByteDecodes(b[0]);
      assert b == [b[0]];
    }
  }

  lemma {:induction false} Base64RoundTrip(b: seq<Byte>)
    ensures Decode(Encode(b)) == Some(b) && TrimSpace(Encode(b)) == Encode(b)
  {
    EncodeUsesSymbols(b);
    var e := Encode(b);
    SymbolsSurvive(e);
    if e != "" {
      SymbolsAreNotSpace(e[0]);
      SymbolsAreNotSpace(e[|e| - 1]);
    }
    TrimKeeps(e);
    QuadsRoundTrip(b);
  }

  // ---- decimal text -----------------------------------------------------------

  function Format(n: nat): string {
    if n < 10 then ['0' + n as char] else Format(n / 10) + ['0' + (n % 10) as char]
  }

  predicate AllDigits(s: string) {
    forall i | 0 <= i < |s| :: '0' <= s[i] <= '9'
  }

  function DigitsValue(s: string): nat
    requires AllDigits(s)
  {
    if s == "" then 0 else 10 * DigitsValue(s[..|s| - 1]) + (s[|s| - 1] as int - '0' as int)
  }

  /** strconv.Atoi: an optional sign, then digits, within 64 bits. */
  function Atoi(s: string): Option<int> {
    var signed := s != "" && (s[0] == '+' || s[0] == '-');
    var digits := if signed then s[1..] else s;
    if digits == "" || !AllDigits(digits) then None
    else
      var n := DigitsValue(digits);
      if signed && s[0] == '-' then (if n <= MAX_INT + 1 then Some(0 - n) else None)
      else if n <= MAX_INT then Some(n) else None
  }

  lemma {:induction false} FormatIsRead(n: nat)
    ensures Format(n) != "" && AllDigits(Format(n)) && DigitsValue(Format(n)) == n
  {
    if n >= 10 {
      FormatIsRead(n / 10);
      assert Format(n)[..|Format(n)| - 1] == Format(n / 10);
    } else {
      assert Format(n)[..0] == "";
    }
  }

  lemma {:induction false} AtoiReadsFormat(n: nat)
    requires n <= MAX_INT
    ensures Atoi(Format(n)) == Some(n)
  {
    FormatIsRead(n);
  }

  // ---- the cursor -------------------------------------------------------------

  const PREFIX := "offset:"

  predicate Narrow(s: string) {
    forall i | 0 <= i < |s| :: s[i] < '\U{100}'
  }

  function BytesOf(s: string): seq<Byte>
    requires Narrow(s)
  {
    seq(|s|, i requires 0 <= i < |s| => (var b: Byte := s[i] as int; b))
  }

  function TextOf(b: seq<Byte>): string {
    seq(|b|, i requires 0 <= i < |b| => b[i] as char)
  }

  function NextCursor(offset: nat): string {
    FormatIsRead(offset);
    Encode(BytesOf(PREFIX + Format(offset)))
  }

  /** The position of the first colon, or the length of the text. */
  function FirstColon(s: string): (i: nat)
    ensures i <= |s|
  {
    if s == "" || s[0] == ':' then 0 else 1 + FirstColon(s[1..])
  }

  function ParseCursor(cursor: string): Result<nat, ()> {
    var trimmed := TrimSpace(cursor);
    if trimmed == "" then Ok(0)
    else match Decode(trimmed)
      case None => Err(())
      case Some(b) =>
        var text := TextOf(b);
        var colon := FirstColon(text);
        if colon == |text| || text[..colon] != "offset" then Err(())
        else match Atoi(text[colon + 1..])
          case None => Err(())
          case Some(n) => if n < 0 then Err(()) else Ok(n)
  }

  /** The first colon behind the prefix is its own. */
  lemma PrefixEnds(digits: string)
    ensures var text := PREFIX + digits;
            FirstColon(text) == 6 < |text| && text[..6] == "offset" && text[7..] == digits
  {
    var text := PREFIX + digits;
    assert text[0] == 'o' && text[1] == 'f' && text[2] == 'f' && text[3] == 's' && text[4] == 'e' && text[5] == 't' && text[6] == ':';
    assert FirstColon(text[6..]) == 0;
    assert FirstColon(text[5..]) == 1 by { assert text[5..][1..] == text[6..]; }
    assert FirstColon(text[4..]) == 2 by { assert text[4..][1..] == text[5..]; }
    assert FirstColon(text[3..]) == 3 by { assert text[3..][1..] == text[4..]; }
    assert FirstColon(text[2..]) == 4 by { assert text[2..][1..] == text[3..]; }
    assert FirstColon(text[1..]) == 5 by { assert text[1..][1..] == text[2..]; }
    assert FirstColon(text) == 6;
    assert text[..6] == "offset" && text[7..] == digits;
  }

  lemma CursorOfText(digits: string)
    requires Narrow(digits)
    ensures Narrow(PREFIX + digits)
    ensures ParseCursor(Encode(BytesOf(PREFIX + digits)))
         == match Atoi(digits) { case Some(n) => if n < 0 then Err(()) else Ok(n) case None => Err(()) }
  {
    var text := PREFIX + digits;
    var b := BytesOf(text);
    Base64RoundTrip(b);
    assert TextOf(b) == text;
    assert Encode(b) != "";
    PrefixEnds(digits);
  }

  /** Every cursor handed out comes back as the offset it encodes. */
  lemma CursorRoundTrip(offset: nat)
    requires offset <= MAX_INT
    ensures ParseCursor(NextCursor(offset)) == Ok(offset)
  {
    FormatIsRead(offset);
    CursorOfText(Format(offset));
    AtoiReadsFormat(offset);
  }

  // ---- which accepted cursors were handed out ----------------------------------

  predicate NoLineBreaks(s: string) {
    forall i | 0 <= i < |s| :: s[i] != '\n' && s[i] != '\r'
  }

  /** The bits of the last symbol beyond the last whole byte are zero. */
  predicate NoSpareBits(s: string) {
    && (|s| % 4 == 2 ==> SextetOf(s[|s| - 1]).Some? && SextetOf(s[|s| - 1]).value % 16 == 0)
    && (|s| % 4 == 3 ==> SextetOf(s[|s| - 1]).Some? && SextetOf(s[|s| - 1]).value % 4 == 0)
  }

  /** Digits without a sign, and without a leading zero but for zero itself. */
  predicate Plain(digits: string) {
    digits != "" && AllDigits(digits) && (digits[0] != '0' || digits == "0")
  }

  /** The text behind the colon of what a cursor decodes to. */
  function NumberOf(cursor: string): string {
    match Decode(TrimSpace(cursor))
    case None => ""
    case Some(b) =>
      var text := TextOf(b);
      var colon := FirstColon(text);
      if colon == |text| then "" else text[colon + 1..]
  }

  lemma SymbolOfSextet(c: char)
    ensures SextetOf(c).Some? ==> Symbol(SextetOf(c).value) == c
  {
  }

  lemma SextetsRecombine(v0: Sextet, v1: Sextet, v2: Sextet, v3: Sextet)
    ensures var b0, b1, b2 := v0 * 4 + v1 / 16, v1 % 16 * 16 + v2 / 4, v2 % 4 * 64 + v3;
            && b0 / 4 == v0 && b0 % 4 * 16 + b1 / 16 == v1 && b1 % 16 * 4 + b2 / 64 == v2 && b2 % 64 == v3
            && (v2 % 4 == 0 ==> b1 % 16 * 4 == v2) && (v1 % 16 == 0 ==> b0 % 4 * 16 == v1)
  {
  }

  lemma {:induction false} QuadEncodes(v0: Sextet, v1: Sextet, v2: Sextet, v3: Sextet, b: seq<Byte>, rest: seq<Byte>)
    requires b == [v0 * 4 + v1 / 16, v1 % 16 * 16 + v2 / 4, v2 % 4 * 64 + v3] + rest
    ensures Encode(b) == [Symbol(v0), Symbol(v1), Symbol(v2), Symbol(v3)] + Encode(rest)
  {
    SextetsRecombine(v0, v1, v2, v3);
    assert b[3..] == rest;
  }

  lemma TripleEncodes(v0: Sextet, v1: Sextet, v2: Sextet)
    requires v2 % 4 == 0
    ensures Encode([v0 * 4 + v1 / 16, v1 % 16 * 16 + v2 / 4]) == [Symbol(v0), Symbol(v1), Symbol(v2)]
  {
    SextetsRecombine(v0, v1, v2, 0);
  }

  lemma PairEncodes(v0: Sextet, v1: Sextet)
    requires v1 % 16 == 0
    ensures Encode([v0 * 4 + v1 / 16]) == [Symbol(v0), Symbol(v1)]
  {
    SextetsRecombine(v0, v1, 0, 0);
  }

  lemma {:induction false} PairIsEncoded(s: string)
    requires |s| == 2 && DecodeQuads(s).Some? && NoSpareBits(s)
    ensures Encode(DecodeQuads(s).value) == s
  {
    SymbolOfSextet(s[0]);
    SymbolOfSextet(s[1]);
    PairEncodes(SextetOf(s[0]).value, SextetOf(s[1]).value);
  }

  lemma {:induction false} TripleDecodes(s: string)
    requires |s| == 3 && DecodeQuads(s).Some?
    ensures SextetOf(s[0]).Some? && SextetOf(s[1]).Some? && SextetOf(s[2]).Some?
    ensures var v0, v1, v2 := SextetOf(s[0]).value, SextetOf(s[1]).value, SextetOf(s[2]).value;
            DecodeQuads(s).value == [v0 * 4 + v1 / 16, v1 % 16 * 16 + v2 / 4]
  {
  }

  lemma TripleOfSymbols(s: string, v0: Sextet, v1: Sextet, v2: Sextet)
    requires |s| == 3 && SextetOf(s[0]) == Some(v0) && SextetOf(s[1]) == Some(v1) && SextetOf(s[2]) == Some(v2)
    ensures [Symbol(v0), Symbol(v1), Symbol(v2)] == s
  {
    SymbolOfSextet(s[0]);
    SymbolOfSextet(s[1]);
    SymbolOfSextet(s[2]);
  }

  lemma {:induction false} TripleIsEncoded(s: string)
    requires |s| == 3 && DecodeQuads(s).Some? && NoSpareBits(s)
    ensures Encode(DecodeQuads(s).value) == s
  {
    TripleDecodes(s);
    var v0, v1, v2 := SextetOf(s[0]).value, SextetOf(s[1]).value, SextetOf(s[2]).value;
    TripleEncodes(v0, v1, v2);
    TripleOfSymbols(s, v0, v1, v2);
  }

  lemma {:induction false} FirstQuadDecodes(s: string)
    requires |s| >= 4 && DecodeQuads(s).Some?
    ensures SextetOf(s[0]).Some? && SextetOf(s[1]).Some? && SextetOf(s[2]).Some? && SextetOf(s[3]).Some?
    ensures DecodeQuads(s[4..]).Some?
    ensures var v0, v1, v2, v3 := SextetOf(s[0]).value, SextetOf(s[1]).value, SextetOf(s[2]).value, SextetOf(s[3]).value;
            DecodeQuads(s).value
            == [v0 * 4 + v1 / 16, v1 % 16 * 16 + v2 / 4, v2 % 4 * 64 + v3] + DecodeQuads(s[4..]).value
  {
  }

  /** Decoding loses nothing of a text without line breaks and spare bits. */
  lemma {:induction false} DecodedIsEncoded(s: string)
    requires DecodeQuads(s).Some? && NoSpareBits(s)
    ensures Encode(DecodeQuads(s).value) == s
  {
    if |s| == 2 {
      PairIsEncoded(s);
    } else if |s| == 3 {
      TripleIsEncoded(s);
    } else if |s| >= 4 {
      FirstQuad(s);
      FirstQuadDecodes(s);
      DecodedIsEncoded(s[4..]);
      FirstQuadIsEncoded(s);
    }
  }

  lemma {:induction false} FirstQuadIsEncoded(s: string)
    requires |s| >= 4 && DecodeQuads(s).Some? && DecodeQuads(s[4..]).Some?
    requires Encode(DecodeQuads(s[4..]).value) == s[4..]
    ensures Encode(DecodeQuads(s).value) == s
  {
    FirstQuadDecodes(s);
    SymbolsEncode(s, SextetOf(s[0]).value, SextetOf(s[1]).value, SextetOf(s[2]).value, SextetOf(s[3]).value,
                  DecodeQuads(s).value, DecodeQuads(s[4..]).value);
  }

  lemma {:induction false} SymbolsEncode(s: string, v0: Sextet, v1: Sextet, v2: Sextet, v3: Sextet, b: seq<Byte>,
        rest: seq<Byte>)
    requires |s| >= 4 && SextetOf(s[0]) == Some(v0) && SextetOf(s[1]) == Some(v1)
    requires SextetOf(s[2]) == Some(v2) && SextetOf(s[3]) == Some(v3)
    requires b == [v0 * 4 + v1 / 16, v1 % 16 * 16 + v2 / 4, v2 % 4 * 64 + v3] + rest
    requires Encode(rest) == s[4..]
    ensures Encode(b) == s
  {
    SymbolOfSextet(s[0]);
    SymbolOfSextet(s[1]);
    SymbolOfSextet(s[2]);
    SymbolOfSextet(s[3]);
    QuadEncodes(v0, v1, v2, v3, b, rest);
    assert s == [s[0], s[1], s[2], s[3]] + s[4..];
  }

  lemma FirstQuad(s: string)
    requires |s| >= 4 && NoSpareBits(s)
    ensures NoSpareBits(s[4..]) && s == [s[0], s[1], s[2], s[3]] + s[4..]
  {
    assert |s| > 4 ==> s[4..][|s| - 5] == s[|s| - 1];
  }

  lemma SpareBitsAreAtTheEnd(quad: string, rest: string)
    requires |quad| == 4 && NoSpareBits(rest) && |rest| % 4 != 1
    ensures NoSpareBits(quad + rest) && |quad + rest| % 4 != 1
  {
    assert |rest| > 0 ==> (quad + rest)[|quad + rest| - 1] == rest[|rest| - 1];
  }

  lemma LastSymbols(v1: Sextet, v2: Sextet)
    ensures SextetOf(Symbol(v1 % 4 * 16)) == Some(v1 % 4 * 16)
    ensures SextetOf(Symbol(v2 % 16 * 4)) == Some(v2 % 16 * 4)
  {
  }

  lemma {:induction false} EncodedHasNoSpareBits(b: seq<Byte>)
    ensures NoSpareBits(Encode(b)) && |Encode(b)| % 4 != 1
  {
    if |b| == 1 {
      LastSymbols(b[0] % 4, 0);
    } else if |b| == 2 {
      LastSymbols(0, b[1] % 16);
    } else if |b| >= 3 {
      EncodedHasNoSpareBits(b[3..]);
      SpareBitsAreAtTheEnd(Encode(b)[..4], Encode(b[3..]));
      assert Encode(b) == Encode(b)[..4] + Encode(b[3..]);
    }
  }

  lemma {:induction false} BrokenLinesOnly(s: string)
    requires NoLineBreaks(s)
    ensures WithoutLineBreaks(s) == s
  {
    if s != "" {
      BrokenLinesOnly(s[1..]);
      assert s == [s[0]] + s[1..];
    }
  }

  lemma {:induction false} LeadingDigitCounts(digits: string)
    requires digits != "" && AllDigits(digits) && digits[0] != '0'
    ensures DigitsValue(digits) > 0
  {
    if |digits| > 1 {
      LeadingDigitCounts(digits[..|digits| - 1]);
    }
  }

  lemma LastDigitIsWritten(n: nat, digit: char)
    requires n > 0 && '0' <= digit <= '9'
    ensures Format(10 * n + (digit as int - '0' as int)) == Format(n) + [digit]
  {
    var m := 10 * n + (digit as int - '0' as int);
    assert m >= 10 && m / 10 == n && m % 10 == digit as int - '0' as int;
  }

  lemma DigitIsWritten(digit: char)
    requires '0' <= digit <= '9'
    ensures AllDigits([digit]) && Format(DigitsValue([digit])) == [digit]
  {
    assert [digit][..0] == "";
  }

  lemma {:induction false} ValueOfLongerText(digits: string, digit: char)
    requires digits != "" && AllDigits(digits + [digit])
    ensures AllDigits(digits) && '0' <= digit <= '9'
    ensures DigitsValue(digits + [digit]) == 10 * DigitsValue(digits) + (digit as int - '0' as int)
  {
    var all := digits + [digit];
    assert all[..|digits|] == digits && all[|digits|] == digit;
    forall i | 0 <= i < |digits|
      ensures '0' <= digits[i] <= '9'
    {
      assert digits[i] == all[i];
    }
  }

  /** A plain number is what its value is written as. */
  lemma {:induction false} PlainIsWritten(digits: string)
    requires Plain(digits)
    ensures Format(DigitsValue(digits)) == digits
  {
    var n := |digits| - 1;
    if n == 0 {
      DigitIsWritten(digits[0]);
      assert digits == [digits[0]];
    } else {
      var front := digits[..n];
      assert digits == front + [digits[n]];
      ValueOfLongerText(front, digits[n]);
      LeadingDigitCounts(front);
      PlainIsWritten(front);
      LastDigitIsWritten(DigitsValue(front), digits[n]);
    }
  }

  lemma {:induction false} WrittenIsPlain(n: nat)
    ensures Plain(Format(n)) && (n > 0 ==> Format(n)[0] != '0')
  {
    FormatIsRead(n);
    if n >= 10 {
      WrittenIsPlain(n / 10);
      assert Format(n)[0] == Format(n / 10)[0];
    }
  }

  lemma TextsAndBytes(b: seq<Byte>)
    ensures Narrow(TextOf(b)) && BytesOf(TextOf(b)) == b
  {
  }

  lemma {:induction false} FirstColonIsColon(s: string)
    ensures FirstColon(s) < |s| ==> s[FirstColon(s)] == ':'
  {
    if s != "" && s[0] != ':' {
      FirstColonIsColon(s[1..]);
    }
  }

  /** The form in which cursors are handed out. */
  predicate IssuedForm(c: string) {
    c != "" && TrimSpace(c) == c && NoLineBreaks(c) && NoSpareBits(c) && Plain(NumberOf(c))
  }

  lemma IssuedHaveTheForm(n: nat)
    ensures IssuedForm(NextCursor(n))
  {
    FormatIsRead(n);
    WrittenIsPlain(n);
    var text := PREFIX + Format(n);
    var c := NextCursor(n);
    Base64RoundTrip(BytesOf(text));
    EncodeUsesSymbols(BytesOf(text));
    EncodedHasNoSpareBits(BytesOf(text));
    forall i | 0 <= i < |c|
      ensures c[i] != '\n' && c[i] != '\r'
    {
      SymbolsAreNotSpace(c[i]);
    }
    PrefixEnds(Format(n));
    assert TextOf(BytesOf(text)) == text;
  }

  /** What an accepted cursor decodes to. */
  lemma AcceptedText(c: string, n: nat)
    requires ParseCursor(c) == Ok(n) && TrimSpace(c) != ""
    ensures Decode(TrimSpace(c)).Some?
    ensures TextOf(Decode(TrimSpace(c)).value) == PREFIX + NumberOf(c) && Atoi(NumberOf(c)) == Some(n)
  {
    var text := TextOf(Decode(TrimSpace(c)).value);
    FirstColonIsColon(text);
    var colon := FirstColon(text);
    assert text == text[..colon] + [':'] + text[colon + 1..];
    assert PREFIX == "offset" + [':'];
  }

  /** s is a number written in digits, perhaps with a plus sign, or a zero with a minus. */
  ghost predicate Spells(s: string, digits: string, n: nat) {
    && digits != "" && AllDigits(digits) && DigitsValue(digits) == n <= MAX_INT
    && (s == digits || s == "+" + digits || (n == 0 && s == "-" + digits))
  }

  lemma SpelledIsRead(s: string, digits: string, n: nat)
    requires Spells(s, digits, n)
    ensures Atoi(s) == Some(n)
  {
    assert ("+" + digits)[1..] == digits && ("-" + digits)[1..] == digits;
  }

  lemma ReadIsSpelled(s: string, n: nat) returns (digits: string)
    requires Atoi(s) == Some(n)
    ensures Spells(s, digits, n)
  {
    if s[0] == '+' || s[0] == '-' {
      digits := s[1..];
      assert s == [s[0]] + digits;
    } else {
      digits := s;
    }
  }

  ghost predicate AcceptedForm(c: string, n: nat) {
    && Decode(TrimSpace(c)).Some?
    && exists digits, number ::
         Spells(number, digits, n) && TextOf(Decode(TrimSpace(c)).value) == PREFIX + number
  }

  /** A cursor is accepted for an offset exactly when it is blank and the offset is 0, or
      it decodes to the prefix and a number of that value. */
  lemma AcceptedIff(c: string, n: nat)
    ensures ParseCursor(c) == Ok(n) <==> if TrimSpace(c) == "" then n == 0 else AcceptedForm(c, n)
  {
    if TrimSpace(c) != "" {
      if ParseCursor(c) == Ok(n) {
        AcceptedText(c, n);
        var digits := ReadIsSpelled(NumberOf(c), n);
      }
      if AcceptedForm(c, n) {
        var digits, number :|
          Spells(number, digits, n) && TextOf(Decode(TrimSpace(c)).value) == PREFIX + number;
        PrefixEnds(number);
        SpelledIsRead(number, digits, n);
      }
    }
  }

  lemma TheFormIsIssued(c: string, n: nat)
    requires ParseCursor(c) == Ok(n) && IssuedForm(c)
    ensures c == NextCursor(n)
  {
    AcceptedText(c, n);
    var b := Decode(c).value;
    BrokenLinesOnly(c);
    DecodedIsEncoded(c);
    TextsAndBytes(b);
    PlainIsWritten(NumberOf(c));
    PlainIsRead(NumberOf(c));
  }

  lemma {:induction false} PlainIsRead(digits: string)
    requires Plain(digits)
    ensures Atoi(digits).Some? ==> Atoi(digits).value == DigitsValue(digits)
  {
  }

  /** More cursors are accepted than are handed out. An accepted cursor was handed
      out if and only if it is not blank, has no surrounding blanks, no line breaks
      and no spare bits, and its number has neither a sign nor a leading zero. */
  lemma IssuedIff(c: string, n: nat)
    requires ParseCursor(c) == Ok(n)
    ensures c == NextCursor(n) <==> IssuedForm(c)
  {
    if c == NextCursor(n) {
      IssuedHaveTheForm(n);
    }
    if IssuedForm(c) {
      TheFormIsIssued(c, n);
    }
  }

  lemma {:induction false} WithoutLineBreaksAppend(a: string, b: string)
    ensures WithoutLineBreaks(a + b) == WithoutLineBreaks(a) + WithoutLineBreaks(b)
  {
    if a == "" {
      assert a + b == b;
    } else {
      WithoutLineBreaksAppend(a[1..], b);
      assert (a + b)[1..] == a[1..] + b && (a + b)[0] == a[0];
    }
  }

  /** A line break anywhere makes no difference to what is decoded. */
  lemma LineBreaksDoNotCount(a: string, c: char, b: string)
    requires c == '\n' || c == '\r'
    ensures Decode(a + [c] + b) == Decode(a + b)
  {
    WithoutLineBreaksAppend(a + [c], b);
    WithoutLineBreaksAppend(a, [c]);
    WithoutLineBreaksAppend(a, b);
    assert [c][1..] == "";
    assert WithoutLineBreaks(a) + "" == WithoutLineBreaks(a);
  }

  lemma {:induction false} LeadingZeroAddsNothing(digits: string)
    requires AllDigits(digits)
    ensures AllDigits("0" + digits) && DigitsValue("0" + digits) == DigitsValue(digits)
  {
    if digits == "" {
      assert "0" + digits == "0" && "0"[..0] == "";
    } else {
      var n := |digits| - 1;
      LeadingZeroAddsNothing(digits[..n]);
      assert ("0" + digits)[..n + 1] == "0" + digits[..n];
    }
  }

  /** Neither do leading zeros, nor a plus sign, to the number read. */
  lemma {:induction false} LeadingZerosDoNotCount(digits: string)
    requires digits != "" && AllDigits(digits)
    ensures Atoi("0" + digits) == Atoi("+" + digits) == Atoi(digits)
    ensures Atoi(digits) == if DigitsValue(digits) <= 0x7fff_ffff_ffff_ffff then Some(DigitsValue(digits)) else None
  {
    LeadingZeroAddsNothing(digits);
    assert ("+" + digits)[1..] == digits;
  }

  /** The blank cursor is accepted and never handed out. */
  lemma BlankCursorAccepted(offset: nat)
    ensures ParseCursor("") == Ok(0) && NextCursor(offset) != ""
  {
    IssuedHaveTheForm(offset);
  }

  function SignedCursor(n: nat): string {
    FormatIsRead(n);
    Encode(BytesOf(PREFIX + ("+" + Format(n))))
  }

  /** So is, for each offset, the cursor of its number with a plus sign. */
  lemma ForeignCursorAccepted(n: nat)
    requires n <= MAX_INT
    ensures ParseCursor(SignedCursor(n)) == Ok(n)
    ensures forall offset: nat :: NextCursor(offset) != SignedCursor(n)
  {
    var digits := "+" + Format(n);
    FormatIsRead(n);
    AtoiReadsPlus(Format(n));
    CursorOfText(digits);
    var c := SignedCursor(n);
    SignedIsNotIssued(n);
    forall offset: nat
      ensures NextCursor(offset) != c
    {
      IssuedHaveTheForm(offset);
    }
  }

  lemma SignedIsNotIssued(n: nat)
    ensures !IssuedForm(SignedCursor(n))
  {
    FormatIsRead(n);
    var text := PREFIX + ("+" + Format(n));
    Base64RoundTrip(BytesOf(text));
    TextRoundTrip(text);
    PrefixEnds("+" + Format(n));
    assert NumberOf(SignedCursor(n)) == "+" + Format(n);
  }

  lemma TextRoundTrip(s: string)
    requires Narrow(s)
    ensures TextOf(BytesOf(s)) == s
  {
  }

  lemma {:induction false} AtoiReadsPlus(digits: string)
    requires digits != "" && AllDigits(digits) && DigitsValue(digits) <= MAX_INT
    ensures Atoi("+" + digits) == Some(DigitsValue(digits))
  {
  }
}

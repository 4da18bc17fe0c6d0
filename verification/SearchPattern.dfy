/** Free-text search. What a person types becomes a LIKE pattern that matches
    exactly the texts containing it, whatever characters it has. */
module SearchPattern {
  import opened Text

  const ESCAPE := '\\'

  function EscapeChar(c: char): string {
    if c == ESCAPE || c == '%' || c == '_' then [ESCAPE, c] else [c]
  }

  /** likeEscaper: one pass, one replacement per character. */
  function Escape(q: string): string {
    if q == "" then "" else EscapeChar(q[0]) + Escape(q[1..])
  }

  function Pattern(typed: string, fold: char -> char): string {
    var q := TrimSpace(typed);
    if q == "" then "" else "%" + Escape(ToLower(q, fold)) + "%"
  }

  /** LIKE with ESCAPE '\', section 8.5 of ISO/IEC 9075-2. */
  ghost predicate Like(pattern: string, text: string)
    decreases |pattern|
  {
    if pattern == "" then text == ""
    else if pattern[0] == ESCAPE then
      |pattern| >= 2 && text != "" && text[0] == pattern[1] && Like(pattern[2..], text[1..])
    else if pattern[0] == '%' then
      exists k :: 0 <= k <= |text| && Like(pattern[1..], text[k..])
    else if pattern[0] == '_' then
      text != "" && Like(pattern[1..], text[1..])
    else
      text != "" && text[0] == pattern[0] && Like(pattern[1..], text[1..])
  }

  /** The standard raises an error unless every escape precedes %, _ or an escape. */
  predicate WellFormed(pattern: string)
    decreases |pattern|
  {
    if pattern == "" then true
    else if pattern[0] == ESCAPE then
      |pattern| >= 2 && (pattern[1] == '%' || pattern[1] == '_' || pattern[1] == ESCAPE) && WellFormed(pattern[2..])
    else WellFormed(pattern[1..])
  }

  ghost predicate Contains(text: string, part: string) {
    exists i :: 0 <= i <= |text| && part <= text[i..]
  }

  lemma {:induction false} EscapedCharMatchesItself(c: char, rest: string, text: string)
    ensures Like(EscapeChar(c) + rest, text) <==> text != "" && text[0] == c && Like(rest, text[1..])
  {
  }

  lemma {:induction false} EscapedMatchesItself(x: string, rest: string, text: string)
    ensures Like(Escape(x) + rest, text) <==> x <= text && Like(rest, text[|x|..])
  {
    if x == "" {
      assert Escape(x) + rest == rest;
      assert text[0..] == text;
    } else {
      assert Escape(x) + rest == EscapeChar(x[0]) + (Escape(x[1..]) + rest);
      EscapedCharMatchesItself(x[0], Escape(x[1..]) + rest, text);
      if text != "" {
        EscapedMatchesItself(x[1..], rest, text[1..]);
        assert |x| <= |text| ==> text[1..][|x| - 1..] == text[|x|..];
        assert x <= text <==> x[0] == text[0] && x[1..] <= text[1..];
      }
    }
  }

  lemma {:induction false} PercentMatchesAll(text: string)
    ensures Like("%", text)
  {
    assert "%"[1..] == "" && text[|text|..] == "";
    assert Like("%"[1..], text[|text|..]);
  }

  lemma {:induction false} EscapeIsWellFormed(x: string, rest: string)
    requires WellFormed(rest)
    ensures WellFormed(Escape(x) + rest)
  {
    if x == "" {
      assert Escape(x) + rest == rest;
    } else {
      EscapeIsWellFormed(x[1..], rest);
      var e, after := EscapeChar(x[0]), Escape(x[1..]) + rest;
      assert Escape(x) + rest == e + after;
      assert (e + after)[|e|..] == after;
    }
  }

  /** A text matches the pattern of what was typed exactly when it contains the
      typed text, trimmed and folded, literally. */
  lemma {:induction false} PatternMeansContains(typed: string, fold: char -> char, text: string)
    requires TrimSpace(typed) != ""
    ensures WellFormed(Pattern(typed, fold))
    ensures Like(Pattern(typed, fold), text) <==> Contains(text, ToLower(TrimSpace(typed), fold))
  {
    var x := ToLower(TrimSpace(typed), fold);
    var p := Pattern(typed, fold);
    assert p[1..] == Escape(x) + "%";
    assert WellFormed("%"[1..]);
    EscapeIsWellFormed(x, "%");
    forall k | 0 <= k <= |text|
      ensures Like(p[1..], text[k..]) <==> x <= text[k..]
    {
      EscapedMatchesItself(x, "%", text[k..]);
      if x <= text[k..] {
        PercentMatchesAll(text[k..][|x|..]);
      }
    }
  }

  datatype Customer = Customer(name: string, registrationNo: string, customerCode: string)

  /** lower(column) LIKE $4 ESCAPE '\' */
  ghost predicate Matches(typed: string, fold: char -> char, column: string) {
    Like(Pattern(typed, fold), ToLower(column, fold))
  }

  /** The filter of a search: $4='' or a match in one of the three columns. */
  ghost predicate Listed(typed: string, fold: char -> char, c: Customer) {
    || Pattern(typed, fold) == ""
    || Matches(typed, fold, c.name)
    || Matches(typed, fold, c.registrationNo)
    || Matches(typed, fold, c.customerCode)
  }

  /** The column contains what was typed, trimmed, whatever the case of either. */
  ghost predicate Mentions(column: string, typed: string, fold: char -> char) {
    Contains(ToLower(column, fold), ToLower(TrimSpace(typed), fold))
  }

  /** A blank query filters nothing, any other one keeps the customers that have it in
      their name, registration number or code. */
  lemma SearchFindsExactly(typed: string, fold: char -> char, c: Customer)
    ensures Listed(typed, fold, c)
       <==> || TrimSpace(typed) == ""
            || Mentions(c.name, typed, fold)
            || Mentions(c.registrationNo, typed, fold)
            || Mentions(c.customerCode, typed, fold)
  {
    if TrimSpace(typed) != "" {
      PatternMeansContains(typed, fold, ToLower(c.name, fold));
      PatternMeansContains(typed, fold, ToLower(c.registrationNo, fold));
      PatternMeansContains(typed, fold, ToLower(c.customerCode, fold));
    }
  }
}

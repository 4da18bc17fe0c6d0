/** The string functions of Go's strings package the models use. A string is its
    sequence of code points. */
module Text {

  /** unicode.IsSpace. */
  predicate IsSpace(c: char) {
    || '\t' <= c <= '\r' || c == ' ' || c == '\U{85}' || c == '\U{A0}' || c == '\U{1680}'
    || '\U{2000}' <= c <= '\U{200A}' || c == '\U{2028}' || c == '\U{2029}' || c == '\U{202F}'
    || c == '\U{205F}' || c == '\U{3000}'
  }

  function TrimLeft(s: string): string {
    if s != "" && IsSpace(s[0]) then TrimLeft(s[1..]) else s
  }

  function TrimRight(s: string): string {
    if s != "" && IsSpace(s[|s| - 1]) then TrimRight(s[..|s| - 1]) else s
  }

  function TrimSpace(s: string): string {
    TrimRight(TrimLeft(s))
  }

  lemma {:induction false} TrimRightEnds(s: string)
    ensures var t := TrimRight(s);
            && t <= s
            && (t != "" ==> !IsSpace(t[|t| - 1]))
  {
    if s != "" && IsSpace(s[|s| - 1]) {
      TrimRightEnds(s[..|s| - 1]);
    }
  }

  lemma {:induction false} TrimLeftStarts(s: string)
    ensures var t := TrimLeft(s); t != "" ==> !IsSpace(t[0])
  {
    if s != "" && IsSpace(s[0]) {
      TrimLeftStarts(s[1..]);
    }
  }

  lemma TrimKeeps(s: string)
    requires s != "" ==> !IsSpace(s[0]) && !IsSpace(s[|s| - 1])
    ensures TrimSpace(s) == s
  {
  }

  predicate AllSpace(s: string) {
    forall i | 0 <= i < |s| :: IsSpace(s[i])
  }

  lemma {:induction false} TrimLeftDrops(s: string)
    ensures exists a :: AllSpace(a) && s == a + TrimLeft(s)
  {
    if s != "" && IsSpace(s[0]) {
      TrimLeftDrops(s[1..]);
      var a :| AllSpace(a) && s[1..] == a + TrimLeft(s[1..]);
      assert AllSpace([s[0]] + a) && s == [s[0]] + a + TrimLeft(s);
    } else {
      assert AllSpace("") && s == "" + TrimLeft(s);
    }
  }

  lemma {:induction false} TrimRightDrops(s: string)
    ensures exists b :: AllSpace(b) && s == TrimRight(s) + b
  {
    if s != "" && IsSpace(s[|s| - 1]) {
      var n := |s| - 1;
      TrimRightDrops(s[..n]);
      var b :| AllSpace(b) && s[..n] == TrimRight(s[..n]) + b;
      assert AllSpace(b + [s[n]]) && s == TrimRight(s) + (b + [s[n]]);
    } else {
      assert AllSpace("") && s == TrimRight(s) + "";
    }
  }

  /** Trimming drops blanks at either end, all of them, and nothing else. */
  lemma TrimSpaceDrops(s: string) returns (a: string, b: string)
    ensures s == a + TrimSpace(s) + b && AllSpace(a) && AllSpace(b)
    ensures var t := TrimSpace(s); t != "" ==> !IsSpace(t[0]) && !IsSpace(t[|t| - 1])
  {
    var left := TrimLeft(s);
    TrimLeftDrops(s);
    TrimRightDrops(left);
    a :| AllSpace(a) && s == a + left;
    b :| AllSpace(b) && left == TrimRight(left) + b;
    TrimLeftStarts(s);
    TrimRightEnds(left);
  }

  /** Trimming a trimmed text changes nothing. */
  lemma TrimIsIdempotent(s: string)
    ensures TrimSpace(TrimSpace(s)) == TrimSpace(s)
  {
    var left := TrimLeft(s);
    var t := TrimRight(left);
    TrimLeftStarts(s);
    TrimRightEnds(left);
    if t != "" {
      assert t[0] == left[0];
    }
  }

  /** strings.ToLower for a given rune mapping: the proofs hold for any of them. */
  function ToLower(s: string, fold: char -> char): string {
    seq(|s|, i requires 0 <= i < |s| => fold(s[i]))
  }
}

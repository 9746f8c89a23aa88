// Names made by the parser: valid identifiers, and names derived from others by a counter.

module Naming {
  // ----- decimal numerals -----

  function Digit(d: nat): char
    requires d < 10
  {
    "0123456789"[d]
  }

  predicate IsDigit(c: char) {
    '0' <= c <= '9'
  }

  /** The numeral `%d` prints for a non-negative number. */
  function Decimal(n: nat): (s: string)
    ensures s != []
    ensures forall i | 0 <= i < |s| :: IsDigit(s[i])
  {
    if n < 10 then [Digit(n)] else Decimal(n / 10) + [Digit(n % 10)]
  }

  lemma DigitInjective(a: nat, b: nat)
    requires a < 10 && b < 10 && Digit(a) == Digit(b)
    ensures a == b
  {
  }

  lemma {:induction false} DecimalInjective(a: nat, b: nat)
    requires Decimal(a) == Decimal(b)
    ensures a == b
  {
    var s, t := Decimal(a), Decimal(b);
    assert s[|s| - 1] == t[|t| - 1];
    if a < 10 || b < 10 {
      assert |s| == |t| == 1;
      DigitInjective(a, b);
    } else {
      DigitInjective(a % 10, b % 10);
      assert s[..|s| - 1] == Decimal(a / 10) && t[..|t| - 1] == Decimal(b / 10);
      DecimalInjective(a / 10, b / 10);
    }
  }

  lemma LongerNumeral(p: string, s: string, q: string, t: string)
    requires p != [] && p + s == q + t && |s| < |t|
    requires forall i | 0 <= i < |t| :: IsDigit(t[i])
    ensures IsDigit(p[|p| - 1])
  {
    assert p[|p| - 1] == (p + s)[|p| - 1] == (q + t)[|p| - 1] == t[|p| - 1 - |q|];
  }

  /** A text that ends in a non-digit, followed by a numeral, can be taken apart in one way only. */
  lemma NumberedNameInjective(p: string, a: nat, q: string, b: nat)
    requires p != [] && q != [] && !IsDigit(p[|p| - 1]) && !IsDigit(q[|q| - 1])
    requires p + Decimal(a) == q + Decimal(b)
    ensures p == q && a == b
  {
    var s, t := Decimal(a), Decimal(b);
    if |s| < |t| { LongerNumeral(p, s, q, t); }
    if |t| < |s| { LongerNumeral(q, t, p, s); }
    assert (p + s)[..|p|] == p && (q + t)[..|q|] == q;
    assert (p + s)[|p|..] == s && (q + t)[|q|..] == t;
    DecimalInjective(a, b);
  }

  // ----- valid identifiers -----

  predicate IsNameChar(c: char) {
    'a' <= c <= 'z' || 'A' <= c <= 'Z' || '0' <= c <= '9'
  }

  predicate IsTail(c: char) {
    0x80 <= c as int < 0xC0
  }

  /** How many bytes the first character takes in UTF-8; a byte that starts no valid encoding counts as
      a character of its own. */
  function RuneWidth(s: string): (w: nat)
    requires s != ""
    ensures 1 <= w <= |s| && (s[0] as int < 0x80 ==> w == 1)
  {
    var b := s[0] as int;
    if 0xC2 <= b < 0xE0 && |s| >= 2 && IsTail(s[1]) then 2
    else if 0xE0 <= b < 0xF0 && |s| >= 3 && IsTail(s[1]) && IsTail(s[2])
      && (b == 0xE0 ==> s[1] as int >= 0xA0) && (b == 0xED ==> (s[1] as int) < 0xA0) then 3
    else if 0xF0 <= b < 0xF5 && |s| >= 4 && IsTail(s[1]) && IsTail(s[2]) && IsTail(s[3])
      && (b == 0xF0 ==> s[1] as int >= 0x90) && (b == 0xF4 ==> (s[1] as int) < 0x90) then 4
    else 1
  }

  /** `validName`: everything but ASCII letters and digits becomes an underscore, character by character. */
  function ValidName(name: string): (r: string)
    ensures |r| <= |name| && forall i | 0 <= i < |r| :: IsNameChar(r[i]) || r[i] == '_'
  {
    if name == "" then ""
    else [if IsNameChar(name[0]) then name[0] else '_'] + ValidName(name[RuneWidth(name)..])
  }

  /** A name that is valid is left alone. */
  lemma {:induction false} ValidNameKeeps(name: string)
    requires forall i | 0 <= i < |name| :: IsNameChar(name[i]) || name[i] == '_'
    ensures ValidName(name) == name
  {
    if name != "" {
      assert name[0] as int < 0x80;
      ValidNameKeeps(name[1..]);
      assert name == [name[0]] + name[1..];
    }
  }

}

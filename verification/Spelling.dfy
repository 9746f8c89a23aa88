// How names are spelled: valid identifiers, character by character of the name they are made from, and the
// numerals in names that are made from others (csym/parse_types.go, csym/parse_fixups.go).

module Spelling {
  import opened Ints
  import opened Naming
  import opened FuncIndex

  // ----- characters in UTF-8 -----

  /** The code points that have an encoding (section 3 of RFC 3629). */
  predicate IsScalar(cp: int) {
    0 <= cp < 0xD800 || 0xE000 <= cp < 0x110000
  }

  /** The encoding of a code point. */
  function Utf8(cp: int): (s: string)
    requires IsScalar(cp)
    ensures 1 <= |s| <= 4
  {
    if cp < 0x80 then [cp as char]
    else if cp < 0x800 then [(0xC0 + cp / 64) as char, (0x80 + cp % 64) as char]
    else if cp < 0x10000 then [(0xE0 + cp / 4096) as char, (0x80 + cp / 64 % 64) as char, (0x80 + cp % 64) as char]
    else
      [(0xF0 + cp / 262144) as char, (0x80 + cp / 4096 % 64) as char, (0x80 + cp / 64 % 64) as char,
       (0x80 + cp % 64) as char]
  }

  /** The bytes of an encoding lie where those of no other width do. */
  lemma EncodedBytes(cp: int)
    requires IsScalar(cp) && cp >= 0x80
    ensures var e := Utf8(cp);
      && (forall i | 1 <= i < |e| :: IsTail(e[i]))
      && (|e| == 2 ==> 0xC2 <= e[0] as int < 0xE0)
      && (|e| == 3 ==> 0xE0 <= e[0] as int < 0xF0)
      && (|e| == 3 && e[0] as int == 0xE0 ==> e[1] as int >= 0xA0)
      && (|e| == 3 && e[0] as int == 0xED ==> (e[1] as int) < 0xA0)
      && (|e| == 4 ==> 0xF0 <= e[0] as int < 0xF5)
      && (|e| == 4 && e[0] as int == 0xF0 ==> e[1] as int >= 0x90)
      && (|e| == 4 && e[0] as int == 0xF4 ==> (e[1] as int) < 0x90)
      && |e| > 1
  {
  }

  /** The width of an encoded code point is that of its encoding. */
  lemma WidthOfEncoded(s: string, cp: int)
    requires IsScalar(cp) && Utf8(cp) <= s
    ensures RuneWidth(s) == |Utf8(cp)|
  {
    var e := Utf8(cp);
    assert s[0] == e[0] && (|e| > 1 ==> s[1] == e[1]) && (|e| > 2 ==> s[2] == e[2]) && (|e| > 3 ==> s[3] == e[3]);
    if cp >= 0x80 {
      EncodedBytes(cp);
      hide Utf8;
      assert forall i | 1 <= i < |e| :: IsTail(s[i]);
    }
  }

  lemma Digits64(hi: int, lo: int)
    requires 0 <= lo < 64
    ensures (64 * hi + lo) / 64 == hi && (64 * hi + lo) % 64 == lo
  {
  }

  lemma TwoBytes(a: int, b: int) returns (cp: int)
    requires 0xC2 <= a < 0xE0 && 0x80 <= b < 0xC0
    ensures IsScalar(cp) && Utf8(cp) == [a as char, b as char]
  {
    cp := 64 * (a - 0xC0) + (b - 0x80);
    Digits64(a - 0xC0, b - 0x80);
  }

  lemma ThreeBytes(a: int, b: int, c: int) returns (cp: int)
    requires 0xE0 <= a < 0xF0 && 0x80 <= b < 0xC0 && 0x80 <= c < 0xC0
    requires (a == 0xE0 ==> b >= 0xA0) && (a == 0xED ==> b < 0xA0)
    ensures IsScalar(cp) && Utf8(cp) == [a as char, b as char, c as char]
  {
    var high := 64 * (a - 0xE0) + (b - 0x80);
    cp := 64 * high + (c - 0x80);
    Digits64(high, c - 0x80);
    Digits64(a - 0xE0, b - 0x80);
    assert cp / 4096 == high / 64;
  }

  lemma FourBytes(a: int, b: int, c: int, d: int) returns (cp: int)
    requires 0xF0 <= a < 0xF5 && 0x80 <= b < 0xC0 && 0x80 <= c < 0xC0 && 0x80 <= d < 0xC0
    requires (a == 0xF0 ==> b >= 0x90) && (a == 0xF4 ==> b < 0x90)
    ensures IsScalar(cp) && Utf8(cp) == [a as char, b as char, c as char, d as char]
  {
    var high := 64 * (a - 0xF0) + (b - 0x80);
    var mid := 64 * high + (c - 0x80);
    cp := 64 * mid + (d - 0x80);
    Digits64(mid, d - 0x80);
    Digits64(high, c - 0x80);
    Digits64(a - 0xF0, b - 0x80);
    assert cp / 4096 == mid / 64 == high && cp / 262144 == mid / 4096 == high / 64;
  }

  /** A width of more than one byte is that of an encoded code point. */
  lemma EncodedOfWidth(s: string) returns (cp: int)
    requires s != "" && RuneWidth(s) > 1
    ensures IsScalar(cp) && s[..RuneWidth(s)] == Utf8(cp)
  {
    var w, a := RuneWidth(s), s[0] as int;
    hide Utf8;
    if w == 2 {
      cp := TwoBytes(a, s[1] as int);
      assert s[..w] == [s[0], s[1]];
    } else if w == 3 {
      cp := ThreeBytes(a, s[1] as int, s[2] as int);
      assert s[..w] == [s[0], s[1], s[2]];
    } else {
      cp := FourBytes(a, s[1] as int, s[2] as int, s[3] as int);
      assert s[..w] == [s[0], s[1], s[2], s[3]];
    }
  }

  // ----- valid identifiers -----

  /** The digits, the capitals and the small letters of ASCII. */
  predicate IsLetterOrDigit(c: char) {
    48 <= c as int <= 57 || 65 <= c as int <= 90 || 97 <= c as int <= 122
  }

  /** A name of ASCII characters keeps its length: letters and digits stay where they are, and every other
      character becomes an underscore. */
  lemma {:induction false} AsciiName(name: string)
    requires forall i | 0 <= i < |name| :: name[i] as int < 0x80
    ensures |ValidName(name)| == |name|
    ensures forall i | 0 <= i < |name| ::
      ValidName(name)[i] == if IsLetterOrDigit(name[i]) then name[i] else '_'
  {
    if name != "" {
      AsciiName(name[1..]);
    }
  }

  /** One character: an encoded code point, or a byte with which none begins. */
  ghost predicate IsCharacter(name: string, a: nat, e: nat)
    requires a < e <= |name|
  {
    || (exists cp: int | IsScalar(cp) :: name[a..e] == Utf8(cp))
    || (e == a + 1 && forall cp: int | IsScalar(cp) :: !(Utf8(cp) <= name[a..]))
  }

  ghost predicate IsCharacterAt(name: string, ps: seq<nat>, i: nat)
    requires i + 1 < |ps|
  {
    ps[i] < ps[i + 1] <= |name| && IsCharacter(name, ps[i], ps[i + 1])
  }

  /** The name falls into characters at these positions. */
  ghost predicate IsSplit(name: string, ps: seq<nat>) {
    && ps != [] && ps[0] == 0 && ps[|ps| - 1] == |name|
    && forall i | 0 <= i < |ps| - 1 :: IsCharacterAt(name, ps, i)
  }

  /** What stands for the i-th character: the character itself if it is an ASCII letter or digit. */
  function Shown(name: string, ps: seq<nat>, i: nat): char
    requires i + 1 < |ps|
  {
    if ps[i + 1] == ps[i] + 1 && ps[i] < |name| && IsLetterOrDigit(name[ps[i]]) then name[ps[i]] else '_'
  }

  lemma FirstCharacter(name: string)
    requires name != ""
    ensures IsCharacter(name, 0, RuneWidth(name))
    ensures IsNameChar(name[0]) ==> RuneWidth(name) == 1
  {
    var w := RuneWidth(name);
    assert name[0..w] == name[..w] && name[0..] == name;
    if w > 1 {
      var cp := EncodedOfWidth(name);
    } else if name[0] as int < 0x80 {
      assert name[..1] == Utf8(name[0] as int);
    } else {
      forall cp: int | IsScalar(cp) ensures !(Utf8(cp) <= name) {
        if Utf8(cp) <= name {
          WidthOfEncoded(name, cp);
        }
      }
    }
  }

  lemma LaterCharacter(name: string, w: nat, a: nat, e: nat)
    requires w <= a < e <= |name| && IsCharacter(name[w..], a - w, e - w)
    ensures IsCharacter(name, a, e)
  {
    assert name[w..][a - w..e - w] == name[a..e] && name[w..][a - w..] == name[a..];
  }

  function Shifted(qs: seq<nat>, w: nat): (ps: seq<nat>)
    ensures |ps| == |qs| + 1 && ps[0] == 0 && forall i | 0 <= i < |qs| :: ps[i + 1] == qs[i] + w
  {
    [0] + seq(|qs|, i requires 0 <= i < |qs| => qs[i] + w)
  }

  lemma SplitFurther(name: string, w: nat, qs: seq<nat>)
    requires name != "" && w == RuneWidth(name) && IsSplit(name[w..], qs)
    ensures IsSplit(name, Shifted(qs, w))
  {
    hide IsCharacter, RuneWidth, Shifted, IsCharacterAt;
    var ps := Shifted(qs, w);
    CharacterFirst(name, w, qs);
    forall i | 1 <= i < |ps| - 1 ensures IsCharacterAt(name, ps, i) {
      CharacterFurther(name, w, qs, i - 1);
    }
  }

  lemma CharacterFirst(name: string, w: nat, qs: seq<nat>)
    requires name != "" && w == RuneWidth(name) && qs != [] && qs[0] == 0
    ensures IsCharacterAt(name, Shifted(qs, w), 0)
  {
    hide Shifted, RuneWidth, IsCharacter;
    FirstCharacter(name);
  }

  lemma CharacterFurther(name: string, w: nat, qs: seq<nat>, i: nat)
    requires w <= |name| && i + 1 < |qs| && IsCharacterAt(name[w..], qs, i)
    ensures IsCharacterAt(name, Shifted(qs, w), i + 1)
  {
    hide IsCharacter, Shifted;
    LaterCharacter(name, w, qs[i] + w, qs[i + 1] + w);
  }

  lemma ShownFirst(name: string, w: nat, qs: seq<nat>)
    requires name != "" && w == RuneWidth(name) && IsSplit(name[w..], qs)
    ensures Shown(name, Shifted(qs, w), 0) == if IsNameChar(name[0]) then name[0] else '_'
  {
    FirstCharacter(name);
    hide IsCharacter, RuneWidth, IsCharacterAt, Shifted;
  }

  lemma ShownLater(name: string, w: nat, qs: seq<nat>, i: nat)
    requires w <= |name| && i + 1 < |qs| && qs[i] < qs[i + 1] <= |name[w..]|
    ensures Shown(name, Shifted(qs, w), i + 1) == Shown(name[w..], qs, i)
  {
    hide Shifted;
  }

  lemma ValidNameNext(name: string)
    requires name != ""
    ensures ValidName(name) == [if IsNameChar(name[0]) then name[0] else '_'] + ValidName(name[RuneWidth(name)..])
  {
  }

  /** A valid identifier has one character for each character of the name: the character itself where
      that is an ASCII letter or digit, and an underscore everywhere else. */
  lemma {:induction false} NameByCharacter(name: string) returns (ps: seq<nat>)
    ensures IsSplit(name, ps) && |ValidName(name)| == |ps| - 1
    ensures forall i | 0 <= i < |ps| - 1 :: ValidName(name)[i] == Shown(name, ps, i)
    decreases |name|
  {
    hide ValidName, Shifted, Shown, IsCharacter, RuneWidth, IsCharacterAt;
    if name == "" {
      NoName();
      ps := [0];
    } else {
      var w := RuneWidth(name);
      var qs := NameByCharacter(name[w..]);
      ps := Shifted(qs, w);
      ValidNameNext(name);
      SplitFurther(name, w, qs);
      ShownFirst(name, w, qs);
      forall i | 1 <= i < |ps| - 1 ensures ValidName(name)[i] == Shown(name, ps, i) {
        CharacterGrows(name[w..], qs, i - 1);
        ShownLater(name, w, qs, i - 1);
      }
    }
  }

  lemma NoName()
    ensures ValidName("") == ""
  {
  }

  lemma CharacterGrows(name: string, qs: seq<nat>, i: nat)
    requires IsSplit(name, qs) && i + 1 < |qs|
    ensures qs[i] < qs[i + 1] <= |name|
  {
    assert IsCharacterAt(name, qs, i);
  }

  // ----- numerals -----

  function DecimalValue(s: string): int {
    if s == "" then 0 else 10 * DecimalValue(s[..|s| - 1]) + (s[|s| - 1] as int - 48)
  }

  /** The decimal numeral for n: ASCII digits, the first of them no zero unless it is the only one. */
  predicate IsNumeral(s: string, n: int) {
    && s != "" && (forall i | 0 <= i < |s| :: 48 <= s[i] as int <= 57)
    && (|s| > 1 ==> s[0] as int != 48) && DecimalValue(s) == n
  }

  lemma {:induction false} DecimalIsNumeral(n: nat)
    ensures IsNumeral(Decimal(n), n)
  {
    if n >= 10 {
      DecimalIsNumeral(n / 10);
      var s := Decimal(n);
      assert s[..|s| - 1] == Decimal(n / 10);
    }
  }

  function HexValue(s: string): int {
    if s == "" then 0
    else
      var c := s[|s| - 1] as int;
      16 * HexValue(s[..|s| - 1]) + (if c <= 57 then c - 48 else c - 55)
  }

  /** A digit from 0 to 9 or a capital from A to F. */
  predicate IsHexDigit(c: char) {
    48 <= c as int <= 57 || 65 <= c as int <= 70
  }

  /** Eight hexadecimal digits for x. */
  predicate IsHexNumeral(s: string, x: int) {
    |s| == 8 && (forall i | 0 <= i < |s| :: IsHexDigit(s[i])) && HexValue(s) == x
  }

  lemma {:induction false} HexDigits(x: nat, n: nat)
    requires x < Power16(n)
    ensures HexValue(Hex(x, n)) == x && forall i | 0 <= i < n :: IsHexDigit(Hex(x, n)[i])
    decreases n
  {
    if n > 0 {
      HexDigits(x / 16, n - 1);
      var s := Hex(x, n);
      assert s[..n - 1] == Hex(x / 16, n - 1);
    }
  }

  /** The name made from a name and an address. */
  predicate IsAddressName(made: string, name: string, addr: int) {
    |made| == |name| + 14 && made[..|name| + 6] == name + "_addr_" && IsHexNumeral(made[|name| + 6..], addr)
  }

  lemma AddressName(name: string, addr: uint32)
    ensures IsAddressName(UniqueName(name, addr), name, addr)
  {
    var made, n := UniqueName(name, addr), |name|;
    assert Power16(8) == 0x1_0000_0000 by { assert Power16(4) == 0x1_0000; }
    HexDigits(addr, 8);
    assert made[n + 6..] == Hex(addr, 8);
  }

  /** Numerals of one length for one number are the same. */
  lemma {:induction false} HexValueInjective(s: string, t: string)
    requires |s| == |t| && HexValue(s) == HexValue(t)
    requires forall i | 0 <= i < |s| :: IsHexDigit(s[i]) && IsHexDigit(t[i])
    ensures s == t
  {
    if s != "" {
      var n := |s| - 1;
      assert IsHexDigit(s[n]) && IsHexDigit(t[n]);
      HexValueInjective(s[..n], t[..n]);
      assert s == s[..n] + [s[n]] && t == t[..n] + [t[n]];
    }
  }
}

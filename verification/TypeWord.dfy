// The 16-bit type word (type.go), and the type it stands for (csym/parse_types.go).

module TypeWord {
  import opened Ints
  import opened CTree
  import opened DeclaratorPrinter
  import opened DeclaratorReader
  import opened DeclaratorProof

  datatype Mod = PointerMod | FunctionMod | ArrayMod

  function Code(m: Mod): (c: nat)
    ensures 1 <= c <= 3
  {
    match m
    case PointerMod => 1
    case FunctionMod => 2
    case ArrayMod => 3
  }

  function ModOf(code: nat): (m: Mod)
    requires 1 <= code <= 3
    ensures Code(m) == code
  {
    if code == 1 then PointerMod else if code == 2 then FunctionMod else ArrayMod
  }

  /** `Type.Base`: masking the low four bits is the remainder by 16. */
  function BaseBits(t: uint16): nat {
    t % 16
  }

  /** The modifiers in the next n two-bit groups, lowest first; empty groups are skipped. */
  function ModsFrom(bits: nat, n: nat): seq<Mod> {
    if n == 0 then []
    else (if bits % 4 == 0 then [] else [ModOf(bits % 4)]) + ModsFrom(bits / 4, n - 1)
  }

  function ModsOf(t: uint16): seq<Mod> {
    ModsFrom(t / 16, 6)
  }

  /** 2 to the power 4 + 2i: dividing by it shifts right to the i-th group. */
  function Shift(i: nat): (s: nat)
    requires i < 6
    ensures s > 0
  {
    [16, 64, 256, 1024, 4096, 16384][i]
  }

  /** What is left of the word from the i-th group on. */
  function CodesFrom(t: uint16, i: nat): nat
    requires i <= 6
  {
    if i == 6 then 0 else t / Shift(i)
  }

  lemma NextGroup(t: uint16, i: nat)
    requires i < 6
    ensures CodesFrom(t, i) / 4 == CodesFrom(t, i + 1)
  {
    if i == 0 {} else if i == 1 {} else if i == 2 {} else if i == 3 {} else if i == 4 {} else {}
  }

  function Group(t: uint16, i: nat): (m: nat)
    requires i < 6
    ensures m < 4
  {
    (t / Shift(i)) % 4
  }

  /** Taking the i-th group, unless it is empty, moves the boundary one group up. */
  lemma TakeGroup(t: uint16, i: nat, mods: seq<Mod>)
    requires i < 6 && mods + ModsFrom(CodesFrom(t, i), 6 - i) == ModsOf(t)
    ensures (if Group(t, i) == 0 then mods else mods + [ModOf(Group(t, i))]) + ModsFrom(CodesFrom(t, i + 1), 5 - i)
      == ModsOf(t)
  {
    NextGroup(t, i);
    var here := if Group(t, i) == 0 then [] else [ModOf(Group(t, i))];
    assert ModsFrom(CodesFrom(t, i), 6 - i) == here + ModsFrom(CodesFrom(t, i + 1), 5 - i);
    assert mods + (here + ModsFrom(CodesFrom(t, i + 1), 5 - i)) == mods + here + ModsFrom(CodesFrom(t, i + 1), 5 - i);
  }

  /** `Type.Mods`: the loop over the six groups. */
  method Mods(t: uint16) returns (mods: seq<Mod>)
    ensures mods == ModsOf(t)
  {
    hide ModsFrom, ModsOf;
    mods := [];
    assert ModsFrom(CodesFrom(t, 0), 6) == ModsOf(t) by { NothingTaken(t); }
    assert mods + ModsFrom(CodesFrom(t, 0), 6) == ModsFrom(CodesFrom(t, 0), 6);
    for i := 0 to 6
      invariant mods + ModsFrom(CodesFrom(t, i), 6 - i) == ModsOf(t)
    {
      TakeGroup(t, i, mods);
      var modMask := (t / Shift(i)) % 4;
      if modMask == 0 {
        continue;
      }
      mods := mods + [ModOf(modMask)];
    }
    AllTaken(t, mods);
  }

  lemma NothingTaken(t: uint16)
    ensures ModsFrom(CodesFrom(t, 0), 6) == ModsOf(t)
  {
  }

  lemma AllTaken(t: uint16, mods: seq<Mod>)
    ensures mods + ModsFrom(CodesFrom(t, 6), 0) == mods
  {
  }

  // ----- packing modifiers back into a word -----

  function Pack(mods: seq<Mod>): nat {
    if mods == [] then 0 else Code(mods[0]) + 4 * Pack(mods[1..])
  }

  function Word(base: nat, mods: seq<Mod>): nat {
    base + 16 * Pack(mods)
  }

  function Pow4(n: nat): (p: nat)
    ensures p > 0
  {
    if n == 0 then 1 else 4 * Pow4(n - 1)
  }

  lemma {:induction false} PackBound(mods: seq<Mod>)
    ensures Pack(mods) < Pow4(|mods|)
  {
    if mods != [] { PackBound(mods[1..]); }
  }

  lemma {:induction false} ModsFromPack(mods: seq<Mod>, n: nat)
    requires |mods| <= n
    ensures ModsFrom(Pack(mods), n) == mods
    decreases n
  {
    if n > 0 {
      if mods == [] {
        ModsFromPack([], n - 1);
      } else {
        PackHead(mods);
        ModsFromPack(mods[1..], n - 1);
        hide Pack, ModOf;
        assert mods == [mods[0]] + mods[1..];
      }
    }
  }

  lemma PackHead(mods: seq<Mod>)
    requires mods != []
    ensures Pack(mods) % 4 == Code(mods[0]) && Pack(mods) / 4 == Pack(mods[1..])
    ensures 1 <= Code(mods[0]) <= 3 && ModOf(Code(mods[0])) == mods[0]
  {
    FirstOfSum(Code(mods[0]), Pack(mods[1..]));
  }

  lemma FirstOfSum(c: nat, p: nat)
    requires c < 4
    ensures (c + 4 * p) % 4 == c && (c + 4 * p) / 4 == p
  {
  }

  /** Every base and every list of at most six modifiers has a word, from which both are read back. */
  lemma WordOfMods(base: nat, mods: seq<Mod>)
    requires base < 16 && |mods| <= 6
    ensures Word(base, mods) < TWO16
    ensures BaseBits(Word(base, mods)) == base && ModsOf(Word(base, mods)) == mods
  {
    PackBound(mods);
    Pow4Monotone(|mods|, 6);
    assert Pow4(6) == 4096;
    ModsFromPack(mods, 6);
    assert Word(base, mods) / 16 == Pack(mods);
  }

  lemma {:induction false} Pow4Monotone(m: nat, n: nat)
    requires m <= n
    ensures Pow4(m) <= Pow4(n)
    decreases n
  {
    if m < n { Pow4Monotone(m, n - 1); }
  }

  /** No empty group below a group in use. */
  predicate GapFree(bits: nat, n: nat) {
    n == 0 || (if bits % 4 == 0 then bits == 0 else GapFree(bits / 4, n - 1))
  }

  lemma {:induction false} SkippingGapsShrinks(bits: nat, n: nat)
    ensures Pack(ModsFrom(bits, n)) <= bits
    decreases n
  {
    if n > 0 {
      SkippingGapsShrinks(bits / 4, n - 1);
      PackFirst(bits, n);
    }
  }

  lemma PackFirst(bits: nat, n: nat)
    requires n > 0
    ensures Pack(ModsFrom(bits, n)) ==
      if bits % 4 == 0 then Pack(ModsFrom(bits / 4, n - 1)) else bits % 4 + 4 * Pack(ModsFrom(bits / 4, n - 1))
  {
    var rest := ModsFrom(bits / 4, n - 1);
    if bits % 4 == 0 {
      assert ModsFrom(bits, n) == rest;
    } else {
      assert ModsFrom(bits, n)[1..] == rest;
    }
  }

  lemma {:induction false} PackModsFrom(bits: nat, n: nat)
    requires bits < Pow4(n)
    ensures Pack(ModsFrom(bits, n)) == bits <==> GapFree(bits, n)
    decreases n
  {
    if n > 0 {
      PackModsFrom(bits / 4, n - 1);
      SkippingGapsShrinks(bits / 4, n - 1);
      PackFirst(bits, n);
    }
  }

  /** A word is the packing of its base and modifiers exactly when it has no gap. */
  lemma WordIsItsMods(t: uint16)
    ensures Word(BaseBits(t), ModsOf(t)) == t <==> GapFree(t / 16, 6)
  {
    assert Pow4(6) == 4096;
    PackModsFrom(t / 16, 6);
  }

  // ----- the type a word stands for -----

  function Arrays(mods: seq<Mod>): (n: nat)
    ensures n <= |mods|
  {
    if mods == [] then 0 else (if mods[0] == ArrayMod then 1 else 0) + Arrays(mods[1..])
  }

  /** The first modifier is the outermost constructor; array lengths are used up innermost first. */
  function Build<B>(u: B, mods: seq<Mod>, dims: seq<nat>): CType<B>
    requires Arrays(mods) <= |dims|
  {
    if mods == [] then BaseType(u)
    else
      var inner := Build(u, mods[1..], dims);
      match mods[0]
      case PointerMod => PointerTo(inner)
      case FunctionMod => FuncOf(inner, [], false)
      case ArrayMod => ArrayOf(inner, dims[Arrays(mods[1..])])
  }

  function ModsOfType<B>(t: CType<B>): seq<Mod> {
    match t
    case BaseType(_) => []
    case PointerTo(e) => [PointerMod] + ModsOfType(e)
    case ArrayOf(e, _) => [ArrayMod] + ModsOfType(e)
    case FuncOf(r, _, _) => [FunctionMod] + ModsOfType(r)
  }

  /** The array lengths of a type, innermost first. */
  function LengthsOf<B>(t: CType<B>): seq<nat> {
    match t
    case BaseType(_) => []
    case PointerTo(e) => LengthsOf(e)
    case ArrayOf(e, len) => LengthsOf(e) + [len]
    case FuncOf(r, _, _) => LengthsOf(r)
  }

  lemma {:induction false} BuildKeepsEverything<B>(u: B, mods: seq<Mod>, dims: seq<nat>)
    requires Arrays(mods) <= |dims|
    ensures BaseOf(Build(u, mods, dims)) == u
    ensures ModsOfType(Build(u, mods, dims)) == mods
    ensures LengthsOf(Build(u, mods, dims)) == dims[..Arrays(mods)]
  {
    if mods != [] {
      BuildKeepsEverything(u, mods[1..], dims);
      assert mods == [mods[0]] + mods[1..];
      if mods[0] == ArrayMod {
        var n := Arrays(mods[1..]);
        assert dims[..n + 1] == dims[..n] + [dims[n]];
      }
    }
  }

  /** The round trip: from a type word, through the type and its printed declaration, back to the base,
      every modifier, every array length used and the name; and back to the word itself exactly when
      the word has no gap. */
  lemma DeclarationRoundTrip<B>(u: B, t: uint16, dims: seq<nat>, name: string, rest: seq<Token<B>>)
    requires Arrays(ModsOf(t)) <= |dims| && Ends(rest)
    ensures
      var r := ReadVar(PrintDeclaration(Build(u, ModsOf(t), dims), name) + rest);
      && r.Got? && r.rest == rest && r.value.name == name
      && BaseOf(r.value.typ) == u
      && ModsOfType(r.value.typ) == ModsOf(t)
      && LengthsOf(r.value.typ) == dims[..Arrays(ModsOf(t))]
      && (Word(BaseBits(t), ModsOfType(r.value.typ)) == t <==> GapFree(t / 16, 6))
  {
    ReadsBack(Build(u, ModsOf(t), dims), name, rest);
    BuildKeepsEverything(u, ModsOf(t), dims);
    WordIsItsMods(t);
  }

  /** Two declarations that print alike declare the same name with the same type. */
  lemma PrintingIsInjective<B>(t: CType<B>, name: string, t': CType<B>, name': string)
    requires PrintDeclaration(t, name) == PrintDeclaration(t', name')
    ensures t == t' && name == name'
  {
    ReadsBack(t, name, []);
    ReadsBack(t', name', []);
  }
}

// What a type word says, bit by bit: the type objects it stands for, and where it has none (type.go,
// csym/parse_types.go).

module WordBits {
  import opened Ints
  import opened CTypes
  import opened TypeGraph
  import opened TypeTrees
  import opened Naming
  import opened TypeWord
  import opened Records
  import opened TypesState
  import opened TagGroups
  import opened GroupScan
  import opened GlobalDecls

  /** The i-th pair of bits above the lowest four. */
  function Pair(word: uint16, i: nat): (p: nat)
    requires i < 6
    ensures p < 4
  {
    word / [16, 64, 256, 1024, 4096, 16384][i] % 4
  }

  /** The pairs in use below the i-th. */
  function Below(word: uint16, i: nat): set<nat>
    requires i <= 6
  {
    set j: nat | j < i && Pair(word, j) != 0
  }

  /** The pairs above the i-th that make an array. */
  function ArraysAbove(word: uint16, i: nat): set<nat>
    requires i < 6
  {
    set j: nat | i < j < 6 && Pair(word, j) == 3
  }

  lemma PairIsGroup(word: uint16, i: nat)
    requires i < 6
    ensures Pair(word, i) == Group(word, i)
  {
  }

  lemma BelowNext(word: uint16, i: nat)
    requires i < 6
    ensures |Below(word, i + 1)| == |Below(word, i)| + (if Pair(word, i) != 0 then 1 else 0)
  {
    assert Below(word, i + 1) == Below(word, i) + (if Pair(word, i) != 0 then {i} else {});
  }

  /** The modifiers of the pairs below the i-th come first, and those from the i-th on behind them. */
  lemma {:induction false} ModsSplit(word: uint16, i: nat) returns (ms: seq<Mod>)
    requires i <= 6
    ensures |ms| == |Below(word, i)| && ms + ModsFrom(CodesFrom(word, i), 6 - i) == ModsOf(word)
    decreases i
  {
    if i == 0 {
      ms := [];
      NothingTaken(word);
      assert Below(word, 0) == {};
    } else {
      ms := ModsSplit(word, i - 1);
      TakeGroup(word, i - 1, ms);
      PairIsGroup(word, i - 1);
      BelowNext(word, i - 1);
      if Group(word, i - 1) != 0 { ms := ms + [ModOf(Group(word, i - 1))]; }
    }
  }

  /** The modifier a pair stands for: 1 is a pointer, 2 a function, 3 an array.  It comes behind those of
      the pairs in use below. */
  lemma ModOfPair(word: uint16, i: nat)
    requires i < 6 && Pair(word, i) != 0
    ensures var k := |Below(word, i)|;
      && k < |ModsOf(word)|
      && (ModsOf(word)[k].PointerMod? <==> Pair(word, i) == 1)
      && (ModsOf(word)[k].FunctionMod? <==> Pair(word, i) == 2)
      && (ModsOf(word)[k].ArrayMod? <==> Pair(word, i) == 3)
  {
    var ms := ModsSplit(word, i);
    TakeGroup(word, i, ms);
    PairIsGroup(word, i);
    var rest := ModsFrom(CodesFrom(word, i + 1), 5 - i);
    assert (ms + [ModOf(Group(word, i))] + rest)[|ms|] == ModOf(Group(word, i));
  }

  /** There are as many modifiers as pairs in use. */
  lemma ModsCount(word: uint16)
    ensures |ModsOf(word)| == |Below(word, 6)|
  {
    var ms := ModsSplit(word, 6);
  }

  function ArraysFrom(word: uint16, i: nat): set<nat>
    requires i <= 6
  {
    set j: nat | i <= j < 6 && Pair(word, j) == 3
  }

  lemma ArraysNext(word: uint16, i: nat)
    requires i < 6
    ensures |ArraysFrom(word, i)| == (if Pair(word, i) == 3 then 1 else 0) + |ArraysFrom(word, i + 1)|
  {
    assert ArraysFrom(word, i) == ArraysFrom(word, i + 1) + (if Pair(word, i) == 3 then {i} else {});
  }

  lemma ModsHere(word: uint16, i: nat)
    requires i < 6
    ensures ModsFrom(CodesFrom(word, i), 6 - i)
      == (if Pair(word, i) == 0 then [] else [ModOf(Pair(word, i))]) + ModsFrom(CodesFrom(word, i + 1), 5 - i)
  {
    NextGroup(word, i);
    PairIsGroup(word, i);
  }

  lemma OneMore(m: Mod, rest: seq<Mod>)
    ensures Arrays([m] + rest) == (if m == ArrayMod then 1 else 0) + Arrays(rest)
  {
    assert ([m] + rest)[1..] == rest;
  }

  lemma {:induction false} ArraysFromHere(word: uint16, i: nat)
    requires i <= 6
    ensures Arrays(ModsFrom(CodesFrom(word, i), 6 - i)) == |ArraysFrom(word, i)|
    decreases 6 - i
  {
    if i == 6 {
      assert ArraysFrom(word, 6) == {};
    } else {
      ArraysFromHere(word, i + 1);
      ModsHere(word, i);
      ArraysNext(word, i);
      hide ModsFrom, CodesFrom, Pair, ArraysFrom;
      var rest := ModsFrom(CodesFrom(word, i + 1), 5 - i);
      if Pair(word, i) != 0 { OneMore(ModOf(Pair(word, i)), rest); } else { assert [] + rest == rest; }
    }
  }

  /** The modifiers behind that of a pair are those of the pairs above. */
  lemma ModsBehind(word: uint16, i: nat)
    requires i < 6 && Pair(word, i) != 0
    ensures var k := |Below(word, i)|;
      k < |ModsOf(word)| && Arrays(ModsOf(word)[k + 1..]) == |ArraysAbove(word, i)|
  {
    var ms := ModsSplit(word, i);
    TakeGroup(word, i, ms);
    PairIsGroup(word, i);
    var m, rest := ModOf(Group(word, i)), ModsFrom(CodesFrom(word, i + 1), 5 - i);
    assert (ms + [m] + rest)[|ms| + 1..] == rest;
    ArraysFromHere(word, i + 1);
    assert ArraysAbove(word, i) == ArraysFrom(word, i + 1);
  }

  /** There are as many array lengths in use as pairs that make an array. */
  lemma ArraysCount(word: uint16)
    ensures Arrays(ModsOf(word)) == |ArraysFrom(word, 0)|
  {
    NothingTaken(word);
    ArraysFromHere(word, 0);
  }

  // ----- type objects -----

  lemma {:induction false} LevelsDown(g: Graph, t: Type, u: Type, mods: seq<Mod>, dims: seq<nat>, m: nat)
    requires m <= |mods| && Arrays(mods) <= |dims| && Represents(g, t, Build(u, mods, dims))
    ensures Arrays(mods[m..]) <= |dims| && Represents(g, Strip(g, t, m), Build(u, mods[m..], dims))
    decreases m
  {
    if m == 0 {
      assert mods[0..] == mods;
    } else {
      var d := g[t.node];
      LevelsDown(g, if d.Func? then d.ret else d.elem, u, mods[1..], dims, m - 1);
      assert mods[1..][m - 1..] == mods[m..];
    }
  }

  /** The object a pair of bits stands for: a pointer, a function without parameters, or an array with this
      length. */
  predicate IsModified(g: Graph, t: Type, pair: nat, len: nat) {
    && t.Ref? && t.node in g
    && (pair == 1 ==> g[t.node].Pointer?)
    && (pair == 2 ==> g[t.node].Func? && g[t.node].params == [] && !g[t.node].variadic)
    && (pair == 3 ==> g[t.node].Array? && g[t.node].len == len)
  }

  /** The type a base number stands for; 6, 7 and 11 have none. */
  predicate IsBase(v: State, base: int, tag: string, t: Type) {
    match base
    case 0 => t.Ref? && t.node in v.g && v.g[t.node].Decl? && v.g[t.node].v.name == "bool"
    case 1 => t == Basic(Void)
    case 2 => t == Basic(Char)
    case 3 => t == Basic(Short)
    case 4 => t == Basic(Int)
    case 5 => t == Basic(Long)
    case 8 => IsLastTagged(v.structs, tag, t)
    case 9 => IsLastTagged(v.unions, tag, t)
    case 10 => IsLastTagged(v.enums, tag, t)
    case 12 => t == Basic(UChar)
    case 13 => t == Basic(UShort)
    case 14 => t == Basic(UInt)
    case 15 => t == Basic(ULong)
    case _ => false
  }

  predicate IsLastTagged(table: Table, tag: string, t: Type) {
    var name := ValidName(tag);
    name in table.groups && table.groups[name] != [] && t == Ref(table.groups[name][|table.groups[name]| - 1])
  }

  lemma BaseByNumber(v: State, word: uint16, tag: string, t: Type)
    requires Resolves(v, BaseBits(word), tag, t)
    ensures IsBase(v, word % 16, tag, t)
  {
  }

  /** The array length for a pair: lengths are used up from the highest pair down. */
  function LengthFor(word: uint16, i: nat, dims: seq<nat>): nat
    requires i < 6
  {
    if |ArraysAbove(word, i)| < |dims| then dims[|ArraysAbove(word, i)|] else 0
  }

  /** A type that a word stands for, bit by bit: under as many modifiers as there are pairs in use below a
      pair comes the object for that pair, and under all of them the base type. */
  lemma TypeInBits(v: State, t: Type, word: uint16, dims: seq<nat>, tag: string)
    requires TypeMatches(v, t, word, dims, tag)
    ensures forall i | 0 <= i < 6 && Pair(word, i) != 0 ::
      IsModified(v.g, Strip(v.g, t, |Below(word, i)|), Pair(word, i), LengthFor(word, i, dims))
    ensures IsBase(v, word % 16, tag, Strip(v.g, t, |Below(word, 6)|))
    ensures |ArraysFrom(word, 0)| <= |dims|
  {
    hide Resolves, ModsFrom, ModsOf, Pair, BaseBits, IsBase;
    var mods := ModsOf(word);
    var base := Strip(v.g, t, |mods|);
    ModsCount(word);
    ArraysCount(word);
    BaseByNumber(v, word, tag, base);
    forall i | 0 <= i < 6 && Pair(word, i) != 0
      ensures IsModified(v.g, Strip(v.g, t, |Below(word, i)|), Pair(word, i), LengthFor(word, i, dims))
    {
      var k := |Below(word, i)|;
      ModOfPair(word, i);
      ModsBehind(word, i);
      LevelsDown(v.g, t, base, mods, dims, k);
      assert mods[k..][0] == mods[k] && mods[k..][1..] == mods[k + 1..];
    }
  }

  /** Where a word has no type: at a base number that is not supported, and otherwise exactly if there are
      fewer array lengths than pairs that make an array. */
  lemma WordOutcome(word: uint16, dims: seq<nat>)
    ensures TypeOutcome(word, dims)
      == if word % 16 in {6, 7, 11} then Panicked(UnsupportedBase)
         else if |ArraysFrom(word, 0)| > |dims| then Panicked(MissingLength)
         else Good(Done)
  {
    ArraysCount(word);
  }

  lemma LowestPair(word: uint16) returns (i: nat)
    requires ModsOf(word) != []
    ensures i < 6 && Pair(word, i) != 0 && forall j: nat | j < i :: Pair(word, j) == 0
  {
    ModsCount(word);
    var k :| k in Below(word, 6);
    i := 0;
    while Pair(word, i) == 0
      invariant i < 6 && forall j: nat | j < i :: Pair(word, j) == 0
      decreases 6 - i
    {
      i := i + 1;
    }
  }

  /** A word makes a function type exactly if its lowest pair in use is 2. */
  lemma FuncWord(word: uint16)
    ensures IsFuncWord(word)
      <==> exists i: nat | i < 6 :: Pair(word, i) == 2 && forall j: nat | j < i :: Pair(word, j) == 0
  {
    hide Pair, ModsOf;
    if ModsOf(word) != [] {
      var i := LowestPair(word);
      ModOfPair(word, i);
      assert Below(word, i) == {};
    }
    if i: nat :| i < 6 && Pair(word, i) == 2 && forall j: nat | j < i :: Pair(word, j) == 0 {
      ModOfPair(word, i);
      assert Below(word, i) == {};
    }
  }

  /** The type of a definition, bit by bit: a long definition has array lengths and a tag, a short one has
      neither. */
  lemma RecordTypeInBits(v: State, t: Type, s: Symbol)
    requires s.body.Def? || s.body.Def2?
    requires TypeMatches(v, t, s.body.typ, DimsOf(s), TagTextOf(s))
    ensures var dims := if s.body.Def2? then s.body.dims else [];
      forall i | 0 <= i < 6 && Pair(s.body.typ, i) != 0 ::
        IsModified(v.g, Strip(v.g, t, |Below(s.body.typ, i)|), Pair(s.body.typ, i), LengthFor(s.body.typ, i, dims))
    ensures IsBase(v, s.body.typ % 16, if s.body.Def2? then s.body.tag else "",
      Strip(v.g, t, |Below(s.body.typ, 6)|))
  {
    hide TypeMatches, Pair, Below, IsBase, IsModified;
    TypeInBits(v, t, s.body.typ, DimsOf(s), TagTextOf(s));
  }
}

// Single inputs with their results, most of them from comments in the program.

module Examples {
  import opened Ints
  import opened Fields
  import opened Records
  import opened Naming
  import opened Spelling
  import opened DeclaratorPrinter
  import opened TypeWord
  import opened ByteLayout
  import opened FuncIndex
  import opened TagGroups
  import opened UniqueTags
  import PF = ParseFunc

  /** The type definition of u_char (symbol.go:489), under a shorter name. */
  const DEFINITION: bytes := [0, 0, 0, 0, 0x94, 0x0D, 0, 0x0C, 0, 0, 0, 0, 0, 1, 0x75]

  /** Class 13, a type definition, and type 12, an unsigned character. */
  lemma DefinitionIsRead()
    ensures GetSymbol(DEFINITION) == Parsed(Symbol(Header(0, 0x94), Def(0x0D, 0x0C, 0, "u")), [])
  {
    var s := Symbol(Header(0, 0x94), Def(0x0D, 0x0C, 0, "u"));
    assert IsText(DEFINITION, 13, "u");
    assert IsRecord(DEFINITION, 0, s);
    assert DEFINITION[0..] == DEFINITION && DEFINITION[15..] == [];
    hide GetSymbol, IsRecord;
    RecordLayout(DEFINITION, 0, s);
  }

  /** The words of type.go:18-48, and one with an array: a function that returns a pointer to int, a pointer
      to such a function, and an array of pointers to characters. */
  lemma WordsAreRead()
    ensures ModsOf(0x24) == [FunctionMod]
    ensures ModsOf(0x64) == [FunctionMod, PointerMod] && BaseBits(0x64) == 4
    ensures ModsOf(0x94) == [PointerMod, FunctionMod] && BaseBits(0x94) == 4
    ensures ModsOf(0x72) == [ArrayMod, PointerMod] && BaseBits(0x72) == 2
  {
    hide ModsOf, ModsFrom;
    FourGroups(0x24);
    FourGroups(0x64);
    FourGroups(0x94);
    FourGroups(0x72);
  }

  lemma FourGroups(word: uint16)
    requires word < 0x100
    ensures ModsOf(word)
      == (if word / 16 % 4 == 0 then [] else [ModOf(word / 16 % 4)])
         + if word / 64 == 0 then [] else [ModOf(word / 64)]
  {
    var a, b := word / 16, word / 64;
    assert a / 4 == b && b / 4 == 0 && b % 4 == b;
    NoModsInZero(4);
    assert ModsFrom(b, 5) == (if b == 0 then [] else [ModOf(b)]) + ModsFrom(0, 4);
    assert ModsFrom(a, 6) == (if a % 4 == 0 then [] else [ModOf(a % 4)]) + ModsFrom(b, 5);
  }

  lemma NoModsInZero(n: nat)
    ensures ModsFrom(0, n) == []
  {
  }

  /** `int *f()`, `int (*v)()` and `char *a[3]`. */
  lemma WordsArePrinted()
    ensures PrintDeclaration(Build("int", [FunctionMod, PointerMod], []), "f")
      == [TBase("int"), TStar, TName("f"), TOpen, TClose]
    ensures PrintDeclaration(Build("int", [PointerMod, FunctionMod], []), "v")
      == [TBase("int"), TOpen, TStar, TName("v"), TClose, TOpen, TClose]
    ensures PrintDeclaration(Build("char", [ArrayMod, PointerMod], [3]), "a")
      == [TBase("char"), TStar, TName("a"), TLeft, TNum(3), TRight]
  {
  }

  /** The tag of a type that has none in the program. */
  lemma TagIsMade()
    ensures ValidName(".1fake") == "_1fake"
  {
    AsciiName(".1fake");
  }

  lemma HexNext(x: nat, d: nat, s: string)
    requires d < 16 && Hex(x, |s|) == s
    ensures Hex(16 * x + d, |s| + 1) == s + [HexDigit(d)]
  {
    assert (16 * x + d) / 16 == x && (16 * x + d) % 16 == d;
  }

  lemma NoHex()
    ensures Hex(0, 0) == ""
  {
  }

  /** A function name with its address. */
  lemma NameIsMade()
    ensures UniqueName("main", 0x8001_00AB) == "main_addr_800100AB"
  {
    hide Hex;
    NoHex();
    HexNext(0, 8, "");
    HexNext(0x8, 0, "8");
    HexNext(0x80, 0, "80");
    HexNext(0x800, 1, "800");
    HexNext(0x8001, 0, "8001");
    HexNext(0x8001_0, 0, "80010");
    HexNext(0x8001_00, 10, "800100");
    HexNext(0x8001_00A, 11, "800100A");
  }

  /** The second enum member of a name, and the tag of the 13th type of a name. */
  lemma NumbersAreMade()
    ensures Candidate("RED", 1) == "RED_DUPLICATE_0"
    ensures UniqueTag("pt", 's', 12) == "pt_duplicate_s12"
  {
    assert Decimal(12) == Decimal(1) + "2";
  }

  /** A block that starts in line 1 of a function that starts in line 88 is in line 88. */
  lemma FirstBlockLine(start: Symbol, block: Symbol)
    requires start.body.FuncStart? && start.body.line == 88 && block.body == BlockStart(1)
    ensures PF.FuncLine([start, block], 0, 2) == 88
  {
  }
}

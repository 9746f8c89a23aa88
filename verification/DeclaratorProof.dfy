// Reading a printed declaration gives back its type and name.

module DeclaratorProof {
  import opened CTree
  import opened DeclaratorPrinter
  import opened DeclaratorReader

  // ----- the printed form of a declarator -----

  function PrintDecl<B>(d: Declarator<B>): seq<Token<B>> {
    match d
    case DName(name) => NameTokens(name)
    case DPointer(i) => [TStar] + PrintDecl(i)
    case DArray(i, len) => Grouped(i, PrintDecl(i)) + Brackets(len)
    case DFunc(i, ps, variadic) => Grouped(i, PrintDecl(i)) + ParenParams(ps, variadic)
  }

  /** Where a suffix follows, a pointer needs parentheses. */
  function Grouped<B>(d: Declarator<B>, ts: seq<Token<B>>): seq<Token<B>> {
    if d.DPointer? then [TOpen] + ts + [TClose] else ts
  }

  function PrintDirect<B>(d: Declarator<B>): seq<Token<B>> {
    Grouped(d, PrintDecl(d))
  }

  function BaseOf<B>(t: CType<B>): B {
    match t
    case BaseType(b) => b
    case PointerTo(e) => BaseOf(e)
    case ArrayOf(e, _) => BaseOf(e)
    case FuncOf(r, _, _) => BaseOf(r)
  }

  /** The declarator of a type, built inside out around the declarator of what is declared. */
  function ToDecl<B>(t: CType<B>, d: Declarator<B>): Declarator<B> {
    match t
    case BaseType(_) => d
    case PointerTo(e) => ToDecl(e, DPointer(d))
    case ArrayOf(e, len) => ToDecl(e, DArray(d, len))
    case FuncOf(r, ps, variadic) => ToDecl(r, DFunc(d, ps, variadic))
  }

  lemma {:induction false} ApplyToDecl<B>(t: CType<B>, d: Declarator<B>)
    ensures ApplyTo(ToDecl(t, d), BaseType(BaseOf(t))) == ApplyTo(d, t)
  {
    match t
    case BaseType(_) =>
    case PointerTo(e) => ApplyToDecl(e, DPointer(d));
    case ArrayOf(e, len) => ApplyToDecl(e, DArray(d, len));
    case FuncOf(r, ps, variadic) => ApplyToDecl(r, DFunc(d, ps, variadic));
  }

  function Printed<B>(t: CType<B>, d: Declarator<B>): seq<Token<B>> {
    if t.ArrayOf? || t.FuncOf? then PrintDirect(d) else PrintDecl(d)
  }

  /** The printer, which wraps the name from the inside out, prints the base type and the declarator. */
  lemma {:induction false} PrintsDeclarator<B>(t: CType<B>, d: Declarator<B>, name: seq<Token<B>>)
    requires name == Printed(t, d)
    ensures PrintVar(t, name) == [TBase(BaseOf(t))] + PrintDecl(ToDecl(t, d))
  {
    match t
    case BaseType(_) =>
    case PointerTo(e) =>
      if e.FuncOf? || e.ArrayOf? {
        assert [TOpen, TStar] + name + [TClose] == [TOpen] + ([TStar] + name) + [TClose];
        PrintsDeclarator(e, DPointer(d), [TOpen, TStar] + name + [TClose]);
      } else {
        PrintsDeclarator(e, DPointer(d), [TStar] + name);
      }
    case ArrayOf(e, len) => PrintsDeclarator(e, DArray(d, len), name + Brackets(len));
    case FuncOf(r, ps, variadic) => PrintsDeclarator(r, DFunc(d, ps, variadic), name + ParenParams(ps, variadic));
  }

  // ----- reading back -----

  /** What may follow a direct declarator without changing how it is read. */
  predicate Follows<B>(ts: seq<Token<B>>) {
    ts == [] || !(ts[0].TName? || ts[0].TStar? || (ts[0].TOpen? && StartsDeclarator(ts[1..])))
  }

  /** What may follow a whole declaration. */
  predicate Ends<B>(ts: seq<Token<B>>) {
    ts == [] || !(ts[0].TName? || ts[0].TStar? || ts[0].TOpen? || ts[0].TLeft?)
  }

  lemma ReadBrackets<B>(d: Declarator<B>, len: nat, rest: seq<Token<B>>)
    ensures ReadSuffixes(d, Brackets(len) + rest) == ReadSuffixes(DArray(d, len), rest)
    ensures Follows(Brackets(len) + rest)
  {
    var ts := Brackets(len) + rest;
    if len > 0 {
      assert ts[3..] == rest;
    } else {
      assert ts[2..] == rest;
    }
  }

  /** A parameter list prints as nothing, or as something that starts with a base type. */
  lemma PrintVarStartsWithBase<B>(t: CType<B>, name: seq<Token<B>>)
    ensures PrintVar(t, name)[0] == TBase(BaseOf(t))
    decreases t
  {
    match t
    case BaseType(_) =>
    case PointerTo(e) =>
      if e.FuncOf? || e.ArrayOf? {
        PrintVarStartsWithBase(e, [TOpen, TStar] + name + [TClose]);
      } else {
        PrintVarStartsWithBase(e, [TStar] + name);
      }
    case ArrayOf(e, len) => PrintVarStartsWithBase(e, name + Brackets(len));
    case FuncOf(r, ps, variadic) => PrintVarStartsWithBase(r, name + ParenParams(ps, variadic));
  }

  lemma ParenParamsShape<B>(ps: seq<Param<B>>, variadic: bool, rest: seq<Token<B>>)
    ensures var ts := ParenParams(ps, variadic); |ts| >= 2 && ts[0] == TOpen && !StartsDeclarator(ts[1..])
    ensures Follows(ParenParams(ps, variadic) + rest)
  {
    var ts := ParenParams(ps, variadic);
    if ps != [] {
      PrintVarStartsWithBase(ps[0].typ, NameTokens(ps[0].name));
      assert ts[1] == PrintParams(ps)[0] == PrintVar(ps[0].typ, NameTokens(ps[0].name))[0];
    }
    assert (ts + rest)[1..][0] == ts[1];
  }

  /** Main theorem: whatever is printed for a type and a name, pointers, arrays, functions and
      parameter lists nested in any way, reads back as that type and that name. */
  lemma {:induction false} ReadsBack<B>(t: CType<B>, name: string, rest: seq<Token<B>>)
    requires Ends(rest)
    ensures ReadVar(PrintDeclaration(t, name) + rest) == Got(Param(t, name), rest)
    decreases |PrintDeclaration(t, name)|, 1
  {
    var d := ToDecl(t, DName(name));
    PrintsDeclarator(t, DName(name), NameTokens(name));
    assert PrintDeclaration(t, name) == [TBase(BaseOf(t))] + PrintDecl(d);
    var ts := PrintDeclaration(t, name) + rest;
    assert ts[1..] == PrintDecl(d) + rest;
    ReadsDeclarator(d, rest);
    ApplyToDecl(t, DName(name));
  }

  lemma {:induction false} ReadsDeclarator<B>(d: Declarator<B>, rest: seq<Token<B>>)
    requires Ends(rest)
    ensures ReadDeclarator(PrintDecl(d) + rest) == Got(d, rest)
    decreases |PrintDecl(d)|, 2, d
  {
    var ts := PrintDecl(d) + rest;
    if d.DPointer? {
      assert ts[1..] == PrintDecl(d.inner) + rest;
      ReadsDeclarator(d.inner, rest);
    } else {
      ReadsDirect(d, rest);
      DirectStartsDirect(d, rest);
    }
  }

  lemma NameStartsDirect<B>(name: string, rest: seq<Token<B>>)
    requires Follows(rest)
    ensures NameTokens<B>(name) + rest != [] ==> !(NameTokens(name) + rest)[0].TStar?
  {
  }

  /** A direct declarator does not start with a star. */
  lemma {:induction false} DirectStartsDirect<B>(d: Declarator<B>, rest: seq<Token<B>>)
    requires Follows(rest)
    ensures PrintDirect(d) + rest != [] ==> !(PrintDirect(d) + rest)[0].TStar?
    decreases d
  {
    hide PrintVar, ParenParams, Brackets, ReadSuffixes, Follows;
    match d
    case DName(name) => NameStartsDirect(name, rest);
    case DPointer(_) =>
    case DArray(i, len) =>
      ReadBrackets(i, len, rest);
      DirectStartsDirect(i, Brackets(len) + rest);
      assert PrintDirect(d) + rest == PrintDirect(i) + (Brackets(len) + rest);
    case DFunc(i, ps, variadic) =>
      ParenParamsShape(ps, variadic, rest);
      DirectStartsDirect(i, ParenParams(ps, variadic) + rest);
      assert PrintDirect(d) + rest == PrintDirect(i) + (ParenParams(ps, variadic) + rest);
  }

  /** A direct declarator is read as itself, and reading goes on with the suffixes that follow. */
  lemma {:induction false} ReadsDirect<B>(d: Declarator<B>, rest: seq<Token<B>>)
    requires Follows(rest)
    ensures ReadDirect(PrintDirect(d) + rest) == ReadSuffixes(d, rest)
    decreases |PrintDirect(d)|, 1, d
  {
    hide ReadDirect, ReadSuffixes, ReadDeclarator, ReadParams, Follows, Ends, Brackets, ParenParams;
    var ts := PrintDirect(d) + rest;
    match d
    case DName(name) => ReadsName(name, rest);
    case DPointer(i) =>
      assert Ends([TClose] + rest) by { ClosingEnds(rest); }
      ReadsDeclarator(d, [TClose] + rest);
      ReadsNested(d, rest);
    case DArray(i, len) =>
      ReadBrackets(i, len, rest);
      ReadsDirect(i, Brackets(len) + rest);
      assert ts == PrintDirect(i) + (Brackets(len) + rest);
    case DFunc(i, ps, variadic) =>
      ParenParamsShape(ps, variadic, rest);
      ReadsDirect(i, ParenParams(ps, variadic) + rest);
      assert ts == PrintDirect(i) + (ParenParams(ps, variadic) + rest);
      ReadsParams(ps, variadic, rest);
      ReadsFuncSuffix(i, ps, variadic, rest);
  }

  lemma ReadsName<B>(name: string, rest: seq<Token<B>>)
    requires Follows(rest)
    ensures ReadDirect(PrintDirect(DName(name)) + rest) == ReadSuffixes(DName(name), rest)
  {
    var ts := NameTokens(name) + rest;
    if name != "" { assert ts[1..] == rest; } else { assert ts == rest; }
  }

  lemma ClosingEnds<B>(rest: seq<Token<B>>)
    ensures Ends([TClose] + rest)
  {
  }

  lemma ReadsNested<B>(d: Declarator<B>, rest: seq<Token<B>>)
    requires d.DPointer? && ReadDeclarator(PrintDecl(d) + ([TClose] + rest)) == Got(d, [TClose] + rest)
    ensures ReadDirect(PrintDirect(d) + rest) == ReadSuffixes(d, rest)
  {
    var ts := PrintDirect(d) + rest;
    assert ts[1..] == PrintDecl(d) + ([TClose] + rest);
    assert ([TClose] + rest)[1..] == rest;
  }

  lemma ReadsFuncSuffix<B>(i: Declarator<B>, ps: seq<Param<B>>, variadic: bool, rest: seq<Token<B>>)
    requires ReadParams((ParenParams(ps, variadic) + rest)[1..]) == Got((ps, variadic), rest)
    ensures ReadSuffixes(i, ParenParams(ps, variadic) + rest) == ReadSuffixes(DFunc(i, ps, variadic), rest)
  {
  }

  lemma ReadsNoParams<B>(variadic: bool, rest: seq<Token<B>>)
    ensures ReadParams((if variadic then [TDots, TClose] else [TClose]) + rest) == Got(([], variadic), rest)
  {
    var ts := (if variadic then [TDots, TClose] else [TClose]) + rest;
    if variadic { assert ts[2..] == rest; } else { assert ts[1..] == rest; }
  }

  lemma {:induction false} ReadsParams<B>(ps: seq<Param<B>>, variadic: bool, rest: seq<Token<B>>)
    ensures ReadParams((ParenParams(ps, variadic) + rest)[1..]) == Got((ps, variadic), rest)
    decreases |ParenParams(ps, variadic)|, 0
  {
    hide ReadParamList, PrintVar;
    var ts := (ParenParams(ps, variadic) + rest)[1..];
    if ps == [] {
      ReadsNoParams(variadic, rest);
      assert ts == (if variadic then [TDots, TClose] else [TClose]) + rest;
    } else {
      var tail := ListEnd(variadic, rest);
      assert ts == PrintParams(ps) + tail;
      PrintVarStartsWithBase(ps[0].typ, NameTokens(ps[0].name));
      assert ts[0] == PrintParams(ps)[0];
      ReadsParamList(ps, variadic, rest);
    }
  }

  lemma {:induction false} ReadsParamList<B>(ps: seq<Param<B>>, variadic: bool, rest: seq<Token<B>>)
    requires ps != []
    ensures ReadParamList(PrintParams(ps) + ListEnd(variadic, rest)) == Got((ps, variadic), rest)
    decreases |PrintParams(ps)|, 2
  {
    hide ReadVar, ReadParamList, PrintVar, Ends;
    var tail := ListEnd(variadic, rest);
    var first := PrintDeclaration(ps[0].typ, ps[0].name);
    assert Ends(tail) by { ListEndEnds(variadic, rest); }
    if |ps| == 1 {
      ReadsBack(ps[0].typ, ps[0].name, tail);
      ReadsLast(first + tail, ps[0], variadic, rest);
      assert ps == [ps[0]];
    } else {
      var next := PrintParams(ps[1..]) + tail;
      assert PrintParams(ps) + tail == first + ([TComma] + next);
      assert Ends([TComma] + next) by { CommaEnds(next); }
      ReadsBack(ps[0].typ, ps[0].name, [TComma] + next);
      PrintVarStartsWithBase(ps[1].typ, NameTokens(ps[1].name));
      assert next[0] == PrintParams(ps[1..])[0];
      ReadsParamList(ps[1..], variadic, rest);
      ReadsNext(first + ([TComma] + next), ps[0], next, ps[1..], variadic, rest);
      assert ps == [ps[0]] + ps[1..];
    }
  }

  /** What follows the last parameter. */
  function ListEnd<B>(variadic: bool, rest: seq<Token<B>>): seq<Token<B>> {
    (if variadic then [TComma, TDots] else []) + [TClose] + rest
  }

  lemma ListEndEnds<B>(variadic: bool, rest: seq<Token<B>>)
    ensures Ends(ListEnd(variadic, rest))
  {
  }

  lemma CommaEnds<B>(next: seq<Token<B>>)
    ensures Ends([TComma] + next)
  {
  }

  lemma ReadsLast<B>(ts: seq<Token<B>>, p: Param<B>, variadic: bool, rest: seq<Token<B>>)
    requires ReadVar(ts) == Got(p, ListEnd(variadic, rest))
    ensures ReadParamList(ts) == Got(([p], variadic), rest)
  {
    var tail := ListEnd(variadic, rest);
    if variadic { assert tail[3..] == rest; } else { assert tail[1..] == rest; }
  }

  lemma ReadsNext<B>(
    ts: seq<Token<B>>, p: Param<B>, next: seq<Token<B>>, ps: seq<Param<B>>, variadic: bool, rest: seq<Token<B>>)
    requires ReadVar(ts) == Got(p, [TComma] + next) && next != [] && next[0].TBase?
    requires ReadParamList(next) == Got((ps, variadic), rest)
    ensures ReadParamList(ts) == Got(([p] + ps, variadic), rest)
  {
    assert ([TComma] + next)[1..] == next;
  }
}

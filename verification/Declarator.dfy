// C declarators: the printer of the program, and a reader for what it prints.

/** Types as trees, with the base types left opaque. */
module CTree {
  datatype CType<B> =
    | BaseType(base: B)
    | PointerTo(elem: CType<B>)
    | ArrayOf(elem: CType<B>, len: nat)
    | FuncOf(ret: CType<B>, params: seq<Param<B>>, variadic: bool)

  datatype Param<B> = Param(typ: CType<B>, name: string)
}

/** `Var.String` (csym/c/type.go): a declaration printed inside out, at the level of tokens. */
module DeclaratorPrinter {
  import opened CTree

  datatype Token<B> =
    | TBase(base: B) | TName(name: string) | TStar | TOpen | TClose | TLeft | TRight | TNum(n: nat) | TComma | TDots

  /** An empty name prints nothing: the declarator is then abstract. */
  function NameTokens<B>(name: string): seq<Token<B>> {
    if name == "" then [] else [TName(name)]
  }

  function Brackets<B>(len: nat): seq<Token<B>> {
    if len > 0 then [TLeft, TNum(len), TRight] else [TLeft, TRight]
  }

  function PrintVar<B>(t: CType<B>, name: seq<Token<B>>): (ts: seq<Token<B>>)
    ensures |ts| > 0
    decreases t
  {
    match t
    case PointerTo(e) =>
      if e.FuncOf? || e.ArrayOf? then PrintVar(e, [TOpen, TStar] + name + [TClose])
      else PrintVar(e, [TStar] + name)
    case ArrayOf(e, len) => PrintVar(e, name + Brackets(len))
    case FuncOf(r, ps, variadic) => PrintVar(r, name + ParenParams(ps, variadic))
    case BaseType(b) => [TBase(b)] + name
  }

  /** The parameters, separated by commas. */
  function PrintParams<B>(ps: seq<Param<B>>): seq<Token<B>>
    decreases ps, 0
  {
    if ps == [] then []
    else
      var first := PrintVar(ps[0].typ, NameTokens(ps[0].name));
      if |ps| == 1 then first else first + [TComma] + PrintParams(ps[1..])
  }

  function ParenParams<B>(ps: seq<Param<B>>, variadic: bool): seq<Token<B>>
    decreases ps, 1
  {
    [TOpen] + PrintParams(ps) + (if variadic then (if |ps| > 0 then [TComma] else []) + [TDots] else []) + [TClose]
  }

  /** A whole declaration. */
  function PrintDeclaration<B>(t: CType<B>, name: string): seq<Token<B>> {
    PrintVar(t, NameTokens(name))
  }
}

/** A reader for declarations, after section 6.7.5 of ISO/IEC 9899:1999, with abstract declarators
    after section 6.7.6. */
module DeclaratorReader {
  import opened CTree
  import opened DeclaratorPrinter

  datatype Declarator<B> =
    | DName(name: string)
    | DPointer(inner: Declarator<B>)
    | DArray(inner: Declarator<B>, len: nat)
    | DFunc(inner: Declarator<B>, params: seq<Param<B>>, variadic: bool)

  datatype Read<+T, B> = Fail | Got(value: T, rest: seq<Token<B>>)

  /** The type and name a declarator gives when applied to the type it declares from. */
  function ApplyTo<B>(d: Declarator<B>, t: CType<B>): Param<B> {
    match d
    case DName(name) => Param(t, name)
    case DPointer(i) => ApplyTo(i, PointerTo(t))
    case DArray(i, len) => ApplyTo(i, ArrayOf(t, len))
    case DFunc(i, ps, variadic) => ApplyTo(i, FuncOf(t, ps, variadic))
  }

  /** declaration: base declarator */
  function ReadVar<B>(ts: seq<Token<B>>): (r: Read<Param<B>, B>)
    ensures r.Got? ==> |r.rest| < |ts|
    decreases |ts|, 3
  {
    if ts == [] || !ts[0].TBase? then Fail
    else
      match ReadDeclarator(ts[1..])
      case Fail => Fail
      case Got(d, rest) => Got(ApplyTo(d, BaseType(ts[0].base)), rest)
  }

  /** declarator: `*` declarator, or a direct declarator */
  function ReadDeclarator<B>(ts: seq<Token<B>>): (r: Read<Declarator<B>, B>)
    ensures r.Got? ==> |r.rest| <= |ts|
    decreases |ts|, 2
  {
    if ts != [] && ts[0].TStar? then
      match ReadDeclarator(ts[1..])
      case Fail => Fail
      case Got(d, rest) => Got(DPointer(d), rest)
    else ReadDirect(ts)
  }

  predicate StartsDeclarator<B>(ts: seq<Token<B>>) {
    ts != [] && (ts[0].TStar? || ts[0].TName? || ts[0].TOpen? || ts[0].TLeft?)
  }

  /** direct declarator: an identifier, or `(` declarator `)`, or nothing; then array and function suffixes.
      A `(` opens a nested declarator exactly when a declarator can start after it. */
  function ReadDirect<B>(ts: seq<Token<B>>): (r: Read<Declarator<B>, B>)
    ensures r.Got? ==> |r.rest| <= |ts|
    decreases |ts|, 1
  {
    if ts != [] && ts[0].TName? then ReadSuffixes(DName(ts[0].name), ts[1..])
    else if ts != [] && ts[0].TOpen? && StartsDeclarator(ts[1..]) then
      match ReadDeclarator(ts[1..])
      case Fail => Fail
      case Got(d, rest) =>
        if rest != [] && rest[0].TClose? then ReadSuffixes(d, rest[1..]) else Fail
    else ReadSuffixes(DName(""), ts)
  }

  function ReadSuffixes<B>(d: Declarator<B>, ts: seq<Token<B>>): (r: Read<Declarator<B>, B>)
    ensures r.Got? ==> |r.rest| <= |ts|
    decreases |ts|, 0
  {
    if |ts| >= 2 && ts[0].TLeft? && ts[1].TRight? then ReadSuffixes(DArray(d, 0), ts[2..])
    else if |ts| >= 3 && ts[0].TLeft? && ts[1].TNum? && ts[1].n > 0 && ts[2].TRight? then
      ReadSuffixes(DArray(d, ts[1].n), ts[3..])
    else if ts != [] && ts[0].TLeft? then Fail
    else if ts != [] && ts[0].TOpen? then
      match ReadParams(ts[1..])
      case Fail => Fail
      case Got((ps, variadic), rest) => ReadSuffixes(DFunc(d, ps, variadic), rest)
    else Got(d, ts)
  }

  /** A parameter list up to and including its `)`. */
  function ReadParams<B>(ts: seq<Token<B>>): (r: Read<(seq<Param<B>>, bool), B>)
    ensures r.Got? ==> |r.rest| < |ts|
    decreases |ts|, 5
  {
    if ts != [] && ts[0].TClose? then Got(([], false), ts[1..])
    else if |ts| >= 2 && ts[0].TDots? && ts[1].TClose? then Got(([], true), ts[2..])
    else ReadParamList(ts)
  }

  function ReadParamList<B>(ts: seq<Token<B>>): (r: Read<(seq<Param<B>>, bool), B>)
    ensures r.Got? ==> |r.rest| < |ts|
    decreases |ts|, 4
  {
    match ReadVar(ts)
    case Fail => Fail
    case Got(p, rest) =>
      if rest != [] && rest[0].TClose? then Got(([p], false), rest[1..])
      else if |rest| >= 3 && rest[0].TComma? && rest[1].TDots? && rest[2].TClose? then Got(([p], true), rest[3..])
      else if rest != [] && rest[0].TComma? then
        match ReadParamList(rest[1..])
        case Fail => Fail
        case Got((ps, variadic), rest') => Got(([p] + ps, variadic), rest')
      else Fail
  }
}

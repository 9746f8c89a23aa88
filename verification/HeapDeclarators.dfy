// Printing the types of the graph: the tree that a type object and what it holds amount to (csym/c/type.go).

module HeapDeclarators {
  import opened CTypes
  import opened TypeGraph
  import opened Rewriting
  import opened TypeTrees
  import opened CTree
  import opened DeclaratorPrinter
  import DeclaratorReader
  import DeclaratorProof

  /** A length that is printed; any other prints as none. */
  function Printed(len: int): nat {
    if len > 0 then len else 0
  }

  /** The type t of the graph is the tree ct, down to base types, tagged types and type definitions. */
  ghost predicate Shows(g: Graph, t: Type, ct: CType<Type>)
    decreases ct
  {
    match ct
    case BaseType(u) => t == u && !IsDerivedType(g, t)
    case PointerTo(e) => IsDerivedType(g, t) && g[t.node].Pointer? && Shows(g, g[t.node].elem, e)
    case ArrayOf(e, len) =>
      IsDerivedType(g, t) && g[t.node].Array? && Printed(g[t.node].len) == len && Shows(g, g[t.node].elem, e)
    case FuncOf(r, ps, variadic) =>
      && IsDerivedType(g, t) && g[t.node].Func? && g[t.node].variadic == variadic && Shows(g, g[t.node].ret, r)
      && |g[t.node].params| == |ps|
      && forall i | 0 <= i < |ps| :: ShowsParam(g, g[t.node].params[i], ps[i])
  }

  ghost predicate ShowsParam(g: Graph, n: Node, p: Param<Type>)
    decreases p
  {
    n in g && g[n].Decl? && g[n].v.name == p.name && Shows(g, g[n].v.typ, p.typ)
  }

  /** The tree of a type whose modifiers end within n steps. */
  function TreeOf(g: Graph, t: Type, n: nat): CType<Type>
    decreases n, 0
  {
    if !IsDerivedType(g, t) || n == 0 then BaseType(t)
    else
      match g[t.node]
      case Pointer(e) => PointerTo(TreeOf(g, e, n - 1))
      case Array(e, len) => ArrayOf(TreeOf(g, e, n - 1), Printed(len))
      case Func(r, ps, variadic) =>
        FuncOf(TreeOf(g, r, n - 1), seq(|ps|, i requires 0 <= i < |ps| => ParamOf(g, ps[i], n - 1)), variadic)
      case _ => BaseType(t)
  }

  function ParamOf(g: Graph, p: Node, n: nat): Param<Type>
    decreases n, 1
  {
    if p in g && g[p].Decl? then Param(TreeOf(g, g[p].v.typ, n), g[p].v.name) else Param(BaseType(Basic(Void)), "")
  }

  lemma EndsBelow(g: Graph, t: Type, n: nat)
    requires Closed(g) && IsDerivedType(g, t) && Ends(g, t, n)
    ensures n > 0
    ensures g[t.node].Func? ==> In(g, g[t.node].ret) && Ends(g, g[t.node].ret, n - 1)
    ensures !g[t.node].Func? ==> In(g, g[t.node].elem) && Ends(g, g[t.node].elem, n - 1)
    ensures g[t.node].Func? ==> forall p | p in g[t.node].params ::
      p in g && g[p].Decl? && In(g, g[p].v.typ) && Ends(g, g[p].v.typ, n - 1)
  {
    var d := g[t.node];
    ClosedAt(g, t.node);
    assert Slots(d)[0] == if d.Func? then d.ret else d.elem;
    if d.Func? {
      assert Params(d) == d.params;
      forall p | p in d.params ensures p in g && g[p].Decl? && In(g, g[p].v.typ) && Ends(g, g[p].v.typ, n - 1) {
        ClosedAt(g, p);
        assert Slots(g[p])[0] == g[p].v.typ;
      }
    }
  }

  /** Every type whose modifiers end has a tree. */
  lemma {:induction false} TreeShows(g: Graph, t: Type, n: nat)
    requires Closed(g) && In(g, t) && Ends(g, t, n)
    ensures Shows(g, t, TreeOf(g, t, n))
    decreases n, 0
  {
    if IsDerivedType(g, t) {
      EndsBelow(g, t, n);
      hide Closed, Ends;
      match g[t.node]
      case Pointer(e) => TreeShows(g, e, n - 1);
      case Array(e, _) => TreeShows(g, e, n - 1);
      case Func(r, ps, variadic) =>
        hide ShowsParam, ParamOf;
        TreeShows(g, r, n - 1);
        var ct := TreeOf(g, t, n);
        forall i | 0 <= i < |ps| ensures ShowsParam(g, ps[i], ct.params[i]) {
          assert ps[i] in ps && ct.params[i] == ParamOf(g, ps[i], n - 1);
          ParamShows(g, ps[i], n - 1);
        }
    }
  }

  lemma {:induction false} ParamShows(g: Graph, p: Node, n: nat)
    requires Closed(g) && p in g && g[p].Decl? && In(g, g[p].v.typ) && Ends(g, g[p].v.typ, n)
    ensures ShowsParam(g, p, ParamOf(g, p, n))
    decreases n, 1
  {
    TreeShows(g, g[p].v.typ, n);
  }

  /** It has no other. */
  lemma {:induction false} OneTree(g: Graph, t: Type, a: CType<Type>, b: CType<Type>)
    requires Shows(g, t, a) && Shows(g, t, b)
    ensures a == b
    decreases a
  {
    match a
    case BaseType(_) =>
    case PointerTo(e) => OneTree(g, g[t.node].elem, e, b.elem);
    case ArrayOf(e, _) => OneTree(g, g[t.node].elem, e, b.elem);
    case FuncOf(r, ps, _) =>
      OneTree(g, g[t.node].ret, r, b.ret);
      forall i | 0 <= i < |ps| ensures ps[i] == b.params[i] {
        var n := g[t.node].params[i];
        assert ShowsParam(g, n, ps[i]) && ShowsParam(g, n, b.params[i]);
        OneTree(g, g[n].v.typ, ps[i].typ, b.params[i].typ);
      }
  }

  // ----- printing what is in the graph -----

  predicate IsFuncOrArray(g: Graph, t: Type) {
    IsDerivedType(g, t) && !g[t.node].Pointer?
  }

  /** `Var.String`, on the objects themselves. */
  function PrintHeap(g: Graph, t: Type, name: seq<Token<Type>>, n: nat): seq<Token<Type>>
    decreases n, 0
  {
    if !IsDerivedType(g, t) || n == 0 then [TBase(t)] + name
    else
      match g[t.node]
      case Pointer(e) =>
        if IsFuncOrArray(g, e) then PrintHeap(g, e, [TOpen, TStar] + name + [TClose], n - 1)
        else PrintHeap(g, e, [TStar] + name, n - 1)
      case Array(e, len) => PrintHeap(g, e, name + Brackets(Printed(len)), n - 1)
      case Func(r, ps, variadic) =>
        var list := HeapParams(g, ps, n - 1);
        var more := if variadic then (if |ps| > 0 then [TComma] else []) + [TDots] else [];
        PrintHeap(g, r, name + ([TOpen] + list + more + [TClose]), n - 1)
      case _ => [TBase(t)] + name
  }

  function HeapParams(g: Graph, ps: seq<Node>, n: nat): seq<Token<Type>>
    decreases n, 1, |ps|
  {
    if ps == [] then []
    else
      var p := ParamOf(g, ps[0], 0).name;
      var first :=
        if ps[0] in g && g[ps[0]].Decl? then PrintHeap(g, g[ps[0]].v.typ, NameTokens(p), n)
        else [TBase(Basic(Void))];
      if |ps| == 1 then first else first + [TComma] + HeapParams(g, ps[1..], n)
  }

  lemma TreeKind(g: Graph, t: Type, n: nat)
    requires Ends(g, t, n)
    ensures IsFuncOrArray(g, t) <==> TreeOf(g, t, n).FuncOf? || TreeOf(g, t, n).ArrayOf?
  {
  }

  /** Printing the objects is printing the tree. */
  lemma {:induction false} PrintsTree(g: Graph, t: Type, name: seq<Token<Type>>, n: nat)
    requires Closed(g) && In(g, t) && Ends(g, t, n)
    ensures PrintHeap(g, t, name, n) == PrintVar(TreeOf(g, t, n), name)
    decreases n, 0
  {
    if IsDerivedType(g, t) {
      EndsBelow(g, t, n);
      hide Closed, Ends, ParamOf, PrintParams, HeapParams;
      match g[t.node]
      case Pointer(e) =>
        TreeKind(g, e, n - 1);
        PrintsTree(g, e, if IsFuncOrArray(g, e) then [TOpen, TStar] + name + [TClose] else [TStar] + name, n - 1);
      case Array(e, len) => PrintsTree(g, e, name + Brackets(Printed(len)), n - 1);
      case Func(r, ps, variadic) =>
        var ct := TreeOf(g, t, n);
        PrintsParams(g, ps, ct.params, n - 1);
        PrintsTree(g, r, name + ParenParams(ct.params, variadic), n - 1);
    }
  }

  lemma {:induction false} PrintsParams(g: Graph, ps: seq<Node>, qs: seq<Param<Type>>, n: nat)
    requires Closed(g) && |qs| == |ps| && forall i | 0 <= i < |ps| :: qs[i] == ParamOf(g, ps[i], n)
    requires forall p | p in ps :: p in g && g[p].Decl? && In(g, g[p].v.typ) && Ends(g, g[p].v.typ, n)
    ensures HeapParams(g, ps, n) == PrintParams(qs)
    decreases n, 1, |ps|
  {
    if ps != [] {
      assert ps[0] in ps;
      PrintsTree(g, g[ps[0]].v.typ, NameTokens(g[ps[0]].v.name), n);
      PrintsParams(g, ps[1..], qs[1..], n);
    }
  }

  /** Whatever has been parsed: what is printed for a type and a name reads back as that name and the one
      tree that the type is. */
  lemma HeapReadsBack(g: Graph, t: Type, name: string) returns (n: nat, ct: CType<Type>)
    requires Closed(g) && Founded(g) && In(g, t)
    ensures Shows(g, t, ct) && (forall other | Shows(g, t, other) :: other == ct)
    ensures DeclaratorReader.ReadVar(PrintHeap(g, t, NameTokens(name), n)) == DeclaratorReader.Got(Param(ct, name), [])
  {
    if t.Ref? { assert EndsSome(g, Ref(t.node)); }
    EndsIn(g, t);
    n :| Ends(g, t, n);
    ct := TreeOf(g, t, n);
    TreeShows(g, t, n);
    forall other | Shows(g, t, other) ensures other == ct { OneTree(g, t, other, ct); }
    PrintsTree(g, t, NameTokens(name), n);
    DeclaratorProof.ReadsBack(ct, name, []);
    assert PrintDeclaration(ct, name) + [] == PrintDeclaration(ct, name);
  }
}

// Type objects while declarations are parsed: function types gain parameters, everything else stays
// (csym/parse_decls.go).

module DeclState {
  import opened Ints
  import opened Records
  import C = CTypes
  import opened TypeGraph
  import opened TypeTrees
  import opened TagTables
  import opened CTree
  import opened TypeWord
  import opened Naming
  import opened Csym
  import opened TypesState
  import opened TagGroups
  import opened GroupScan
  import opened BlockTree
  import opened ResolveTypes

  function BareDef(d: C.Def): C.Def {
    if d.Func? then d.(params := []) else d
  }

  /** The type graph with all parameter lists left out. */
  ghost function BareGraph(g: Graph): Graph {
    map o | o in g :: BareDef(g[o])
  }

  ghost function Bare(v: State): State {
    v.(g := BareGraph(v.g))
  }

  lemma BareTable(v: State, kind: TagKind)
    ensures TableOf(Bare(v), kind) == TableOf(v, kind)
  {
  }

  lemma BareAdds(v: State, w: State)
    requires Adds(v, w)
    ensures Adds(Bare(v), Bare(w))
  {
    forall kind: TagKind ensures TableAdds(Bare(v), Bare(w), kind) {
      BareTable(v, kind);
      BareTable(w, kind);
      assert TableAdds(v, w, kind);
    }
  }

  lemma {:induction false} RepresentsBare(g: Graph, t: C.Type, ct: CType<C.Type>)
    requires Represents(g, t, ct)
    ensures Represents(BareGraph(g), t, ct)
    decreases ct
  {
    match ct
    case BaseType(_) =>
    case PointerTo(e) => RepresentsBare(g, g[t.node].elem, e);
    case ArrayOf(e, _) => RepresentsBare(g, g[t.node].elem, e);
    case FuncOf(r, _, _) => RepresentsBare(g, g[t.node].ret, r);
  }

  lemma {:induction false} StripBare(g: Graph, t: C.Type, n: nat)
    ensures Strip(BareGraph(g), t, n) == Strip(g, t, n)
    decreases n
  {
    if n > 0 && t.Ref? && t.node in g {
      match g[t.node]
      case Pointer(e) => StripBare(g, e, n - 1);
      case Array(e, _) => StripBare(g, e, n - 1);
      case Func(r, _, _) => StripBare(g, r, n - 1);
      case _ =>
    }
  }

  lemma TypeMatchesBare(v: State, t: C.Type, word: uint16, dims: seq<nat>, tag: string)
    requires TypeMatches(v, t, word, dims, tag)
    ensures TypeMatches(Bare(v), t, word, dims, tag)
  {
    hide ModsFrom, Build, BareGraph;
    var mods := ModsOf(word);
    var base := Strip(v.g, t, |mods|);
    RepresentsBare(v.g, t, Build(base, mods, dims));
    StripBare(v.g, t, |mods|);
    ResolvesBare(v, BaseBits(word), tag, base);
  }

  lemma ResolvesBare(v: State, base: nat, tag: string, t: C.Type)
    requires Resolves(v, base, tag, t)
    ensures Resolves(Bare(v), base, tag, t)
  {
    if TagBits(base) { BareTable(v, KindOfBits(base)); }
  }

  /** The declaration its record describes. */
  ghost predicate DeclMatches(v: State, n: C.Node, s: Symbol) {
    && IsDecl(s) && n in v.g && v.g[n].Decl? && ClassOutcome(s.body.class_) == Good(v.g[n].class_)
    && v.g[n].addr == s.hdr.value && v.g[n].size == s.body.size && v.g[n].v.name == ValidName(s.body.name)
    && TypeMatches(v, v.g[n].v.typ, s.body.typ, DimsOf(s), TagTextOf(s))
  }

  lemma DeclMatchesStays(v: State, w: State, n: C.Node, s: Symbol)
    requires Grows(v, w) && DeclMatches(v, n, s)
    ensures DeclMatches(w, n, s)
  {
    assert Kept(v.g[n], w.g[n]);
    TypeMatchesStays(v, w, v.g[n].v.typ, s.body.typ, DimsOf(s), TagTextOf(s));
  }

  /** Later states of declaration parsing: types are added, and no type object changes but for the
      parameters a function type gains. */
  ghost predicate Later(v: State, w: State) {
    && TablesGrow(v, w) && w.types == v.types && w.typedefs == v.typedefs && w.names == v.names
    && forall o | o in v.g :: o in w.g && BareDef(w.g[o]) == BareDef(v.g[o])
  }

  lemma LaterGrows(v: State, w: State)
    requires Later(v, w)
    ensures Grows(Bare(v), Bare(w))
  {
    forall o | o in Bare(v).g ensures o in Bare(w).g && Bare(w).g[o] == Bare(v).g[o] {
      assert o in v.g && BareDef(w.g[o]) == BareDef(v.g[o]);
    }
  }

  lemma LaterRefl(v: State)
    ensures Later(v, v)
  {
  }

  lemma LaterTrans(u: State, v: State, w: State)
    requires Later(u, v) && Later(v, w)
    ensures Later(u, w)
  {
    forall o | o in v.g ensures o in w.g && SizeOf(w.g[o]) == SizeOf(v.g[o]) {
      assert BareDef(w.g[o]) == BareDef(v.g[o]);
    }
    hide BareDef, SizeOf;
    forall o | o in u.g ensures o in w.g && BareDef(w.g[o]) == BareDef(u.g[o]) {
      assert o in v.g && BareDef(v.g[o]) == BareDef(u.g[o]);
    }
  }

  lemma AddsLater(v: State, w: State)
    requires Adds(v, w)
    ensures Later(v, w)
  {
    AddsGrows(v, w);
  }

  /** Adding a parameter to a function type. */
  lemma ParamKeepsOk(v: State, t: C.Node, n: C.Node)
    requires Ok(v) && t in v.g && v.g[t].Func? && Unheld(v.g, C.Ref(t)) && n in v.g && v.g[n].Decl?
    ensures var w := SetDef(v, t, v.g[t].(params := v.g[t].params + [n])); Ok(w) && Later(v, w)
  {
    hide TableOk, Closed, Trees, Unheld;
    var d := v.g[t].(params := v.g[t].params + [n]);
    var w := SetDef(v, t, d);
    ParamKeepsClosed(v.g, t, n);
    ParamKeepsTrees(v.g, t, d, n);
    ParamKeepsTable(v, t, d, StructTag);
    ParamKeepsTable(v, t, d, UnionTag);
    ParamKeepsTable(v, t, d, EnumTag);
    assert Bare(w).g == Bare(v).g;
    GrowsRefl(Bare(v));
  }

  lemma ParamKeepsClosed(g: Graph, t: C.Node, n: C.Node)
    requires Closed(g) && t in g && g[t].Func? && n in g && g[n].Decl?
    ensures Closed(g[t := g[t].(params := g[t].params + [n])])
  {
    var h := g[t := g[t].(params := g[t].params + [n])];
    assert Slots(h[t]) == Slots(g[t]) && Params(h[t]) == Params(g[t]) + [n];
  }

  lemma ParamKeepsTable(v: State, t: C.Node, d: C.Def, kind: TagKind)
    requires TableOk(v, kind) && t in v.g && v.g[t].Func? && d.Func?
    ensures TableOk(SetDef(v, t, d), kind)
  {
    ExtendingKeepsIndexed(v.g, SetDef(v, t, d).g, kind, TableOf(v, kind));
    assert TableOf(SetDef(v, t, d), kind) == TableOf(v, kind);
  }

  lemma DeclKeepsOk(v: State, n: C.Node, d: C.Def)
    requires Ok(v) && n !in v.g && d.Decl? && In(v.g, d.v.typ) && Loose(v.g, d.v.typ)
    ensures Ok(Alloc(v, n, d)) && Adds(v, Alloc(v, n, d)) && UsesOnly(v.g, Alloc(v, n, d).g, {d.v.typ})
  {
    hide Ok, Adds, Loose;
    AllocKeepsOk(v, n, d);
    AllocAdds(v, n, d);
  }

  lemma NowMatches(v: State, n: C.Node, d: C.Def, s: Symbol)
    requires n !in v.g && IsDecl(s) && d.Decl? && ClassOutcome(s.body.class_) == Good(d.class_)
    requires d.addr == s.hdr.value && d.size == s.body.size && d.v.name == ValidName(s.body.name)
    requires TypeMatches(v, d.v.typ, s.body.typ, DimsOf(s), TagTextOf(s))
    ensures DeclMatches(Bare(Alloc(v, n, d)), n, s)
  {
    AllocAdds(v, n, d);
    AddsGrows(v, Alloc(v, n, d));
    TypeMatchesStays(v, Alloc(v, n, d), d.v.typ, s.body.typ, DimsOf(s), TagTextOf(s));
    TypeMatchesBare(Alloc(v, n, d), d.v.typ, s.body.typ, DimsOf(s), TagTextOf(s));
  }

  /** The declaration of a record, once its type is known. */
  method NewDecl(p: Parser, s: Symbol, t: C.Type) returns (r: Outcome<C.Node>)
    requires Ok(View(p)) && IsDecl(s) && In(View(p).g, t) && Loose(View(p).g, t)
    requires TypeMatches(View(p), t, s.body.typ, DimsOf(s), TagTextOf(s))
    modifies p`nodes
    ensures Ok(View(p)) && Adds(old(View(p)), View(p)) && NodesAdded(p) && UsesOnly(old(View(p)).g, View(p).g, {t})
    ensures r.Good? == ClassOutcome(s.body.class_).Good? && (r.Panicked? ==> r.why == UnsupportedClass)
    ensures r.Good? ==> fresh(r.value) && r.value in p.nodes && DeclMatches(Bare(View(p)), r.value, s)
    ensures r.Good? ==> r.value.def.Decl? && r.value.def.v.name == ValidName(s.body.name)
  {
    hide Ok, Adds, TypeMatches, DeclMatches, BareGraph, Loose;
    AddsRefl(View(p));
    var class_ := ClassOutcome(s.body.class_);
    if class_.Panicked? {
      return Panicked(UnsupportedClass);
    }
    ghost var v := View(p);
    var d := C.Decl(s.hdr.value, s.body.size, class_.value, C.Var(t, ValidName(s.body.name)));
    var n := AllocType(p, d);
    DeclKeepsOk(v, n, d);
    NowMatches(v, n, d, s);
    return Good(n);
  }
}

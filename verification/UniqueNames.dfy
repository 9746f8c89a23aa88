// Making tags and names unique, one kind and one overlay after the other (csym/parse_fixups.go).

module UniqueNames {
  import C = CTypes
  import opened TypeGraph
  import opened Lists
  import opened TagTables
  import opened Csym
  import opened TypesState
  import opened ResolveTypes
  import opened Fixups
  import opened UniqueTags
  import opened FuncIndex
  import opened DeclNames

  lemma RenamingKeepsIndexed(g: Graph, k: Graph, kind: TagKind, groups: Groups, inOrder: seq<C.Node>)
    requires Indexed(g, kind, groups, inOrder) && forall o | o in inOrder :: o in k && k[o] == g[o]
    ensures Indexed(k, kind, groups, inOrder)
  {
    ExtendingKeepsIndexed(g, k, kind, Table(groups, inOrder));
  }

  /** No two types of the list have one tag. */
  ghost predicate TagsDiffer(t: TagIndex)
    reads t, t.inOrder
  {
    forall i, j | 0 <= i < j < |t.inOrder| :: TagOf(t.inOrder[i].def) != TagOf(t.inOrder[j].def)
  }

  /** An object with its tag, or its name as a declaration, left out. */
  function NameFree(d: C.Def): C.Def {
    match d
    case Struct(size, _, fields, methods) => C.Struct(size, "", fields, methods)
    case Union(size, _, fields) => C.Union(size, "", fields)
    case Enum(_, members) => C.Enum("", members)
    case Decl(addr, size, class_, v) => C.Decl(addr, size, class_, C.Var(v.typ, ""))
    case _ => d
  }

  /** The same objects, but for tags and names of declarations. */
  ghost predicate SameButNames(g: Graph, k: Graph) {
    k.Keys == g.Keys && forall o | o in g :: NameFree(k[o]) == NameFree(g[o])
  }

  lemma SameButNamesTrans(g: Graph, k: Graph, l: Graph)
    requires SameButNames(g, k) && SameButNames(k, l)
    ensures SameButNames(g, l)
  {
    hide NameFree;
  }

  lemma TagsAside(g: Graph, k: Graph, kind: TagKind, groups: Groups, inOrder: seq<C.Node>)
    requires k.Keys == g.Keys
    requires forall o | o in g :: k[o] == if o in inOrder then UniqueTags.Renamed(g, kind, groups, o) else g[o]
    ensures SameButNames(g, k)
  {
    hide FinalTag;
  }

  lemma KindsApart(g: Graph, kind: TagKind, a: Table, other: TagKind, b: Table)
    requires Indexed(g, kind, a.groups, a.inOrder) && Indexed(g, other, b.groups, b.inOrder) && kind != other
    ensures forall o | o in a.inOrder :: o !in b.inOrder
  {
    forall o | o in a.inOrder ensures o !in b.inOrder {
      if o in b.inOrder { KindsDiffer(g[o], kind, other); }
    }
  }

  lemma ListedInGraph(g: Graph, kind: TagKind, groups: Groups, inOrder: seq<C.Node>)
    requires Indexed(g, kind, groups, inOrder)
    ensures forall o | o in inOrder :: o in g && OfKind(g[o], kind)
  {
  }

  /** The types of this list have, in k, the tags the renaming gives them; g is before it. */
  ghost predicate TagsRenamed(t: TagIndex, kind: TagKind, g: Graph, k: Graph)
    reads t
  {
    forall o | o in t.inOrder ::
      o in g && o in k && UniqueTags.IsNewTag(t.byTag, kind, TagOf(g[o]), o, TagOf(k[o]))
  }

  ghost predicate AllTagsRenamed(p: Parser, g: Graph, k: Graph)
    reads p.structs, p.unions, p.enums
  {
    && TagsRenamed(p.structs, StructTag, g, k) && TagsRenamed(p.unions, UnionTag, g, k)
    && TagsRenamed(p.enums, EnumTag, g, k)
  }

  /** The types of one kind: nothing but their tags changes. */
  method MakeKindUnique(t: TagIndex, kind: TagKind, ghost nodes: set<C.Node>)
    requires Indexed(Snap(nodes), kind, t.byTag, t.inOrder)
    modifies nodes
    ensures TagsDiffer(t) && SameButNames(old(Snap(nodes)), Snap(nodes))
    ensures TagsRenamed(t, kind, old(Snap(nodes)), Snap(nodes))
    ensures forall o | o in nodes && o !in t.inOrder :: o.def == old(Snap(nodes))[o]
  {
    hide Indexed, UniqueTags.Renamed, SameButNames, UniqueTags.IsNewTag;
    ghost var g := Snap(nodes);
    MakeUnique(t, kind, nodes);
    TagsAside(g, Snap(nodes), kind, t.byTag, t.inOrder);
  }

  /** Nothing of these lists has changed. */
  lemma TagsStay(t: TagIndex, g: Graph)
    requires TagsDifferIn(t.inOrder, g) && forall o | o in t.inOrder :: o in g && o.def == g[o]
    ensures TagsDiffer(t)
  {
    hide TagOf;
    forall i, j | 0 <= i < j < |t.inOrder| ensures TagOf(t.inOrder[i].def) != TagOf(t.inOrder[j].def) {
      assert t.inOrder[i] in t.inOrder && t.inOrder[j] in t.inOrder;
    }
  }

  ghost predicate TagsDifferIn(s: seq<C.Node>, g: Graph) {
    forall i, j | 0 <= i < j < |s| && s[i] in g && s[j] in g :: TagOf(g[s[i]]) != TagOf(g[s[j]])
  }

  lemma TagsDifferNow(t: TagIndex, nodes: set<C.Node>)
    requires TagsDiffer(t)
    ensures TagsDifferIn(t.inOrder, Snap(nodes))
  {
  }

  /** `makeStructsUnique`, `makeUnionsUnique` and `makeEnumsUnique`, one after the other: the tags of
      each kind are all different at the end, and nothing but tags has changed. */
  method MakeTagsUnique(p: Parser)
    requires Separate(p)
    requires Indexed(Snap(p.nodes), StructTag, p.structs.byTag, p.structs.inOrder)
    requires Indexed(Snap(p.nodes), UnionTag, p.unions.byTag, p.unions.inOrder)
    requires Indexed(Snap(p.nodes), EnumTag, p.enums.byTag, p.enums.inOrder)
    modifies p.nodes
    ensures TagsDiffer(p.structs) && TagsDiffer(p.unions) && TagsDiffer(p.enums)
    ensures SameButNames(old(Snap(p.nodes)), Snap(p.nodes))
    ensures AllTagsRenamed(p, old(Snap(p.nodes)), Snap(p.nodes))
    ensures forall o | o in p.nodes && !IsTagged(old(Snap(p.nodes))[o]) :: o.def == old(Snap(p.nodes))[o]
  {
    hide Indexed, SameButNames, TagsDiffer, TagsDifferIn, TagsRenamed;
    ghost var g := Snap(p.nodes);
    KindsApart(g, StructTag, Table(p.structs.byTag, p.structs.inOrder), UnionTag,
      Table(p.unions.byTag, p.unions.inOrder));
    KindsApart(g, StructTag, Table(p.structs.byTag, p.structs.inOrder), EnumTag, Table(p.enums.byTag, p.enums.inOrder));
    KindsApart(g, UnionTag, Table(p.unions.byTag, p.unions.inOrder), EnumTag, Table(p.enums.byTag, p.enums.inOrder));
    ListedInGraph(g, StructTag, p.structs.byTag, p.structs.inOrder);
    ListedInGraph(g, UnionTag, p.unions.byTag, p.unions.inOrder);
    ListedInGraph(g, EnumTag, p.enums.byTag, p.enums.inOrder);
    MakeKindUnique(p.structs, StructTag, p.nodes);
    ghost var g1 := Snap(p.nodes);
    TagsDifferNow(p.structs, p.nodes);
    RenamingKeepsIndexed(g, g1, UnionTag, p.unions.byTag, p.unions.inOrder);
    MakeKindUnique(p.unions, UnionTag, p.nodes);
    ghost var g2 := Snap(p.nodes);
    TagsDifferNow(p.unions, p.nodes);
    SameButNamesTrans(g, g1, g2);
    RenamingKeepsIndexed(g, g2, EnumTag, p.enums.byTag, p.enums.inOrder);
    MakeKindUnique(p.enums, EnumTag, p.nodes);
    SameButNamesTrans(g, g2, Snap(p.nodes));
    TagsStay(p.structs, g1);
    TagsStay(p.unions, g2);
    ghost var k := Snap(p.nodes);
    StillRenamed(p.structs, StructTag, g, g1, g, k);
    StillRenamed(p.unions, UnionTag, g1, g2, g, k);
    StillRenamed(p.enums, EnumTag, g2, k, g, k);
  }

  lemma StillRenamed(t: TagIndex, kind: TagKind, g: Graph, k: Graph, g': Graph, k': Graph)
    requires TagsRenamed(t, kind, g, k)
    requires forall o | o in t.inOrder :: o in g' && o in k' && (o in g ==> g'[o] == g[o]) && (o in k ==> k'[o] == k[o])
    ensures TagsRenamed(t, kind, g', k')
  {
    hide UniqueTags.IsNewTag;
  }

  /** The variables of an overlay have, in k, the names the renaming gives them; g is before it. */
  ghost predicate VarsRenamed(o: Overlay, g: Graph, k: Graph)
    reads o
  {
    |o.vars| == |o.varKeys| && forall i | 0 <= i < |o.vars| :: VarRenamedAt(o, g, k, i)
  }

  ghost predicate VarRenamedAt(o: Overlay, g: Graph, k: Graph, i: nat)
    requires i < |o.vars| == |o.varKeys|
    reads o
  {
    o.vars[i] in g && o.vars[i] in k && IsRenamedDecl(g, o.vars, o.varKeys, i, k[o.vars[i]])
  }

  /** The functions of an overlay have, in `now`, the names the renaming gives them. */
  ghost predicate FuncsRenamed(o: Overlay, was: FuncVars, now: FuncVars)
    reads o
  {
    |o.funcs| == |o.funcKeys| && forall i | 0 <= i < |o.funcs| ::
      o.funcs[i] in was && o.funcs[i] in now
      && IsRenamed(was[o.funcs[i]], now[o.funcs[i]], o.funcs[i].addr, HasNamesake(o.funcKeys, i))
  }

  /** What the renaming needs of an overlay: indexes that agree with the lists, and declarations as variables. */
  ghost predicate CanRename(o: Overlay, nodes: set<C.Node>, funcs: set<C.FuncDecl>, g: Graph)
    reads o
  {
    && IsIndex(o.varNames, o.vars, o.varKeys) && NoDup(o.vars) && Elements(o.vars) <= nodes
    && IsIndex(o.funcNames, o.funcs, o.funcKeys) && NoDup(o.funcs) && Elements(o.funcs) <= funcs
    && forall n | n in o.vars :: n in g && g[n].Decl?
  }

  /** No two overlays share a variable or a function. */
  ghost predicate NoneShared(a: Overlay, b: Overlay)
    reads a, b
  {
    (forall f | f in a.funcs :: f !in b.funcs) && (forall n | n in a.vars :: n !in b.vars)
  }

  /** Nothing but what this overlay lists has changed. */
  ghost predicate OnlyListed(o: Overlay, g: Graph, was: FuncVars, k: Graph, now: FuncVars)
    reads o
  {
    && k.Keys == g.Keys && now.Keys == was.Keys
    && (forall n | n in g && n !in o.vars :: k[n] == g[n]) && (forall f | f in was && f !in o.funcs :: now[f] == was[f])
  }

  /** One overlay: `makeVarNamesUniqueInOverlay` and `makeFuncVarsUniqueInOverlay`. */
  method MakeOverlayUnique(o: Overlay, ghost nodes: set<C.Node>, ghost funcs: set<C.FuncDecl>)
    requires CanRename(o, nodes, funcs, Snap(nodes))
    modifies nodes, funcs`v
    ensures VarsRenamed(o, old(Snap(nodes)), Snap(nodes)) && FuncsRenamed(o, old(FuncVarsOf(funcs)), FuncVarsOf(funcs))
    ensures OnlyListed(o, old(Snap(nodes)), old(FuncVarsOf(funcs)), Snap(nodes), FuncVarsOf(funcs))
  {
    hide IsIndex, NoDup, IsRenamed, IsRenamedDecl, HasNamesake;
    assert forall n | n in o.vars :: n in Elements(o.vars) && n in nodes;
    assert forall f | f in o.funcs :: f in Elements(o.funcs) && f in funcs;
    IndexCounts(o.varNames, o.vars, o.varKeys);
    IndexCounts(o.funcNames, o.funcs, o.funcKeys);
    MakeVarNamesUnique(o, nodes);
    MakeFuncNamesUnique(o, funcs);
  }

  lemma IndexCounts<T>(index: map<string, seq<T>>, s: seq<T>, keys: seq<string>)
    requires IsIndex(index, s, keys)
    ensures |s| == |keys|
  {
  }

  /** What this overlay lists is, in k and `now`, as in g and `was`. */
  ghost predicate ListedSame(o: Overlay, g: Graph, was: FuncVars, k: Graph, now: FuncVars)
    reads o
  {
    && (forall n | n in o.vars :: n in g && n in k && k[n] == g[n])
    && (forall f | f in o.funcs :: f in was && f in now && now[f] == was[f])
  }

  /** The first i overlays have been renamed, the others are as at the start. */
  ghost predicate RenamedTo(os: seq<Overlay>, i: nat, g: Graph, was: FuncVars, k: Graph, now: FuncVars)
    requires i <= |os|
    reads os
  {
    && k.Keys == g.Keys && now.Keys == was.Keys
    && (forall j | 0 <= j < i :: VarsRenamed(os[j], g, k) && FuncsRenamed(os[j], was, now))
    && (forall j | i <= j < |os| :: ListedSame(os[j], g, was, k, now))
    && (forall n | n in g && IsUnlisted(os, n) :: k[n] == g[n])
    && (forall f | f in was :: now[f].typ == was[f].typ)
  }

  lemma NoneRenamed(os: seq<Overlay>, nodes: set<C.Node>, funcs: set<C.FuncDecl>, g: Graph, was: FuncVars)
    requires was.Keys == funcs && forall i | 0 <= i < |os| :: CanRename(os[i], nodes, funcs, g)
    ensures RenamedTo(os, 0, g, was, g, was)
  {
    hide CanRename, ListedSame;
    forall i | 0 <= i < |os| ensures ListedSame(os[i], g, was, g, was) { NothingRenamed(os[i], nodes, funcs, g, was); }
  }

  lemma OneMoreRenamed(os: seq<Overlay>, i: nat, g: Graph, was: FuncVars, k: Graph, now: FuncVars, k': Graph,
    now': FuncVars)
    requires i < |os| && RenamedTo(os, i, g, was, k, now)
    requires forall i, j | 0 <= i < |os| && 0 <= j < |os| && i != j :: NoneShared(os[i], os[j])
    requires VarsRenamed(os[i], k, k') && FuncsRenamed(os[i], now, now') && OnlyListed(os[i], k, now, k', now')
    ensures RenamedTo(os, i + 1, g, was, k', now')
  {
    hide VarsRenamed, FuncsRenamed, NoneShared, ListedSame, OnlyListed;
    RenamedFromStart(os[i], g, was, k, now, k', now');
    forall j | 0 <= j < |os| && j != i
      ensures j < i ==> VarsRenamed(os[j], g, k') && FuncsRenamed(os[j], was, now')
      ensures j > i ==> ListedSame(os[j], g, was, k', now')
    {
      if j < i {
        OtherStaysRenamed(os[i], os[j], g, was, k, now, k', now');
      } else {
        OtherStaysSame(os[i], os[j], g, was, k, now, k', now');
      }
    }
    OnlyListedMeans(os[i], k, now, k', now');
    TypesKept(os[i], k, now, k', now');
  }

  /** All overlays, the default binary first. */
  method MakeDeclNamesUnique(os: seq<Overlay>, ghost nodes: set<C.Node>, ghost funcs: set<C.FuncDecl>)
    requires forall i | 0 <= i < |os| :: CanRename(os[i], nodes, funcs, Snap(nodes))
    requires forall i, j | 0 <= i < |os| && 0 <= j < |os| && i != j :: NoneShared(os[i], os[j])
    modifies nodes, funcs`v
    ensures RenamedTo(os, |os|, old(Snap(nodes)), old(FuncVarsOf(funcs)), Snap(nodes), FuncVarsOf(funcs))
  {
    hide VarsRenamed, FuncsRenamed, CanRename, NoneShared, ListedSame, OnlyListed, RenamedTo, Snap;
    ghost var g, was := Snap(nodes), FuncVarsOf(funcs);
    NoneRenamed(os, nodes, funcs, g, was);
    for i := 0 to |os|
      invariant RenamedTo(os, i, g, was, Snap(nodes), FuncVarsOf(funcs))
    {
      ghost var k, now := Snap(nodes), FuncVarsOf(funcs);
      StillSame(os, i, g, was, k, now);
      StillCanRename(os[i], nodes, funcs, g, was, k, now);
      MakeOverlayUnique(os[i], nodes, funcs);
      OneMoreRenamed(os, i, g, was, k, now, Snap(nodes), FuncVarsOf(funcs));
    }
  }

  lemma StillSame(os: seq<Overlay>, i: nat, g: Graph, was: FuncVars, k: Graph, now: FuncVars)
    requires i < |os| && RenamedTo(os, i, g, was, k, now)
    ensures ListedSame(os[i], g, was, k, now)
  {
  }

  lemma OnlyListedMeans(o: Overlay, k: Graph, now: FuncVars, k': Graph, now': FuncVars)
    requires OnlyListed(o, k, now, k', now')
    ensures k'.Keys == k.Keys && now'.Keys == now.Keys && forall n | n in k && n !in o.vars :: k'[n] == k[n]
  {
  }

  lemma TypesKept(o: Overlay, k: Graph, now: FuncVars, k': Graph, now': FuncVars)
    requires OnlyListed(o, k, now, k', now') && FuncsRenamed(o, now, now')
    ensures forall f | f in now :: f in now' && now'[f].typ == now[f].typ
  {
    forall f | f in now ensures f in now' && now'[f].typ == now[f].typ {
      if f in o.funcs {
        var i :| 0 <= i < |o.funcs| && o.funcs[i] == f;
      }
    }
  }

  lemma NothingRenamed(o: Overlay, nodes: set<C.Node>, funcs: set<C.FuncDecl>, g: Graph, was: FuncVars)
    requires CanRename(o, nodes, funcs, g) && was.Keys == funcs
    ensures ListedSame(o, g, was, g, was)
  {
    assert forall f | f in o.funcs :: f in Elements(o.funcs);
  }

  lemma StillCanRename(o: Overlay, nodes: set<C.Node>, funcs: set<C.FuncDecl>, g: Graph, was: FuncVars, k: Graph,
    now: FuncVars)
    requires CanRename(o, nodes, funcs, g) && ListedSame(o, g, was, k, now)
    ensures CanRename(o, nodes, funcs, k)
  {
    hide IsIndex, NoDup;
  }

  /** A renaming from a state in which this overlay was as at the start is a renaming from the start. */
  lemma RenamedFromStart(o: Overlay, g: Graph, was: FuncVars, k: Graph, now: FuncVars, k': Graph, now': FuncVars)
    requires ListedSame(o, g, was, k, now) && VarsRenamed(o, k, k') && FuncsRenamed(o, now, now')
    ensures VarsRenamed(o, g, k') && FuncsRenamed(o, was, now')
  {
    hide IsRenamed, HasNamesake;
    forall i | 0 <= i < |o.vars| ensures VarRenamedAt(o, g, k', i) {
      assert VarRenamedAt(o, k, k', i);
      SameNamesakes(o, g, k, i);
    }
    assert forall i | 0 <= i < |o.funcs| :: o.funcs[i] in o.funcs;
  }

  lemma SameNamesakes(o: Overlay, g: Graph, k: Graph, i: nat)
    requires i < |o.vars| == |o.varKeys| && forall n | n in o.vars :: n in g && n in k && k[n] == g[n]
    ensures HasRealNamesake(k, o.vars, o.varKeys, i) <==> HasRealNamesake(g, o.vars, o.varKeys, i)
  {
    assert forall j | 0 <= j < |o.vars| :: o.vars[j] in o.vars;
  }

  lemma OtherStaysRenamed(o: Overlay, other: Overlay, g: Graph, was: FuncVars, k: Graph, now: FuncVars, k': Graph,
    now': FuncVars)
    requires NoneShared(o, other) && OnlyListed(o, k, now, k', now')
    requires VarsRenamed(other, g, k) && FuncsRenamed(other, was, now)
    ensures VarsRenamed(other, g, k') && FuncsRenamed(other, was, now')
  {
    hide IsRenamed, IsRenamedDecl, HasNamesake;
    forall i | 0 <= i < |other.vars| ensures VarRenamedAt(other, g, k', i) {
      assert VarRenamedAt(other, g, k, i) && other.vars[i] in other.vars;
    }
    assert forall i | 0 <= i < |other.funcs| :: other.funcs[i] in other.funcs;
  }

  lemma OtherStaysSame(o: Overlay, other: Overlay, g: Graph, was: FuncVars, k: Graph, now: FuncVars, k': Graph,
    now': FuncVars)
    requires NoneShared(o, other) && OnlyListed(o, k, now, k', now') && ListedSame(other, g, was, k, now)
    ensures ListedSame(other, g, was, k', now')
  {
  }

  /** Object n is a variable of none of these overlays. */
  ghost predicate IsUnlisted(os: seq<Overlay>, n: C.Node)
    reads os`vars
  {
    forall i | 0 <= i < |os| :: n !in os[i].vars
  }
}

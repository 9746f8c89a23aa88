// What no walk comes to: type definitions, and the modifiers' objects between them and the types they name
// (csym/parse_fixups.go).

module Untouched {
  import opened CTypes
  import opened TypeGraph
  import opened TypeTrees
  import opened Rewriting
  import opened TagTables
  import opened Fixups

  /** A declaration that nothing but the list of type definitions, or a type, refers to: it is no
      declared variable, no local, and no parameter. */
  ghost predicate IsAlone(g: Graph, objs: set<Node>, d: Node) {
    d in g && g[d].Decl? && d !in objs && forall o | o in g :: d !in Params(g[o])
  }

  ghost predicate AloneKept(g: Graph, k: Graph, objs: set<Node>) {
    forall d | d in g && IsAlone(g, objs, d) :: d in k && k[d] == g[d] && IsAlone(k, objs, d)
  }

  /** No walk enters it. */
  lemma NeverEntered(g: Graph, objs: set<Node>, d: Node, t: Type)
    requires IsAlone(g, objs, d)
    ensures Slot(d, 0) !in WalkSlots(g, t)
  {
    if t.Ref? && t.node in g && g[t.node].Func? { assert d !in Params(g[t.node]); }
  }

  lemma NeverVisited(g: Graph, remap: Remap, v: set<Slot>, all: set<Node>, objs: set<Node>, types: set<Type>, d: Node)
    requires IsAlone(g, objs, d) && d !in all && Covers(g, remap, all, types, v)
    ensures Slot(d, 0) !in v
  {
    hide IsAlone, WalkSlots;
    if Slot(d, 0) in v {
      assert IsEntered(g, remap, types, v, Slot(d, 0));
      forall t ensures Slot(d, 0) !in WalkSlots(g, t) { NeverEntered(g, objs, d, t); }
    }
  }

  /** The walk does not enter declarations, so what such a declaration holds is never replaced. */
  lemma AloneStays(g: Graph, k: Graph, remap: Remap, v: set<Slot>, structs: seq<Node>, sg: Groups, unions: seq<Node>,
    ug: Groups,
    objs: set<Node>, types: set<Type>)
    requires Indexed(g, StructTag, sg, structs) && Indexed(g, UnionTag, ug, unions)
    requires Visited(g, k, remap, v) && Covers(g, remap, Elements(structs) + Elements(unions) + objs, types, v)
    ensures AloneKept(g, k, objs)
  {
    hide Indexed, Visited, Covers, IsAlone;
    forall d | d in g && IsAlone(g, objs, d) ensures d in k && k[d] == g[d] && IsAlone(k, objs, d) {
      NotListed(g, StructTag, sg, structs, objs, d);
      NotListed(g, UnionTag, ug, unions, objs, d);
      OneAloneStays(g, k, remap, v, Elements(structs) + Elements(unions) + objs, objs, types, d);
    }
  }

  lemma NotListed(g: Graph, kind: TagKind, groups: Groups, inOrder: seq<Node>, objs: set<Node>, d: Node)
    requires Indexed(g, kind, groups, inOrder) && IsAlone(g, objs, d)
    ensures d !in Elements(inOrder) && d !in objs
  {
  }

  lemma OneAloneStays(g: Graph, k: Graph, remap: Remap, v: set<Slot>, all: set<Node>, objs: set<Node>, types: set<Type>,
    d: Node)
    requires IsAlone(g, objs, d) && d !in all && Visited(g, k, remap, v) && Covers(g, remap, all, types, v)
    ensures d in k && k[d] == g[d] && IsAlone(k, objs, d)
  {
    NeverVisited(g, remap, v, all, objs, types, d);
    hide WalkClosed, WalkSlots, IsEntered, LabelOf, Covers;
    assert Slot(d, 0) !in v && RewrittenAt(g, k, remap, v, d);
    assert Slots(g[d]) == [g[d].v.typ];
    DefExtensional(g[d], k[d]);
    forall o | o in k ensures d !in Params(k[o]) {
      assert RewrittenAt(g, k, remap, v, o);
    }
  }

  lemma AloneKeptTrans(g: Graph, k: Graph, l: Graph, objs: set<Node>)
    requires AloneKept(g, k, objs) && AloneKept(k, l, objs)
    ensures AloneKept(g, l, objs)
  {
    hide IsAlone;
  }

  // ----- modifiers between a type definition and the type it names -----

  /** Modifiers' objects stand in one place each, those of the functions' own types in none; and none of
      them is declared as a variable. */
  ghost predicate Unaliased(g: Graph, vars: FuncVars, objs: set<Node>) {
    Unshared(g) && (forall f | f in vars :: Loose(g, vars[f].typ)) && forall n | n in objs :: n in g && !IsDerived(g[n])
  }

  /** Whatever number of modifiers is taken off, such a declaration names what it named. */
  ghost predicate NamesKept(g: Graph, k: Graph, objs: set<Node>) {
    forall d | d in g && IsAlone(g, objs, d) :: d in k && k[d].Decl? && NameKept(g, g[d].v.typ, k, k[d].v.typ)
  }

  ghost predicate NameKept(g: Graph, t: Type, k: Graph, u: Type) {
    forall m: nat :: Strip(k, u, m) == Strip(g, t, m)
  }

  /** Only tagged types and base types are replaced, and only by such. */
  ghost predicate MovesTagged(g: Graph, remap: Remap) {
    forall t | t in remap :: !IsDerivedType(g, t) && !IsDerivedType(g, remap[t])
  }

  /** The walk comes to a modifier's object through the type that it is, only. */
  lemma EnteredAs(g: Graph, t: Type, n: Node)
    requires Closed(g) && n in g && IsDerived(g[n]) && Slot(n, 0) in WalkSlots(g, t)
    ensures t == Ref(n)
  {
    if t.Ref? && t.node in g && g[t.node].Func? {
      ClosedAt(g, t.node);
      assert Params(g[t.node]) == g[t.node].params;
    }
  }

  /** A place that was not visited holds a modifier's object that was not visited. */
  lemma NextUnvisited(g: Graph, remap: Remap, v: set<Slot>, all: set<Node>, types: set<Type>, o: Node, i: nat)
    requires Closed(g) && Covers(g, remap, all, types, v) && Unshared(g) && MovesTagged(g, remap)
    requires forall n | n in all :: n in g && !IsDerived(g[n])
    requires forall t | t in types :: Loose(g, t)
    requires o in g && i < |Slots(g[o])| && Slot(o, i) !in v && IsDerivedType(g, Slots(g[o])[i])
    ensures Slot(Slots(g[o])[i].node, 0) !in v
  {
    hide Closed, IsDerived, Covers, WalkSlots;
    var t := Slots(g[o])[i];
    var s := Slot(t.node, 0);
    forall ty | ty in types ensures s !in WalkSlots(g, ty) {
      assert Loose(g, ty);
      if s in WalkSlots(g, ty) { EnteredAs(g, ty, t.node); }
    }
    forall w | w in v && IsSlot(g, w) ensures s !in WalkSlots(g, Apply(remap, SlotType(g, w))) {
      assert SlotType(g, w) == Slots(g[w.node])[w.index] && w == Slot(w.node, w.index);
      if s in WalkSlots(g, Apply(remap, SlotType(g, w))) { EnteredAs(g, Apply(remap, SlotType(g, w)), t.node); }
    }
    if s in v { EnteredIn(g, remap, all, types, v, s); }
  }

  lemma EnteredIn(g: Graph, remap: Remap, all: set<Node>, types: set<Type>, v: set<Slot>, s: Slot)
    requires Covers(g, remap, all, types, v) && s in v && s.node !in all
    ensures IsEntered(g, remap, types, v, s)
  {
  }

  /** A modifier's object that was not visited is as it was. */
  lemma UnvisitedStays(g: Graph, k: Graph, remap: Remap, v: set<Slot>, n: Node)
    requires Rewritten(g, k, remap, v) && n in g && IsDerived(g[n]) && Slot(n, 0) !in v
    ensures n in k && k[n] == g[n]
  {
    assert RewrittenAt(g, k, remap, v, n);
    assert |Slots(g[n])| == 1;
    DefExtensional(g[n], k[n]);
  }

  /** From a place that was not visited, the modifiers lead where they led. */
  lemma {:induction false} StripKept(g: Graph, k: Graph, remap: Remap, v: set<Slot>, all: set<Node>, types: set<Type>,
    o: Node, i: nat, m: nat)
    requires Closed(g) && Visited(g, k, remap, v) && Covers(g, remap, all, types, v)
    requires Unshared(g) && MovesTagged(g, remap)
    requires forall n | n in all :: n in g && !IsDerived(g[n])
    requires forall t | t in types :: Loose(g, t)
    requires o in g && i < |Slots(g[o])| && Slot(o, i) !in v
    ensures Strip(k, Slots(g[o])[i], m) == Strip(g, Slots(g[o])[i], m)
    decreases m
  {
    hide Closed, Covers, WalkClosed, Rewritten, Unshared, MovesTagged, Loose;
    var t := Slots(g[o])[i];
    if m > 0 && IsDerivedType(g, t) {
      NextUnvisited(g, remap, v, all, types, o, i);
      UnvisitedStays(g, k, remap, v, t.node);
      assert |Slots(g[t.node])| == 1;
      StripKept(g, k, remap, v, all, types, t.node, 0, m - 1);
    } else if t.Ref? {
      SameDerived(g, k, remap, v);
    }
  }

  lemma SameDerived(g: Graph, k: Graph, remap: Remap, v: set<Slot>)
    requires Rewritten(g, k, remap, v)
    ensures k.Keys == g.Keys && forall o | o in g :: IsDerived(k[o]) == IsDerived(g[o])
  {
    forall o | o in g ensures IsDerived(k[o]) == IsDerived(g[o]) {
      assert RewrittenAt(g, k, remap, v, o) && LabelOf(k[o]) == LabelOf(g[o]);
    }
  }

  /** A place that holds a modifier's object held it before. */
  lemma DerivedWas(g: Graph, k: Graph, remap: Remap, v: set<Slot>, o: Node, i: nat)
    requires Rewritten(g, k, remap, v) && MovesTagged(g, remap) && o in k && i < |Slots(k[o])|
    requires IsDerivedType(k, Slots(k[o])[i])
    ensures o in g && i < |Slots(g[o])| && Slots(g[o])[i] == Slots(k[o])[i] && IsDerivedType(g, Slots(g[o])[i])
  {
    SameDerived(g, k, remap, v);
    assert RewrittenAt(g, k, remap, v, o);
  }

  lemma UnaliasedStays(g: Graph, k: Graph, remap: Remap, v: set<Slot>, was: FuncVars, now: FuncVars, objs: set<Node>)
    requires Rewritten(g, k, remap, v) && MovesTagged(g, remap) && Unaliased(g, was, objs)
    requires now.Keys == was.Keys
    requires forall f | f in was :: now[f].typ == was[f].typ || now[f].typ == Apply(remap, was[f].typ)
    ensures Unaliased(k, now, objs)
  {
    SameDerived(g, k, remap, v);
    forall o, i, p, j | o in k && p in k && 0 <= i < |Slots(k[o])| && 0 <= j < |Slots(k[p])|
      && Slots(k[o])[i] == Slots(k[p])[j] && IsDerivedType(k, Slots(k[o])[i]) ensures o == p && i == j
    {
      DerivedWas(g, k, remap, v, o, i);
      DerivedWas(g, k, remap, v, p, j);
    }
    forall f | f in now ensures Loose(k, now[f].typ) {
      if IsDerivedType(k, now[f].typ) {
        assert now[f].typ == was[f].typ && Loose(g, was[f].typ);
        forall o, i | o in k && 0 <= i < |Slots(k[o])| ensures Slots(k[o])[i] != now[f].typ {
          if Slots(k[o])[i] == now[f].typ { DerivedWas(g, k, remap, v, o, i); }
        }
      }
    }
  }

  lemma FuncTypesLoose(g: Graph, remap: Remap, types: set<Type>, was: FuncVars)
    requires TypesOfFuncs(types, was, remap) && MovesTagged(g, remap) && forall f | f in was :: Loose(g, was[f].typ)
    ensures forall t | t in types :: Loose(g, t)
  {
    hide Unheld;
    forall t | t in types ensures Loose(g, t) {
      var f :| f in was && t == Apply(remap, was[f].typ);
      assert Loose(g, was[f].typ);
    }
  }

  /** One pass: type definitions name, under any number of modifiers, the very objects they named. */
  lemma NamesStay(g: Graph, k: Graph, remap: Remap, v: set<Slot>, all: set<Node>, objs: set<Node>, types: set<Type>,
    was: FuncVars)
    requires Closed(g) && Visited(g, k, remap, v) && Covers(g, remap, all, types, v) && objs <= all
    requires MovesTagged(g, remap) && Unaliased(g, was, objs) && TypesOfFuncs(types, was, remap)
    requires forall n | n in all :: n in g && !IsDerived(g[n])
    requires forall d | d in g && IsAlone(g, objs, d) :: d !in all
    ensures NamesKept(g, k, objs)
  {
    hide Closed, Visited, Covers, IsAlone, MovesTagged, Unshared, Loose, TypesOfFuncs;
    FuncTypesLoose(g, remap, types, was);
    forall d | d in g && IsAlone(g, objs, d) ensures g[d].Decl? { AloneIsDecl(g, objs, d); }
    forall d | d in g && IsAlone(g, objs, d) ensures d in k && k[d].Decl? && NameKept(g, g[d].v.typ, k, k[d].v.typ) {
      OneAloneStays(g, k, remap, v, all, objs, types, d);
      NeverVisited(g, remap, v, all, objs, types, d);
      AloneIsDecl(g, objs, d);
      forall m: nat ensures Strip(k, g[d].v.typ, m) == Strip(g, g[d].v.typ, m) {
        StripKept(g, k, remap, v, all, types, d, 0, m);
      }
    }
  }

  lemma AloneIsDecl(g: Graph, objs: set<Node>, d: Node)
    requires IsAlone(g, objs, d)
    ensures d in g && g[d].Decl? && Slots(g[d]) == [g[d].v.typ]
  {
  }

  lemma NamesKeptTrans(g: Graph, k: Graph, l: Graph, objs: set<Node>)
    requires AloneKept(g, k, objs) && NamesKept(g, k, objs) && NamesKept(k, l, objs)
    ensures NamesKept(g, l, objs)
  {
    hide IsAlone;
    forall d | d in g && IsAlone(g, objs, d) ensures d in l && l[d].Decl? && NameKept(g, g[d].v.typ, l, l[d].v.typ) {
      assert NameKept(g, g[d].v.typ, k, k[d].v.typ) && NameKept(k, k[d].v.typ, l, l[d].v.typ);
      forall m: nat ensures Strip(l, l[d].v.typ, m) == Strip(g, g[d].v.typ, m) {
        assert Strip(l, l[d].v.typ, m) == Strip(k, k[d].v.typ, m);
      }
    }
  }
}

// The objects that modifiers make: pointers, arrays and functions.  Each stands in one place only, and
// following them ends (csym/parse_types.go).

module TypeTrees {
  import opened CTypes
  import opened TypeGraph
  import opened Rewriting

  predicate IsDerived(d: Def) {
    d.Pointer? || d.Array? || d.Func?
  }

  predicate IsDerivedType(g: Graph, t: Type) {
    t.Ref? && t.node in g && IsDerived(g[t.node])
  }

  /** The type stands in no place. */
  ghost predicate Unheld(g: Graph, t: Type) {
    forall o, i | o in g && 0 <= i < |Slots(g[o])| :: Slots(g[o])[i] != t
  }

  /** A modifier's object that stands in no place yet; any other type will do. */
  ghost predicate Loose(g: Graph, t: Type) {
    IsDerivedType(g, t) ==> Unheld(g, t)
  }

  /** No modifier's object stands in two places. */
  ghost predicate Unshared(g: Graph) {
    forall o, i, p, j | o in g && p in g && 0 <= i < |Slots(g[o])| && 0 <= j < |Slots(g[p])|
      && Slots(g[o])[i] == Slots(g[p])[j] && IsDerivedType(g, Slots(g[o])[i]) :: o == p && i == j
  }

  /** Following modifiers and parameters from type t ends within n steps, at a base type, a tagged type or
      a type definition. */
  ghost predicate Ends(g: Graph, t: Type, n: nat)
    decreases n
  {
    IsDerivedType(g, t) ==>
      && n > 0
      && (forall i | 0 <= i < |Slots(g[t.node])| :: Ends(g, Slots(g[t.node])[i], n - 1))
      && forall p, i | p in Params(g[t.node]) && p in g && 0 <= i < |Slots(g[p])| :: Ends(g, Slots(g[p])[i], n - 1)
  }

  ghost predicate EndsSome(g: Graph, t: Type) {
    exists n: nat :: Ends(g, t, n)
  }

  ghost predicate Founded(g: Graph) {
    forall o | o in g :: EndsSome(g, Ref(o))
  }

  ghost predicate Trees(g: Graph) {
    Unshared(g) && Founded(g)
  }

  lemma EndsBelow(g: Graph, t: Type, n: nat)
    requires Ends(g, t, n) && IsDerivedType(g, t)
    ensures n > 0
    ensures forall i | 0 <= i < |Slots(g[t.node])| :: Ends(g, Slots(g[t.node])[i], n - 1)
    ensures forall p, i | p in Params(g[t.node]) && p in g && 0 <= i < |Slots(g[p])| :: Ends(g, Slots(g[p])[i], n - 1)
  {
    hide Slots, Params;
  }

  lemma EndsAbove(g: Graph, t: Type, n: nat)
    requires IsDerivedType(g, t) && n > 0
    requires forall i | 0 <= i < |Slots(g[t.node])| :: Ends(g, Slots(g[t.node])[i], n - 1)
    requires forall p, i | p in Params(g[t.node]) && p in g && 0 <= i < |Slots(g[p])| :: Ends(g, Slots(g[p])[i], n - 1)
    ensures Ends(g, t, n)
  {
    hide Slots, Params;
  }

  lemma {:induction false} EndsLater(g: Graph, t: Type, n: nat, m: nat)
    requires Ends(g, t, n) && n <= m
    ensures Ends(g, t, m)
    decreases n
  {
    hide Ends, Slots, Params;
    if IsDerivedType(g, t) {
      EndsBelow(g, t, n);
      forall i | 0 <= i < |Slots(g[t.node])| ensures Ends(g, Slots(g[t.node])[i], m - 1) {
        EndsLater(g, Slots(g[t.node])[i], n - 1, m - 1);
      }
      forall p, i | p in Params(g[t.node]) && p in g && 0 <= i < |Slots(g[p])| ensures Ends(g, Slots(g[p])[i], m - 1) {
        EndsLater(g, Slots(g[p])[i], n - 1, m - 1);
      }
      EndsAbove(g, t, m);
    } else {
      EndsThere(g, t, m);
    }
  }

  lemma EndsThere(g: Graph, t: Type, n: nat)
    requires !IsDerivedType(g, t)
    ensures Ends(g, t, n)
  {
  }

  lemma ClosedAt(g: Graph, o: Node)
    requires Closed(g) && o in g
    ensures forall i | 0 <= i < |Slots(g[o])| :: In(g, Slots(g[o])[i])
    ensures forall p | p in Params(g[o]) :: p in g && g[p].Decl?
  {
  }

  /** Objects that change leave a walk alone that does not come to them. */
  lemma {:induction false} EndsStays(g: Graph, h: Graph, t: Type, n: nat)
    requires Closed(g) && In(g, t) && Ends(g, t, n)
    requires forall o | o in g :: o in h && (IsDerived(g[o]) || g[o].Decl? ==> h[o] == g[o])
    requires forall o | o in g && !IsDerived(g[o]) :: !IsDerived(h[o])
    ensures Ends(h, t, n)
    decreases n
  {
    if IsDerivedType(h, t) {
      ClosedAt(g, t.node);
      forall i | 0 <= i < |Slots(h[t.node])| ensures Ends(h, Slots(h[t.node])[i], n - 1) {
        EndsStays(g, h, Slots(g[t.node])[i], n - 1);
      }
      forall p, i | p in Params(h[t.node]) && p in h && 0 <= i < |Slots(h[p])| ensures Ends(h, Slots(h[p])[i], n - 1) {
        ClosedAt(g, p);
        EndsStays(g, h, Slots(g[p])[i], n - 1);
      }
    }
  }

  lemma FoundedStays(g: Graph, h: Graph)
    requires Closed(g) && Founded(g)
    requires forall o | o in g :: o in h && (IsDerived(g[o]) || g[o].Decl? ==> h[o] == g[o])
    requires forall o | o in g && !IsDerived(g[o]) :: !IsDerived(h[o])
    ensures forall o | o in g :: EndsSome(h, Ref(o))
  {
    forall o | o in g ensures EndsSome(h, Ref(o)) {
      assert EndsSome(g, Ref(o));
      var n: nat :| Ends(g, Ref(o), n);
      EndsStays(g, h, Ref(o), n);
    }
  }

  // ----- what modifiers are put around -----

  /** The type n constructors down. */
  function Strip(g: Graph, t: Type, n: nat): Type
    decreases n
  {
    if n == 0 || t.Basic? || t.node !in g then t
    else
      match g[t.node]
      case Pointer(e) => Strip(g, e, n - 1)
      case Array(e, _) => Strip(g, e, n - 1)
      case Func(r, _, _) => Strip(g, r, n - 1)
      case _ => t
  }

  // ----- new objects -----

  /** Nothing holds an object that is new. */
  lemma NewIsUnheld(g: Graph, n: Node, d: Def)
    requires Closed(g) && n !in g && forall i | 0 <= i < |Slots(d)| :: In(g, Slots(d)[i])
    ensures Unheld(g[n := d], Ref(n))
  {
    var h := g[n := d];
    forall o, i | o in h && 0 <= i < |Slots(h[o])| ensures Slots(h[o])[i] != Ref(n) {
      if o != n { ClosedAt(g, o); }
    }
  }

  lemma AllocKeepsTrees(g: Graph, n: Node, d: Def)
    requires Closed(g) && Trees(g) && n !in g && Params(d) == [] && |Slots(d)| <= 1
    requires forall i | 0 <= i < |Slots(d)| :: In(g, Slots(d)[i]) && Loose(g, Slots(d)[i])
    ensures Trees(g[n := d])
  {
    AllocKeepsUnshared(g, n, d);
    AllocKeepsFounded(g, n, d);
  }

  lemma AllocKeepsUnshared(g: Graph, n: Node, d: Def)
    requires Closed(g) && Unshared(g) && n !in g && |Slots(d)| <= 1
    requires forall i | 0 <= i < |Slots(d)| :: In(g, Slots(d)[i]) && Loose(g, Slots(d)[i])
    ensures Unshared(g[n := d])
  {
    var h := g[n := d];
    forall o, i, p, j | o in h && p in h && 0 <= i < |Slots(h[o])| && 0 <= j < |Slots(h[p])|
      && Slots(h[o])[i] == Slots(h[p])[j] && IsDerivedType(h, Slots(h[o])[i]) ensures o == p && i == j
    {
      if o != n { ClosedAt(g, o); }
      if p != n { ClosedAt(g, p); }
      assert In(g, Slots(h[o])[i]);
    }
  }

  lemma AllocKeepsFounded(g: Graph, n: Node, d: Def)
    requires Closed(g) && Founded(g) && n !in g && Params(d) == []
    requires |Slots(d)| <= 1 && forall i | 0 <= i < |Slots(d)| :: In(g, Slots(d)[i])
    ensures Founded(g[n := d])
  {
    var h := g[n := d];
    FoundedStays(g, h);
    if |Slots(d)| == 1 {
      EndsIn(h, Slots(d)[0]);
      var m: nat :| Ends(h, Slots(d)[0], m);
      assert Ends(h, Ref(n), m + 1);
    } else {
      assert Ends(h, Ref(n), 1);
    }
    assert EndsSome(h, Ref(n));
  }

  lemma EndsIn(g: Graph, t: Type)
    requires IsDerivedType(g, t) ==> EndsSome(g, t)
    ensures EndsSome(g, t)
  {
    if !IsDerivedType(g, t) { assert Ends(g, t, 0); }
  }

  // ----- tagged types that change -----

  predicate IsFixed(d: Def) {
    !IsDerived(d) && !d.Decl?
  }

  lemma OneKind(d: Def, e: Def)
    requires IsFixed(d) && IsFixed(e)
    ensures !IsDerived(d) && !IsDerived(e)
  {
  }

  lemma ChangeKeepsFounded(g: Graph, t: Node, e: Def)
    requires Closed(g) && Founded(g) && t in g && IsFixed(g[t]) && IsFixed(e)
    ensures Founded(g[t := e])
  {
    FoundedStays(g, g[t := e]);
  }

  /** A tagged type that loses places in front and behind. */
  lemma FewerKeepTrees(g: Graph, t: Node, e: Def, a: nat)
    requires Closed(g) && Trees(g) && t in g && IsFixed(g[t]) && IsFixed(e) && a + |Slots(e)| <= |Slots(g[t])|
    requires forall i | 0 <= i < |Slots(e)| :: Slots(e)[i] == Slots(g[t])[a + i]
    ensures Trees(g[t := e])
  {
    hide Slots, Founded, Closed, IsFixed, IsDerived;
    var h := g[t := e];
    OneKind(g[t], e);
    forall o, i, p, j | o in h && p in h && 0 <= i < |Slots(h[o])| && 0 <= j < |Slots(h[p])|
      && Slots(h[o])[i] == Slots(h[p])[j] && IsDerivedType(h, Slots(h[o])[i]) ensures o == p && i == j
    {
      var i0, j0 := if o == t then a + i else i, if p == t then a + j else j;
      assert Slots(g[o])[i0] == Slots(h[o])[i] && Slots(g[p])[j0] == Slots(h[p])[j];
    }
    ChangeKeepsFounded(g, t, e);
  }

  /** A tagged type that gains a place at k. */
  lemma MoreKeepTrees(g: Graph, t: Node, e: Def, k: nat)
    requires Closed(g) && Trees(g) && t in g && IsFixed(g[t]) && IsFixed(e)
    requires |Slots(e)| == |Slots(g[t])| + 1 && k < |Slots(e)| && Loose(g, Slots(e)[k])
    requires forall i | 0 <= i < |Slots(e)| && i != k :: Slots(e)[i] == Slots(g[t])[if i < k then i else i - 1]
    ensures Trees(g[t := e])
  {
    hide Slots, Founded, Closed, IsFixed, IsDerived;
    var h := g[t := e];
    OneKind(g[t], e);
    forall o, i, p, j | o in h && p in h && 0 <= i < |Slots(h[o])| && 0 <= j < |Slots(h[p])|
      && Slots(h[o])[i] == Slots(h[p])[j] && IsDerivedType(h, Slots(h[o])[i]) ensures o == p && i == j
    {
      var i0, j0 := if o == t && i > k then i - 1 else i, if p == t && j > k then j - 1 else j;
      if !(o == t && i == k) { assert Slots(g[o])[i0] == Slots(h[o])[i]; }
      if !(p == t && j == k) { assert Slots(g[p])[j0] == Slots(h[p])[j]; }
    }
    ChangeKeepsFounded(g, t, e);
  }

  // ----- parameters -----

  /** Another parameter for a function type that stands in no place. */
  lemma ParamKeepsTrees(g: Graph, t: Node, d: Def, n: Node)
    requires Closed(g) && Trees(g) && t in g && g[t].Func? && Unheld(g, Ref(t)) && n in g && g[n].Decl?
    requires d == g[t].(params := g[t].params + [n])
    ensures Trees(g[t := d])
  {
    var h := g[t := d];
    assert forall o | o in g :: Slots(h[o]) == Slots(g[o]) && IsDerived(h[o]) == IsDerived(g[o]);
    forall o | o in h ensures EndsSome(h, Ref(o)) {
      assert EndsSome(g, Ref(o));
      var m: nat :| Ends(g, Ref(o), m);
      if o == t {
        ParamEnds(g, t, d, n, m);
      } else {
        EndsElsewhere(g, t, d, Ref(o), m);
      }
    }
  }

  /** A walk that does not start at t does not come to t. */
  lemma {:induction false} EndsElsewhere(g: Graph, t: Node, d: Def, u: Type, m: nat)
    requires Closed(g) && t in g && g[t].Func? && Unheld(g, Ref(t)) && d.Func? && d.ret == g[t].ret
    requires In(g, u) && u != Ref(t) && Ends(g, u, m)
    ensures Ends(g[t := d], u, m)
    decreases m
  {
    var h := g[t := d];
    if IsDerivedType(h, u) {
      ClosedAt(g, u.node);
      forall i | 0 <= i < |Slots(h[u.node])| ensures Ends(h, Slots(h[u.node])[i], m - 1) {
        EndsElsewhere(g, t, d, Slots(g[u.node])[i], m - 1);
      }
      forall p, i | p in Params(h[u.node]) && p in h && 0 <= i < |Slots(h[p])| ensures Ends(h, Slots(h[p])[i], m - 1) {
        ClosedAt(g, p);
        EndsElsewhere(g, t, d, Slots(g[p])[i], m - 1);
      }
    }
  }

  lemma FuncSlots(d: Def)
    requires d.Func?
    ensures Slots(d) == [d.ret] && Params(d) == d.params && IsDerived(d)
  {
  }

  lemma ParamEnds(g: Graph, t: Node, d: Def, n: Node, m: nat)
    requires Closed(g) && Founded(g) && t in g && g[t].Func? && Unheld(g, Ref(t)) && n in g && g[n].Decl?
    requires d == g[t].(params := g[t].params + [n]) && Ends(g, Ref(t), m)
    ensures EndsSome(g[t := d], Ref(t))
  {
    hide Slots, Closed, Founded, Unheld, Ends, IsDerivedType;
    var typ := g[n].v.typ;
    ParamSlot(g, n);
    FoundedAt(g, typ);
    var k: nat :| Ends(g, typ, k);
    var most := if m > k + 1 then m else k + 1;
    EndsLater(g, Ref(t), m, most);
    EndsLater(g, typ, k, most - 1);
    ParamEndsWithin(g, t, d, n, most);
  }

  lemma FoundedAt(g: Graph, t: Type)
    requires Founded(g) && In(g, t)
    ensures EndsSome(g, t)
  {
    EndsIn(g, t);
  }

  lemma ParamSlot(g: Graph, n: Node)
    requires Closed(g) && n in g && g[n].Decl?
    ensures Slots(g[n]) == [g[n].v.typ] && In(g, g[n].v.typ)
  {
    ClosedAt(g, n);
    assert Slots(g[n])[0] == g[n].v.typ;
  }

  lemma ParamEndsWithin(g: Graph, t: Node, d: Def, n: Node, m: nat)
    requires Closed(g) && t in g && g[t].Func? && Unheld(g, Ref(t)) && n in g && g[n].Decl?
    requires d == g[t].(params := g[t].params + [n]) && m > 0 && Ends(g, Ref(t), m) && Ends(g, g[n].v.typ, m - 1)
    requires Slots(g[n]) == [g[n].v.typ]
    ensures EndsSome(g[t := d], Ref(t))
  {
    FuncSlots(d);
    FuncSlots(g[t]);
    ClosedAt(g, t);
    ClosedAt(g, n);
    hide Slots, Params, Closed, IsDerived;
    var h := g[t := d];
    assert Slots(g[t])[0] == d.ret && Slots(g[n])[0] == g[n].v.typ;
    assert forall i | 0 <= i < |Slots(g[t])| :: Ends(g, Slots(g[t])[i], m - 1);
    EndsElsewhere(g, t, d, d.ret, m - 1);
    forall p, i | p in Params(d) && p in h && 0 <= i < |Slots(h[p])| ensures Ends(h, Slots(h[p])[i], m - 1) {
      ParamOf(g, t, d, n, p, m);
      EndsElsewhere(g, t, d, Slots(g[p])[i], m - 1);
    }
    assert Ends(h, Ref(t), m);
  }

  lemma ParamOf(g: Graph, t: Node, d: Def, n: Node, p: Node, m: nat)
    requires Closed(g) && t in g && g[t].Func? && n in g && g[n].Decl? && m > 0
    requires d == g[t].(params := g[t].params + [n]) && p in d.params && Ends(g, Ref(t), m)
      && Ends(g, g[n].v.typ, m - 1)
    ensures p in g && p != t
    ensures forall i | 0 <= i < |Slots(g[p])| :: In(g, Slots(g[p])[i]) && Ends(g, Slots(g[p])[i], m - 1)
  {
    if p != n {
      assert p in Params(g[t]);
      ClosedAt(g, t);
    }
    ClosedAt(g, p);
  }
}

// What the declarations can reach, and that duplicates are no longer among it.

module Liveness {
  import opened CTypes
  import opened TypeGraph
  import opened Rewriting
  import opened WalkTermination
  import opened Fixups

  /** A type that refers to no dead object, to listed structs only, and only to live places. */
  ghost predicate TypeLive(g: Graph, t: Type, structs: set<Node>, dead: set<Node>, live: set<Slot>) {
    && (t.Ref? ==> t.node in g && t.node !in dead && (g[t.node].Struct? ==> t.node in structs))
    && Below(g, t, live)
  }

  /** `live` holds every place of the listed structs, unions and declarations, is closed under
      following types (type definitions excepted), and no type in it refers to a dead object. */
  ghost predicate Live(
    g: Graph, structs: set<Node>, unions: set<Node>, objs: set<Node>, types: set<Type>, dead: set<Node>,
    live: set<Slot>)
  {
    && structs !! dead && unions !! dead
    && (forall o | o in structs + unions + objs :: Covered(g, o, live))
    && (forall t | t in types :: TypeLive(g, t, structs, dead, live))
    && (forall s | s in live :: IsSlot(g, s) && TypeLive(g, SlotType(g, s), structs, dead, live))
  }

  /** At the start nothing is dead and every place is live. */
  lemma AllLive(g: Graph, structs: set<Node>, unions: set<Node>, objs: set<Node>, types: set<Type>)
    requires Closed(g) && structs + unions + objs <= g.Keys
    requires forall t | t in types :: In(g, t)
    requires forall o | o in g && g[o].Struct? :: o in structs
    ensures Live(g, structs, unions, objs, types, {}, AllSlots(g))
  {
    forall t | In(g, t) ensures TypeLive(g, t, structs, {}, AllSlots(g)) {
      WalkSlotsAreSlots(g, t);
      forall i | 0 <= i < |WalkSlots(g, t)| ensures WalkSlots(g, t)[i] in AllSlots(g) {
        SlotsAreFinite(g, WalkSlots(g, t)[i]);
      }
    }
    forall o | o in structs + unions + objs ensures Covered(g, o, AllSlots(g)) {
      forall k | 0 <= k < |Slots(g[o])| ensures Slot(o, k) in AllSlots(g) {
        SlotsAreFinite(g, Slot(o, k));
      }
    }
    forall s | s in AllSlots(g) ensures IsSlot(g, s) && In(g, SlotType(g, s)) {
      SlotsAreFinite(g, s);
    }
  }

  /** A live type, once remapped, is live in the rewritten graph, where the remapped objects are dead. */
  lemma TypeStaysLive(
    g: Graph, k: Graph, remap: Remap, v: set<Slot>, structs: set<Node>, unions: set<Node>,
    dead: set<Node>, gone: set<Node>, live: set<Slot>, t: Type)
    requires Visited(g, k, remap, v) && TypeLive(g, t, structs, dead, live)
    requires forall o | o in structs + unions :: o !in dead && Covered(g, o, live)
    requires forall u | u in remap :: u.Ref? && remap[u].Ref? && remap[u].node in structs + unions && remap[u] !in remap
    requires forall o | o in structs :: o in g && g[o].Struct?
    requires forall o | o in unions :: o in g && g[o].Union?
    requires forall o :: o in gone <==> Ref(o) in remap
    requires Below(g, Apply(remap, t), v)
    ensures TypeLive(k, Apply(remap, t), structs - gone, dead + gone, live * v)
  {
    var t' := Apply(remap, t);
    RewritingKeepsWalkSlots(g, k, remap, v, t');
    if t'.Ref? { assert RewrittenAt(g, k, remap, v, t'.node); }
    if t in remap {
      var n := t'.node;
      forall i | 0 <= i < |WalkSlots(g, t')| ensures WalkSlots(g, t')[i] in live {
        assert Covered(g, n, live);
      }
    }
  }

  /** One pass: the remapped objects join the dead ones, and nothing live refers to them. */
  lemma LiveAfterPass(
    g: Graph, k: Graph, remap: Remap, v: set<Slot>, tv: set<Type>,
    structs: set<Node>, unions: set<Node>, objs: set<Node>, types: set<Type>, dead: set<Node>, live: set<Slot>,
    types': set<Type>, gone: set<Node>)
    requires Visited(g, k, remap, v) && Covers(g, remap, structs + unions + objs, tv, v)
    requires Live(g, structs, unions, objs, types, dead, live)
    requires forall u | u in remap :: u.Ref? && remap[u].Ref? && remap[u].node in structs + unions && remap[u] !in remap
    requires forall o | o in structs :: o in g && g[o].Struct?
    requires forall o | o in unions :: o in g && g[o].Union?
    requires forall o :: o in gone <==> Ref(o) in remap
    requires types' <= tv
    requires forall t' | t' in types' :: exists t | t in types :: t' == t || t' == Apply(remap, t)
    ensures Live(k, structs - gone, unions - gone, objs, types', dead + gone, live * v)
  {
    hide TypeLive, Slots, LabelOf, Params;
    forall o | o in structs - gone + (unions - gone) + objs ensures Covered(k, o, live * v) {
      assert Covered(g, o, live) && Covered(g, o, v);
      assert RewrittenAt(g, k, remap, v, o);
    }
    forall t' | t' in types' ensures TypeLive(k, t', structs - gone, dead + gone, live * v) {
      var t :| t in types && (t' == t || t' == Apply(remap, t));
      assert t' !in remap && t' == Apply(remap, t);
      TypeStaysLive(g, k, remap, v, structs, unions, dead, gone, live, t);
    }
    forall s | s in live * v
      ensures IsSlot(k, s) && TypeLive(k, SlotType(k, s), structs - gone, dead + gone, live * v)
    {
      assert RewrittenAt(g, k, remap, v, s.node) && s == Slot(s.node, s.index);
      TypeStaysLive(g, k, remap, v, structs, unions, dead, gone, live, SlotType(g, s));
    }
  }

  /** The places inside a type: those the walk enters, and the members of a struct.  The inside of a
      type definition is not included. */
  function Onward(g: Graph, t: Type): seq<Slot> {
    if t.Ref? && t.node in g && g[t.node].Struct? then
      seq(|Slots(g[t.node])|, k requires 0 <= k < |Slots(g[t.node])| => Slot(t.node, k))
    else WalkSlots(g, t)
  }

  /** A way of following types from place to place, structs included. */
  ghost predicate IsPath(g: Graph, path: seq<Slot>) {
    && (forall i | 0 <= i < |path| :: IsSlot(g, path[i]))
    && (forall i | 0 < i < |path| :: path[i] in Onward(g, SlotType(g, path[i - 1])))
  }

  /** No path that starts at a declaration, a listed struct or a listed union, or inside the type of
      a function, ever holds a reference to a dead object. */
  lemma {:induction false} PathsAvoidTheDead(
    g: Graph, structs: set<Node>, unions: set<Node>, objs: set<Node>, types: set<Type>, dead: set<Node>,
    live: set<Slot>,
    path: seq<Slot>)
    requires Live(g, structs, unions, objs, types, dead, live)
    requires IsPath(g, path) && path != []
    requires path[0].node in structs + unions + objs || exists t | t in types :: path[0] in Onward(g, t)
    ensures forall i | 0 <= i < |path| :: path[i] in live
    ensures forall i | 0 <= i < |path| :: SlotType(g, path[i]).Ref? ==> SlotType(g, path[i]).node !in dead
    decreases |path|
  {
    var n := |path| - 1;
    var s := path[n];
    assert s == Slot(s.node, s.index);
    if n == 0 {
      if s.node in structs + unions + objs {
        assert Covered(g, s.node, live);
      } else {
        var t :| t in types && s in Onward(g, t);
        OnwardIsLive(g, structs, unions, objs, types, dead, live, t, s);
      }
    } else {
      PathsAvoidTheDead(g, structs, unions, objs, types, dead, live, path[..n]);
      assert path[n - 1] == path[..n][n - 1];
      OnwardIsLive(g, structs, unions, objs, types, dead, live, SlotType(g, path[n - 1]), s);
      forall i | 0 <= i < |path| ensures path[i] in live {
        if i < n { assert path[i] == path[..n][i]; }
      }
    }
  }

  lemma OnwardIsLive(
    g: Graph, structs: set<Node>, unions: set<Node>, objs: set<Node>, types: set<Type>, dead: set<Node>,
    live: set<Slot>,
    t: Type, s: Slot)
    requires Live(g, structs, unions, objs, types, dead, live)
    requires TypeLive(g, t, structs, dead, live) && s in Onward(g, t)
    ensures s in live
  {
    if t.Ref? && t.node in g && g[t.node].Struct? {
      assert Covered(g, t.node, live);
    } else {
      var i :| 0 <= i < |WalkSlots(g, t)| && WalkSlots(g, t)[i] == s;
    }
  }
}

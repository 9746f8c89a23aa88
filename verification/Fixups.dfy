// Removing duplicate types (csym/parse_fixups.go, csym/parse_types.go).

module Fixups {
  import opened CTypes
  import opened TypeGraph
  import opened Rewriting
  import opened WalkTermination
  import opened Csym

  // ----- the walk -----

  /** Remaps one type-holding variable and walks on from the type it then holds. */
  method ReplaceInSlot(s: Slot, remap: Remap, ghost nodes: set<Node>, ghost h: nat)
    requires Ready(Snap(nodes), remap) && IsSlot(Snap(nodes), s)
    requires Walks(Snap(nodes), SlotType(Snap(nodes), s), h)
    modifies nodes
    ensures Rewritten(old(Snap(nodes)), Snap(nodes), remap, ReachFrom(old(Snap(nodes)), remap, [s], h))
    decreases h, 2
  {
    ghost var g := Snap(nodes);
    ghost var t := SlotType(g, s);
    AssigningIsRewriting(g, remap, s);
    if Slots(s.node.def)[s.index] in remap {
      s.node.def := SetSlot(s.node.def, s.index, remap[Slots(s.node.def)[s.index]]);
    }
    ghost var g1 := Snap(nodes);
    assert Rewritten(g, g1, remap, {s});
    RewritingKeepsSlotWalks(g, g1, remap, {s}, s, h);
    ReplaceUsedSubtypesInType(Slots(s.node.def)[s.index], remap, nodes, h);
    AssignThenWalk(g, g1, Snap(nodes), remap, s, h);
  }

  /** Remaps the types held within type t. */
  method ReplaceUsedSubtypesInType(t: Type, remap: Remap, ghost nodes: set<Node>, ghost h: nat)
    requires Ready(Snap(nodes), remap) && In(Snap(nodes), t) && Walks(Snap(nodes), t, h)
    modifies nodes
    ensures Rewritten(old(Snap(nodes)), Snap(nodes), remap, ReachType(old(Snap(nodes)), remap, t, h))
    decreases h, 1
  {
    hide Ready, Rewritten, FieldTypes, FieldLabels, LabelOf, ReachFrom;
    ghost var g := Snap(nodes);
    ghost var ws := WalkSlots(g, t);
    assert forall i | 0 <= i < |ws| :: WalksBelow(g, ws[i], h);
    NothingRewritten(g, remap);
    if h > 0 { NoPlaces(g, remap, h - 1); }
    match t {
      case Basic(_) =>
      case Ref(o) =>
        match o.def {
          case Pointer(_) =>
            assert ws[0] == Slot(o, 0);
            ReplaceInSlot(Slot(o, 0), remap, nodes, h - 1);
          case Array(_, _) =>
            assert ws[0] == Slot(o, 0);
            ReplaceInSlot(Slot(o, 0), remap, nodes, h - 1);
          case Func(_, params, _) =>
            var places := [Slot(o, 0)] + seq(|params|, i requires 0 <= i < |params| => Slot(params[i], 0));
            assert places == ws && WalksBelow(g, ws[0], h);
            ReplaceInSlots(places, remap, nodes, h - 1);
          case Union(_, _, fields) =>
            var places := seq(|fields|, i requires 0 <= i < |fields| => Slot(o, i));
            assert places == ws;
            if places != [] {
              assert WalksBelow(g, ws[0], h);
              ReplaceInSlots(places, remap, nodes, h - 1);
            }
          case _ =>
        }
    }
  }

  /** Remaps a list of type-holding variables in order. */
  method ReplaceInSlots(places: seq<Slot>, remap: Remap, ghost nodes: set<Node>, ghost h: nat)
    requires Ready(Snap(nodes), remap)
    requires forall i | 0 <= i < |places| :: WalksBelow(Snap(nodes), places[i], h + 1)
    modifies nodes
    ensures Rewritten(old(Snap(nodes)), Snap(nodes), remap, ReachFrom(old(Snap(nodes)), remap, places, h))
    decreases h, 3
  {
    hide Ready, Rewritten, ReachFrom;
    ghost var g := Snap(nodes);
    NothingRewritten(g, remap);
    assert places[..0] == [] && ReachFrom(g, remap, [], h) == {} by { NoPlaces(g, remap, h); }
    for i := 0 to |places|
      invariant Rewritten(g, Snap(nodes), remap, ReachFrom(g, remap, places[..i], h))
    {
      ghost var k := Snap(nodes);
      StartsBelow(g, places[i], h);
      RewritingKeepsSlotWalks(g, k, remap, ReachFrom(g, remap, places[..i], h), places[i], h);
      ReplaceInSlot(places[i], remap, nodes, h);
      RewritingStep(g, k, Snap(nodes), remap, places, i, h);
    }
    assert places[..|places|] == places;
  }

  lemma NothingRewritten(g: Graph, remap: Remap)
    ensures Rewritten(g, g, remap, {})
  {
  }

  lemma NoPlaces(g: Graph, remap: Remap, h: nat)
    ensures ReachFrom(g, remap, [], h) == {}
  {
  }

  lemma StartsBelow(g: Graph, s: Slot, h: nat)
    requires WalksBelow(g, s, h + 1)
    ensures IsSlot(g, s) && Walks(g, SlotType(g, s), h)
  {
  }

  // ----- the passes over all declarations -----

  /** All type-holding variables of an object are among the visited places. */
  ghost predicate Covered(g: Graph, o: Node, v: set<Slot>) {
    o in g && forall k | 0 <= k < |Slots(g[o])| :: Slot(o, k) in v
  }

  /** A place the walk enters from one of these types, or from a place that is visited itself. */
  ghost predicate IsEntered(g: Graph, remap: Remap, types: set<Type>, v: set<Slot>, s: Slot) {
    || (exists t | t in types :: s in WalkSlots(g, t))
    || (exists w | w in v && IsSlot(g, w) :: s in WalkSlots(g, Apply(remap, SlotType(g, w))))
  }

  /** Nothing is visited but places of these objects and places the walk enters from there. */
  ghost predicate Within(g: Graph, remap: Remap, objs: set<Node>, types: set<Type>, v: set<Slot>) {
    forall s | s in v :: s.node in objs || IsEntered(g, remap, types, v, s)
  }

  /** All type-holding variables of these objects, and everything below these remapped types,
      are among the visited places, and nothing outside them. */
  ghost predicate Covers(g: Graph, remap: Remap, objs: set<Node>, types: set<Type>, v: set<Slot>) {
    && Within(g, remap, objs, types, v)
    && (forall o | o in objs :: Covered(g, o, v))
    && (forall t | t in types :: t !in remap && Below(g, t, v))
  }

  lemma VisitedKeeps(g: Graph, k: Graph, remap: Remap, v: set<Slot>, h: nat)
    requires Visited(g, k, remap, v) && Ready(g, remap) && WalksAll(g, h)
    ensures Ready(k, remap) && WalksAll(k, h) && k.Keys == g.Keys
    ensures forall o | o in g :: LabelOf(k[o]) == LabelOf(g[o])
  {
    assert forall o | o in g :: RewrittenAt(g, k, remap, v, o);
    RewritingKeepsReady(g, k, remap, v);
    RewritingKeepsWalksAll(g, k, remap, v, h);
  }

  /** One stretch of the walk after another: everything covered before or since is covered. */
  lemma VisitedThen(
    g: Graph, k: Graph, k': Graph, remap: Remap, v: set<Slot>, w: set<Slot>,
    objs: set<Node>, types: set<Type>, objs': set<Node>, types': set<Type>, all: set<Node>, allTypes: set<Type>)
    requires Ready(g, remap) && Visited(g, k, remap, v) && Visited(k, k', remap, w)
    requires Covers(g, remap, objs, types, v) && Covers(k, remap, objs', types', w)
    requires all == objs + objs' && allTypes == types + types'
    ensures Visited(g, k', remap, v + w)
    ensures Covers(g, remap, all, allTypes, v + w)
  {
    WithinThen(g, k, remap, v, w, objs, types, objs', types');
    VisitedCompose(g, k, k', remap, v, w);
    forall o | o in objs' ensures Covered(g, o, v + w) {
      assert Covered(k, o, w) && RewrittenAt(g, k, remap, v, o);
    }
    forall t | t in types' ensures Below(g, t, v + w) {
      RewritingKeepsWalkSlots(g, k, remap, v, t);
      assert Below(k, t, w);
    }
  }

  lemma WithinThen(g: Graph, k: Graph, remap: Remap, v: set<Slot>, w: set<Slot>,
    objs: set<Node>, types: set<Type>, objs': set<Node>, types': set<Type>)
    requires Sound(g, remap) && Rewritten(g, k, remap, v)
    requires Within(g, remap, objs, types, v) && Within(k, remap, objs', types', w)
    ensures Within(g, remap, objs + objs', types + types', v + w)
  {
    hide Sound, Rewritten, IsEntered;
    forall s | s in v + w && s.node !in objs + objs' ensures IsEntered(g, remap, types + types', v + w, s) {
      if s in v {
        EnteredMore(g, remap, types, v, types + types', v + w, s);
      } else {
        EnteredBefore(g, k, remap, v, types', w, s);
        EnteredMore(g, remap, types', w, types + types', v + w, s);
      }
    }
  }

  lemma EnteredMore(g: Graph, remap: Remap, types: set<Type>, v: set<Slot>, types': set<Type>, v': set<Slot>, s: Slot)
    requires IsEntered(g, remap, types, v, s) && types <= types' && v <= v'
    ensures IsEntered(g, remap, types', v', s)
  {
  }

  /** What the walk enters does not depend on how far the rewriting has got. */
  lemma EnteredBefore(g: Graph, k: Graph, remap: Remap, done: set<Slot>, types: set<Type>, v: set<Slot>, s: Slot)
    requires Sound(g, remap) && Rewritten(g, k, remap, done) && IsEntered(k, remap, types, v, s)
    ensures IsEntered(g, remap, types, v, s)
  {
    if t :| t in types && s in WalkSlots(k, t) {
      RewritingKeepsWalkSlots(g, k, remap, done, t);
    } else {
      var w :| w in v && IsSlot(k, w) && s in WalkSlots(k, Apply(remap, SlotType(k, w)));
      RewritingKeepsSlot(g, k, remap, done, w);
      RewritingKeepsWalkSlots(g, k, remap, done, Apply(remap, SlotType(k, w)));
    }
  }

  lemma NothingVisited(g: Graph, remap: Remap)
    ensures Visited(g, g, remap, {}) && Covers(g, remap, {}, {}, {})
  {
  }

  lemma RemappedWalks(g: Graph, remap: Remap, t: Type, h: nat)
    requires Ready(g, remap) && WalksAll(g, h) && In(g, t)
    ensures In(g, Apply(remap, t)) && Walks(g, Apply(remap, t), h)
    ensures Apply(remap, Apply(remap, t)) == Apply(remap, t)
  {
  }

  lemma ReachTypeVisited(g: Graph, k: Graph, remap: Remap, t: Type, h: nat)
    requires Ready(g, remap) && Walks(g, Apply(remap, t), h)
    requires Rewritten(g, k, remap, ReachType(g, remap, Apply(remap, t), h))
    ensures Visited(g, k, remap, ReachType(g, remap, Apply(remap, t), h))
    ensures Covers(g, remap, {}, {Apply(remap, t)}, ReachType(g, remap, Apply(remap, t), h))
  {
    ReachTypeIsClosed(g, remap, Apply(remap, t), h);
    ReachTypeWithin(g, remap, Apply(remap, t), h);
    TypeWithin(g, remap, Apply(remap, t), ReachType(g, remap, Apply(remap, t), h));
  }

  /** Visited from a place that is visited itself. */
  ghost predicate Follows(g: Graph, remap: Remap, v: set<Slot>, s: Slot) {
    exists w | w in v && IsSlot(g, w) :: s in WalkSlots(g, Apply(remap, SlotType(g, w)))
  }

  lemma FollowsMore(g: Graph, remap: Remap, v: set<Slot>, v': set<Slot>, s: Slot)
    requires Follows(g, remap, v, s) && v <= v'
    ensures Follows(g, remap, v', s)
  {
  }

  lemma TypeWithin(g: Graph, remap: Remap, t: Type, v: set<Slot>)
    requires forall s | s in v :: s in WalkSlots(g, t) || Follows(g, remap, v, s)
    ensures Within(g, remap, {}, {t}, v)
  {
    forall s | s in v ensures IsEntered(g, remap, {t}, v, s) {
      if s in WalkSlots(g, t) { assert t in {t}; }
    }
  }

  lemma {:induction false} ReachWithin(g: Graph, remap: Remap, ws: seq<Slot>, h: nat)
    ensures forall s | s in ReachFrom(g, remap, ws, h) :: s in ws || Follows(g, remap, ReachFrom(g, remap, ws, h), s)
    decreases h, |ws|
  {
    hide Follows;
    if ws != [] {
      var all, rest := ReachFrom(g, remap, ws, h), ReachFrom(g, remap, ws[1..], h);
      ReachWithin(g, remap, ws[1..], h);
      forall s | s in rest && s !in ws ensures Follows(g, remap, all, s) {
        FollowsMore(g, remap, rest, all, s);
      }
      if IsSlot(g, ws[0]) {
        var t := Apply(remap, SlotType(g, ws[0]));
        var below := ReachType(g, remap, t, h);
        ReachTypeWithin(g, remap, t, h);
        forall s | s in below ensures Follows(g, remap, all, s) {
          if s in WalkSlots(g, t) {
            FollowsFrom(g, remap, all, ws[0], s);
          } else {
            FollowsMore(g, remap, below, all, s);
          }
        }
      }
    }
  }

  lemma FollowsFrom(g: Graph, remap: Remap, v: set<Slot>, w: Slot, s: Slot)
    requires w in v && IsSlot(g, w) && s in WalkSlots(g, Apply(remap, SlotType(g, w)))
    ensures Follows(g, remap, v, s)
  {
  }

  lemma {:induction false} ReachTypeWithin(g: Graph, remap: Remap, t: Type, h: nat)
    ensures forall s | s in ReachType(g, remap, t, h) ::
      s in WalkSlots(g, t) || Follows(g, remap, ReachType(g, remap, t, h), s)
    decreases h, 0
  {
    hide Follows;
    if h > 0 { ReachWithin(g, remap, WalkSlots(g, t), h - 1); }
  }

  /** The name and the type of functions. */
  type FuncVars = map<FuncDecl, Var>

  /** The types of these functions, each remapped or as it was. */
  ghost predicate TypesOfFuncs(types: set<Type>, was: FuncVars, remap: Remap) {
    forall t | t in types :: exists f | f in was :: t == Apply(remap, was[f].typ)
  }

  method ReplaceInObject(o: Node, remap: Remap, ghost nodes: set<Node>, ghost h: nat) returns (ghost v: set<Slot>)
    requires o in nodes && Ready(Snap(nodes), remap) && WalksAll(Snap(nodes), h)
    modifies nodes
    ensures Visited(old(Snap(nodes)), Snap(nodes), remap, v)
    ensures Covers(old(Snap(nodes)), remap, {o}, {}, v)
  {
    ghost var g := Snap(nodes);
    var n := |Slots(o.def)|;
    var places := seq(n, k requires 0 <= k < n => Slot(o, k));
    forall i | 0 <= i < n ensures WalksBelow(g, places[i], h + 1) {
      assert In(g, SlotType(g, places[i]));
    }
    ReplaceInSlots(places, remap, nodes, h);
    v := ReachFrom(g, remap, places, h);
    ReachIsClosed(g, remap, places, h);
    ReachWithin(g, remap, places, h);
    assert Within(g, remap, {o}, {}, v) by {
      forall s | s in v && s.node != o ensures IsEntered(g, remap, {}, v, s) { assert Follows(g, remap, v, s); }
    }
    forall k | 0 <= k < n ensures Slot(o, k) in v {
      assert places[k] == Slot(o, k);
    }
  }

  ghost function Elements<T>(s: seq<T>): set<T> {
    set x | x in s
  }

  lemma ElementsWithin<T>(s: seq<T>, t: set<T>)
    requires forall x | x in s :: x in t
    ensures Elements(s) <= t
  {
  }

  /** `replaceUsedTypesInStructs`, `...InUnions`, and the loops over variables and locals. */
  method ReplaceInObjects(objs: seq<Node>, remap: Remap, ghost nodes: set<Node>, ghost h: nat)
    returns (ghost v: set<Slot>)
    requires Elements(objs) <= nodes && Ready(Snap(nodes), remap) && WalksAll(Snap(nodes), h)
    modifies nodes
    ensures Visited(old(Snap(nodes)), Snap(nodes), remap, v)
    ensures Covers(old(Snap(nodes)), remap, Elements(objs), {}, v)
  {
    hide Visited, Ready, WalksAll, Covers;
    ghost var g := Snap(nodes);
    v := {};
    NothingVisited(g, remap);
    assert Elements(objs[..0]) == {};
    for i := 0 to |objs|
      invariant Visited(g, Snap(nodes), remap, v)
      invariant Covers(g, remap, Elements(objs[..i]), {}, v)
    {
      ghost var k := Snap(nodes);
      VisitedKeeps(g, k, remap, v, h);
      ghost var w := ReplaceInObject(objs[i], remap, nodes, h);
      assert objs[..i + 1] == objs[..i] + [objs[i]];
      VisitedThen(g, k, Snap(nodes), remap, v, w,
        Elements(objs[..i]), {}, {objs[i]}, {}, Elements(objs[..i + 1]), {});
      v := v + w;
    }
    assert objs[..|objs|] == objs;
  }

  function Mapped(remap: Remap, v: Var): Var {
    v.(typ := Apply(remap, v.typ))
  }

  method ReplaceInFuncType(f: FuncDecl, remap: Remap, ghost nodes: set<Node>, ghost h: nat)
    returns (ghost v: set<Slot>)
    requires Ready(Snap(nodes), remap) && WalksAll(Snap(nodes), h) && In(Snap(nodes), f.v.typ)
    modifies nodes, f`v
    ensures f.v == Mapped(remap, old(f.v))
    ensures Visited(old(Snap(nodes)), Snap(nodes), remap, v)
    ensures Covers(old(Snap(nodes)), remap, {}, {f.v.typ}, v)
  {
    hide Visited, Ready, WalksAll, Covers;
    ghost var g := Snap(nodes);
    ghost var t := f.v.typ;
    if f.v.typ in remap {
      f.v := f.v.(typ := remap[f.v.typ]);
    }
    RemappedWalks(g, remap, t, h);
    ReplaceUsedSubtypesInType(f.v.typ, remap, nodes, h);
    v := ReachType(g, remap, Apply(remap, t), h);
    ReachTypeVisited(g, Snap(nodes), remap, t, h);
  }

  /** A function whose blocks are among `blocks`, with its locals among `objs`. */
  ghost predicate LocalsWithin(f: FuncDecl, objs: set<Node>, blocks: set<Block>)
    reads f`blocks, blocks
  {
    forall b | b in f.blocks :: b in blocks && Elements(b.locals) <= objs
  }

  /** Object d is a local of some block of the function. */
  ghost predicate IsLocalOf(f: FuncDecl, d: Node, blocks: set<Block>)
    reads f`blocks, blocks
  {
    exists b | b in f.blocks && b in blocks :: d in b.locals
  }

  /** The locals of all blocks of a function. */
  method ReplaceInBlocks(f: FuncDecl, remap: Remap, ghost nodes: set<Node>, ghost h: nat, ghost blocks: set<Block>)
    returns (ghost v: set<Slot>, ghost objs: set<Node>)
    requires Ready(Snap(nodes), remap) && WalksAll(Snap(nodes), h)
    requires LocalsWithin(f, nodes, blocks)
    modifies nodes
    ensures Visited(old(Snap(nodes)), Snap(nodes), remap, v)
    ensures Covers(old(Snap(nodes)), remap, objs, {}, v)
    ensures LocalsWithin(f, objs, blocks) && forall d | d in objs :: IsLocalOf(f, d, blocks)
  {
    hide Visited, Ready, WalksAll, Covers, Elements;
    ghost var g := Snap(nodes);
    v, objs := {}, {};
    NothingVisited(g, remap);
    for i := 0 to |f.blocks|
      invariant Visited(g, Snap(nodes), remap, v) && Covers(g, remap, objs, {}, v)
      invariant forall b | b in f.blocks[..i] :: Elements(b.locals) <= objs
      invariant forall d | d in objs :: IsLocalOf(f, d, blocks)
    {
      ghost var k := Snap(nodes);
      VisitedKeeps(g, k, remap, v, h);
      ghost var locals := Elements(f.blocks[i].locals);
      ghost var w := ReplaceInObjects(f.blocks[i].locals, remap, nodes, h);
      VisitedThen(g, k, Snap(nodes), remap, v, w, objs, {}, locals, {}, objs + locals, {});
      ListedLocals(f, f.blocks[i], blocks);
      objs, v := objs + locals, v + w;
    }
  }

  lemma ListedLocals(f: FuncDecl, b: Block, blocks: set<Block>)
    requires b in f.blocks && b in blocks
    ensures forall d | d in Elements(b.locals) :: IsLocalOf(f, d, blocks)
  {
  }

  /** This function's type and locals are among the covered ones. */
  ghost predicate FuncDone(f: FuncDecl, objs: set<Node>, types: set<Type>, blocks: set<Block>)
    reads f, blocks
  {
    f.v.typ in types && LocalsWithin(f, objs, blocks)
  }

  ghost predicate OverlayDone(o: Overlay, objs: set<Node>, types: set<Type>, blocks: set<Block>)
    reads o, o.funcs, blocks
  {
    Elements(o.vars) <= objs && forall i | 0 <= i < |o.funcs| :: FuncDone(o.funcs[i], objs, types, blocks)
  }

  /** One function: its type, then the locals of its blocks. */
  method ReplaceInFunction(f: FuncDecl, remap: Remap, ghost nodes: set<Node>, ghost h: nat, ghost blocks: set<Block>)
    returns (ghost v: set<Slot>, ghost objs: set<Node>, ghost types: set<Type>)
    requires Ready(Snap(nodes), remap) && WalksAll(Snap(nodes), h)
    requires In(Snap(nodes), f.v.typ) && LocalsWithin(f, nodes, blocks)
    modifies nodes, f`v
    ensures f.v == Mapped(remap, old(f.v))
    ensures Visited(old(Snap(nodes)), Snap(nodes), remap, v)
    ensures Covers(old(Snap(nodes)), remap, objs, types, v) && FuncDone(f, objs, types, blocks) && types == {f.v.typ}
    ensures forall d | d in objs :: IsLocalOf(f, d, blocks)
  {
    hide Visited, Ready, WalksAll, Covers, LocalsWithin, Mapped, IsLocalOf;
    ghost var g := Snap(nodes);
    v := ReplaceInFuncType(f, remap, nodes, h);
    types := {f.v.typ};
    ghost var k := Snap(nodes);
    VisitedKeeps(g, k, remap, v, h);
    ghost var w;
    w, objs := ReplaceInBlocks(f, remap, nodes, h, blocks);
    VisitedThen(g, k, Snap(nodes), remap, v, w, {}, types, objs, {}, objs, types);
    v := v + w;
  }

  /** Object d is a local of one of these functions. */
  ghost predicate IsLocalOfAny(fs: seq<FuncDecl>, d: Node, funcs: set<FuncDecl>, blocks: set<Block>)
    reads funcs`blocks, blocks
  {
    exists f | f in fs && f in funcs :: IsLocalOf(f, d, blocks)
  }

  /** `replaceUsedFuncTypesInInOverlay`: each function's type, then the locals of its blocks. */
  method ReplaceInFunctions(
    fs: seq<FuncDecl>, remap: Remap, ghost nodes: set<Node>, ghost h: nat, ghost funcs: set<FuncDecl>,
    ghost blocks: set<Block>, ghost was: FuncVars)
    returns (ghost v: set<Slot>, ghost objs: set<Node>, ghost types: set<Type>)
    requires forall f | f in fs :: f in was && was[f] == f.v
    requires Ready(Snap(nodes), remap) && WalksAll(Snap(nodes), h)
    requires forall f | f in fs :: f in funcs && In(Snap(nodes), f.v.typ) && LocalsWithin(f, nodes, blocks)
    requires forall i, j | 0 <= i < j < |fs| :: fs[i] != fs[j]
    modifies nodes, fs`v
    ensures forall f | f in fs :: f.v == Mapped(remap, old(f.v))
    ensures TypesOfFuncs(types, was, remap)
    ensures Visited(old(Snap(nodes)), Snap(nodes), remap, v)
    ensures Covers(old(Snap(nodes)), remap, objs, types, v)
    ensures forall i | 0 <= i < |fs| :: FuncDone(fs[i], objs, types, blocks)
    ensures forall d | d in objs :: IsLocalOfAny(fs, d, funcs, blocks)
  {
    hide Visited, Ready, WalksAll, Covers, Elements;
    hide FuncDone, Mapped, LocalsWithin, IsLocalOf, IsLocalOfAny, TypesOfFuncs;
    NoTypes(was, remap);
    ghost var g := Snap(nodes);
    v, objs, types := {}, {}, {};
    NothingVisited(g, remap);
    for i := 0 to |fs|
      invariant forall j | 0 <= j < |fs| :: fs[j].v == if j < i then Mapped(remap, old(fs[j].v)) else old(fs[j].v)
      invariant TypesOfFuncs(types, was, remap)
      invariant forall j | 0 <= j < i :: FuncDone(fs[j], objs, types, blocks)
      invariant forall d | d in objs :: IsLocalOfAny(fs, d, funcs, blocks)
      invariant Visited(g, Snap(nodes), remap, v) && Covers(g, remap, objs, types, v)
    {
      ghost var k := Snap(nodes);
      VisitedKeeps(g, k, remap, v, h);
      ghost var w, objs', types' := ReplaceInFunction(fs[i], remap, nodes, h, blocks);
      VisitedThen(g, k, Snap(nodes), remap, v, w, objs, types, objs', types', objs + objs', types + types');
      OneMoreTypes(types, was, remap, fs[i]);
      StaysDone(fs, i, objs, types, objs + objs', types + types', blocks);
      StaysDone(fs[i..i + 1], 1, objs', types', objs + objs', types + types', blocks);
      LocalsOfOne(fs, i, funcs, blocks);
      objs, types, v := objs + objs', types + types', v + w;
    }
  }

  lemma NoTypes(was: FuncVars, remap: Remap)
    ensures TypesOfFuncs({}, was, remap)
  {
  }

  lemma OneMoreTypes(types: set<Type>, was: FuncVars, remap: Remap, f: FuncDecl)
    requires TypesOfFuncs(types, was, remap) && f in was && f.v == Mapped(remap, was[f])
    ensures TypesOfFuncs(types + {f.v.typ}, was, remap)
  {
  }

  lemma TypesTogether(types: set<Type>, types': set<Type>, was: FuncVars, remap: Remap)
    requires TypesOfFuncs(types, was, remap) && TypesOfFuncs(types', was, remap)
    ensures TypesOfFuncs(types + types', was, remap)
  {
  }

  lemma LocalsOfOne(fs: seq<FuncDecl>, i: nat, funcs: set<FuncDecl>, blocks: set<Block>)
    requires i < |fs| && fs[i] in funcs
    ensures forall d | IsLocalOf(fs[i], d, blocks) :: IsLocalOfAny(fs, d, funcs, blocks)
  {
  }

  lemma StaysDone(fs: seq<FuncDecl>, n: nat,
    objs: set<Node>, types: set<Type>, objs': set<Node>, types': set<Type>, blocks: set<Block>)
    requires n <= |fs| && objs <= objs' && types <= types'
    requires forall i | 0 <= i < n :: FuncDone(fs[i], objs, types, blocks)
    ensures forall i | 0 <= i < n :: FuncDone(fs[i], objs', types', blocks)
  {
  }

  /** Everything an overlay declares is a live object, and no function is listed twice. */
  ghost predicate GroundedOverlay(o: Overlay, nodes: set<Node>, funcs: set<FuncDecl>, blocks: set<Block>)
    reads o, funcs`blocks, blocks
  {
    && Elements(o.vars) <= nodes
    && (forall i, j | 0 <= i < j < |o.funcs| :: o.funcs[i] != o.funcs[j])
    && (forall f | f in o.funcs :: f in funcs && LocalsWithin(f, nodes, blocks))
  }

  ghost predicate TypesGrounded(funcs: set<FuncDecl>, nodes: set<Node>)
    reads funcs`v
  {
    forall f | f in funcs :: f.v.typ.Ref? ==> f.v.typ.node in nodes
  }

  lemma MappedStaysIn(g: Graph, remap: Remap)
    requires Ready(g, remap)
    ensures forall v: Var | In(g, v.typ) :: In(g, Mapped(remap, v).typ)
  {
  }

  /** Object d is a variable of the overlay, or a local of one of its functions. */
  ghost predicate IsDeclaredBy(o: Overlay, d: Node, funcs: set<FuncDecl>, blocks: set<Block>)
    reads o`vars, o`funcs, funcs`blocks, blocks
  {
    d in o.vars || IsLocalOfAny(o.funcs, d, funcs, blocks)
  }

  ghost predicate IsDeclaredByAny(overlays: seq<Overlay>, d: Node, funcs: set<FuncDecl>, blocks: set<Block>)
    reads overlays`vars, overlays`funcs, funcs`blocks, blocks
  {
    exists o | o in overlays :: IsDeclaredBy(o, d, funcs, blocks)
  }

  lemma DeclaredHere(o: Overlay, locals: set<Node>, funcs: set<FuncDecl>, blocks: set<Block>)
    requires forall d | d in locals :: IsLocalOfAny(o.funcs, d, funcs, blocks)
    ensures forall d | d in Elements(o.vars) + locals :: IsDeclaredBy(o, d, funcs, blocks)
  {
  }

  /** One overlay, variables then functions. */
  method ReplaceInOverlay(o: Overlay, remap: Remap, ghost nodes: set<Node>, ghost h: nat,
    ghost funcs: set<FuncDecl>, ghost blocks: set<Block>, ghost was: FuncVars)
    returns (ghost v: set<Slot>, ghost objs: set<Node>, ghost types: set<Type>)
    requires forall f | f in o.funcs :: f in was && was[f] == f.v
    requires Ready(Snap(nodes), remap) && WalksAll(Snap(nodes), h)
    requires GroundedOverlay(o, nodes, funcs, blocks) && TypesGrounded(funcs, nodes)
    modifies nodes, funcs`v
    ensures forall f | f in funcs :: f.v == if f in o.funcs then Mapped(remap, old(f.v)) else old(f.v)
    ensures TypesOfFuncs(types, was, remap)
    ensures Visited(old(Snap(nodes)), Snap(nodes), remap, v)
    ensures Covers(old(Snap(nodes)), remap, objs, types, v) && OverlayDone(o, objs, types, blocks)
    ensures forall d | d in objs :: IsDeclaredBy(o, d, funcs, blocks)
    ensures TypesGrounded(funcs, nodes)
  {
    hide Visited, Ready, WalksAll, Covers, Elements, IsLocalOfAny, IsDeclaredBy, TypesOfFuncs;
    ghost var g := Snap(nodes);
    MappedStaysIn(g, remap);
    v := ReplaceInObjects(o.vars, remap, nodes, h);
    ghost var k := Snap(nodes);
    VisitedKeeps(g, k, remap, v, h);
    ghost var w;
    w, objs, types := ReplaceInFunctions(o.funcs, remap, nodes, h, funcs, blocks, was);
    VisitedThen(g, k, Snap(nodes), remap, v, w, Elements(o.vars), {}, objs, types, Elements(o.vars) + objs, types);
    DeclaredHere(o, objs, funcs, blocks);
    objs, v := Elements(o.vars) + objs, v + w;
  }

  ghost predicate Apart(a: Overlay, b: Overlay)
    reads a`funcs, b`funcs
  {
    forall f | f in a.funcs :: f !in b.funcs
  }

  method ReplaceInOverlays(overlays: seq<Overlay>, remap: Remap, ghost nodes: set<Node>, ghost h: nat,
    ghost funcs: set<FuncDecl>, ghost blocks: set<Block>, ghost was: FuncVars)
    returns (ghost v: set<Slot>, ghost objs: set<Node>, ghost types: set<Type>)
    requires was.Keys == funcs && forall f | f in funcs :: was[f] == f.v
    requires Ready(Snap(nodes), remap) && WalksAll(Snap(nodes), h)
    requires forall i | 0 <= i < |overlays| :: GroundedOverlay(overlays[i], nodes, funcs, blocks)
    requires TypesGrounded(funcs, nodes)
    requires forall i, j | 0 <= i < j < |overlays| :: Apart(overlays[i], overlays[j])
    modifies nodes, funcs`v
    ensures forall f | f in funcs :: f.v == old(f.v) || f.v == Mapped(remap, old(f.v))
    ensures TypesGrounded(funcs, nodes) && TypesOfFuncs(types, was, remap)
    ensures Visited(old(Snap(nodes)), Snap(nodes), remap, v)
    ensures Covers(old(Snap(nodes)), remap, objs, types, v)
    ensures forall i | 0 <= i < |overlays| :: OverlayDone(overlays[i], objs, types, blocks)
    ensures forall d | d in objs :: IsDeclaredByAny(overlays, d, funcs, blocks)
  {
    hide Visited, Ready, WalksAll, Covers, Elements, Mapped, TypesGrounded, OverlayDone, IsDeclaredBy, IsDeclaredByAny,
      GroundedOverlay, Snap, TypesOfFuncs;
    NoTypes(was, remap);
    ghost var g := Snap(nodes);
    v, objs, types := {}, {}, {};
    NothingVisited(g, remap);
    for i := 0 to |overlays|
      invariant forall f | f in funcs :: f.v == was[f] || f.v == Mapped(remap, was[f])
      invariant TypesGrounded(funcs, nodes) && TypesOfFuncs(types, was, remap)
      invariant forall j | i <= j < |overlays| :: forall f | f in overlays[j].funcs && f in funcs :: f.v == was[f]
      invariant forall j | 0 <= j < i :: OverlayDone(overlays[j], objs, types, blocks)
      invariant forall d | d in objs :: IsDeclaredByAny(overlays, d, funcs, blocks)
      invariant Visited(g, Snap(nodes), remap, v) && Covers(g, remap, objs, types, v)
    {
      assert forall j | 0 <= j < |overlays| && j != i :: Apart(overlays[i], overlays[j]);
      assert GroundedOverlay(overlays[i], nodes, funcs, blocks);
      OverlayFuncs(overlays[i], nodes, funcs, blocks);
      ghost var k := Snap(nodes);
      VisitedKeeps(g, k, remap, v, h);
      ghost var w, objs', types' := ReplaceInOverlay(overlays[i], remap, nodes, h, funcs, blocks, was);
      TypesTogether(types, types', was, remap);
      VisitedThen(g, k, Snap(nodes), remap, v, w, objs, types, objs', types', objs + objs', types + types');
      OneMoreDone(overlays, i, objs, types, objs', types', funcs, blocks);
      objs, types, v := objs + objs', types + types', v + w;
    }
  }

  lemma OverlayFuncs(o: Overlay, nodes: set<Node>, funcs: set<FuncDecl>, blocks: set<Block>)
    requires GroundedOverlay(o, nodes, funcs, blocks)
    ensures forall f | f in o.funcs :: f in funcs
  {
  }

  lemma OneMoreDone(overlays: seq<Overlay>, n: nat,
    objs: set<Node>, types: set<Type>, objs': set<Node>, types': set<Type>, funcs: set<FuncDecl>, blocks: set<Block>)
    requires n < |overlays| && OverlayDone(overlays[n], objs', types', blocks)
    requires forall i | 0 <= i < n :: OverlayDone(overlays[i], objs, types, blocks)
    requires forall d | d in objs :: IsDeclaredByAny(overlays, d, funcs, blocks)
    requires forall d | d in objs' :: IsDeclaredBy(overlays[n], d, funcs, blocks)
    ensures forall i | 0 <= i <= n :: OverlayDone(overlays[i], objs + objs', types + types', blocks)
    ensures forall d | d in objs + objs' :: IsDeclaredByAny(overlays, d, funcs, blocks)
  {
    hide OverlayDone, IsDeclaredByAny, IsDeclaredBy;
    OverlaysStayDone(overlays, n, objs, types, objs + objs', types + types', blocks);
    OverlayStaysDone(overlays[n], objs', types', objs + objs', types + types', blocks);
    DeclaredByOne(overlays, n, funcs, blocks);
  }

  lemma DeclaredByOne(overlays: seq<Overlay>, i: nat, funcs: set<FuncDecl>, blocks: set<Block>)
    requires i < |overlays|
    ensures forall d | IsDeclaredBy(overlays[i], d, funcs, blocks) :: IsDeclaredByAny(overlays, d, funcs, blocks)
  {
  }

  lemma OverlayStaysDone(o: Overlay,
    objs: set<Node>, types: set<Type>, objs': set<Node>, types': set<Type>, blocks: set<Block>)
    requires objs <= objs' && types <= types' && OverlayDone(o, objs, types, blocks)
    ensures OverlayDone(o, objs', types', blocks)
  {
    forall i | 0 <= i < |o.funcs| ensures FuncDone(o.funcs[i], objs', types', blocks) {
      assert FuncDone(o.funcs[i], objs, types, blocks);
    }
  }

  lemma OverlaysStayDone(overlays: seq<Overlay>, n: nat,
    objs: set<Node>, types: set<Type>, objs': set<Node>, types': set<Type>, blocks: set<Block>)
    requires n <= |overlays| && objs <= objs' && types <= types'
    requires forall i | 0 <= i < n :: OverlayDone(overlays[i], objs, types, blocks)
    ensures forall i | 0 <= i < n :: OverlayDone(overlays[i], objs', types', blocks)
  {
    forall i | 0 <= i < n ensures OverlayDone(overlays[i], objs', types', blocks) {
      OverlayStaysDone(overlays[i], objs, types, objs', types', blocks);
    }
  }

  /** Everything the parser lists is a live object of the right kind, nothing leads outside, and
      every function belongs to one overlay. */
  ghost predicate Grounded(p: Parser)
    reads p, p.structs, p.unions, p.overlay, p.overlays, p.funcs, p.blocks, p.nodes
  {
    && Closed(Snap(p.nodes))
    && (forall o | o in p.structs.inOrder :: o in p.nodes && o.def.Struct?)
    && (forall o | o in p.unions.inOrder :: o in p.nodes && o.def.Union?)
    && (forall o | o in p.typedefs :: o in p.nodes && o.def.Decl?)
    && TypesGrounded(p.funcs, p.nodes)
    && (forall i | 0 <= i < |p.AllOverlays()| :: GroundedOverlay(p.AllOverlays()[i], p.nodes, p.funcs, p.blocks))
    && (forall i, j | 0 <= i < j < |p.AllOverlays()| :: Apart(p.AllOverlays()[i], p.AllOverlays()[j]))
  }

  /** `replaceUsedTypesInTypedefs` calls the walk on the declaration itself, which the walk does not
      enter: nothing changes. */
  method ReplaceInTypedefs(typedefs: seq<Node>, remap: Remap, ghost nodes: set<Node>)
    requires forall d | d in typedefs :: d in nodes && d.def.Decl?
    requires Ready(Snap(nodes), remap)
    modifies nodes
    ensures Snap(nodes) == old(Snap(nodes))
  {
    ghost var g := Snap(nodes);
    for i := 0 to |typedefs|
      invariant Snap(nodes) == g
    {
      ghost var d := typedefs[i];
      assert d in typedefs && g[d].Decl?;
      assert WalkSlots(g, Ref(d)) == [];
      ReplaceUsedSubtypesInType(Ref(typedefs[i]), remap, nodes, 0);
      ghost var k := Snap(nodes);
      forall o | o in nodes ensures k[o] == g[o] {
        assert RewrittenAt(g, k, remap, {}, o);
        DefExtensional(g[o], k[o]);
      }
    }
  }

  lemma DeclsStayDecls(g: Graph, k: Graph, ds: seq<Node>)
    requires k.Keys == g.Keys && forall o | o in g :: LabelOf(k[o]) == LabelOf(g[o])
    requires forall d | d in ds :: d in g && g[d].Decl?
    ensures forall d | d in ds :: d in k && k[d].Decl?
  {
    forall d | d in ds ensures d in k && k[d].Decl? {
      assert LabelOf(k[d]) == LabelOf(g[d]);
    }
  }

  /** `replaceUsedTypesInStructs`, `replaceUsedTypesInUnions` and `replaceUsedTypesInTypedefs`. */
  method ReplaceInTypes(structs: seq<Node>, unions: seq<Node>, typedefs: seq<Node>, remap: Remap,
    ghost nodes: set<Node>, ghost h: nat)
    returns (ghost v: set<Slot>)
    requires Ready(Snap(nodes), remap) && WalksAll(Snap(nodes), h)
    requires Elements(structs) <= nodes && Elements(unions) <= nodes
    requires forall o | o in typedefs :: o in nodes && o.def.Decl?
    modifies nodes
    ensures Visited(old(Snap(nodes)), Snap(nodes), remap, v)
    ensures Covers(old(Snap(nodes)), remap, Elements(structs) + Elements(unions), {}, v)
  {
    hide Visited, Ready, WalksAll, Covers, LabelOf, Elements;
    ghost var g := Snap(nodes);
    v := ReplaceInObjects(structs, remap, nodes, h);
    ghost var k := Snap(nodes);
    VisitedKeeps(g, k, remap, v, h);
    ghost var w := ReplaceInObjects(unions, remap, nodes, h);
    VisitedThen(g, k, Snap(nodes), remap, v, w, Elements(structs), {}, Elements(unions), {},
      Elements(structs) + Elements(unions), {});
    v, k := v + w, Snap(nodes);
    VisitedKeeps(g, k, remap, v, h);
    DeclsStayDecls(g, k, typedefs);
    ReplaceInTypedefs(typedefs, remap, nodes);
  }

  ghost function FuncVarsOf(funcs: set<FuncDecl>): (vars: FuncVars)
    reads funcs`v
    ensures vars.Keys == funcs
  {
    map f | f in funcs :: f.v
  }

  lemma FuncVarsAre(funcs: set<FuncDecl>)
    ensures forall f | f in funcs :: FuncVarsOf(funcs)[f] == f.v
  {
  }

  /** `ReplaceUsedTypes`: structs, unions, type definitions, then the default and the other overlays.
      `locals` and `types` are the variables and function types the overlays declare. */
  method ReplaceUsedTypes(p: Parser, remap: Remap, ghost h: nat)
    returns (ghost v: set<Slot>, ghost locals: set<Node>, ghost types: set<Type>)
    requires Grounded(p) && Ready(Snap(p.nodes), remap) && WalksAll(Snap(p.nodes), h)
    modifies p.nodes, p.funcs`v
    ensures Visited(old(Snap(p.nodes)), Snap(p.nodes), remap, v)
    ensures Covers(old(Snap(p.nodes)), remap,
      Elements(p.structs.inOrder) + Elements(p.unions.inOrder) + locals, types, v)
    ensures forall i | 0 <= i < |p.AllOverlays()| :: OverlayDone(p.AllOverlays()[i], locals, types, p.blocks)
    ensures forall d | d in locals :: IsDeclaredByAny(p.AllOverlays(), d, p.funcs, p.blocks)
    ensures forall f | f in p.funcs :: f.v == old(f.v) || f.v == Mapped(remap, old(f.v))
    ensures TypesGrounded(p.funcs, p.nodes) && TypesOfFuncs(types, old(FuncVarsOf(p.funcs)), remap)
  {
    hide Visited, Ready, WalksAll, Covers, OverlayDone, GroundedOverlay, Apart, Mapped, TypesGrounded, Elements,
      IsDeclaredByAny, TypesOfFuncs, FuncVarsOf;
    ghost var was := FuncVarsOf(p.funcs);
    FuncVarsAre(p.funcs);
    ghost var tagged := Elements(p.structs.inOrder) + Elements(p.unions.inOrder);
    ElementsWithin(p.structs.inOrder, p.nodes);
    ElementsWithin(p.unions.inOrder, p.nodes);
    ghost var g := Snap(p.nodes);
    v := ReplaceInTypes(p.structs.inOrder, p.unions.inOrder, p.typedefs, remap, p.nodes, h);
    ghost var k := Snap(p.nodes);
    VisitedKeeps(g, k, remap, v, h);
    ghost var w;
    w, locals, types := ReplaceInOverlays(p.AllOverlays(), remap, p.nodes, h, p.funcs, p.blocks, was);
    VisitedThen(g, k, Snap(p.nodes), remap, v, w, tagged, {}, locals, types, tagged + locals, types);
    v := v + w;
  }
}

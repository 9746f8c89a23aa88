// The duplicate-removal passes over the whole parser state (csym/parse_fixups.go).

module RemoveDuplicates {
  import opened CTypes
  import opened TypeGraph
  import opened TypeTrees
  import opened Rewriting
  import opened WalkTermination
  import opened Lists
  import opened TagTables
  import opened Csym
  import opened Fixups
  import opened Dedup
  import opened Liveness
  import opened Untouched

  lemma RewritingKeepsTags(g: Graph, k: Graph, remap: Remap, v: set<Slot>, kind: TagKind)
    requires Rewritten(g, k, remap, v)
    ensures k.Keys == g.Keys
    ensures forall o | o in g :: TagOf(k[o]) == TagOf(g[o]) && (OfKind(k[o], kind) <==> OfKind(g[o], kind))
  {
    forall o | o in g ensures TagOf(k[o]) == TagOf(g[o]) && (OfKind(k[o], kind) <==> OfKind(g[o], kind)) {
      assert RewrittenAt(g, k, remap, v, o) && LabelOf(k[o]) == LabelOf(g[o]);
    }
  }

  lemma RewritingKeepsIndexed(
    g: Graph, k: Graph, remap: Remap, v: set<Slot>, kind: TagKind, groups: Groups, inOrder: seq<Node>)
    requires Rewritten(g, k, remap, v) && Indexed(g, kind, groups, inOrder)
    ensures Indexed(k, kind, groups, inOrder)
  {
    RewritingKeepsTags(g, k, remap, v, kind);
    hide Rewritten, Keep, TagOf, OfKind;
    forall tag | tag in groups ensures groups[tag] == Keep(inOrder, Tagged(k, tag)) {
      assert Tagged(g, tag) == Tagged(k, tag);
    }
  }

  /** Deep equality, hence the choice of survivors, is the same before and after rewriting. */
  lemma {:induction false} RewritingKeepsFirst(
    g: Graph, k: Graph, remap: Remap, v: set<Slot>, s: seq<Node>, m: nat)
    requires Ready(g, remap) && Rewritten(g, k, remap, v) && m < |s| && forall o | o in s :: o in g
    ensures First(k, s, m) == First(g, s, m)
  {
    RewritingKeepsMeaning(g, k, remap, v);
    var a, b := First(g, s, m), First(k, s, m);
    assert forall i | 0 <= i < |s| :: In(g, Ref(s[i]));
    assert DeepEqual(k, Ref(s[a]), Ref(s[m])) && DeepEqual(g, Ref(s[b]), Ref(s[m]));
  }

  lemma RewritingKeepsLeaders(
    g: Graph, k: Graph, remap: Remap, v: set<Slot>, kind: TagKind, groups: Groups, inOrder: seq<Node>)
    requires Ready(g, remap) && Rewritten(g, k, remap, v) && Indexed(g, kind, groups, inOrder)
    ensures Leaders(k, groups) == Leaders(g, groups)
    ensures NoTwins(g, groups) ==> NoTwins(k, groups)
  {
    GroupMembers(g, kind, groups, inOrder);
    forall tag, m | tag in groups && 0 <= m < |groups[tag]|
      ensures First(k, groups[tag], m) == First(g, groups[tag], m) {
      RewritingKeepsFirst(g, k, remap, v, groups[tag], m);
    }
    RewritingKeepsMeaning(g, k, remap, v);
    if NoTwins(g, groups) {
      forall tag, i, j | tag in groups && 0 <= i < j < |groups[tag]|
        ensures !DeepEqual(k, Ref(groups[tag][i]), Ref(groups[tag][j]))
      {
        assert groups[tag][i] in groups[tag] && groups[tag][j] in groups[tag];
      }
    }
  }

  /** Taking the duplicates off a table: the list, and every group. */
  method DropFromTable(t: TagIndex, remap: Remap, ghost alive: set<Node>)
    requires forall o | o in t.inOrder :: o in alive <==> Ref(o) !in remap
    requires forall tag | tag in t.byTag :: forall o | o in t.byTag[tag] :: o in alive <==> Ref(o) !in remap
    modifies t
    ensures t.inOrder == Keep(old(t.inOrder), alive)
    ensures t.byTag.Keys == old(t.byTag.Keys)
    ensures forall tag | tag in t.byTag :: t.byTag[tag] == Keep(old(t.byTag[tag]), alive)
  {
    var todo := t.byTag.Keys;
    while todo != {}
      invariant todo <= t.byTag.Keys == old(t.byTag.Keys)
      invariant t.inOrder == old(t.inOrder)
      invariant forall tag | tag in t.byTag ::
        t.byTag[tag] == if tag in todo then old(t.byTag[tag]) else Keep(old(t.byTag[tag]), alive)
    {
      var tag :| tag in todo;
      var s := t.byTag[tag];
      var r := Drop(s, remap);
      KeepSame(s, Survivors(s, remap), alive);
      t.byTag := t.byTag[tag := r];
      todo := todo - {tag};
    }
    KeepSame(t.inOrder, Survivors(t.inOrder, remap), alive);
    var inOrder := Drop(t.inOrder, remap);
    t.inOrder := inOrder;
  }

  ghost function DeclFuncs(p: Parser): set<FuncDecl>
    reads p, p.overlay, p.overlays
  {
    set o, f | o in p.AllOverlays() && f in o.funcs && f in p.funcs :: f
  }

  ghost function TypesOf(fs: set<FuncDecl>): set<Type>
    reads fs`v
  {
    set f | f in fs :: f.v.typ
  }

  /** The types of the functions the overlays declare. */
  ghost function DeclTypes(p: Parser): set<Type>
    reads p, p.overlay, p.overlays, p.funcs`v
  {
    TypesOf(DeclFuncs(p))
  }

  /** The variables and locals the overlays declare. */
  ghost function DeclObjs(p: Parser): set<Node>
    reads p, p.overlay, p.overlays, p.funcs`blocks, p.blocks
  {
    (set o, d | o in p.AllOverlays() && d in o.vars :: d) +
    (set o, f, b, d | o in p.AllOverlays() && f in o.funcs && f in p.funcs && b in f.blocks && b in p.blocks
      && d in b.locals :: d)
  }

  lemma DeclaredAreDone(p: Parser, locals: set<Node>, types: set<Type>)
    requires forall i | 0 <= i < |p.AllOverlays()| :: OverlayDone(p.AllOverlays()[i], locals, types, p.blocks)
    ensures DeclObjs(p) <= locals && DeclTypes(p) <= types
  {
    forall o | o in p.AllOverlays() ensures OverlayDone(o, locals, types, p.blocks) {
      var i :| 0 <= i < |p.AllOverlays()| && p.AllOverlays()[i] == o;
    }
    forall o, f | o in p.AllOverlays() && f in o.funcs ensures FuncDone(f, locals, types, p.blocks) {
      assert OverlayDone(o, locals, types, p.blocks);
      var j :| 0 <= j < |o.funcs| && o.funcs[j] == f;
    }
    forall d | d in DeclObjs(p) ensures d in locals {
      if o :| o in p.AllOverlays() && d in o.vars {
        assert d in Elements(o.vars);
      } else {
        var o, f, b :| o in p.AllOverlays() && f in o.funcs && f in p.funcs && b in f.blocks && b in p.blocks
          && d in b.locals;
        assert FuncDone(f, locals, types, p.blocks) && d in Elements(b.locals);
      }
    }
    forall t | t in DeclTypes(p) ensures t in types {
      var o, f :| o in p.AllOverlays() && f in o.funcs && f in p.funcs && f.v.typ == t;
      assert FuncDone(f, locals, types, p.blocks);
    }
  }

  /** What a pass needs of the type graph and the tables, apart from the declarations. */
  ghost predicate TablesReady(g: Graph, h: nat, structs: seq<Node>, sg: Groups, unions: seq<Node>, ug: Groups,
    typedefs: seq<Node>) {
    && Closed(g) && WalksAll(g, h)
    && Indexed(g, StructTag, sg, structs) && Indexed(g, UnionTag, ug, unions)
    && forall d | d in typedefs :: d in g && g[d].Decl?
  }

  lemma RewritingKeepsTables(
    g: Graph, k: Graph, remap: Remap, v: set<Slot>, h: nat,
    structs: seq<Node>, sg: Groups, unions: seq<Node>, ug: Groups, typedefs: seq<Node>)
    requires Sound(g, remap) && Visited(g, k, remap, v)
    requires TablesReady(g, h, structs, sg, unions, ug, typedefs)
    ensures TablesReady(k, h, structs, sg, unions, ug, typedefs)
  {
    hide Indexed, WalksAll, LabelOf;
    RewritingKeepsReady(g, k, remap, v);
    RewritingKeepsWalksAll(g, k, remap, v, h);
    RewritingKeepsIndexed(g, k, remap, v, StructTag, sg, structs);
    RewritingKeepsIndexed(g, k, remap, v, UnionTag, ug, unions);
    assert forall o | o in g :: RewrittenAt(g, k, remap, v, o);
    DeclsStayDecls(g, k, typedefs);
  }

  /** The declarations of the overlays are live objects, and every function belongs to one overlay. */
  ghost predicate DeclsReady(p: Parser)
    reads p, p.overlay, p.overlays, p.funcs, p.blocks
  {
    && TypesGrounded(p.funcs, p.nodes)
    && (forall i | 0 <= i < |p.AllOverlays()| :: GroundedOverlay(p.AllOverlays()[i], p.nodes, p.funcs, p.blocks))
    && (forall i, j | 0 <= i < j < |p.AllOverlays()| :: Apart(p.AllOverlays()[i], p.AllOverlays()[j]))
  }

  /** The parser state the passes start from and keep. */
  ghost predicate Dedupable(p: Parser, h: nat)
    reads p, p.structs, p.unions, p.overlay, p.overlays, p.funcs, p.blocks, p.nodes
  {
    && p.structs != p.unions && DeclsReady(p)
    && TablesReady(Snap(p.nodes), h, p.structs.inOrder, p.structs.byTag, p.unions.inOrder, p.unions.byTag, p.typedefs)
  }

  lemma DedupableIsGrounded(p: Parser, h: nat)
    requires Dedupable(p, h)
    ensures Grounded(p) && WalksAll(Snap(p.nodes), h) && Closed(Snap(p.nodes))
  {
  }

  /** Every function type after a pass is one from before it, remapped or not. */
  ghost predicate MovedFrom(types: set<Type>, types': set<Type>, remap: Remap) {
    forall t' | t' in types' :: exists t | t in types :: t' == t || t' == Apply(remap, t)
  }

  lemma TypesMove(p: Parser, was: FuncVars, types: set<Type>, remap: Remap)
    requires forall f | f in DeclFuncs(p) :: f in was && was[f].typ in types
    requires forall f | f in DeclFuncs(p) :: f.v == was[f] || f.v == Mapped(remap, was[f])
    ensures MovedFrom(types, DeclTypes(p), remap)
  {
    forall t' | t' in DeclTypes(p) ensures exists t | t in types :: t' == t || t' == Apply(remap, t) {
      var f :| f in DeclFuncs(p) && f.v.typ == t';
      assert was[f].typ in types;
    }
  }

  lemma DeclaredFuncs(p: Parser)
    ensures DeclFuncs(p) <= p.funcs && forall f | f in DeclFuncs(p) :: f.v.typ in DeclTypes(p)
  {
  }

  /** Every function keeps its name, and its own type, remapped or not. */
  ghost predicate VarsMoved(was: FuncVars, now: FuncVars, remap: Remap) {
    now.Keys == was.Keys && forall f | f in was :: now[f] == was[f] || now[f] == Mapped(remap, was[f])
  }

  lemma NowMoved(p: Parser, was: FuncVars, remap: Remap)
    requires was.Keys == p.funcs && forall f | f in p.funcs :: f.v == was[f] || f.v == Mapped(remap, was[f])
    ensures VarsMoved(was, FuncVarsOf(p.funcs), remap)
  {
  }

  /** `ReplaceUsedTypes`, with what it does to the functions' types. */
  method RewriteTypes(p: Parser, remap: Remap, ghost h: nat)
    returns (ghost v: set<Slot>, ghost locals: set<Node>, ghost types: set<Type>)
    requires Grounded(p) && Ready(Snap(p.nodes), remap) && WalksAll(Snap(p.nodes), h)
    modifies p.nodes, p.funcs`v
    ensures Visited(old(Snap(p.nodes)), Snap(p.nodes), remap, v)
    ensures Covers(old(Snap(p.nodes)), remap,
      Elements(p.structs.inOrder) + Elements(p.unions.inOrder) + locals, types, v)
    ensures forall i | 0 <= i < |p.AllOverlays()| :: OverlayDone(p.AllOverlays()[i], locals, types, p.blocks)
    ensures forall d | d in locals :: IsDeclaredByAny(p.AllOverlays(), d, p.funcs, p.blocks)
    ensures MovedFrom(old(DeclTypes(p)), DeclTypes(p), remap) && TypesGrounded(p.funcs, p.nodes)
    ensures VarsMoved(old(FuncVarsOf(p.funcs)), FuncVarsOf(p.funcs), remap)
      && TypesOfFuncs(types, old(FuncVarsOf(p.funcs)), remap)
  {
    hide *;
    ghost var vars := FuncVarsOf(p.funcs);
    FuncVarsAre(p.funcs);
    ghost var fs, was, before := DeclFuncs(p), map f | f in DeclFuncs(p) :: f.v, DeclTypes(p);
    DeclaredFuncs(p);
    v, locals, types := ReplaceUsedTypes(p, remap, h);
    assert DeclFuncs(p) == fs;
    TypesMove(p, was, before, remap);
    NowMoved(p, vars, remap);
  }

  /** `ReplaceUsedTypes`, seen from the declarations: all of them are covered, and the parser state
      stays as the passes need it. */
  method RewriteUses(p: Parser, remap: Remap, ghost h: nat) returns (ghost v: set<Slot>, ghost types: set<Type>)
    requires Dedupable(p, h) && Sound(Snap(p.nodes), remap)
    modifies p.nodes, p.funcs`v
    ensures Dedupable(p, h) && Visited(old(Snap(p.nodes)), Snap(p.nodes), remap, v)
    ensures Covers(old(Snap(p.nodes)), remap,
      Elements(p.structs.inOrder) + Elements(p.unions.inOrder) + DeclObjs(p), types, v)
    ensures DeclObjs(p) == old(DeclObjs(p)) && DeclTypes(p) <= types
    ensures MovedFrom(old(DeclTypes(p)), DeclTypes(p), remap)
    ensures VarsMoved(old(FuncVarsOf(p.funcs)), FuncVarsOf(p.funcs), remap)
      && TypesOfFuncs(types, old(FuncVarsOf(p.funcs)), remap)
  {
    hide WalksAll, GroundedOverlay, Apart, TypesGrounded, OverlayDone, DeclObjs, DeclTypes, Indexed, WalkClosed, Walks;
    hide Visited, Covers, Closed, Sound, TablesReady, Grounded, Elements, MovedFrom, IsDeclaredByAny, FuncVarsOf,
      TypesOfFuncs,
      VarsMoved;
    ghost var g := Snap(p.nodes);
    ghost var locals;
    DedupableIsGrounded(p, h);
    v, locals, types := RewriteTypes(p, remap, h);
    DeclaredAreDone(p, locals, types);
    DeclaredOnly(p, locals);
    assert locals == DeclObjs(p);
    RewritingKeepsTables(g, Snap(p.nodes), remap, v, h,
      p.structs.inOrder, p.structs.byTag, p.unions.inOrder, p.unions.byTag, p.typedefs);
  }

  lemma DeclaredOnly(p: Parser, locals: set<Node>)
    requires forall d | d in locals :: IsDeclaredByAny(p.AllOverlays(), d, p.funcs, p.blocks)
    ensures locals <= DeclObjs(p)
  {
    forall d | d in locals ensures d in DeclObjs(p) {
      var o :| o in p.AllOverlays() && IsDeclaredBy(o, d, p.funcs, p.blocks);
      if d !in o.vars {
        var f :| f in o.funcs && f in p.funcs && IsLocalOf(f, d, p.blocks);
        var b :| b in f.blocks && b in p.blocks && d in b.locals;
      }
    }
  }

  /** The list and every group, each without the types that are not first of their kind. */
  ghost predicate Deduplicated(g: Graph, groups: Groups, inOrder: seq<Node>, groups': Groups, inOrder': seq<Node>) {
    && inOrder' == Keep(inOrder, Leaders(g, groups))
    && groups'.Keys == groups.Keys
    && forall tag | tag in groups :: groups'[tag] == Keep(groups[tag], Leaders(g, groups))
  }

  /** Everything about the tables that one pass establishes, in the rewritten graph. */
  lemma PassLeavesTable(
    g: Graph, k: Graph, remap: Remap, v: set<Slot>, kind: TagKind,
    groups: Groups, inOrder: seq<Node>, groups': Groups, inOrder': seq<Node>)
    requires Closed(g) && Visited(g, k, remap, v)
    requires Indexed(g, kind, groups, inOrder) && IsDupRemap(g, groups, remap)
    requires Deduplicated(g, groups, inOrder, groups', inOrder')
    ensures Indexed(k, kind, groups', inOrder') && NoTwins(k, groups')
  {
    hide Indexed, IsDupRemap, Leaders, Closed, Sound, Rewritten, WalkClosed, NoTwins;
    DupRemapIsSound(g, kind, groups, inOrder, remap);
    DroppingKeepsIndexed(g, kind, groups, inOrder, remap, groups', inOrder');
    RewritingKeepsIndexed(g, k, remap, v, kind, groups', inOrder');
    RewritingKeepsLeaders(g, k, remap, v, kind, groups', inOrder');
  }

  lemma AliveInGroups(g: Graph, kind: TagKind, groups: Groups, inOrder: seq<Node>, remap: Remap)
    requires Indexed(g, kind, groups, inOrder) && IsDupRemap(g, groups, remap)
    ensures forall o | o in inOrder :: o in Leaders(g, groups) <==> Ref(o) !in remap
    ensures forall tag | tag in groups :: forall o | o in groups[tag] :: o in Leaders(g, groups) <==> Ref(o) !in remap
  {
    hide IsDupRemap, Leaders;
    SurvivorsAreLeaders(g, kind, groups, inOrder, remap);
    GroupMembers(g, kind, groups, inOrder);
  }

  lemma DedupableTable(p: Parser, h: nat, t: TagIndex, kind: TagKind)
    requires Dedupable(p, h)
    requires (t == p.structs && kind == StructTag) || (t == p.unions && kind == UnionTag)
    ensures Closed(Snap(p.nodes)) && Indexed(Snap(p.nodes), kind, t.byTag, t.inOrder)
  {
  }

  /** First half of a pass: find the duplicates of every group and redirect all uses to the first. */
  method RedirectDuplicates(p: Parser, t: TagIndex, ghost kind: TagKind, ghost h: nat)
    returns (remap: Remap, ghost v: set<Slot>, ghost types: set<Type>)
    requires Dedupable(p, h)
    requires (t == p.structs && kind == StructTag) || (t == p.unions && kind == UnionTag)
    modifies p.nodes, p.funcs`v
    ensures Dedupable(p, h)
    ensures IsDupRemap(old(Snap(p.nodes)), t.byTag, remap)
    ensures Visited(old(Snap(p.nodes)), Snap(p.nodes), remap, v)
    ensures Covers(old(Snap(p.nodes)), remap,
      Elements(p.structs.inOrder) + Elements(p.unions.inOrder) + DeclObjs(p), types, v)
    ensures DeclObjs(p) == old(DeclObjs(p)) && DeclTypes(p) <= types
    ensures MovedFrom(old(DeclTypes(p)), DeclTypes(p), remap)
    ensures VarsMoved(old(FuncVarsOf(p.funcs)), FuncVarsOf(p.funcs), remap)
      && TypesOfFuncs(types, old(FuncVarsOf(p.funcs)), remap)
  {
    hide *;
    ghost var g := Snap(p.nodes);
    DedupableTable(p, h, t, kind);
    remap := FindDuplicates(t.byTag, p.nodes, kind, t.inOrder);
    DupRemapIsSound(g, kind, t.byTag, t.inOrder, remap);
    v, types := RewriteUses(p, remap, h);
  }

  /** Second half of a pass: take the redirected types off the lists. */
  method UnlistDuplicates(p: Parser, t: TagIndex, remap: Remap, ghost kind: TagKind, ghost h: nat,
    ghost g: Graph, ghost v: set<Slot>)
    requires Dedupable(p, h)
    requires (t == p.structs && kind == StructTag) || (t == p.unions && kind == UnionTag)
    requires Closed(g) && Indexed(g, kind, t.byTag, t.inOrder) && IsDupRemap(g, t.byTag, remap)
    requires Visited(g, Snap(p.nodes), remap, v)
    modifies t
    ensures Dedupable(p, h)
    ensures Deduplicated(g, old(t.byTag), old(t.inOrder), t.byTag, t.inOrder)
    ensures NoTwins(Snap(p.nodes), t.byTag)
  {
    hide WalksAll, Indexed, Visited, Closed, IsDupRemap, NoTwins, Leaders, Keep;
    ghost var groups, inOrder := t.byTag, t.inOrder;
    AliveInGroups(g, kind, groups, inOrder, remap);
    DropFromTable(t, remap, Leaders(g, groups));
    PassLeavesTable(g, Snap(p.nodes), remap, v, kind, groups, inOrder, t.byTag, t.inOrder);
    assert DeclsReady(p);
  }

  /** `removeStructsDuplicates` and `removeUnionsDuplicates`: find the duplicates of every group,
      redirect all uses to the first of each, and take the others off the lists. */
  method RemoveDuplicatesIn(p: Parser, t: TagIndex, ghost kind: TagKind, ghost h: nat)
    returns (ghost remap: Remap, ghost v: set<Slot>, ghost types: set<Type>)
    requires Dedupable(p, h)
    requires (t == p.structs && kind == StructTag) || (t == p.unions && kind == UnionTag)
    modifies t, p.nodes, p.funcs`v
    ensures Dedupable(p, h)
    ensures IsDupRemap(old(Snap(p.nodes)), old(t.byTag), remap)
    ensures Visited(old(Snap(p.nodes)), Snap(p.nodes), remap, v)
    ensures Covers(old(Snap(p.nodes)), remap,
      Elements(old(p.structs.inOrder)) + Elements(old(p.unions.inOrder)) + DeclObjs(p), types, v)
    ensures DeclObjs(p) == old(DeclObjs(p)) && DeclTypes(p) <= types
    ensures MovedFrom(old(DeclTypes(p)), DeclTypes(p), remap)
    ensures VarsMoved(old(FuncVarsOf(p.funcs)), FuncVarsOf(p.funcs), remap)
      && TypesOfFuncs(types, old(FuncVarsOf(p.funcs)), remap)
    ensures Deduplicated(old(Snap(p.nodes)), old(t.byTag), old(t.inOrder), t.byTag, t.inOrder)
    ensures NoTwins(Snap(p.nodes), t.byTag)
  {
    hide *;
    ghost var g := Snap(p.nodes);
    DedupableTable(p, h, t, kind);
    var dups;
    dups, v, types := RedirectDuplicates(p, t, kind, h);
    remap := dups;
    UnlistDuplicates(p, t, dups, kind, h, g, v);
  }

  // ----- the three passes together -----

  /** One pass over a table, on values. */
  ghost predicate PassStep(
    g: Graph, k: Graph, remap: Remap, v: set<Slot>, kind: TagKind,
    groups: Groups, inOrder: seq<Node>, groups': Groups, inOrder': seq<Node>)
  {
    && Closed(g) && Indexed(g, kind, groups, inOrder)
    && IsDupRemap(g, groups, remap) && Visited(g, k, remap, v)
    && Deduplicated(g, groups, inOrder, groups', inOrder') && NoTwins(k, groups')
  }

  /** The objects a pass takes out. */
  ghost function Gone(remap: Remap): set<Node> {
    set t | t in remap && t.Ref? :: t.node
  }

  lemma UnlistedAreGone(g: Graph, kind: TagKind, groups: Groups, inOrder: seq<Node>, remap: Remap,
    groups': Groups, inOrder': seq<Node>)
    requires Indexed(g, kind, groups, inOrder) && IsDupRemap(g, groups, remap)
    requires Deduplicated(g, groups, inOrder, groups', inOrder')
    ensures Elements(inOrder') == Elements(inOrder) - Gone(remap)
    ensures Gone(remap) <= Elements(inOrder) && forall o :: o in Gone(remap) <==> Ref(o) in remap
    ensures forall u | u in remap :: u.Ref? && remap[u].Ref? && remap[u].node in Elements(inOrder) && remap[u] !in remap
  {
    hide DeepEqual, IsDupRemap, Leaders;
    DupRemapIsSound(g, kind, groups, inOrder, remap);
    SurvivorsAreLeaders(g, kind, groups, inOrder, remap);
    KeepMembers(inOrder, Leaders(g, groups));
    assert forall o :: o in Gone(remap) <==> Ref(o) in remap;
    assert forall o | o in inOrder' :: o in Keep(inOrder, Leaders(g, groups));
  }

  /** One pass, with what it does to the live places. */
  lemma PassKeepsLive(
    g: Graph, k: Graph, kind: TagKind, remap: Remap, v: set<Slot>, tv: set<Type>,
    structs: seq<Node>, sg: Groups, unions: seq<Node>, ug: Groups, structs': seq<Node>, unions': seq<Node>,
    groups': Groups,
    objs: set<Node>, types: set<Type>, types': set<Type>, dead: set<Node>, live: set<Slot>)
    requires Indexed(g, StructTag, sg, structs) && Indexed(g, UnionTag, ug, unions)
    requires Visited(g, k, remap, v) && Covers(g, remap, Elements(structs) + Elements(unions) + objs, tv, v)
    requires Live(g, Elements(structs), Elements(unions), objs, types, dead, live)
    requires types' <= tv
    requires MovedFrom(types, types', remap)
    requires kind == StructTag ==> (
      unions' == unions && IsDupRemap(g, sg, remap) && Deduplicated(g, sg, structs, groups', structs'))
    requires kind == UnionTag ==> (
      structs' == structs && IsDupRemap(g, ug, remap) && Deduplicated(g, ug, unions, groups', unions'))
    requires kind == StructTag || kind == UnionTag
    ensures Live(k, Elements(structs'), Elements(unions'), objs, types', dead + Gone(remap), live * v)
  {
    hide IsDupRemap, Deduplicated, Visited, Covers;
    assert forall o | o in Elements(structs) :: o in g && g[o].Struct?;
    assert forall o | o in Elements(unions) :: o in g && g[o].Union?;
    if kind == StructTag {
      UnlistedAreGone(g, StructTag, sg, structs, remap, groups', structs');
      assert Elements(unions) - Gone(remap) == Elements(unions);
    } else {
      UnlistedAreGone(g, UnionTag, ug, unions, remap, groups', unions');
      assert Elements(structs) - Gone(remap) == Elements(structs);
    }
    LiveAfterPass(g, k, remap, v, tv, Elements(structs), Elements(unions), objs, types, dead, live, types',
      Gone(remap));
  }

  /** One pass, with what it does to the modifiers of type definitions. */
  lemma PassKeepsNames(
    g: Graph, k: Graph, kind: TagKind, groups: Groups, inOrder: seq<Node>, remap: Remap, v: set<Slot>, tv: set<Type>,
    structs: seq<Node>, sg: Groups, unions: seq<Node>, ug: Groups, objs: set<Node>, was: FuncVars, now: FuncVars)
    requires Closed(g) && Indexed(g, StructTag, sg, structs) && Indexed(g, UnionTag, ug, unions)
    requires Indexed(g, kind, groups, inOrder) && IsDupRemap(g, groups, remap) && Visited(g, k, remap, v)
    requires Covers(g, remap, Elements(structs) + Elements(unions) + objs, tv, v) && TypesOfFuncs(tv, was, remap)
    requires VarsMoved(was, now, remap) && Unaliased(g, was, objs)
    ensures Unaliased(k, now, objs) && NamesKept(g, k, objs)
  {
    var all := Elements(structs) + Elements(unions) + objs;
    DupsAreTagged(g, kind, groups, inOrder, remap);
    TaggedAreFixed(g, StructTag, sg, structs);
    TaggedAreFixed(g, UnionTag, ug, unions);
    hide Indexed, IsDupRemap, Covers, WalkClosed, IsAlone, MovesTagged, Unshared, Loose, TypesOfFuncs, Closed,
      IsDerived,
      Rewritten, NamesKept;
    forall d | d in g && IsAlone(g, objs, d) ensures d !in all {
      NotListed(g, StructTag, sg, structs, objs, d);
      NotListed(g, UnionTag, ug, unions, objs, d);
    }
    NamesStay(g, k, remap, v, all, objs, tv, was);
    UnaliasedStays(g, k, remap, v, was, now, objs);
  }

  lemma TaggedAreFixed(g: Graph, kind: TagKind, groups: Groups, inOrder: seq<Node>)
    requires Indexed(g, kind, groups, inOrder)
    ensures forall o | o in Elements(inOrder) :: o in g && !IsDerived(g[o])
  {
  }

  lemma DupsAreTagged(g: Graph, kind: TagKind, groups: Groups, inOrder: seq<Node>, remap: Remap)
    requires Indexed(g, kind, groups, inOrder) && IsDupRemap(g, groups, remap)
    ensures MovesTagged(g, remap)
  {
    DupRemapIsSound(g, kind, groups, inOrder, remap);
    TaggedAreFixed(g, kind, groups, inOrder);
  }

  /** Nothing the parser declares, lists or reaches refers to a dead object. */
  ghost predicate NoDangling(p: Parser, dead: set<Node>, live: set<Slot>)
    reads p, p.structs, p.unions, p.overlay, p.overlays, p.funcs, p.blocks, p.nodes
  {
    Live(Snap(p.nodes), Elements(p.structs.inOrder), Elements(p.unions.inOrder), DeclObjs(p), DeclTypes(p), dead, live)
  }

  lemma DedupableTables(p: Parser, h: nat)
    requires Dedupable(p, h)
    ensures p.structs != p.unions && Closed(Snap(p.nodes))
    ensures Indexed(Snap(p.nodes), StructTag, p.structs.byTag, p.structs.inOrder)
    ensures Indexed(Snap(p.nodes), UnionTag, p.unions.byTag, p.unions.inOrder)
  {
  }

  lemma NoDanglingIsLive(p: Parser, dead: set<Node>, live: set<Slot>)
    ensures NoDangling(p, dead, live) <==> Live(
      Snap(p.nodes), Elements(p.structs.inOrder), Elements(p.unions.inOrder), DeclObjs(p), DeclTypes(p), dead, live)
  {
  }

  lemma IsPassStep(
    g: Graph, k: Graph, remap: Remap, v: set<Slot>, kind: TagKind,
    groups: Groups, inOrder: seq<Node>, groups': Groups, inOrder': seq<Node>)
    requires Closed(g) && Indexed(g, kind, groups, inOrder)
    requires IsDupRemap(g, groups, remap) && Visited(g, k, remap, v)
    requires Deduplicated(g, groups, inOrder, groups', inOrder') && NoTwins(k, groups')
    ensures PassStep(g, k, remap, v, kind, groups, inOrder, groups', inOrder')
  {
  }

  /** One pass, with the dead objects and the live places carried along. */
  method Pass(p: Parser, t: TagIndex, ghost kind: TagKind, ghost h: nat,
    ghost dead: set<Node>, ghost live: set<Slot>)
    returns (ghost remap: Remap, ghost v: set<Slot>, ghost live': set<Slot>)
    requires Dedupable(p, h) && NoDangling(p, dead, live)
    requires (t == p.structs && kind == StructTag) || (t == p.unions && kind == UnionTag)
    modifies t, p.nodes, p.funcs`v
    ensures Dedupable(p, h) && NoDangling(p, dead + Gone(remap), live')
    ensures DeclObjs(p) == old(DeclObjs(p)) && AloneKept(old(Snap(p.nodes)), Snap(p.nodes), DeclObjs(p))
    ensures VarsMoved(old(FuncVarsOf(p.funcs)), FuncVarsOf(p.funcs), remap)
    ensures Unaliased(old(Snap(p.nodes)), old(FuncVarsOf(p.funcs)), DeclObjs(p)) ==>
      && Unaliased(Snap(p.nodes), FuncVarsOf(p.funcs), DeclObjs(p))
      && NamesKept(old(Snap(p.nodes)), Snap(p.nodes), DeclObjs(p))
    ensures PassStep(old(Snap(p.nodes)), Snap(p.nodes), remap, v, kind, old(t.byTag), old(t.inOrder), t.byTag,
      t.inOrder)
  {
    hide *;
    ghost var g := Snap(p.nodes);
    ghost var structs, sg, unions, ug := p.structs.inOrder, p.structs.byTag, p.unions.inOrder, p.unions.byTag;
    ghost var objs, types, was := DeclObjs(p), DeclTypes(p), FuncVarsOf(p.funcs);
    ghost var groups, inOrder := t.byTag, t.inOrder;
    DedupableTables(p, h);
    DedupableTable(p, h, t, kind);
    NoDanglingIsLive(p, dead, live);
    ghost var tv;
    remap, v, tv := RemoveDuplicatesIn(p, t, kind, h);
    PassKeepsLive(g, Snap(p.nodes), kind, remap, v, tv, structs, sg, unions, ug,
      p.structs.inOrder, p.unions.inOrder, t.byTag, objs, types, DeclTypes(p), dead, live);
    AloneStays(g, Snap(p.nodes), remap, v, structs, sg, unions, ug, objs, tv);
    if Unaliased(g, was, objs) {
      PassKeepsNames(g, Snap(p.nodes), kind, groups, inOrder, remap, v, tv, structs, sg, unions, ug, objs, was,
        FuncVarsOf(p.funcs));
    }
    live' := live * v;
    NoDanglingIsLive(p, dead + Gone(remap), live');
    IsPassStep(g, Snap(p.nodes), remap, v, kind, groups, inOrder, t.byTag, t.inOrder);
  }

  /** A pass over a table without twins finds nothing and changes nothing: no object, no list. */
  lemma IdlePass(
    g: Graph, k: Graph, remap: Remap, v: set<Slot>, kind: TagKind,
    groups: Groups, inOrder: seq<Node>, groups': Groups, inOrder': seq<Node>)
    requires NoTwins(g, groups) && IsDupRemap(g, groups, remap) && Indexed(g, kind, groups, inOrder)
    requires Visited(g, k, remap, v) && Deduplicated(g, groups, inOrder, groups', inOrder')
    ensures remap == map[] && k == g && groups' == groups && inOrder' == inOrder
  {
    hide First, DeepEqual, Leaders, Indexed, IsDupRemap, NoTwins;
    NoTwinsNoRemap(g, groups, remap);
    NothingToRewrite(g, k, v);
    AliveInGroups(g, kind, groups, inOrder, remap);
    KeepAll(inOrder, Leaders(g, groups));
    forall tag | tag in groups ensures groups'[tag] == groups[tag] {
      KeepAll(groups[tag], Leaders(g, groups));
    }
  }

  lemma NothingToRewrite(g: Graph, k: Graph, v: set<Slot>)
    requires Rewritten(g, k, map[], v)
    ensures k == g
  {
    forall o | o in g ensures k[o] == g[o] {
      assert RewrittenAt(g, k, map[], v, o);
      DefExtensional(g[o], k[o]);
    }
  }

  /** The unfolding of every type object is what it was, at every depth. */
  ghost predicate MeaningKept(g: Graph, k: Graph) {
    forall o | o in g :: o in k && SameMeaning(k, Ref(o), g, Ref(o))
  }

  /** What the passes leave, compared with the state before them: every type means what it meant, and
      each table keeps, in order, the first of the deeply equal types of every tag, nothing else. */
  ghost predicate PassesDone(
    g: Graph, k: Graph, sg: Groups, structs: seq<Node>, ug: Groups, unions: seq<Node>,
    sg': Groups, structs': seq<Node>, ug': Groups, unions': seq<Node>)
  {
    && MeaningKept(g, k)
    && Deduplicated(g, sg, structs, sg', structs') && NoTwins(k, sg')
    && Deduplicated(g, ug, unions, ug', unions') && NoTwins(k, ug')
  }

  lemma PassKeepsMeaning(
    g: Graph, k: Graph, remap: Remap, v: set<Slot>, kind: TagKind,
    groups: Groups, inOrder: seq<Node>, groups': Groups, inOrder': seq<Node>)
    requires PassStep(g, k, remap, v, kind, groups, inOrder, groups', inOrder')
    ensures Ready(g, remap) && MeaningKept(g, k) && k.Keys == g.Keys
  {
    hide IsDupRemap, Deduplicated, NoTwins;
    DupRemapIsSound(g, kind, groups, inOrder, remap);
    RewritingKeepsMeaning(g, k, remap, v);
    assert forall o | o in g :: In(g, Ref(o));
  }

  lemma MeaningKeptTrans(g: Graph, k: Graph, l: Graph)
    requires MeaningKept(g, k) && MeaningKept(k, l)
    ensures MeaningKept(g, l)
  {
    forall o | o in g ensures o in l && SameMeaning(l, Ref(o), g, Ref(o)) {
      assert SameMeaning(l, Ref(o), k, Ref(o)) && SameMeaning(k, Ref(o), g, Ref(o));
      forall n: nat ensures Unfold(l, Ref(o), n) == Unfold(g, Ref(o), n) {
        assert Unfold(l, Ref(o), n) == Unfold(k, Ref(o), n);
      }
    }
  }

  /** Every function has its name, and a type that means what its type meant. */
  ghost predicate VarsMean(g: Graph, was: FuncVars, k: Graph, now: FuncVars) {
    && now.Keys == was.Keys
    && forall f | f in was :: now[f].name == was[f].name && SameMeaning(k, now[f].typ, g, was[f].typ)
  }

  ghost predicate VarsIn(g: Graph, vars: FuncVars) {
    forall f | f in vars :: In(g, vars[f].typ)
  }

  lemma PassKeepsVars(
    g: Graph, k: Graph, remap: Remap, v: set<Slot>, kind: TagKind,
    groups: Groups, inOrder: seq<Node>, groups': Groups, inOrder': seq<Node>,
    was: FuncVars, now: FuncVars)
    requires PassStep(g, k, remap, v, kind, groups, inOrder, groups', inOrder')
    requires VarsMoved(was, now, remap) && VarsIn(g, was)
    ensures VarsMean(g, was, k, now) && VarsIn(k, now)
  {
    hide IsDupRemap, Deduplicated, NoTwins, SameMeaning, Indexed, WalkClosed, Rewritten;
    PassKeepsMeaning(g, k, remap, v, kind, groups, inOrder, groups', inOrder');
    assert Visited(g, k, remap, v);
    RewritingKeepsMeaning(g, k, remap, v);
    forall f | f in was
      ensures now[f].name == was[f].name && SameMeaning(k, now[f].typ, g, was[f].typ) && In(k, now[f].typ) {
      MovedMeans(g, k, remap, was[f].typ, now[f].typ);
    }
  }

  lemma MovedMeans(g: Graph, k: Graph, remap: Remap, t: Type, u: Type)
    requires Sound(g, remap) && In(g, t) && (u == t || u == Apply(remap, t)) && k.Keys == g.Keys
    requires forall x | In(g, x) :: SameMeaning(k, x, g, x)
    ensures SameMeaning(k, u, g, t) && In(k, u)
  {
    assert In(g, u) && SameMeaning(k, u, g, u);
    if u != t {
      assert DeepEqual(g, t, u);
      forall n: nat ensures Unfold(k, u, n) == Unfold(g, t, n) {
        assert Unfold(k, u, n) == Unfold(g, u, n) && Unfold(g, t, n) == Unfold(g, u, n);
      }
    }
  }

  lemma VarsMeanTrans(g: Graph, a: FuncVars, k: Graph, b: FuncVars, l: Graph, c: FuncVars)
    requires VarsMean(g, a, k, b) && VarsMean(k, b, l, c)
    ensures VarsMean(g, a, l, c)
  {
    forall f | f in a ensures SameMeaning(l, c[f].typ, g, a[f].typ) {
      assert SameMeaning(l, c[f].typ, k, b[f].typ) && SameMeaning(k, b[f].typ, g, a[f].typ);
      forall n: nat ensures Unfold(l, c[f].typ, n) == Unfold(g, a[f].typ, n) {
        assert Unfold(l, c[f].typ, n) == Unfold(k, b[f].typ, n);
      }
    }
  }

  lemma VarsAreIn(p: Parser, h: nat)
    requires Dedupable(p, h)
    ensures VarsIn(Snap(p.nodes), FuncVarsOf(p.funcs))
  {
  }

  lemma VarsMeanEach(p: Parser, g: Graph, was: FuncVars)
    requires VarsMean(g, was, Snap(p.nodes), FuncVarsOf(p.funcs))
    ensures forall f | f in p.funcs ::
      f in was && f.v.name == was[f].name && SameMeaning(Snap(p.nodes), f.v.typ, g, was[f].typ)
  {
  }

  /** The function types and names over three passes, the last of which finds nothing. */
  lemma ThreePassesKeepVars(
    g: Graph, g1: Graph, g2: Graph, r1: Remap, v1: set<Slot>, r2: Remap, v2: set<Slot>,
    sg: Groups, structs: seq<Node>, ug: Groups, unions: seq<Node>,
    sg1: Groups, structs1: seq<Node>, ug2: Groups, unions2: seq<Node>,
    vars: FuncVars, vars1: FuncVars, vars2: FuncVars, vars3: FuncVars)
    requires PassStep(g, g1, r1, v1, StructTag, sg, structs, sg1, structs1)
    requires PassStep(g1, g2, r2, v2, UnionTag, ug, unions, ug2, unions2)
    requires VarsIn(g, vars) && VarsMoved(vars, vars1, r1) && VarsMoved(vars1, vars2, r2)
      && VarsMoved(vars2, vars3, map[])
    ensures VarsMean(g, vars, g2, vars3) && vars3 == vars2
  {
    hide PassStep, VarsMean, VarsIn;
    PassKeepsVars(g, g1, r1, v1, StructTag, sg, structs, sg1, structs1, vars, vars1);
    PassKeepsVars(g1, g2, r2, v2, UnionTag, ug, unions, ug2, unions2, vars1, vars2);
    VarsMeanTrans(g, vars, g1, vars1, g2, vars2);
    assert vars3.Keys == vars2.Keys && forall f | f in vars2 :: vars3[f] == vars2[f];
    assert vars3 == vars2;
  }

  /** Structs, unions, structs again: every type means what it meant, and so does the type of every
      function; the third pass is idle, and the second chooses the unions it would have chosen at the
      start. */
  lemma ThreePasses(
    g: Graph, g1: Graph, g2: Graph, g3: Graph,
    r1: Remap, v1: set<Slot>, r2: Remap, v2: set<Slot>, r3: Remap, v3: set<Slot>,
    sg: Groups, structs: seq<Node>, ug: Groups, unions: seq<Node>,
    sg1: Groups, structs1: seq<Node>, ug2: Groups, unions2: seq<Node>, sg3: Groups, structs3: seq<Node>,
    vars: FuncVars, vars1: FuncVars, vars2: FuncVars, vars3: FuncVars)
    requires PassStep(g, g1, r1, v1, StructTag, sg, structs, sg1, structs1)
    requires Indexed(g, UnionTag, ug, unions)
    requires VarsIn(g, vars) && VarsMoved(vars, vars1, r1) && VarsMoved(vars1, vars2, r2) && VarsMoved(vars2, vars3, r3)
    requires PassStep(g1, g2, r2, v2, UnionTag, ug, unions, ug2, unions2)
    requires PassStep(g2, g3, r3, v3, StructTag, sg1, structs1, sg3, structs3)
    ensures PassesDone(g, g3, sg, structs, ug, unions, sg3, structs3, ug2, unions2)
    ensures VarsMean(g, vars, g3, vars3)
    ensures g3 == g2 && sg3 == sg1 && structs3 == structs1 && vars3 == vars2 && r3 == map[]
  {
    hide IsDupRemap, Closed, NoTwins, Leaders, Indexed, MeaningKept, Sound, Rewritten, WalkClosed, Keep;
    hide VarsMean, VarsIn, VarsMoved;
    PassKeepsMeaning(g, g1, r1, v1, StructTag, sg, structs, sg1, structs1);
    PassKeepsMeaning(g1, g2, r2, v2, UnionTag, ug, unions, ug2, unions2);
    MeaningKeptTrans(g, g1, g2);
    RewritingKeepsLeaders(g, g1, r1, v1, UnionTag, ug, unions);
    RewritingKeepsIndexed(g1, g2, r2, v2, StructTag, sg1, structs1) by {
      PassIndexed(g, g1, r1, v1, StructTag, sg, structs, sg1, structs1);
    }
    RewritingKeepsLeaders(g1, g2, r2, v2, StructTag, sg1, structs1) by {
      PassIndexed(g, g1, r1, v1, StructTag, sg, structs, sg1, structs1);
    }
    IdlePass(g2, g3, r3, v3, StructTag, sg1, structs1, sg3, structs3);
    ThreePassesKeepVars(g, g1, g2, r1, v1, r2, v2, sg, structs, ug, unions, sg1, structs1, ug2, unions2,
      vars, vars1, vars2, vars3);
  }

  lemma PassIndexed(
    g: Graph, k: Graph, remap: Remap, v: set<Slot>, kind: TagKind,
    groups: Groups, inOrder: seq<Node>, groups': Groups, inOrder': seq<Node>)
    requires PassStep(g, k, remap, v, kind, groups, inOrder, groups', inOrder')
    ensures Indexed(k, kind, groups', inOrder')
  {
    PassLeavesTable(g, k, remap, v, kind, groups, inOrder, groups', inOrder');
  }

  /** `RemoveDuplicateTypes`: structs, unions, structs again. */
  method RemoveDuplicateTypes(p: Parser, ghost h: nat, ghost live: set<Slot>)
    returns (ghost dead: set<Node>, ghost live': set<Slot>)
    requires Dedupable(p, h) && NoDangling(p, {}, live)
    modifies p.structs, p.unions, p.nodes, p.funcs`v
    ensures Dedupable(p, h)
    ensures PassesDone(
      old(Snap(p.nodes)), Snap(p.nodes),
      old(p.structs.byTag), old(p.structs.inOrder), old(p.unions.byTag), old(p.unions.inOrder),
      p.structs.byTag, p.structs.inOrder, p.unions.byTag, p.unions.inOrder)
    ensures dead == RemovedFrom(old(p.structs.inOrder), p.structs.inOrder)
      + RemovedFrom(old(p.unions.inOrder), p.unions.inOrder)
    ensures NoDangling(p, dead, live')
    ensures DeclObjs(p) == old(DeclObjs(p)) && AloneKept(old(Snap(p.nodes)), Snap(p.nodes), DeclObjs(p))
    ensures Unaliased(old(Snap(p.nodes)), old(FuncVarsOf(p.funcs)), DeclObjs(p)) ==>
      NamesKept(old(Snap(p.nodes)), Snap(p.nodes), DeclObjs(p))
    ensures forall f | f in p.funcs ::
      f.v.name == old(f.v.name) && SameMeaning(Snap(p.nodes), f.v.typ, old(Snap(p.nodes)), old(f.v.typ))
  {
    hide *;
    ghost var objs := DeclObjs(p);
    ghost var vars := FuncVarsOf(p.funcs);
    FuncVarsAre(p.funcs);
    VarsAreIn(p, h);
    ghost var g, sg, structs, ug, unions :=
      Snap(p.nodes), p.structs.byTag, p.structs.inOrder, p.unions.byTag, p.unions.inOrder;
    DedupableTables(p, h);
    ghost var r1, v1, live1 := Pass(p, p.structs, StructTag, h, {}, live);
    ghost var g1, sg1, structs1, vars1 := Snap(p.nodes), p.structs.byTag, p.structs.inOrder, FuncVarsOf(p.funcs);
    ghost var r2, v2, live2 := Pass(p, p.unions, UnionTag, h, {} + Gone(r1), live1);
    ghost var g2, ug2, unions2, vars2 := Snap(p.nodes), p.unions.byTag, p.unions.inOrder, FuncVarsOf(p.funcs);
    ghost var r3, v3, live3 := Pass(p, p.structs, StructTag, h, {} + Gone(r1) + Gone(r2), live2);
    dead, live' := {} + Gone(r1) + Gone(r2) + Gone(r3), live3;
    ThreePasses(g, g1, g2, Snap(p.nodes), r1, v1, r2, v2, r3, v3, sg, structs, ug, unions,
      sg1, structs1, ug2, unions2, p.structs.byTag, p.structs.inOrder, vars, vars1, vars2, FuncVarsOf(p.funcs));
    VarsMeanEach(p, g, vars);
    NothingGone();
    RemovedAre(g, g1, r1, v1, StructTag, sg, structs, sg1, structs1);
    RemovedAre(g1, g2, r2, v2, UnionTag, ug, unions, ug2, unions2);
    AloneKeptTrans(g, g1, g2, objs);
    AloneKeptTrans(g, g2, Snap(p.nodes), objs);
    if Unaliased(g, vars, objs) {
      NamesKeptTrans(g, g1, g2, objs);
      NamesKeptTrans(g, g2, Snap(p.nodes), objs);
    }
  }

  /** The objects one list has and another has not. */
  ghost function RemovedFrom(s: seq<Node>, t: seq<Node>): set<Node> {
    set o | o in s && o !in t
  }

  lemma RemovedAre(g: Graph, k: Graph, remap: Remap, v: set<Slot>, kind: TagKind,
    groups: Groups, inOrder: seq<Node>, groups': Groups, inOrder': seq<Node>)
    requires PassStep(g, k, remap, v, kind, groups, inOrder, groups', inOrder')
    ensures Gone(remap) == RemovedFrom(inOrder, inOrder')
  {
    hide Indexed, IsDupRemap, Deduplicated, Gone;
    UnlistedAreGone(g, kind, groups, inOrder, remap, groups', inOrder');
    assert forall o :: o in Elements(inOrder) <==> o in inOrder;
    assert forall o :: o in Elements(inOrder') <==> o in inOrder';
  }

  lemma NothingGone()
    ensures Gone(map[]) == {}
  {
  }

  /** Some earlier type of its tag is deeply equal to it. */
  ghost predicate HasEarlierTwin(g: Graph, groups: Groups, o: Node) {
    exists tag | tag in groups :: IsLaterIn(g, groups[tag], o)
  }

  ghost predicate IsLaterIn(g: Graph, s: seq<Node>, o: Node) {
    exists j, k | 0 <= j < k < |s| :: s[k] == o && DeepEqual(g, Ref(s[j]), Ref(o))
  }

  lemma LeadersHaveNoTwin(g: Graph, kind: TagKind, groups: Groups, inOrder: seq<Node>, o: Node)
    requires Indexed(g, kind, groups, inOrder) && o in inOrder
    ensures o in Leaders(g, groups) <==> !HasEarlierTwin(g, groups, o)
  {
    hide DeepEqual;
    GroupMembers(g, kind, groups, inOrder);
    var tag := TagOf(g[o]);
    var s := groups[tag];
    assert o in s;
    var k :| 0 <= k < |s| && s[k] == o;
    if First(g, s, k) < k {
      assert IsLaterIn(g, s, o) by { assert s[First(g, s, k)] in s && s[k] == o; }
    } else {
      assert o in Leaders(g, groups);
    }
  }

  lemma RemovedHaveTwins(g: Graph, kind: TagKind, groups: Groups, inOrder: seq<Node>, groups': Groups,
    inOrder': seq<Node>, o: Node)
    requires Indexed(g, kind, groups, inOrder) && Deduplicated(g, groups, inOrder, groups', inOrder')
    ensures o in RemovedFrom(inOrder, inOrder') <==> o in inOrder && HasEarlierTwin(g, groups, o)
  {
    hide Leaders, HasEarlierTwin;
    KeepMembers(inOrder, Leaders(g, groups));
    if o in inOrder { LeadersHaveNoTwin(g, kind, groups, inOrder, o); }
  }

  /** A type that is one of these objects. */
  predicate IsAmong(t: Type, objs: set<Node>) {
    t.Ref? && t.node in objs
  }

  /** A listed struct or union that has an earlier twin. */
  ghost predicate IsLaterTwin(g: Graph, sg: Groups, structs: seq<Node>, ug: Groups, unions: seq<Node>, t: Type) {
    t.Ref? && (
      || (t.node in structs && HasEarlierTwin(g, sg, t.node))
      || (t.node in unions && HasEarlierTwin(g, ug, t.node)))
  }

  /** A type definition is left on a removed type exactly if, before the passes, the struct or union it
      defines a name for had an earlier twin: one of the same tag that is deeply equal to it.  This is so
      for the type under any number m of modifiers. */
  lemma TypedefDanglesExactly(
    g: Graph, k: Graph, sg: Groups, structs: seq<Node>, ug: Groups, unions: seq<Node>,
    sg': Groups, structs': seq<Node>, ug': Groups, unions': seq<Node>, objs: set<Node>, d: Node, m: nat)
    requires Indexed(g, StructTag, sg, structs) && Indexed(g, UnionTag, ug, unions)
    requires PassesDone(g, k, sg, structs, ug, unions, sg', structs', ug', unions')
    requires NamesKept(g, k, objs) && IsAlone(g, objs, d)
    ensures d in k && k[d].Decl?
    ensures IsAmong(Strip(k, k[d].v.typ, m), RemovedFrom(structs, structs') + RemovedFrom(unions, unions'))
      <==> IsLaterTwin(g, sg, structs, ug, unions, Strip(g, g[d].v.typ, m))
  {
    var t := Strip(g, g[d].v.typ, m);
    assert NameKept(g, g[d].v.typ, k, k[d].v.typ);
    hide Indexed, HasEarlierTwin, MeaningKept, NoTwins, RemovedFrom, Deduplicated, IsAlone, NamesKept;
    if t.Ref? {
      RemovedHaveTwins(g, StructTag, sg, structs, sg', structs', t.node);
      RemovedHaveTwins(g, UnionTag, ug, unions, ug', unions', t.node);
    }
  }
}

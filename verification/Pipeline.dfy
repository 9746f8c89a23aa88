// The whole translation: types, declarations, duplicates, names (cmd/sym_dump/main.go,
// csym/parse_types.go, csym/parse_decls.go, csym/parse_fixups.go).

module Pipeline {
  import opened Ints
  import opened Records
  import C = CTypes
  import opened TypeGraph
  import opened TypeTrees
  import opened Lists
  import opened TagTables
  import opened Csym
  import opened TypesState
  import opened Ledgers
  import opened GroupScan
  import opened ResolveTypes
  import opened Filling
  import opened Typedefs
  import opened Initial
  import PT = ParseTypes
  import opened Fixups
  import opened Rewriting
  import opened WalkTermination
  import opened WalkStarts
  import opened Untouched
  import opened Liveness
  import opened RemoveDuplicates
  import opened DeclState
  import opened FuncIndex
  import opened FuncBodies
  import opened DeclLists
  import opened GlobalDecls
  import opened OverlayRun
  import opened FuncRun
  import opened Projection
  import opened DeclScan
  import opened DeclNames
  import opened UniqueNames
  import PD = ParseDecls

  /** The overlays of a new parser: the default binary, with nothing in it. */
  const NO_DECLS := Decls([NOTHING_LISTED], 0, map[])

  lemma NothingProjected(v: State, vals: FuncVals, syms: seq<Symbol>)
    ensures Projected(v, vals, NO_DECLS, syms, [])
  {
    assert forall id: uint32 :: IdMatches(NO_DECLS, syms, [], id);
  }

  lemma NothingFitsYet(nodes: set<C.Node>, g: Graph)
    ensures Fits(NO_DECLS, nodes, {}) && OwnTypes(map[], g)
  {
    NothingFits(0, 0, 0, nodes, {});
  }

  /** Between the two passes: the objects there are are early ones. */
  method BeginDecls(p: Parser, syms: seq<Symbol>, ghost book: Book) returns (ghost d: Decls)
    requires Separate(p) && OnTrack(View(p), syms, |syms|, book) && Holds(p, NO_DECLS) && p.funcs == {}
      && p.blocks == {}
    modifies p`early
    ensures PD.InStep(p, d, syms, []) && View(p) == old(View(p))
  {
    hide OnTrack, PD.InStep, Fits, OwnTypes, Projected, Ok, Bare, EarlyOk;
    d := NO_DECLS;
    p.early := p.nodes;
    EarlyFromHere(p, syms, book);
    PT.OnTrackIsOk(View(p), syms, |syms|, book);
    NothingFitsYet(p.Late(), Snap(p.nodes));
    NothingProjected(Bare(View(p)), Values(p), syms);
    assert FuncTypes({}) == map[];
    NowOnCourse(p, d);
    PD.NowInStep(p, d, syms, []);
  }

  /** `NewParser`, `ParseTypes` and `ParseDecls`: the outcome is a function of the records, first of the
      type pass, then of the declaration pass. */
  method Translate(syms: seq<Symbol>)
    returns (p: Parser, r: Outcome<Done>, ghost start: State, ghost book: Book, ghost types: State, ghost d: Decls)
    ensures fresh(p) && r == if TypesOutcome(syms, 0).Panicked? then TypesOutcome(syms, 0) else DeclsOutcome(syms)
    ensures r.Good? ==>
      HasTypes(syms, start, book, types) && Later(types, View(p)) && PD.InStep(p, d, syms, TopsFrom(syms, 0))
    ensures r.Good? ==> fresh(p.structs) && fresh(p.unions) && fresh(p.enums) && fresh(p.nodes) && fresh(p.funcs)
  {
    hide OnTrack, TypedefsMatch, TypesOutcome, PD.InStep, Later, Grows, Projected, Ok, FromRecords, DeclsOutcome;
    p := new Parser();
    assert Snap({}) == map[];
    d := NO_DECLS;
    r, start, book := PT.ParseTypes(p, syms);
    types := View(p);
    if r.Panicked? {
      return;
    }
    d := BeginDecls(p, syms, book);
    r, d := PD.ParseDecls(p, syms, d);
  }

  /** The types of these records, from the scaffolds at the start to the end of the type pass. */
  ghost predicate HasTypes(syms: seq<Symbol>, start: State, book: Book, types: State) {
    && OnTrack(start, syms, 0, map[]) && FromRecords(start, syms) && AllListed(start, syms, |syms|)
    && Grows(start, types)
    && OnTrack(types, syms, |syms|, book) && TypedefsMatch(types, syms, |syms|)
  }

  lemma EarlyFromHere(p: Parser, syms: seq<Symbol>, book: Book)
    requires OnTrack(View(p), syms, |syms|, book) && p.early == p.nodes
    ensures EarlyOk(p)
  {
    var v := View(p);
    assert NamesOk(v) && NoParams(v.g);
  }

  // ----- what the translation hands to the removal of duplicates -----

  lemma GroundedLists(p: Parser, d: Decls, i: nat)
    requires Holds(p, d) && Fits(d, p.Late(), p.funcs) && BodiesFit(p.funcs, p.Late(), p.blocks)
      && i < |p.AllOverlays()|
    ensures GroundedOverlay(p.AllOverlays()[i], p.nodes, p.funcs, p.blocks)
  {
    hide IsIndex, ListsApart;
    var o := p.AllOverlays()[i];
    assert ListFits(d.lists[i], p.Late(), p.funcs) && d.lists[i] == ListsOf(o);
    forall f | f in o.funcs ensures f in p.funcs && LocalsWithin(f, p.nodes, p.blocks) {
      assert f in Elements(o.funcs);
      forall b | b in f.blocks ensures b in p.blocks && Elements(b.locals) <= p.nodes {
        assert b in Elements(f.blocks);
      }
    }
  }

  lemma ApartLists(p: Parser, d: Decls, i: nat, j: nat)
    requires Holds(p, d) && Fits(d, p.Late(), p.funcs) && i < j < |p.AllOverlays()|
    ensures Apart(p.AllOverlays()[i], p.AllOverlays()[j])
  {
    assert ListsApart(d.lists[i], d.lists[j]) && d.lists[i] == ListsOf(p.AllOverlays()[i])
      && d.lists[j] == ListsOf(p.AllOverlays()[j]);
  }

  lemma DeclsAreReady(p: Parser, d: Decls)
    requires OnCourse(p, d)
    ensures DeclsReady(p)
  {
    hide Fits, Holds, BodiesFit, Ok;
    OnCourseMeans(p, d);
    forall f | f in p.funcs ensures f.v.typ.Ref? ==> f.v.typ.node in p.nodes {
      FoundOwn(FuncTypes(p.funcs), Snap(p.nodes), f);
    }
    forall i | 0 <= i < |p.AllOverlays()| ensures GroundedOverlay(p.AllOverlays()[i], p.nodes, p.funcs, p.blocks) {
      GroundedLists(p, d, i);
    }
    forall i, j | 0 <= i < j < |p.AllOverlays()| ensures Apart(p.AllOverlays()[i], p.AllOverlays()[j]) {
      ApartLists(p, d, i, j);
    }
  }

  /** Whatever file was translated: all walks of the removal of duplicates return within some depth exactly
      if those do that start at the fields of the unions; exactly if no union reaches itself without crossing
      a struct. */
  lemma TranslatedIsDedupable(p: Parser, d: Decls)
    requires OnCourse(p, d)
    ensures FieldsReturn(Snap(p.nodes), p.unions.inOrder) <==> exists h: nat :: Dedupable(p, h)
    ensures FieldsReturn(Snap(p.nodes), p.unions.inOrder) <==> Acyclic(Snap(p.nodes))
  {
    hide DeclsReady, WalksAll, Acyclic, FieldsReturn, Founded;
    DeclsAreReady(p, d);
    OnCourseMeans(p, d);
    hide OnCourse;
    OkIsReady(View(p));
    TerminatesExactlyWhenAcyclic(Snap(p.nodes));
    FieldsDecide(Snap(p.nodes), p.unions.inOrder);
    if h: nat :| WalksAll(Snap(p.nodes), h) { assert Dedupable(p, h); }
    if h: nat :| Dedupable(p, h) { assert WalksAll(Snap(p.nodes), h); }
  }

  lemma OkIsReady(v: State)
    requires Ok(v)
    ensures Closed(v.g) && (forall d | d in v.typedefs :: d in v.g && v.g[d].Decl?)
    ensures Indexed(v.g, StructTag, v.structs.groups, v.structs.inOrder)
    ensures Indexed(v.g, UnionTag, v.unions.groups, v.unions.inOrder)
    ensures Indexed(v.g, EnumTag, v.enums.groups, v.enums.inOrder)
    ensures forall o | o in v.g && v.g[o].Struct? :: o in v.structs.inOrder
    ensures forall o | o in v.g && v.g[o].Union? :: o in v.unions.inOrder
    ensures Unshared(v.g) && Founded(v.g)
  {
    hide Unshared, Founded, Indexed, Closed;
    assert TableOk(v, StructTag) && TableOk(v, UnionTag) && TableOk(v, EnumTag);
  }

  lemma FitsObjects(p: Parser, d: Decls)
    requires OnCourse(p, d)
    ensures DeclObjs(p) <= p.Late() && forall t | t in DeclTypes(p) :: In(Snap(p.nodes), t)
  {
    hide Fits, Holds, BodiesFit, Ok;
    DeclsAreReady(p, d);
    forall n | n in DeclObjs(p) ensures n in p.Late() {
      DeclaredLate(p, d, n);
    }
  }

  lemma DeclaredLate(p: Parser, d: Decls, n: C.Node)
    requires Holds(p, d) && Fits(d, p.Late(), p.funcs) && BodiesFit(p.funcs, p.Late(), p.blocks) && n in DeclObjs(p)
    ensures n in p.Late()
  {
    hide IsIndex, ListsApart;
    if o :| o in p.AllOverlays() && n in o.vars {
      var i :| 0 <= i < |p.AllOverlays()| && p.AllOverlays()[i] == o;
      assert ListFits(d.lists[i], p.Late(), p.funcs) && d.lists[i] == ListsOf(o);
      assert n in Elements(o.vars);
    } else {
      var o, f, b :| o in p.AllOverlays() && f in o.funcs && f in p.funcs && b in f.blocks && b in p.blocks
        && n in b.locals;
      assert n in Elements(b.locals);
    }
  }

  /** Type definitions are neither variables, nor locals, nor parameters. */
  lemma TypedefsAreAlone(p: Parser, d: Decls)
    requires OnCourse(p, d)
    ensures forall t | t in p.typedefs :: IsAlone(Snap(p.nodes), DeclObjs(p), t)
  {
    hide DeclObjs;
    FitsObjects(p, d);
    OnCourseMeans(p, d);
    OkIsReady(View(p));
    hide OnCourse, Ok;
    forall t | t in p.typedefs ensures IsAlone(Snap(p.nodes), DeclObjs(p), t) {
      assert t in Elements(p.typedefs) && t in p.early;
    }
  }

  /** Nothing dangles at the start: every place is live, and nothing is dead. */
  lemma TranslatedIsLive(p: Parser, d: Decls)
    requires OnCourse(p, d)
    ensures NoDangling(p, {}, AllSlots(Snap(p.nodes)))
  {
    hide Live, DeclObjs, DeclTypes;
    OnCourseMeans(p, d);
    FitsObjects(p, d);
    hide OnCourse, Ok;
    OkIsReady(View(p));
    AllLive(Snap(p.nodes), Elements(p.structs.inOrder), Elements(p.unions.inOrder), DeclObjs(p), DeclTypes(p));
  }

  // ----- the clean-up -----

  /** Types that mean what they meant carry the tags they carried. */
  lemma MeaningKeepsIndexed(g: Graph, k: Graph, kind: TagKind, groups: Groups, inOrder: seq<C.Node>)
    requires Indexed(g, kind, groups, inOrder) && MeaningKept(g, k)
    ensures Indexed(k, kind, groups, inOrder)
  {
    forall o | o in inOrder ensures o in k && TagOf(k[o]) == TagOf(g[o]) && OfKind(k[o], kind) {
      assert SameMeaning(k, C.Ref(o), g, C.Ref(o));
      assert Unfold(k, C.Ref(o), 1) == Unfold(g, C.Ref(o), 1);
    }
    ExtendingKeepsIndexed(g, k, kind, Table(groups, inOrder));
  }

  /** All variables of all overlays are declarations. */
  ghost predicate AllDeclsIn(p: Parser, g: Graph)
    reads p`overlays, p.overlay`vars, p.overlays`vars
  {
    forall o, n | o in p.AllOverlays() && n in o.vars :: n in g && g[n].Decl?
  }

  lemma VarsAreDecls(p: Parser, d: Decls, syms: seq<Symbol>, tops: seq<nat>)
    requires PD.InStep(p, d, syms, tops)
    ensures AllDeclsIn(p, View(p).g)
  {
    hide FuncsHold, SymbolsOf, LinesOf, VarsOf, FuncsOf, HeaderMatches, OnCourse, TypeMatches, DeclMatches;
    PD.InStepMeans(p, d, syms, tops);
    forall o, n | o in p.AllOverlays() && n in o.vars ensures n in View(p).g && View(p).g[n].Decl? {
      var i :| 0 <= i < |p.AllOverlays()| && p.AllOverlays()[i] == o;
      assert ListMatches(Bare(View(p)), Values(p), d.lists[i], syms, tops, i) && d.lists[i] == ListsOf(o);
      MatchedDecl(View(p), o.vars, syms, VarsOf(syms, tops, i), n);
    }
  }

  lemma MatchedDecl(v: State, ns: seq<C.Node>, syms: seq<Symbol>, ds: seq<nat>, n: C.Node)
    requires DeclsMatch(Bare(v), ns, syms, ds) && n in ns
    ensures n in v.g && v.g[n].Decl?
  {
    hide TypeMatches;
    var j :| 0 <= j < |ns| && ns[j] == n;
    assert DeclMatches(Bare(v), ns[j], syms[ds[j]]);
    assert Bare(v).g[n] == BareDef(v.g[n]);
  }

  lemma LocalIsDecl(v: State, x: FuncVal, fields: FuncFields, cs: BlockVals, g: Graph, syms: seq<Symbol>, rs: seq<nat>,
    b: C.Block, n: C.Node)
    requires Tells(Bare(v), x, syms, rs) && x == Assembled(fields, cs, g) && b in fields.blocks && b in cs
      && n in cs[b].locals
    ensures n in v.g && v.g[n].Decl?
  {
    hide DeclsMatch, StoryOf;
    var q :| 0 <= q < |fields.blocks| && fields.blocks[q] == b;
    var story := StoryOf(syms, rs);
    assert x.blocks[q] == cs[b];
    assert BlockMatches(Bare(v), x.blocks[q], story.blocks[q], syms);
    MatchedDecl(v, cs[b].locals, syms, story.blocks[q].locals, n);
  }

  lemma ListedFuncTells(v: State, vals: FuncVals, fs: seq<C.FuncDecl>, syms: seq<Symbol>, tops: seq<nat>, k: nat,
    ps: seq<nat>,
    f: C.FuncDecl) returns (rs: seq<nat>)
    requires FuncsHold(v, vals, fs, syms, tops, k, ps) && f in fs
    ensures f in vals && Tells(v, vals[f], syms, rs)
  {
    hide Tells, OriginMatches;
    var j :| 0 <= j < |fs| && fs[j] == f;
    assert FuncHolds(v, vals, fs[j], syms, tops, k, ps, j);
    rs := ReadsOf(syms, tops, k, ps, j);
  }

  /** All variables and locals the overlays declare are declarations. */
  lemma ObjsAreDecls(p: Parser, d: Decls, syms: seq<Symbol>, tops: seq<nat>)
    requires PD.InStep(p, d, syms, tops)
    ensures forall n | n in DeclObjs(p) :: n in p.nodes && Snap(p.nodes)[n].Decl?
  {
    hide OnCourse, Projected, FuncsHold, Tells;
    VarsAreDecls(p, d, syms, tops);
    PD.InStepMeans(p, d, syms, tops);
    hide PD.InStep;
    forall o, f, b, n | o in p.AllOverlays() && f in o.funcs && f in p.funcs && b in f.blocks && b in p.blocks
      && n in b.locals
      ensures n in p.nodes && Snap(p.nodes)[n].Decl?
    {
      var i :| 0 <= i < |p.AllOverlays()| && p.AllOverlays()[i] == o;
      ListedAt(p, d, syms, tops, i);
      var rs := ListedFuncTells(Bare(View(p)), Values(p), o.funcs, syms, tops, i, FuncsOf(syms, tops, i), f);
      LocalIsDecl(View(p), Values(p)[f], FuncFieldsOf(f), AllContents(p.blocks), Snap(p.nodes), syms, rs, b, n);
    }
  }

  lemma ListedAt(p: Parser, d: Decls, syms: seq<Symbol>, tops: seq<nat>, i: nat)
    requires Holds(p, d) && Projected(Bare(View(p)), Values(p), d, syms, tops) && i < |p.AllOverlays()|
    ensures FuncsHold(Bare(View(p)), Values(p), p.AllOverlays()[i].funcs, syms, tops, i, FuncsOf(syms, tops, i))
  {
    hide FuncsHold, FuncsOf, VarsOf, SymbolsOf, LinesOf, HeaderMatches, NoDup;
    assert ListMatches(Bare(View(p)), Values(p), d.lists[i], syms, tops, i)
      && d.lists[i] == ListsOf(p.AllOverlays()[i]);
  }

  lemma OverlaysCanBeRenamed(p: Parser, d: Decls, g: Graph)
    requires Holds(p, d) && Fits(d, p.Late(), p.funcs)
    requires AllDeclsIn(p, g)
    ensures forall i | 0 <= i < |p.AllOverlays()| :: CanRename(p.AllOverlays()[i], p.nodes, p.funcs, g)
    ensures forall i, j | 0 <= i < |p.AllOverlays()| && 0 <= j < |p.AllOverlays()| && i != j ::
      NoneShared(p.AllOverlays()[i], p.AllOverlays()[j])
  {
    hide IsIndex, NoDup;
    var os := p.AllOverlays();
    forall i | 0 <= i < |os| ensures CanRename(os[i], p.nodes, p.funcs, g) {
      assert ListFits(d.lists[i], p.Late(), p.funcs) && d.lists[i] == ListsOf(os[i]);
    }
    forall i, j | 0 <= i < |os| && 0 <= j < |os| && i != j ensures NoneShared(os[i], os[j]) {
      assert d.lists[i] == ListsOf(os[i]) && d.lists[j] == ListsOf(os[j]);
      assert if i < j then ListsApart(d.lists[i], d.lists[j]) else ListsApart(d.lists[j], d.lists[i]);
    }
  }

  /** What means the same is the same kind of object. */
  lemma MeaningKeepsDecls(g: Graph, k: Graph, n: C.Node)
    requires MeaningKept(g, k) && n in g && g[n].Decl?
    ensures n in k && k[n].Decl?
  {
    assert SameMeaning(k, C.Ref(n), g, C.Ref(n));
    assert Unfold(k, C.Ref(n), 1) == Unfold(g, C.Ref(n), 1);
  }

  lemma NameFreeSlots(d: C.Def, e: C.Def)
    requires NameFree(d) == NameFree(e)
    ensures Slots(d) == Slots(e) && Params(d) == Params(e) && d.Struct? == e.Struct?
    ensures d.Decl? == e.Decl? && d.Union? == e.Union? && d.Func? == e.Func? && d.Pointer? == e.Pointer?
      && d.Array? == e.Array?
  {
  }

  /** The walk does not look at names. */
  lemma NamesAsideWalk(g: Graph, k: Graph, t: C.Type)
    requires SameButNames(g, k)
    ensures WalkSlots(k, t) == WalkSlots(g, t)
  {
    if t.Ref? && t.node in g {
      NameFreeSlots(g[t.node], k[t.node]);
      assert NameFree(k[t.node]) == NameFree(g[t.node]);
    }
  }

  lemma NamesAsideTypeLive(g: Graph, k: Graph, t: C.Type, structs: set<C.Node>, dead: set<C.Node>, live: set<Slot>)
    requires SameButNames(g, k) && TypeLive(g, t, structs, dead, live)
    ensures TypeLive(k, t, structs, dead, live)
  {
    hide NameFree, WalkSlots;
    NamesAsideWalk(g, k, t);
    if t.Ref? { NameFreeSlots(g[t.node], k[t.node]); }
  }

  /** Renaming makes nothing dangle. */
  lemma NamesAsideLive(g: Graph, k: Graph, structs: set<C.Node>, unions: set<C.Node>, objs: set<C.Node>,
    types: set<C.Type>,
    dead: set<C.Node>, live: set<Slot>)
    requires SameButNames(g, k) && Live(g, structs, unions, objs, types, dead, live)
    ensures Live(k, structs, unions, objs, types, dead, live)
  {
    hide SameButNames, TypeLive;
    forall o | o in structs + unions + objs ensures Covered(k, o, live) {
      assert Covered(g, o, live);
      NamesAsideSlots(g, k, o);
    }
    forall t | t in types ensures TypeLive(k, t, structs, dead, live) {
      NamesAsideTypeLive(g, k, t, structs, dead, live);
    }
    forall s | s in live ensures IsSlot(k, s) && TypeLive(k, SlotType(k, s), structs, dead, live) {
      NamesAsideSlots(g, k, s.node);
      NamesAsideTypeLive(g, k, SlotType(g, s), structs, dead, live);
    }
  }

  lemma NamesAsideSlots(g: Graph, k: Graph, o: C.Node)
    requires SameButNames(g, k) && o in g
    ensures o in k && Slots(k[o]) == Slots(g[o])
  {
    NameFreeSlots(g[o], k[o]);
  }

  /** Renaming declarations changes names only, and no tagged type. */
  lemma DeclNamesAside(os: seq<Overlay>, g: Graph, was: FuncVars, k: Graph, now: FuncVars)
    requires RenamedTo(os, |os|, g, was, k, now)
    ensures SameButNames(g, k)
  {
    hide IsRenamedDecl, NameFree;
    forall n | n in g ensures NameFree(k[n]) == NameFree(g[n]) {
      if !IsUnlisted(os, n) {
        var i :| 0 <= i < |os| && n in os[i].vars;
        assert VarsRenamed(os[i], g, k);
        var j :| 0 <= j < |os[i].vars| && os[i].vars[j] == n;
        assert VarRenamedAt(os[i], g, k, j);
        VarNameAside(g, os[i].vars, os[i].varKeys, j, k[n]);
      }
    }
  }

  lemma VarNameAside(g: Graph, vars: seq<C.Node>, keys: seq<string>, i: nat, now: C.Def)
    requires i < |keys| == |vars| && vars[i] in g && IsRenamedDecl(g, vars, keys, i, now)
    ensures NameFree(now) == NameFree(g[vars[i]])
  {
    hide HasRealNamesake;
  }

  /** The type that a type definition names, under m modifiers. */
  function NamedBy(g: Graph, t: C.Node, m: nat): C.Type {
    if t in g && g[t].Decl? then Strip(g, g[t].v.typ, m) else C.Basic(C.Void)
  }

  /** The condition under which a type definition is left behind on a removed type: the struct or union it
      names, under m modifiers, has an earlier twin. */
  ghost predicate NamesLaterTwin(v: State, t: C.Node, m: nat) {
    IsLaterTwin(v.g, v.structs.groups, v.structs.inOrder, v.unions.groups, v.unions.inOrder, NamedBy(v.g, t, m))
  }

  /** The type definitions refer to removed objects exactly where they named later twins. */
  ghost predicate TypedefsLeft(v: State, k: Graph, dead: set<C.Node>) {
    forall t | t in v.typedefs :: t in v.g && t in k && TypedefLeft(v, k, dead, t)
  }

  ghost predicate TypedefLeft(v: State, k: Graph, dead: set<C.Node>, t: C.Node) {
    forall m: nat :: IsAmong(NamedBy(k, t, m), dead) <==> NamesLaterTwin(v, t, m)
  }

  /** What the removal of duplicates leaves, compared with the state v before it. */
  ghost predicate Deduplicates(v: State, k: Graph, structs: Table, unions: Table, dead: set<C.Node>) {
    && PassesDone(v.g, k, v.structs.groups, v.structs.inOrder, v.unions.groups, v.unions.inOrder,
         structs.groups, structs.inOrder, unions.groups, unions.inOrder)
    && dead == RemovedFrom(v.structs.inOrder, structs.inOrder) + RemovedFrom(v.unions.inOrder, unions.inOrder)
    && TypedefsLeft(v, k, dead)
  }

  lemma TypedefsAfterwards(v: State, k: Graph, structs: Table, unions: Table, objs: set<C.Node>)
    requires Indexed(v.g, StructTag, v.structs.groups, v.structs.inOrder)
      && Indexed(v.g, UnionTag, v.unions.groups, v.unions.inOrder)
    requires PassesDone(v.g, k, v.structs.groups, v.structs.inOrder, v.unions.groups, v.unions.inOrder,
      structs.groups, structs.inOrder, unions.groups, unions.inOrder)
    requires NamesKept(v.g, k, objs) && forall t | t in v.typedefs :: IsAlone(v.g, objs, t)
    ensures Deduplicates(v, k, structs, unions,
      RemovedFrom(v.structs.inOrder, structs.inOrder) + RemovedFrom(v.unions.inOrder, unions.inOrder))
  {
    hide Indexed, PassesDone, RemovedFrom, HasEarlierTwin, NamesKept, Strip, IsLaterTwin, IsAmong;
    var dead := RemovedFrom(v.structs.inOrder, structs.inOrder) + RemovedFrom(v.unions.inOrder, unions.inOrder);
    forall t | t in v.typedefs ensures t in v.g && t in k && TypedefLeft(v, k, dead, t) {
      assert IsAlone(v.g, objs, t);
      AloneIsDecl(v.g, objs, t);
      TypedefDanglesExactly(v.g, k, v.structs.groups, v.structs.inOrder, v.unions.groups, v.unions.inOrder,
        structs.groups, structs.inOrder, unions.groups, unions.inOrder, objs, t, 0);
      forall m: nat ensures IsAmong(NamedBy(k, t, m), dead) <==> NamesLaterTwin(v, t, m) {
        TypedefDanglesExactly(v.g, k, v.structs.groups, v.structs.inOrder, v.unions.groups, v.unions.inOrder,
          structs.groups, structs.inOrder, unions.groups, unions.inOrder, objs, t, m);
      }
    }
  }

  /** The tables of tagged types. */
  ghost function TableIn(t: TagIndex): Table
    reads t
  {
    Table(t.byTag, t.inOrder)
  }

  /** Every table agrees with the graph, and every variable is a declaration. */
  ghost predicate CanBeNamed(p: Parser, g: Graph)
    reads p, p.structs, p.unions, p.enums, p.overlay, p.overlays
  {
    && Indexed(g, StructTag, p.structs.byTag, p.structs.inOrder)
    && Indexed(g, UnionTag, p.unions.byTag, p.unions.inOrder)
    && Indexed(g, EnumTag, p.enums.byTag, p.enums.inOrder)
    && AllDeclsIn(p, g)
  }

  lemma KeepsCanBeNamed(p: Parser, g: Graph, k: Graph, h: nat, enums: Table)
    requires MeaningKept(g, k) && Indexed(g, EnumTag, enums.groups, enums.inOrder) && TableIn(p.enums) == enums
    requires Dedupable(p, h) && k == Snap(p.nodes)
    requires AllDeclsIn(p, g)
    ensures CanBeNamed(p, k)
  {
    hide Indexed, MeaningKept, Dedupable;
    DedupableTables(p, h);
    MeaningKeepsIndexed(g, k, EnumTag, enums.groups, enums.inOrder);
    forall o, n | o in p.AllOverlays() && n in o.vars ensures n in k && k[n].Decl? {
      MeaningKeepsDecls(g, k, n);
    }
  }

  lemma DoneKeepsMeaning(v: State, k: Graph, structs: Table, unions: Table, dead: set<C.Node>)
    requires Deduplicates(v, k, structs, unions, dead)
    ensures MeaningKept(v.g, k)
  {
  }

  lemma LeftBehind(v: State, k: Graph, structs: Table, unions: Table, dead: set<C.Node>)
    requires Deduplicates(v, k, structs, unions, dead)
    ensures TypedefsLeft(v, k, dead)
  {
  }

  /** Modifiers' objects stand in one place each, function types in none, and neither is a variable. */
  lemma TranslatedIsUnaliased(p: Parser, d: Decls, syms: seq<Symbol>, tops: seq<nat>)
    requires PD.InStep(p, d, syms, tops)
    ensures Unaliased(Snap(p.nodes), FuncVarsOf(p.funcs), DeclObjs(p))
  {
    hide OnCourse, Unshared, DeclObjs, Unheld;
    PD.InStepMeans(p, d, syms, tops);
    OnCourseMeans(p, d);
    OkIsReady(View(p));
    hide PD.InStep, Ok, Fits, Holds, BodiesFit, Projected;
    FuncVarsAre(p.funcs);
    forall f | f in p.funcs ensures Loose(Snap(p.nodes), FuncVarsOf(p.funcs)[f].typ) {
      FoundOwn(FuncTypes(p.funcs), Snap(p.nodes), f);
    }
    ObjsAreDecls(p, d, syms, tops);
  }

  lemma ViewIs(p: Parser)
    ensures View(p).g == Snap(p.nodes) && View(p).typedefs == p.typedefs
    ensures View(p).structs == TableIn(p.structs) && View(p).unions == TableIn(p.unions)
      && View(p).enums == TableIn(p.enums)
    ensures TableIn(p.structs) == Table(p.structs.byTag, p.structs.inOrder)
      && TableIn(p.unions) == Table(p.unions.byTag, p.unions.inOrder)
    ensures TableIn(p.enums) == Table(p.enums.byTag, p.enums.inOrder)
    ensures forall n | n in p.nodes :: n in Snap(p.nodes) && Snap(p.nodes)[n] == n.def
  {
  }

  /** `RemoveDuplicateTypes` on what was translated, where the walk ends. */
  method Deduplicate(p: Parser, syms: seq<Symbol>, ghost tops: seq<nat>, ghost d: Decls)
    returns (ghost dead: set<C.Node>, ghost live: set<Slot>)
    requires PD.InStep(p, d, syms, tops) && FieldsReturn(Snap(p.nodes), p.unions.inOrder)
    modifies p.structs, p.unions, p.nodes, p.funcs`v
    ensures Deduplicates(old(View(p)), Snap(p.nodes), TableIn(p.structs), TableIn(p.unions), dead)
    ensures NoDangling(p, dead, live) && CanBeNamed(p, Snap(p.nodes))
    ensures forall f | f in p.funcs ::
      f.v.name == old(f.v.name) && SameMeaning(Snap(p.nodes), f.v.typ, old(Snap(p.nodes)), old(f.v.typ))
  {
    hide *;
    ViewIs(p);
    PD.InStepMeans(p, d, syms, tops);
    OnCourseMeans(p, d);
    ghost var v := View(p);
    OkIsReady(v);
    VarsAreDecls(p, d, syms, tops);
    TranslatedIsUnaliased(p, d, syms, tops);
    TranslatedIsLive(p, d);
    TypedefsAreAlone(p, d);
    TranslatedIsDedupable(p, d);
    ghost var h: nat :| Dedupable(p, h);
    ghost var enums, objs := TableIn(p.enums), DeclObjs(p);
    dead, live := RemoveDuplicateTypes(p, h, AllSlots(v.g));
    ViewIs(p);
    TypedefsAfterwards(v, Snap(p.nodes), TableIn(p.structs), TableIn(p.unions), objs);
    DoneKeepsMeaning(v, Snap(p.nodes), TableIn(p.structs), TableIn(p.unions), dead);
    KeepsCanBeNamed(p, v.g, Snap(p.nodes), h, enums);
  }

  lemma SameDeclTypes(p: Parser, was: FuncVars, now: FuncVars)
    requires now == FuncVarsOf(p.funcs) && now.Keys == was.Keys && forall f | f in was :: now[f].typ == was[f].typ
    ensures DeclTypes(p) == set f | f in DeclFuncs(p) && f in was :: was[f].typ
  {
    assert DeclFuncs(p) <= p.funcs;
  }

  /** Nothing tagged is a variable. */
  lemma TaggedUnlisted(p: Parser, g: Graph, t: TagIndex, kind: TagKind)
    requires Indexed(g, kind, t.byTag, t.inOrder)
    requires AllDeclsIn(p, g)
    ensures forall n | n in t.inOrder :: n in g && IsUnlisted(p.AllOverlays(), n)
  {
    forall n | n in t.inOrder ensures n in g && IsUnlisted(p.AllOverlays(), n) {
      forall i | 0 <= i < |p.AllOverlays()| ensures n !in p.AllOverlays()[i].vars {
        assert p.AllOverlays()[i] in p.AllOverlays();
      }
    }
  }

  lemma StillTagsDiffer(p: Parser, t: TagIndex, g: Graph, k: Graph, was: FuncVars, now: FuncVars)
    requires RenamedTo(p.AllOverlays(), |p.AllOverlays()|, g, was, k, now) && TagsDifferIn(t.inOrder, g)
    requires k == Snap(p.nodes) && forall n | n in t.inOrder :: n in g && IsUnlisted(p.AllOverlays(), n)
    ensures TagsDiffer(t)
  {
    hide VarsRenamed, FuncsRenamed;
    forall n | n in t.inOrder ensures n in g && n.def == g[n] {
      assert k[n] == g[n];
    }
    TagsStay(t, g);
  }

  /** All tagged types stand in no list of variables. */
  ghost predicate TablesUnlisted(p: Parser, g: Graph)
    reads p`overlays, p.overlay`vars, p.overlays`vars, p.structs, p.unions, p.enums
  {
    && (forall n | n in p.structs.inOrder :: n in g && IsUnlisted(p.AllOverlays(), n))
    && (forall n | n in p.unions.inOrder :: n in g && IsUnlisted(p.AllOverlays(), n))
    && (forall n | n in p.enums.inOrder :: n in g && IsUnlisted(p.AllOverlays(), n))
  }

  lemma TaggedTablesUnlisted(p: Parser, g: Graph)
    requires CanBeNamed(p, g)
    ensures TablesUnlisted(p, g)
  {
    hide Indexed;
    TaggedUnlisted(p, g, p.structs, StructTag);
    TaggedUnlisted(p, g, p.unions, UnionTag);
    TaggedUnlisted(p, g, p.enums, EnumTag);
  }

  ghost predicate AllTagsDiffer(p: Parser)
    reads p.structs, p.unions, p.enums, p.structs.inOrder, p.unions.inOrder, p.enums.inOrder
  {
    TagsDiffer(p.structs) && TagsDiffer(p.unions) && TagsDiffer(p.enums)
  }

  lemma AllStillDiffer(p: Parser, g: Graph, k: Graph, was: FuncVars, now: FuncVars)
    requires RenamedTo(p.AllOverlays(), |p.AllOverlays()|, g, was, k, now) && TablesUnlisted(p, g) && k == Snap(p.nodes)
    requires TagsDifferIn(p.structs.inOrder, g) && TagsDifferIn(p.unions.inOrder, g) && TagsDifferIn(p.enums.inOrder, g)
    ensures AllTagsDiffer(p)
  {
    hide RenamedTo, TagsDiffer, TagsDifferIn, IsUnlisted;
    StillTagsDiffer(p, p.structs, g, k, was, now);
    StillTagsDiffer(p, p.unions, g, k, was, now);
    StillTagsDiffer(p, p.enums, g, k, was, now);
  }

  /** The names of variables and functions, in all overlays.  Nothing else changes. */
  method MakeAllDeclNamesUnique(p: Parser, ghost d: Decls)
    requires Holds(p, d) && Fits(d, p.Late(), p.funcs) && AllDeclsIn(p, Snap(p.nodes))
      && TablesUnlisted(p, Snap(p.nodes)) && AllTagsDiffer(p)
    modifies p.nodes, p.funcs`v
    ensures AllTagsDiffer(p) && SameButNames(old(Snap(p.nodes)), Snap(p.nodes))
    ensures RenamedTo(p.AllOverlays(), |p.AllOverlays()|, old(Snap(p.nodes)), old(FuncVarsOf(p.funcs)), Snap(p.nodes),
      FuncVarsOf(p.funcs))
  {
    hide SameButNames, TagsDiffer, TagsDifferIn, RenamedTo, IsUnlisted, Holds, Fits, CanRename, NoneShared, AllDeclsIn,
      TablesUnlisted;
    ghost var g, was := Snap(p.nodes), FuncVarsOf(p.funcs);
    TagsDifferNow(p.structs, p.nodes);
    TagsDifferNow(p.unions, p.nodes);
    TagsDifferNow(p.enums, p.nodes);
    OverlaysCanBeRenamed(p, d, g);
    MakeDeclNamesUnique(p.AllOverlays(), p.nodes, p.funcs);
    DeclNamesAside(p.AllOverlays(), g, was, Snap(p.nodes), FuncVarsOf(p.funcs));
    AllStillDiffer(p, g, Snap(p.nodes), was, FuncVarsOf(p.funcs));
  }

  /** `MakeNamesUnique`: tags, then the names of variables and functions.  Nothing else changes. */
  method MakeNamesUnique(p: Parser, ghost d: Decls, ghost dead: set<C.Node>, ghost live: set<Slot>)
    returns (ghost tagged: Graph)
    requires Separate(p) && Holds(p, d) && Fits(d, p.Late(), p.funcs) && CanBeNamed(p, Snap(p.nodes))
      && NoDangling(p, dead, live)
    modifies p.nodes, p.funcs`v
    ensures AllTagsDiffer(p) && SameButNames(old(Snap(p.nodes)), Snap(p.nodes)) && NoDangling(p, dead, live)
    ensures RenamedTo(p.AllOverlays(), |p.AllOverlays()|, tagged, old(FuncVarsOf(p.funcs)), Snap(p.nodes),
      FuncVarsOf(p.funcs))
    ensures tagged.Keys == p.nodes && AllTagsRenamed(p, old(Snap(p.nodes)), tagged)
    ensures forall o | o in p.nodes && !IsTagged(old(Snap(p.nodes))[o]) :: tagged[o] == old(Snap(p.nodes))[o]
  {
    hide Indexed, SameButNames, TagsDiffer, RenamedTo, NoDangling, Live, Holds, Fits, DeclTypes, DeclObjs, AllDeclsIn,
      TablesUnlisted, TagsRenamed;
    ghost var g, was := Snap(p.nodes), FuncVarsOf(p.funcs);
    NoDanglingIsLive(p, dead, live);
    TaggedTablesUnlisted(p, g);
    ghost var types, objs := DeclTypes(p), DeclObjs(p);
    SameDeclTypes(p, was, was);
    MakeTagsUnique(p);
    tagged := Snap(p.nodes);
    UntaggedDecls(p, g, tagged);
    UnlistedStay(p, g, tagged);
    MakeAllDeclNamesUnique(p, d);
    SameButNamesTrans(g, tagged, Snap(p.nodes));
    StillNotDangling(p, g, was, tagged, objs, types, dead, live);
  }

  lemma StillNotDangling(p: Parser, g: Graph, was: FuncVars, tagged: Graph, objs: set<C.Node>, types: set<C.Type>,
    dead: set<C.Node>, live: set<Slot>)
    requires Live(g, Elements(p.structs.inOrder), Elements(p.unions.inOrder), objs, types, dead, live)
    requires SameButNames(g, Snap(p.nodes))
      && RenamedTo(p.AllOverlays(), |p.AllOverlays()|, tagged, was, Snap(p.nodes), FuncVarsOf(p.funcs))
    requires was.Keys == p.funcs && objs == DeclObjs(p) && types == set f | f in DeclFuncs(p) && f in was :: was[f].typ
    ensures NoDangling(p, dead, live)
  {
    hide SameButNames, RenamedTo, Live, DeclTypes, DeclObjs;
    NamesAsideLive(g, Snap(p.nodes), Elements(p.structs.inOrder), Elements(p.unions.inOrder), objs, types, dead, live);
    RenamedTypes(p.AllOverlays(), tagged, was, Snap(p.nodes), FuncVarsOf(p.funcs));
    SameDeclTypes(p, was, FuncVarsOf(p.funcs));
    NoDanglingIsLive(p, dead, live);
  }

  lemma UnlistedStay(p: Parser, g: Graph, k: Graph)
    requires TablesUnlisted(p, g) && k.Keys == g.Keys
    ensures TablesUnlisted(p, k)
  {
    hide IsUnlisted;
  }

  lemma UntaggedDecls(p: Parser, g: Graph, k: Graph)
    requires AllDeclsIn(p, g) && k.Keys == g.Keys && forall o | o in g && !IsTagged(g[o]) :: k[o] == g[o]
    ensures AllDeclsIn(p, k)
  {
  }

  lemma RenamedTypes(os: seq<Overlay>, g: Graph, was: FuncVars, k: Graph, now: FuncVars)
    requires RenamedTo(os, |os|, g, was, k, now)
    ensures now.Keys == was.Keys && forall f | f in was :: now[f].typ == was[f].typ
  {
  }

  /** A type definition refers to what it referred to, whatever is renamed. */
  lemma TypedefsRenamed(v: State, k: Graph, l: Graph, dead: set<C.Node>)
    requires TypedefsLeft(v, k, dead) && SameButNames(k, l)
    ensures TypedefsLeft(v, l, dead)
  {
    hide NamesLaterTwin, SameButNames, IsAmong;
    forall t | t in v.typedefs ensures t in v.g && t in l && TypedefLeft(v, l, dead, t) {
      SameKeys(k, l);
      assert TypedefLeft(v, k, dead, t);
      forall m: nat ensures IsAmong(NamedBy(l, t, m), dead) <==> NamesLaterTwin(v, t, m) {
        NamesAsideNamed(k, l, t, m);
      }
    }
  }

  lemma SameKeys(k: Graph, l: Graph)
    requires SameButNames(k, l)
    ensures l.Keys == k.Keys
  {
  }

  lemma NamesAsideNamed(k: Graph, l: Graph, t: C.Node, m: nat)
    requires SameButNames(k, l)
    ensures NamedBy(l, t, m) == NamedBy(k, t, m)
  {
    if t in k {
      assert NameFree(l[t]) == NameFree(k[t]);
      SameType(k[t], l[t]);
      if k[t].Decl? { NamesAsideStrip(k, l, k[t].v.typ, m); }
    }
  }

  lemma {:induction false} NamesAsideStrip(k: Graph, l: Graph, t: C.Type, m: nat)
    requires SameButNames(k, l)
    ensures Strip(l, t, m) == Strip(k, t, m)
    decreases m
  {
    if m > 0 && t.Ref? && t.node in k {
      SameHeld(k, l, t.node);
      hide SameButNames, NameFree;
      match k[t.node]
      case Pointer(e) => NamesAsideStrip(k, l, e, m - 1);
      case Array(e, _) => NamesAsideStrip(k, l, e, m - 1);
      case Func(r, _, _) => NamesAsideStrip(k, l, r, m - 1);
      case _ =>
    }
  }

  lemma SameHeld(k: Graph, l: Graph, n: C.Node)
    requires SameButNames(k, l) && n in k
    ensures n in l && (k[n].Pointer? <==> l[n].Pointer?) && (k[n].Array? <==> l[n].Array?)
      && (k[n].Func? <==> l[n].Func?)
    ensures k[n].Pointer? || k[n].Array? || k[n].Func? ==> l[n] == k[n]
  {
    assert NameFree(l[n]) == NameFree(k[n]);
  }

  lemma SameType(d: C.Def, e: C.Def)
    requires NameFree(d) == NameFree(e)
    ensures d.Decl? == e.Decl? && (d.Decl? ==> e.v.typ == d.v.typ)
  {
  }

  /** The function types after the removal of duplicates mean what they meant, and the names are the same. */
  ghost predicate FuncsKept(v: State, before: FuncVars, k: Graph, was: FuncVars) {
    was.Keys == before.Keys
    && forall f | f in was :: was[f].name == before[f].name && SameMeaning(k, was[f].typ, v.g, before[f].typ)
  }

  /** In k, after the removal of duplicates, every type means what it meant in the state v before it, and so
      does the type of every function; of the twins of every tag the first is left; what is declared refers
      to nothing that was removed, and type definitions do exactly if they named a later twin.  After that,
      tags and names of declarations change, nothing else. */
  datatype CleanUpRun = CleanUpRun(k: Graph, was: FuncVars, tagged: Graph, dead: set<C.Node>, live: set<Slot>)

  /** Tags first, from k to tagged; then names, to what there is now.  Nothing else changes. */
  ghost predicate NamesMade(p: Parser, k: Graph, tagged: Graph, was: FuncVars)
    reads p, p.structs, p.unions, p.enums, p.overlay, p.overlays, p.funcs, p.nodes
  {
    && AllTagsRenamed(p, k, tagged) && SameButNames(k, Snap(p.nodes))
    && tagged.Keys == k.Keys && (forall o | o in k && !IsTagged(k[o]) :: tagged[o] == k[o])
    && RenamedTo(p.AllOverlays(), |p.AllOverlays()|, tagged, was, Snap(p.nodes), FuncVarsOf(p.funcs))
  }

  ghost predicate IsCleaned(p: Parser, v: State, before: FuncVars, c: CleanUpRun)
    reads p, p.structs, p.unions, p.enums, p.overlay, p.overlays, p.funcs, p.blocks, p.nodes
    reads p.structs.inOrder, p.unions.inOrder, p.enums.inOrder
  {
    && Deduplicates(v, c.k, TableIn(p.structs), TableIn(p.unions), c.dead)
    && FuncsKept(v, before, c.k, c.was)
    && NamesMade(p, c.k, c.tagged, c.was) && AllTagsDiffer(p) && NoDangling(p, c.dead, c.live)
    && p.typedefs == v.typedefs && TypedefsLeft(v, Snap(p.nodes), c.dead)
  }

  /** `RemoveDuplicateTypes` and `MakeNamesUnique` on what was translated, where the walk ends. */
  method CleanUp(p: Parser, syms: seq<Symbol>, ghost tops: seq<nat>, ghost d: Decls)
    returns (ghost c: CleanUpRun)
    requires PD.InStep(p, d, syms, tops) && FieldsReturn(Snap(p.nodes), p.unions.inOrder)
    modifies p.structs, p.unions, p.nodes, p.funcs`v
    ensures IsCleaned(p, old(View(p)), old(FuncVarsOf(p.funcs)), c)
  {
    hide *;
    ghost var v, before := View(p), FuncVarsOf(p.funcs);
    FuncVarsAre(p.funcs);
    ViewIs(p);
    CourseOf(p, d, syms, tops);
    ghost var dead, live := Deduplicate(p, syms, tops, d);
    ghost var k, was := Snap(p.nodes), FuncVarsOf(p.funcs);
    ghost var structs, unions := TableIn(p.structs), TableIn(p.unions);
    FuncVarsAre(p.funcs);
    SnapKeys(p.nodes);
    forall f | f in was ensures was[f].name == before[f].name && SameMeaning(k, was[f].typ, v.g, before[f].typ) {
      assert f in p.funcs;
    }
    NowFuncsKept(v, before, k, was);
    ghost var tagged := MakeNamesUnique(p, d, dead, live);
    SnapKeys(p.nodes);
    LeftBehind(v, k, structs, unions, dead);
    TypedefsRenamed(v, k, Snap(p.nodes), dead);
    c := CleanUpRun(k, was, tagged, dead, live);
    NowCleaned(p, v, before, c);
  }

  lemma NowFuncsKept(v: State, before: FuncVars, k: Graph, was: FuncVars)
    requires was.Keys == before.Keys
    requires forall f | f in was :: was[f].name == before[f].name && SameMeaning(k, was[f].typ, v.g, before[f].typ)
    ensures FuncsKept(v, before, k, was)
  {
  }

  lemma NowCleaned(p: Parser, v: State, before: FuncVars, c: CleanUpRun)
    requires Deduplicates(v, c.k, TableIn(p.structs), TableIn(p.unions), c.dead)
    requires FuncsKept(v, before, c.k, c.was)
    requires SameButNames(c.k, Snap(p.nodes)) && AllTagsDiffer(p) && NoDangling(p, c.dead, c.live)
    requires AllTagsRenamed(p, c.k, c.tagged)
    requires p.typedefs == v.typedefs && TypedefsLeft(v, Snap(p.nodes), c.dead)
    requires RenamedTo(p.AllOverlays(), |p.AllOverlays()|, c.tagged, c.was, Snap(p.nodes), FuncVarsOf(p.funcs))
    requires c.tagged.Keys == c.k.Keys && forall o | o in c.k && !IsTagged(c.k[o]) :: c.tagged[o] == c.k[o]
    ensures IsCleaned(p, v, before, c)
  {
  }

  lemma SnapKeys(nodes: set<C.Node>)
    ensures Snap(nodes).Keys == nodes && forall n | n in nodes :: Snap(nodes)[n] == n.def
  {
  }

  lemma CourseOf(p: Parser, d: Decls, syms: seq<Symbol>, tops: seq<nat>)
    requires PD.InStep(p, d, syms, tops)
    ensures Separate(p) && Holds(p, d) && Fits(d, p.Late(), p.funcs) && View(p).typedefs == p.typedefs
  {
    PD.InStepMeans(p, d, syms, tops);
    OnCourseMeans(p, d);
  }

  /** The whole program, between reading the records and printing: `ends` says whether the walk of
      `RemoveDuplicateTypes` ends; the program does not come back where it does not.  v is the state between
      the two halves, with the overlays d and the functions vals. */
  method TranslateAndCleanUp(syms: seq<Symbol>)
    returns (p: Parser, r: Outcome<Done>, ends: bool, ghost v: State, ghost d: Decls, ghost vals: FuncVals,
      ghost c: CleanUpRun)
    ensures r == if TypesOutcome(syms, 0).Panicked? then TypesOutcome(syms, 0) else DeclsOutcome(syms)
    ensures r.Good? ==> Ok(v) && exists start, book, types :: HasTypes(syms, start, book, types) && Later(types, v)
    ensures r.Good? ==> Projected(Bare(v), vals, d, syms, TopsFrom(syms, 0)) && Holds(p, d)
    ensures ends <==> r.Good? && FieldsReturn(v.g, v.unions.inOrder)
    ensures r.Good? && !ends ==> View(p) == v && Values(p) == vals
    ensures ends ==> exists before: FuncVars ::
      before.Keys == vals.Keys && (forall f | f in before :: before[f] == vals[f].v) && IsCleaned(p, v, before, c)
  {
    hide *;
    ghost var start, book, types;
    p, r, start, book, types, d := Translate(syms);
    v, vals := View(p), Values(p);
    ends := false;
    c := CleanUpRun(v.g, map[], v.g, {}, {});
    if r.Good? {
      ghost var tops := TopsFrom(syms, 0);
      CourseOf(p, d, syms, tops);
      ends := WalkEnds(Snap(p.nodes), p.unions.inOrder);
      ViewIs(p);
      ClosedOf(p, d, syms, tops);
      WalkEndsExactly(Snap(p.nodes), p.unions.inOrder);
      if ends {
        ghost var before := FuncVarsOf(p.funcs);
        FuncVarsAre(p.funcs);
        VarsInValues(p);
        c := CleanUp(p, syms, tops, d);
      }
    }
  }

  lemma ClosedOf(p: Parser, d: Decls, syms: seq<Symbol>, tops: seq<nat>)
    requires PD.InStep(p, d, syms, tops)
    ensures Ok(View(p)) && Closed(Snap(p.nodes)) && Projected(Bare(View(p)), Values(p), d, syms, tops)
    ensures Founded(Snap(p.nodes)) && forall o | o in p.nodes && Snap(p.nodes)[o].Union? :: o in p.unions.inOrder
  {
    PD.InStepMeans(p, d, syms, tops);
    OnCourseMeans(p, d);
    OkIsReady(View(p));
  }

  lemma VarsInValues(p: Parser)
    ensures Values(p).Keys == p.funcs && forall f | f in p.funcs :: Values(p)[f].v == f.v
  {
  }
}

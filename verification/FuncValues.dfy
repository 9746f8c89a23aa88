// What parsing one function does to the values of all functions (csym/parse_decls.go).

module FuncValues {
  import opened Ints
  import opened Records
  import C = CTypes
  import opened TypeGraph
  import opened Naming
  import opened Csym
  import opened Fixups
  import opened TypesState
  import opened GroupScan
  import opened BlockTree
  import opened ResolveTypes
  import opened DeclState
  import opened FuncIndex
  import opened DeclLists
  import opened GlobalDecls
  import opened FuncBodies
  import PF = ParseFunc
  import opened FuncRun
  import opened Projection

  lemma ValuesAre(p: Parser)
    ensures Values(p).Keys == p.funcs
    ensures forall f | f in p.funcs :: Values(p)[f] == Assembled(FuncFieldsOf(f), AllContents(p.blocks), Snap(p.nodes))
  {
  }

  /** The blocks and the type of every function are known. */
  ghost predicate Known(x: FuncFields, blocks: set<C.Block>, g: Graph) {
    Elements(x.blocks) <= blocks && x.v.typ.Ref? && x.v.typ.node in g && g[x.v.typ.node].Func?
  }

  lemma AllKnown(p: Parser, d: Decls)
    requires OnCourse(p, d)
    ensures forall f | f in p.funcs :: Known(FuncFieldsOf(f), p.blocks, Snap(p.nodes))
    ensures forall f, h | f in p.funcs && h in p.funcs && f != h :: f.v.typ != h.v.typ
  {
    hide Ok, Holds, Fits, EarlyOk;
    OnCourseMeans(p, d);
    forall f | f in p.funcs ensures Known(FuncFieldsOf(f), p.blocks, Snap(p.nodes)) {
      FoundOwn(FuncTypes(p.funcs), Snap(p.nodes), f);
    }
    forall f, h | f in p.funcs && h in p.funcs && f != h ensures f.v.typ != h.v.typ {
      assert FuncTypes(p.funcs)[h] == h.v.typ && FuncTypes(p.funcs)[f] == f.v.typ;
    }
  }

  /** A function whose fields, blocks and type are the same holds the same. */
  lemma AssembledStays(x: FuncFields, cs: BlockVals, cs': BlockVals, g: Graph, g': Graph)
    requires Known(x, cs.Keys, g) && Known(x, cs'.Keys, g')
    requires forall b | b in cs && b in cs' :: cs'[b] == cs[b]
    requires g'[x.v.typ.node] == g[x.v.typ.node]
    ensures Assembled(x, cs', g') == Assembled(x, cs, g)
  {
    forall k | 0 <= k < |x.blocks| ensures x.blocks[k] in cs && x.blocks[k] in cs' {
      assert x.blocks[k] in Elements(x.blocks);
    }
    assert ContentsIn(x.blocks, cs') == ContentsIn(x.blocks, cs);
  }

  lemma ContentsKnown(bs: seq<C.Block>, blocks: set<C.Block>)
    requires Elements(bs) <= blocks
    ensures ContentsIn(bs, AllContents(blocks)) == Contents(bs)
  {
    forall k | 0 <= k < |bs| ensures bs[k] in blocks {
      assert bs[k] in Elements(bs);
    }
  }

  /** Blocks that stay, and more behind them. */
  lemma ContentsTogether(a: seq<C.Block>, b: seq<C.Block>, cs: BlockVals, cs': BlockVals)
    requires Elements(a) <= cs.Keys && Elements(a + b) <= cs'.Keys && forall c | c in cs && c in cs' :: cs'[c] == cs[c]
    ensures ContentsIn(a + b, cs') == ContentsIn(a, cs) + ContentsIn(b, cs')
  {
    forall k | 0 <= k < |a| ensures a[k] in cs && a[k] in cs' {
      assert a[k] in Elements(a) && (a + b)[k] in Elements(a + b);
    }
  }

  /** The function found, with what its body has added. */
  lemma BodyReadInto(p: Parser, x: PF.Found, a: Account, syms: seq<Symbol>, i: nat, d: Decls, before: FuncVal,
    cs: BlockVals)
    requires i < |syms| && PF.EndFrom(syms, i + 1) < |syms| && PF.IsRead(p, x, a, syms, i, PF.EndFrom(syms, i + 1), d)
    requires x.f.v == x.v && x.v.typ == C.Ref(x.t) && x.t in p.nodes && Elements(x.f.blocks) <= p.blocks
    requires before.v == x.v && before.blocks == ContentsIn(x.blocks, cs) && Elements(x.blocks) <= cs.Keys
    requires forall b | b in cs && b in p.blocks :: ContentOf(b) == cs[b]
    requires before.params == if x.def.Func? then x.def.params else []
    ensures BodyRunFrom(syms, x.taken, i) == Good(a.m)
    ensures IsReadInto(Bare(View(p)), before, Assembled(FuncFieldsOf(x.f), AllContents(p.blocks), Snap(p.nodes)),
      syms, i, x.taken, Contents(a.bs), a.ps, a.m)
  {
    hide BodyMatches, Contents, Bare, View, Run, PF.FuncLines, ContentsIn;
    var cs' := AllContents(p.blocks);
    assert x.f.blocks == x.blocks + a.bs;
    ContentsTogether(x.blocks, a.bs, cs, cs');
    assert Elements(a.bs) <= p.blocks by { BehindIn(x.blocks, a.bs, p.blocks); }
    ContentsKnown(a.bs, p.blocks);
    var e := PF.EndFrom(syms, i + 1);
    assert [i][0] == i;
    assert EndLine(syms, [i]) == syms[e].body.line;
  }

  lemma BehindIn(a: seq<C.Block>, b: seq<C.Block>, blocks: set<C.Block>)
    requires Elements(a + b) <= blocks
    ensures Elements(b) <= blocks
  {
    forall c | c in b ensures c in blocks {
      var k :| 0 <= k < |b| && b[k] == c;
      assert (a + b)[|a| + k] == c && c in Elements(a + b);
    }
  }

  lemma EndOfBody(syms: seq<Symbol>, i: nat, taken: seq<string>)
    requires i < |syms| && PF.BodyOutcome(syms, i, taken).Good?
    ensures PF.EndFrom(syms, i + 1) < |syms| && PF.BodyOutcome(syms, i, taken).value == PF.EndFrom(syms, i + 1) + 1
  {
  }

  lemma ReadWithLines(p: Parser, x: PF.Found, a: Account, syms: seq<Symbol>, i: nat, d: Decls)
    requires i < |syms| && PF.EndFrom(syms, i + 1) < |syms| && PF.IsRead(p, x, a, syms, i, PF.EndFrom(syms, i + 1), d)
    ensures d == WithLines(x.lists, PF.FuncLines(syms, i, PF.EndFrom(syms, i + 1)))
  {
  }

  /** What is known of the functions after one was parsed, on values. */
  ghost predicate OnlyFound(fields: map<C.FuncDecl, FuncFields>, cs: BlockVals, g: Graph,
    fields': map<C.FuncDecl, FuncFields>, cs': BlockVals, g': Graph, f: C.FuncDecl, t: C.Node)
  {
    && (forall h | h in fields && h != f :: h in fields' && fields'[h] == fields[h])
    && (forall b | b in cs && b in cs' :: cs'[b] == cs[b])
    && (forall o | o in g && o != t :: o in g' && g'[o] == g[o])
  }

  ghost function AllFields(funcs: set<C.FuncDecl>): map<C.FuncDecl, FuncFields>
    reads funcs
  {
    map f | f in funcs :: FuncFieldsOf(f)
  }

  /** The contract of `parseFunc`, as far as it is not about what stays. */
  twostate predicate FuncParsed(p: Parser, syms: seq<Symbol>, i: nat, d: Decls,
    new r: Outcome<nat>, new d': Decls, new x: PF.Found, new a: Account)
    requires i < |syms| && syms[i].body.FuncStart?
    reads p, p.structs, p.unions, p.enums, p.nodes, p.overlay, p.overlays, p.funcs, p.blocks, x.f, x.t, a.bs
  {
    && NodesAdded(p) && PF.IsFound(p, x, d, ValidName(syms[i].body.name), syms[i].hdr.value)
    && r == (if PF.IsSkipped(x, syms, i) then Good(PF.EndFrom(syms, i + 1) + 1) else PF.BodyOutcome(syms, i, x.taken))
    && (r.Good? ==> OnCourse(p, d') && Later(old(View(p)), View(p)))
    && (PF.IsSkipped(x, syms, i) ==> d' == x.lists)
    && (r.Good? && !PF.IsSkipped(x, syms, i) ==> r.value > 0 && PF.IsRead(p, x, a, syms, i, r.value - 1, d'))
  }

  /** `parseFunc`, seen from the outside: no other function, no earlier block and no other type changes. */
  method ParseFuncAlone(p: Parser, syms: seq<Symbol>, i: nat, ghost d: Decls)
    returns (r: Outcome<nat>, ghost d': Decls, ghost x: PF.Found, ghost a: Account)
    requires OnCourse(p, d) && i < |syms| && syms[i].body.FuncStart?
    modifies p`nodes, p`blocks, p`funcs, p.structs, p.unions, p.enums, p.funcs, p.nodes, p.curOverlay
    ensures FuncParsed(p, syms, i, d, r, d', x, a)
    ensures OnlyFound(old(AllFields(p.funcs)), old(AllContents(p.blocks)), old(Snap(p.nodes)),
      AllFields(p.funcs), AllContents(p.blocks), Snap(p.nodes), x.f, x.t)
    ensures PF.IsSkipped(x, syms, i) && x.f in old(p.funcs) ==> FuncFieldsOf(x.f) == old(AllFields(p.funcs))[x.f]
    ensures PF.IsSkipped(x, syms, i) && x.t in old(p.nodes) ==> x.t.def == old(Snap(p.nodes))[x.t]
  {
    hide OnCourse, Ok, Later, IsFirst, PF.IsRead, PF.BodyOutcome, PF.FuncLines, PF.IsNew, PF.ParamNames, View;
    hide ValidName, Holds, Fits, OwnTypes, BodiesFit, EarlyOk, Separate, Cur, WithCur, PF.EndFrom;
    ghost var fields, cs, g := AllFields(p.funcs), AllContents(p.blocks), Snap(p.nodes);
    r, d', x, a := PF.ParseFunc(p, syms, i, d);
  }

  lemma FieldsKnown(p: Parser, d: Decls)
    requires OnCourse(p, d)
    ensures forall f | f in AllFields(p.funcs) ::
      Known(AllFields(p.funcs)[f], AllContents(p.blocks).Keys, Snap(p.nodes))
    ensures TypesDiffer(AllFields(p.funcs))
  {
    hide OnCourse, Known;
    AllKnown(p, d);
    assert AllContents(p.blocks).Keys == p.blocks;
  }

  ghost predicate TypesDiffer(fields: map<C.FuncDecl, FuncFields>) {
    forall f, h | f in fields && h in fields && f != h :: fields[f].v.typ != fields[h].v.typ
  }

  /** All values, from the fields, the blocks and the types. */
  ghost function AssembledAll(fields: map<C.FuncDecl, FuncFields>, cs: BlockVals, g: Graph): FuncVals {
    map f | f in fields :: Assembled(fields[f], cs, g)
  }

  lemma ValuesAssembled(p: Parser)
    ensures Values(p) == AssembledAll(AllFields(p.funcs), AllContents(p.blocks), Snap(p.nodes))
  {
  }

  ghost predicate AllFieldsKnown(fields: map<C.FuncDecl, FuncFields>, cs: BlockVals, g: Graph) {
    TypesDiffer(fields) && forall f | f in fields :: Known(fields[f], cs.Keys, g)
  }

  lemma OthersKeepValues(fields: map<C.FuncDecl, FuncFields>, cs: BlockVals, g: Graph,
    fields': map<C.FuncDecl, FuncFields>, cs': BlockVals, g': Graph, f: C.FuncDecl, t: C.Node)
    requires AllFieldsKnown(fields, cs, g) && AllFieldsKnown(fields', cs', g')
      && OnlyFound(fields, cs, g, fields', cs', g', f, t)
    requires f in fields' && fields'[f].v.typ == C.Ref(t)
    ensures OnlyChanges(AssembledAll(fields, cs, g), AssembledAll(fields', cs', g'), f)
    ensures f in fields && fields'[f] == fields[f] && (t in g ==> t in g' && g'[t] == g[t]) ==>
      AssembledAll(fields', cs', g')[f] == AssembledAll(fields, cs, g)[f]
  {
    hide Assembled;
    forall h | h in fields && h != f
      ensures h in fields' && Assembled(fields'[h], cs', g') == Assembled(fields[h], cs, g) {
      assert fields'[h].v.typ != fields'[f].v.typ;
      AssembledStays(fields[h], cs, cs', g, g');
    }
    if f in fields && fields'[f] == fields[f] && (t in g ==> t in g' && g'[t] == g[t]) {
      AssembledStays(fields[f], cs, cs', g, g');
    }
  }

  /** `parseFunc` leaves the values of all other functions; where it skips, of all. */
  method ParseFuncOthers(p: Parser, syms: seq<Symbol>, i: nat, ghost d: Decls)
    returns (r: Outcome<nat>, ghost d': Decls, ghost x: PF.Found, ghost a: Account)
    requires OnCourse(p, d) && i < |syms| && syms[i].body.FuncStart?
    modifies p`nodes, p`blocks, p`funcs, p.structs, p.unions, p.enums, p.funcs, p.nodes, p.curOverlay
    ensures FuncParsed(p, syms, i, d, r, d', x, a)
    ensures r.Good? ==> OnlyChanges(old(Values(p)), Values(p), x.f)
    ensures r.Good? && PF.IsSkipped(x, syms, i) && x.f in old(p.funcs) ==>
      x.f in Values(p) && Values(p)[x.f] == old(Values(p))[x.f]
    ensures r.Good? ==> forall b | b in old(AllContents(p.blocks)) && b in p.blocks ::
      ContentOf(b) == old(AllContents(p.blocks))[b]
  {
    hide OnCourse, Ok, Later, IsFirst, PF.IsRead, PF.BodyOutcome, PF.FuncLines, PF.IsNew, PF.ParamNames, Bare, View,
      Contents;
    hide OnlyFound, OnlyChanges, AssembledAll, Values, Assembled, AllContents, Snap, TypesDiffer, Known, Separate;
    ghost var fields, cs, g := AllFields(p.funcs), AllContents(p.blocks), Snap(p.nodes);
    FieldsKnown(p, d);
    ValuesAssembled(p);
    SnapIs(p.nodes);
    r, d', x, a := ParseFuncAlone(p, syms, i, d);
    if r.Good? {
      FieldsKnown(p, d');
      ValuesAssembled(p);
      SnapIs(p.nodes);
      OthersKeepValues(fields, cs, g, AllFields(p.funcs), AllContents(p.blocks), Snap(p.nodes), x.f, x.t);
      BlocksAsBefore(p, fields, cs, g, AllFields(p.funcs), Snap(p.nodes), x.f, x.t);
      ValuesAre(p);
    }
  }

  lemma SnapIs(nodes: set<C.Node>)
    ensures Snap(nodes).Keys == nodes && forall o | o in nodes :: Snap(nodes)[o] == o.def
  {
  }

  /** The outcome of `parseFunc` on values: only the function found changes, and it changes by what its body
      adds. */
  method ParseFuncValue(p: Parser, syms: seq<Symbol>, i: nat, ghost d: Decls)
    returns (r: Outcome<nat>, ghost d': Decls, ghost x: PF.Found, ghost a: Account)
    requires OnCourse(p, d) && i < |syms| && syms[i].body.FuncStart?
    modifies p`nodes, p`blocks, p`funcs, p.structs, p.unions, p.enums, p.funcs, p.nodes, p.curOverlay
    ensures FuncParsed(p, syms, i, d, r, d', x, a) && x.f in Values(p)
    ensures x.f in old(p.funcs) ==> x.f in old(Values(p)) && old(Values(p))[x.f].lineStart == x.line
    ensures r.Good? ==> OnlyChanges(old(Values(p)), Values(p), x.f)
    ensures r.Good? && PF.IsSkipped(x, syms, i) && x.f in old(p.funcs) ==> Values(p)[x.f] == old(Values(p))[x.f]
    ensures r.Good? && !PF.IsSkipped(x, syms, i) ==>
      IsReadInto(Bare(View(p)), if x.f in old(p.funcs) then old(Values(p))[x.f] else Unread(x.v), Values(p)[x.f],
        syms, i, x.taken, Contents(a.bs), a.ps, a.m)
  {
    hide OnCourse, Ok, Later, IsFirst, PF.IsRead, PF.BodyOutcome, PF.FuncLines, PF.IsNew, PF.ParamNames, Bare, View,
      IsReadInto, Contents;
    hide OnlyChanges, Values, Assembled, AllContents, Snap, Separate;
    ghost var vals, cs := Values(p), AllContents(p.blocks);
    FoundBefore(p, d);
    r, d', x, a := ParseFuncOthers(p, syms, i, d);
    ValuesAre(p);
    if r.Good? && !PF.IsSkipped(x, syms, i) {
      EndOfBody(syms, i, x.taken);
      BlocksKnown(p, d', x.f);
      if x.f !in old(p.funcs) { NewHasNothing(x, d, ValidName(syms[i].body.name), syms[i].hdr.value, cs); }
      BodyReadInto(p, x, a, syms, i, d', if x.f in old(p.funcs) then vals[x.f] else Unread(x.v), cs);
    }
  }

  lemma NewHasNothing(x: PF.Found, d: Decls, key: string, addr: uint32, cs: BlockVals)
    requires d.cur < |d.lists| && PF.IsNew(x, d, key, addr)
    ensures x.blocks == [] && ContentsIn(x.blocks, cs) == [] && Elements(x.blocks) == {}
    ensures x.def == C.Func(C.Basic(C.Void), [], false)
  {
  }

  lemma BlocksAsBefore(p: Parser, fields: map<C.FuncDecl, FuncFields>, cs: BlockVals, g: Graph,
    fields': map<C.FuncDecl, FuncFields>, g': Graph, f: C.FuncDecl, t: C.Node)
    requires OnlyFound(fields, cs, g, fields', AllContents(p.blocks), g', f, t)
    ensures forall b | b in cs && b in p.blocks :: ContentOf(b) == cs[b]
  {
    forall b | b in cs && b in p.blocks ensures ContentOf(b) == cs[b] {
      assert AllContents(p.blocks)[b] == ContentOf(b);
    }
  }

  lemma BlocksKnown(p: Parser, d: Decls, f: C.FuncDecl)
    requires OnCourse(p, d) && f in p.funcs
    ensures Elements(f.blocks) <= p.blocks
  {
    hide OnCourse;
    AllKnown(p, d);
    assert Known(FuncFieldsOf(f), p.blocks, Snap(p.nodes));
  }

  lemma FoundBefore(p: Parser, d: Decls)
    requires OnCourse(p, d)
    ensures forall f | f in p.funcs :: f in Values(p) && Values(p)[f].lineStart == f.lineStart && Values(p)[f].v == f.v
    ensures forall f | f in p.funcs ::
      Values(p)[f].blocks == ContentsIn(f.blocks, AllContents(p.blocks)) && Elements(f.blocks) <= p.blocks
    ensures forall f | f in p.funcs :: f.v.typ.Ref? && f.v.typ.node in p.nodes && f.v.typ.node.def.Func?
    ensures forall f | f in p.funcs :: Values(p)[f].params == f.v.typ.node.def.params
    ensures AllContents(p.blocks).Keys == p.blocks
  {
    hide OnCourse;
    AllKnown(p, d);
    forall f | f in p.funcs ensures Known(FuncFieldsOf(f), p.blocks, Snap(p.nodes)) { }
  }

  /** Functions, blocks and types there were are as they were; there may be more. */
  ghost predicate OnlyMore(fields: map<C.FuncDecl, FuncFields>, cs: BlockVals, g: Graph,
    fields': map<C.FuncDecl, FuncFields>, cs': BlockVals, g': Graph)
  {
    && (forall h | h in fields :: h in fields' && fields'[h] == fields[h])
    && cs' == cs
    && (forall o | o in g :: o in g' && g'[o] == g[o])
  }

  lemma MoreKeepsValues(fields: map<C.FuncDecl, FuncFields>, cs: BlockVals, g: Graph,
    fields': map<C.FuncDecl, FuncFields>, cs': BlockVals, g': Graph)
    requires AllFieldsKnown(fields, cs, g) && AllFieldsKnown(fields', cs', g')
      && OnlyMore(fields, cs, g, fields', cs', g')
    ensures forall f | f in fields ::
      f in AssembledAll(fields', cs', g') && AssembledAll(fields', cs', g')[f] == AssembledAll(fields, cs, g)[f]
  {
    hide Assembled;
    forall h | h in fields ensures h in fields' && Assembled(fields'[h], cs', g') == Assembled(fields[h], cs, g) {
      AssembledStays(fields[h], cs, cs', g, g');
    }
  }

  lemma BlankIsUnread(p: Parser, f: C.FuncDecl)
    requires f in p.funcs && IsBlankFunc(f, p.nodes)
    ensures f in Values(p) && Values(p)[f] == Unread(f.v)
  {
    assert ContentsIn([], AllContents(p.blocks)) == [];
  }

  /** A global declaration, seen from the outside. */
  method ParseGlobalAlone(p: Parser, s: Symbol, ghost d: Decls)
    returns (r: Outcome<Done>, ghost d': Decls, ghost a: Added)
    requires OnCourse(p, d) && IsGlobal(s)
    modifies p`nodes, p`funcs, p.structs, p.unions, p.enums
    modifies p.curOverlay`vars, p.curOverlay`varNames, p.curOverlay`varKeys, p.curOverlay`funcs, p.curOverlay`funcNames,
      p.curOverlay`funcKeys
    ensures r == RecordType(s) && NodesAdded(p) && old(p.funcs) <= p.funcs && fresh(p.funcs - old(p.funcs))
      && d.cur < |d.lists|
    ensures r.Good? ==> OnCourse(p, d') && Later(old(View(p)), View(p)) && d' == WithAdded(d, a, ValidName(s.body.name))
    ensures r.Good? ==> AddedMatches(Bare(View(p)), a, s)
    ensures a.AddedFunc? ==> a.f in p.funcs && IsBlankFunc(a.f, p.nodes)
    ensures OnlyMore(old(AllFields(p.funcs)), old(AllContents(p.blocks)), old(Snap(p.nodes)),
      AllFields(p.funcs), AllContents(p.blocks), Snap(p.nodes))
  {
    hide OnCourse, Bare, View, RecordType, AddedMatches, Later, WithAdded, AllContents;
    ghost var fields, cs, g := AllFields(p.funcs), AllContents(p.blocks), Snap(p.nodes);
    DeclsCurrent(p, d);
    r, d', a := ParseGlobal(p, s, d);
  }

  lemma DeclsCurrent(p: Parser, d: Decls)
    requires OnCourse(p, d)
    ensures d.cur < |d.lists|
  {
  }

  /** A global declaration leaves the values of all functions, and adds at most an empty one. */
  method ParseGlobalValue(p: Parser, s: Symbol, ghost d: Decls)
    returns (r: Outcome<Done>, ghost d': Decls, ghost a: Added)
    requires OnCourse(p, d) && IsGlobal(s)
    modifies p`nodes, p`funcs, p.structs, p.unions, p.enums
    modifies p.curOverlay`vars, p.curOverlay`varNames, p.curOverlay`varKeys, p.curOverlay`funcs, p.curOverlay`funcNames,
      p.curOverlay`funcKeys
    ensures r == RecordType(s) && NodesAdded(p) && old(p.funcs) <= p.funcs && fresh(p.funcs - old(p.funcs))
      && d.cur < |d.lists|
    ensures r.Good? ==> OnCourse(p, d') && Later(old(View(p)), View(p)) && d' == WithAdded(d, a, ValidName(s.body.name))
    ensures r.Good? ==> AddedMatches(Bare(View(p)), a, s)
    ensures r.Good? && a.AddedFunc? ==> a.f in Values(p) && Values(p)[a.f] == Unread(a.f.v)
    ensures r.Good? ==> forall f | f in old(p.funcs) :: f in Values(p) && Values(p)[f] == old(Values(p))[f]
    ensures old(Values(p)).Keys == old(p.funcs)
  {
    hide OnCourse, Bare, View, RecordType, AddedMatches, Later, WithAdded, AllContents, Snap, Values, AssembledAll,
      OnlyMore, Known, TypesDiffer;
    ghost var fields, cs, g := AllFields(p.funcs), AllContents(p.blocks), Snap(p.nodes);
    FieldsKnown(p, d);
    ValuesAssembled(p);
    ValuesAre(p);
    r, d', a := ParseGlobalAlone(p, s, d);
    if r.Good? {
      FieldsKnown(p, d');
      ValuesAssembled(p);
      MoreKeepsValues(fields, cs, g, AllFields(p.funcs), AllContents(p.blocks), Snap(p.nodes));
      if a.AddedFunc? { BlankIsUnread(p, a.f); }
    }
  }
}

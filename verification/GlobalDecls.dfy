// Global variables and functions (csym/parse_decls.go).

module GlobalDecls {
  import opened Ints
  import opened Records
  import C = CTypes
  import opened TypeGraph
  import opened TypeTrees
  import opened TypeWord
  import opened Naming
  import opened Csym
  import opened Fixups
  import opened TypesState
  import opened Scaffolds
  import opened TagGroups
  import opened GroupScan
  import opened BlockTree
  import opened ResolveTypes
  import opened DeclState
  import opened DeclLists

  /** All blocks of all functions are among `blocks`, and all their locals are live objects. */
  ghost predicate BodiesFit(funcs: set<C.FuncDecl>, nodes: set<C.Node>, blocks: set<C.Block>)
    reads funcs`blocks, blocks`locals
  {
    && (forall f | f in funcs :: Elements(f.blocks) <= blocks)
    && (forall b | b in blocks :: Elements(b.locals) <= nodes)
  }

  lemma BodiesMore(funcs: set<C.FuncDecl>, nodes: set<C.Node>, blocks: set<C.Block>, funcs': set<C.FuncDecl>,
    nodes': set<C.Node>)
    requires BodiesFit(funcs, nodes, blocks) && nodes <= nodes'
    requires forall f | f in funcs' && f !in funcs :: f.blocks == []
    ensures BodiesFit(funcs', nodes', blocks)
  {
  }

  /** All parameters are late objects. */
  ghost predicate ParamsLate(g: Graph, early: set<C.Node>) {
    forall o, n | o in g && n in Params(g[o]) :: n !in early
  }

  /** Type definitions are early objects, and parameters are not. */
  ghost predicate EarlyOk(p: Parser)
    reads p`nodes, p`early, p`typedefs, p.nodes
  {
    p.early <= p.nodes && Elements(p.typedefs) <= p.early && ParamsLate(Snap(p.nodes), p.early)
  }

  /** The invariant of declaration parsing. */
  ghost predicate OnCourse(p: Parser, d: Decls)
    reads p, p.structs, p.unions, p.enums, p.nodes, p.overlay, p.overlays, p.funcs`v, p.funcs`blocks, p.blocks`locals
  {
    && Separate(p) && Ok(View(p)) && Holds(p, d) && Fits(d, p.Late(), p.funcs) && EarlyOk(p)
    && OwnTypes(FuncTypes(p.funcs), Snap(p.nodes)) && BodiesFit(p.funcs, p.Late(), p.blocks)
  }

  lemma OnCourseMeans(p: Parser, d: Decls)
    requires OnCourse(p, d)
    ensures Separate(p) && Ok(View(p)) && Holds(p, d) && Fits(d, p.Late(), p.funcs) && d.cur < |d.lists| && EarlyOk(p)
    ensures OwnTypes(FuncTypes(p.funcs), Snap(p.nodes)) && BodiesFit(p.funcs, p.Late(), p.blocks)
  {
  }

  lemma NowOnCourse(p: Parser, d: Decls)
    requires Separate(p) && Ok(View(p)) && Holds(p, d) && Fits(d, p.Late(), p.funcs) && EarlyOk(p)
    requires OwnTypes(FuncTypes(p.funcs), Snap(p.nodes)) && BodiesFit(p.funcs, p.Late(), p.blocks)
    ensures OnCourse(p, d)
  {
  }

  lemma EarlyStays(p: Parser, u: State, early: set<C.Node>)
    requires Adds(u, View(p)) && u.g.Keys <= p.nodes && early == p.early && early <= u.g.Keys
    requires Elements(p.typedefs) <= early && ParamsLate(u.g, early)
    ensures EarlyOk(p)
  {
    hide TableAdds;
    var g := Snap(p.nodes);
    forall o, n | o in g && n in Params(g[o]) ensures n !in early {
      if o in u.g { assert g[o] == u.g[o]; }
    }
  }

  lemma CourseParts(p: Parser)
    ensures View(p).g == Snap(p.nodes) && Snap(p.nodes).Keys == p.nodes
    ensures EarlyOk(p) ==> p.early <= p.nodes && Elements(p.typedefs) <= p.early && ParamsLate(Snap(p.nodes), p.early)
  {
  }

  /** Parsing stays on course when empty types and other objects are added. */
  lemma StillOnCourse(p: Parser, d: Decls, u: State, late: set<C.Node>, ts: set<C.Type>)
    requires UsesOnly(u.g, Snap(p.nodes), ts) && forall f | f in p.funcs :: f.v.typ !in ts
    requires Separate(p) && Ok(View(p)) && Adds(u, View(p)) && Holds(p, d) && Fits(d, late, p.funcs) && late <= p.Late()
    requires OwnTypes(FuncTypes(p.funcs), u.g) && BodiesFit(p.funcs, late, p.blocks)
    requires u.g.Keys <= p.nodes && p.early <= u.g.Keys && Elements(p.typedefs) <= p.early && ParamsLate(u.g, p.early)
    ensures OnCourse(p, d) && OwnTypes(FuncTypes(p.funcs), Snap(p.nodes))
  {
    hide Ok, Adds, Holds, Fits, BodiesFit, OwnTypes, Separate, EarlyOk, UsesOnly;
    FitsMore(d, late, p.funcs, p.Late(), p.funcs);
    BodiesMore(p.funcs, late, p.blocks, p.funcs, p.Late());
    EarlyStays(p, u, p.early);
    OwnStays(FuncTypes(p.funcs), u, View(p), ts);
  }

  /** A type word that stands for a function type. */
  predicate IsFuncWord(word: uint16) {
    ModsOf(word) != [] && ModsOf(word)[0] == FunctionMod
  }

  lemma FuncWordFuncType(v: State, t: C.Type, word: uint16, dims: seq<nat>, tag: string)
    requires Ok(v) && TypeMatches(v, t, word, dims, tag)
    ensures (t.Ref? && t.node in v.g && v.g[t.node].Func?) <==> IsFuncWord(word)
    ensures IsFuncWord(word) ==> v.g[t.node].params == []
  {
    hide ModsFrom, Closed;
    var mods := ModsOf(word);
    var base := Strip(v.g, t, |mods|);
    if mods == [] {
      NoModsNoFunc(v, BaseBits(word), tag, t);
    }
  }

  lemma NoModsNoFunc(v: State, base: nat, tag: string, t: C.Type)
    requires Ok(v) && Resolves(v, base, tag, t)
    ensures !(t.Ref? && t.node in v.g && v.g[t.node].Func?)
  {
    if TagBits(base) { GroupInGraph(v, KindOfBits(base), ValidName(tag)); }
  }

  /** The function its record declares. */
  ghost predicate FuncMatches(v: State, f: C.FuncDecl, s: Symbol)
    reads f`v
  {
    && IsDecl(s) && f.addr == s.hdr.value && f.size == s.body.size && f.v.name == ValidName(s.body.name)
    && TypeMatches(v, f.v.typ, s.body.typ, DimsOf(s), TagTextOf(s))
  }

  predicate IsGlobal(s: Symbol) {
    IsDecl(s) && (s.body.class_ == CLASS_EXT || s.body.class_ == CLASS_STAT)
  }

  /** What a global declaration adds to the lists: a function or a variable. */
  datatype Added = AddedNothing | AddedFunc(f: C.FuncDecl) | AddedVar(n: C.Node)

  ghost predicate AddedMatches(v: State, a: Added, s: Symbol)
    reads if a.AddedFunc? then {a.f} else {}
  {
    match a
    case AddedNothing => false
    case AddedFunc(f) => IsDecl(s) && IsFuncWord(s.body.typ) && FuncMatches(v, f, s)
    case AddedVar(n) => IsDecl(s) && !IsFuncWord(s.body.typ) && DeclMatches(v, n, s)
  }

  function WithAdded(d: Decls, a: Added, name: string): Decls
    requires d.cur < |d.lists|
  {
    match a
    case AddedNothing => d
    case AddedFunc(f) => WithCur(d, WithFunc(Cur(d), f, name))
    case AddedVar(n) => WithCur(d, WithVar(Cur(d), n, name))
  }

  lemma GlobalClass(s: Symbol)
    requires IsGlobal(s)
    ensures ClassOutcome(s.body.class_).Good?
  {
  }

  /** A function with nothing in it but its name and type. */
  predicate IsBlankFunc(f: C.FuncDecl, nodes: set<C.Node>)
    reads f, nodes
  {
    && f.path == "" && f.lineStart == 0 && f.lineEnd == 0 && f.blocks == []
    && f.v.typ.Ref? && f.v.typ.node in nodes && f.v.typ.node.def.Func? && f.v.typ.node.def.params == []
  }

  /** `parseGlobalDecl` for a function type. */
  method AddGlobalFunc(p: Parser, s: Symbol, t: C.Node, ghost d: Decls)
    returns (f: C.FuncDecl, ghost d': Decls)
    requires OnCourse(p, d) && IsGlobal(s) && t in p.nodes && t.def.Func? && t.def.params == []
    requires Unheld(Snap(p.nodes), C.Ref(t))
    requires forall f | f in p.funcs :: f.v.typ != C.Ref(t)
    modifies p`funcs, p.curOverlay`funcs, p.curOverlay`funcNames, p.curOverlay`funcKeys
    ensures OnCourse(p, d') && View(p) == old(View(p)) && d.cur < |d.lists| && p.funcs == old(p.funcs) + {f}
    ensures fresh(f) && d' == WithCur(d, WithFunc(Cur(d), f, ValidName(s.body.name)))
    ensures f.addr == s.hdr.value && f.size == s.body.size && f.v == C.Var(C.Ref(t), ValidName(s.body.name))
    ensures IsBlankFunc(f, p.nodes)
  {
    hide OnCourse, OwnTypes, Ok, Holds, Fits, BodiesFit, View, EarlyOk, Separate, ValidName, WithCur, WithFunc;
    hide FuncTypes, Snap;
    OnCourseMeans(p, d);
    TypesAre(p.funcs);
    ghost var funcs, types := p.funcs, FuncTypes(p.funcs);
    var name := ValidName(s.body.name);
    f := new C.FuncDecl(s.hdr.value, s.body.size, C.Var(C.Ref(t), name));
    d' := AddFunc(p, f, name, d);
    FuncJoins(p, d, d', f, t, name, funcs, types);
  }

  /** Parsing stays on course when a function with a type of its own is registered. */
  lemma FuncJoins(p: Parser, d: Decls, d': Decls, f: C.FuncDecl, t: C.Node, name: string, funcs: set<C.FuncDecl>,
    types: map<C.FuncDecl, C.Type>)
    requires Separate(p) && Ok(View(p)) && EarlyOk(p) && Holds(p, d') && Fits(d, p.Late(), funcs) && d.cur < |d.lists|
    requires d' == WithCur(d, WithFunc(Cur(d), f, name)) && f !in funcs && p.funcs == funcs + {f} && f.blocks == []
    requires BodiesFit(funcs, p.Late(), p.blocks) && OwnTypes(types, Snap(p.nodes)) && types.Keys == funcs
    requires t in p.nodes && t.def.Func? && f.v.typ == C.Ref(t) && Unheld(Snap(p.nodes), C.Ref(t))
    requires forall h | h in funcs :: h.v.typ == types[h] != C.Ref(t)
    ensures OnCourse(p, d')
  {
    hide OwnTypes, Ok, Holds, Fits, BodiesFit, View, EarlyOk, Separate, WithCur, WithFunc;
    WithFuncFits(d, p.Late(), funcs, f, name);
    BodiesMore(funcs, p.Late(), p.blocks, p.funcs, p.Late());
    OwnsType(types, Snap(p.nodes), f, t, p.funcs);
    NowOnCourse(p, d');
  }

  lemma TypesAre(funcs: set<C.FuncDecl>)
    ensures FuncTypes(funcs).Keys == funcs && forall f | f in funcs :: FuncTypes(funcs)[f] == f.v.typ
  {
  }

  lemma OwnsType(types: map<C.FuncDecl, C.Type>, g: Graph, f: C.FuncDecl, t: C.Node, funcs: set<C.FuncDecl>)
    requires OwnTypes(types, g) && f !in types && funcs == types.Keys + {f} && t in g && g[t].Func?
      && f.v.typ == C.Ref(t) && Unheld(g, C.Ref(t))
    requires forall h | h in types :: h.v.typ == types[h] != C.Ref(t)
    ensures OwnTypes(FuncTypes(funcs), g)
  {
    assert FuncTypes(funcs) == types[f := C.Ref(t)];
  }

  /** `parseGlobalDecl` for any other type. */
  method AddGlobalVar(p: Parser, n: C.Node, name: string, ghost d: Decls) returns (ghost d': Decls)
    requires OnCourse(p, d) && n in p.Late() && forall i | 0 <= i < |d.lists| :: n !in d.lists[i].vars
    modifies p.curOverlay`vars, p.curOverlay`varNames, p.curOverlay`varKeys
    ensures OnCourse(p, d') && View(p) == old(View(p)) && d.cur < |d.lists|
    ensures d' == WithCur(d, WithVar(Cur(d), n, name))
  {
    hide OnCourse, Ok, Holds, Fits, BodiesFit, OwnTypes;
    OnCourseMeans(p, d);
    ghost var u := View(p);
    d' := AddVar(p, n, name, d);
    assert View(p) == u;
    WithVarFits(d, p.Late(), p.funcs, n, name);
    NowOnCourse(p, d');
  }

  lemma OwnStays(types: map<C.FuncDecl, C.Type>, u: State, v: State, ts: set<C.Type>)
    requires OwnTypes(types, u.g) && Adds(u, v) && UsesOnly(u.g, v.g, ts) && forall f | f in types :: types[f] !in ts
    ensures OwnTypes(types, v.g)
  {
    hide TableAdds;
    forall f | f in types ensures Unheld(v.g, types[f]) {
      forall o, i | o in v.g && 0 <= i < |Slots(v.g[o])| ensures Slots(v.g[o])[i] != types[f] {
        if o in u.g { assert v.g[o] == u.g[o]; }
      }
    }
  }

  /** `parseType` for a declaration: the type is not the type of any function declared so far. */
  method ParseDeclType(p: Parser, s: Symbol, ghost d: Decls) returns (r: Outcome<C.Type>)
    requires OnCourse(p, d) && IsDecl(s)
    modifies p`nodes, p.structs, p.unions, p.enums
    ensures OnCourse(p, d) && Adds(old(View(p)), View(p)) && NodesAdded(p)
    ensures r.Good? == RecordType(s).Good? && (r.Panicked? ==> r.why == RecordType(s).why)
    ensures r.Good? ==> In(View(p).g, r.value) && TypeMatches(View(p), r.value, s.body.typ, DimsOf(s), TagTextOf(s))
    ensures r.Good? ==> Loose(View(p).g, r.value) && forall f | f in p.funcs :: f.v.typ != r.value
  {
    hide OnCourse, Ok, Adds, Holds, Fits, BodiesFit, OwnTypes, TypeMatches, ModsFrom, Resolves, ValidName, Separate,
      Loose,
      UsesOnly;
    hide View, EarlyOk, FuncTypes, Snap;
    OnCourseMeans(p, d);
    CourseParts(p);
    ghost var u, late := View(p), p.Late();
    r := ParseType(p, s.body.typ, DimsOf(s), TagTextOf(s));
    CourseParts(p);
    StillOnCourse(p, d, u, late, {});
    if r.Good? { TypeIsUnowned(p, u, s, r.value); }
  }

  /** A type that was made just now, or is no function type, is the type of no function. */
  lemma TypeIsUnowned(p: Parser, u: State, s: Symbol, t: C.Type)
    requires OwnTypes(FuncTypes(p.funcs), u.g) && OwnTypes(FuncTypes(p.funcs), Snap(p.nodes)) && Ok(View(p))
      && IsDecl(s)
    requires
      if ModsOf(s.body.typ) == [] then Resolves(View(p), BaseBits(s.body.typ), TagTextOf(s), t)
      else t.Ref? && t.node !in u.g
    ensures forall f | f in p.funcs :: f.v.typ != t
  {
    hide OwnTypes, Ok, Resolves, ModsFrom;
    if ModsOf(s.body.typ) == [] { NoModsNoFunc(View(p), BaseBits(s.body.typ), TagTextOf(s), t); }
    forall f | f in p.funcs ensures f.v.typ != t {
      FoundOwn(FuncTypes(p.funcs), u.g, f);
      FoundOwn(FuncTypes(p.funcs), Snap(p.nodes), f);
    }
  }

  /** The declaration of a record, once its type is known. */
  method DeclareOnCourse(p: Parser, s: Symbol, t: C.Type, ghost d: Decls) returns (r: Outcome<C.Node>)
    requires OnCourse(p, d) && IsDecl(s) && In(View(p).g, t) && Loose(View(p).g, t)
      && forall f | f in p.funcs :: f.v.typ != t
    requires TypeMatches(View(p), t, s.body.typ, DimsOf(s), TagTextOf(s))
    modifies p`nodes
    ensures OnCourse(p, d) && Adds(old(View(p)), View(p)) && NodesAdded(p)
    ensures r.Good? == ClassOutcome(s.body.class_).Good? && (r.Panicked? ==> r.why == UnsupportedClass)
    ensures r.Good? ==> fresh(r.value) && r.value in p.Late() && DeclMatches(Bare(View(p)), r.value, s)
    ensures r.Good? ==> r.value.def.Decl? && r.value.def.v.name == ValidName(s.body.name)
    ensures r.Good? ==> forall i | 0 <= i < |d.lists| :: r.value !in d.lists[i].vars
  {
    hide OnCourse, Ok, Adds, Holds, Fits, BodiesFit, OwnTypes, TypeMatches, DeclMatches, BareGraph, Loose, UsesOnly;
    OnCourseMeans(p, d);
    ghost var u, late := View(p), p.Late();
    r := NewDecl(p, s, t);
    if r.Good? { NotYetListed(d, late, p.funcs, r.value); }
    StillOnCourse(p, d, u, late, {t});
  }

  /** A local variable or parameter: `parseType`, then `parseLocalDecl`. */
  method ParseLocal(p: Parser, s: Symbol, ghost d: Decls) returns (r: Outcome<C.Node>)
    requires OnCourse(p, d) && IsDecl(s)
    modifies p`nodes, p.structs, p.unions, p.enums
    ensures OnCourse(p, d) && Adds(old(View(p)), View(p)) && NodesAdded(p)
    ensures r.Good? == DeclOutcome(s).Good? && (r.Panicked? ==> r.why == DeclOutcome(s).why)
    ensures r.Good? ==> fresh(r.value) && r.value in p.Late() && DeclMatches(Bare(View(p)), r.value, s)
    ensures r.Good? ==> r.value.def.Decl? && r.value.def.v.name == ValidName(s.body.name)
  {
    hide OnCourse, Adds, TypeMatches, DeclMatches, BareGraph, RecordType, ClassOutcome;
    ghost var u := View(p);
    var t := ParseDeclType(p, s, d);
    if t.Panicked? {
      return Panicked(t.why);
    }
    ghost var v := View(p);
    r := DeclareOnCourse(p, s, t.value, d);
    AddsTrans(u, v, View(p));
  }

  lemma AddedFuncMatches(v: State, f: C.FuncDecl, s: Symbol)
    requires IsDecl(s) && IsFuncWord(s.body.typ) && FuncMatches(v, f, s)
    ensures AddedMatches(v, AddedFunc(f), s)
  {
  }

  lemma AddedVarMatches(v: State, n: C.Node, s: Symbol)
    requires IsDecl(s) && !IsFuncWord(s.body.typ) && DeclMatches(v, n, s)
    ensures AddedMatches(v, AddedVar(n), s)
  {
  }

  /** A global variable: its declaration, and its place in the lists. */
  method DeclareGlobal(p: Parser, s: Symbol, t: C.Type, ghost d: Decls) returns (n: C.Node, ghost d': Decls)
    requires OnCourse(p, d) && IsGlobal(s) && In(View(p).g, t) && Loose(View(p).g, t)
      && forall f | f in p.funcs :: f.v.typ != t
    requires TypeMatches(View(p), t, s.body.typ, DimsOf(s), TagTextOf(s))
    modifies p`nodes, p.curOverlay`vars, p.curOverlay`varNames, p.curOverlay`varKeys
    ensures OnCourse(p, d') && Later(old(View(p)), View(p)) && NodesAdded(p) && fresh(n) && d.cur < |d.lists|
    ensures d' == WithCur(d, WithVar(Cur(d), n, ValidName(s.body.name))) && DeclMatches(Bare(View(p)), n, s)
  {
    hide OnCourse, Ok, Adds, TypeMatches, Later, Bare, DeclMatches, ClassOutcome, WithCur, WithVar, Cur, View;
    ghost var v := View(p);
    GlobalClass(s);
    var r := DeclareOnCourse(p, s, t, d);
    n := r.value;
    AddsLater(v, View(p));
    d' := AddGlobalVar(p, n, ValidName(s.body.name), d);
  }

  /** `parseGlobalDecl`: a function if the type is a function type, else a variable. */
  method AddGlobal(p: Parser, s: Symbol, t: C.Type, ghost d: Decls) returns (ghost d': Decls, ghost a: Added)
    requires OnCourse(p, d) && IsGlobal(s) && In(View(p).g, t) && Loose(View(p).g, t)
      && forall f | f in p.funcs :: f.v.typ != t
    requires TypeMatches(View(p), t, s.body.typ, DimsOf(s), TagTextOf(s))
    modifies p`nodes, p`funcs
    modifies p.curOverlay`vars, p.curOverlay`varNames, p.curOverlay`varKeys, p.curOverlay`funcs, p.curOverlay`funcNames,
      p.curOverlay`funcKeys
    ensures NodesAdded(p) && old(p.funcs) <= p.funcs && fresh(p.funcs - old(p.funcs))
    ensures OnCourse(p, d') && Later(old(View(p)), View(p))
    ensures d.cur < |d.lists| && d' == WithAdded(d, a, ValidName(s.body.name)) && AddedMatches(Bare(View(p)), a, s)
    ensures a.AddedFunc? ==> fresh(a.f) && a.f in p.funcs && IsBlankFunc(a.f, p.nodes)
    ensures a.AddedVar? ==> fresh(a.n)
  {
    hide OnCourse, Ok, TypeMatches, Later, Bare, DeclMatches, ModsFrom, ModsOf, IsFuncWord, AddedMatches, WithCur,
      WithVar, WithFunc, Unheld;
    ghost var v := View(p);
    OnCourseMeans(p, d);
    FuncWordFuncType(v, t, s.body.typ, DimsOf(s), TagTextOf(s));
    if t.Ref? && t.node.def.Func? {
      var f;
      f, d' := AddGlobalFunc(p, s, t.node, d);
      LaterRefl(v);
      TypeMatchesBare(v, t, s.body.typ, DimsOf(s), TagTextOf(s));
      AddedFuncMatches(Bare(v), f, s);
      a := AddedFunc(f);
    } else {
      var n;
      n, d' := DeclareGlobal(p, s, t, d);
      AddedVarMatches(Bare(View(p)), n, s);
      a := AddedVar(n);
    }
  }

  /** `parseType` and `parseGlobalDecl` */
  method ParseGlobal(p: Parser, s: Symbol, ghost d: Decls) returns (r: Outcome<Done>, ghost d': Decls, ghost a: Added)
    requires OnCourse(p, d) && IsGlobal(s)
    modifies p`nodes, p`funcs, p.structs, p.unions, p.enums
    modifies p.curOverlay`vars, p.curOverlay`varNames, p.curOverlay`varKeys, p.curOverlay`funcs, p.curOverlay`funcNames,
      p.curOverlay`funcKeys
    ensures r == RecordType(s) && NodesAdded(p) && old(p.funcs) <= p.funcs && fresh(p.funcs - old(p.funcs))
    ensures r.Good? ==> OnCourse(p, d') && Later(old(View(p)), View(p))
    ensures r.Good? ==> d.cur < |d.lists| && d' == WithAdded(d, a, ValidName(s.body.name))
    ensures r.Good? ==> AddedMatches(Bare(View(p)), a, s)
    ensures a.AddedFunc? ==> fresh(a.f) && a.f in p.funcs && IsBlankFunc(a.f, p.nodes)
    ensures a.AddedVar? ==> fresh(a.n)
  {
    hide OnCourse, Ok, Adds, TypeMatches, Later, Bare, RecordType, AddedMatches, WithAdded;
    ghost var u := View(p);
    d', a := d, AddedNothing;
    var t := ParseDeclType(p, s, d);
    if t.Panicked? {
      assert RecordType(s) == Panicked(t.why);
      return Panicked(t.why), d', a;
    }
    assert RecordType(s) == Good(Done) by { assert RecordType(s).value.Done?; }
    r := Good(Done);
    ghost var v := View(p);
    AddsLater(u, v);
    d', a := AddGlobal(p, s, t.value, d);
    LaterTrans(u, v, View(p));
  }

  // ----- line numbers -----

  function WithLines(d: Decls, lines: seq<Csym.Line>): Decls
    requires d.cur < |d.lists|
  {
    WithCur(d, Cur(d).(lines := Cur(d).lines + lines))
  }

  lemma LinesThenLine(d: Decls, lines: seq<Csym.Line>, line: Csym.Line)
    requires d.cur < |d.lists|
    ensures WithLines(WithLines(d, lines), [line]) == WithLines(d, lines + [line])
  {
    assert Cur(d).lines + lines + [line] == Cur(d).lines + (lines + [line]);
  }

  /** Appends a line number to the current overlay. */
  method NoteLine(p: Parser, line: Csym.Line, ghost d: Decls) returns (ghost d': Decls)
    requires OnCourse(p, d)
    modifies p.curOverlay`lines
    ensures OnCourse(p, d') && View(p) == old(View(p)) && d.cur < |d.lists| && d' == WithLines(d, [line])
  {
    hide OnCourse, Ok, Holds, Fits, OwnTypes, BodiesFit;
    OnCourseMeans(p, d);
    ghost var u := View(p);
    d' := AddLine(p, line, d);
    assert View(p) == u;
    RecordsFit(d, Cur(d).symbols, Cur(d).lines + [line], p.Late(), p.funcs);
    NowOnCourse(p, d');
  }
}

// What the overlays list, as a value, and the steps that extend it (csym/parse_decls.go).

module DeclLists {
  import opened Ints
  import opened CTypes
  import opened TypeGraph
  import opened TypeTrees
  import opened Lists
  import opened Naming
  import opened Csym
  import opened Fixups
  import opened FuncIndex

  /** Everything one overlay lists. */
  datatype Listed = Listed(
    addr: uint32, id: uint32, length: uint32,
    vars: seq<Node>, varIndex: map<string, seq<Node>>, varKeys: seq<string>,
    funcs: seq<FuncDecl>, index: map<string, seq<FuncDecl>>, keys: seq<string>,
    symbols: seq<NameAt>, lines: seq<Csym.Line>)

  const NOTHING_LISTED := NewListed(0, 0, 0)

  /** A new overlay. */
  function NewListed(addr: uint32, id: uint32, length: uint32): Listed {
    Listed(addr, id, length, [], map[], [], [], map[], [], [], [])
  }

  /** All overlays, the default binary first; the number of the current one; and the numbers the
      overlay IDs stand for. */
  datatype Decls = Decls(lists: seq<Listed>, cur: nat, ids: map<uint32, nat>)

  ghost function ListsOf(o: Overlay): Listed
    reads o
  {
    Listed(o.addr, o.id, o.length, o.vars, o.varNames, o.varKeys, o.funcs, o.funcNames, o.funcKeys, o.symbols, o.lines)
  }

  /** The value d is what the overlays of the parser hold. */
  ghost predicate Holds(p: Parser, d: Decls)
    reads p`overlays, p`overlayIDs, p`curOverlay, p.overlay, p.overlays
  {
    var os := p.AllOverlays();
    && NoDup(os) && |d.lists| == |os| && d.cur < |os| && os[d.cur] == p.curOverlay
    && (forall i | 0 <= i < |os| :: d.lists[i] == ListsOf(os[i]))
    && p.overlayIDs.Keys == d.ids.Keys
    && (forall id | id in d.ids :: d.ids[id] < |os| && p.overlayIDs[id] == os[d.ids[id]])
  }

  function Cur(d: Decls): Listed
    requires d.cur < |d.lists|
  {
    d.lists[d.cur]
  }

  /** The current overlay's lists replaced; all others stay. */
  function WithCur(d: Decls, l: Listed): Decls
    requires d.cur < |d.lists|
  {
    d.(lists := d.lists[d.cur := l])
  }

  // ----- the invariant of the lists -----

  ghost predicate ListFits(l: Listed, nodes: set<Node>, funcs: set<FuncDecl>) {
    && Elements(l.vars) <= nodes && NoDup(l.vars) && IsIndex(l.varIndex, l.vars, l.varKeys)
    && Elements(l.funcs) <= funcs && NoDup(l.funcs) && IsIndex(l.index, l.funcs, l.keys)
  }

  ghost predicate ListsApart(l: Listed, m: Listed) {
    (forall f | f in l.funcs :: f !in m.funcs) && (forall n | n in l.vars :: n !in m.vars)
  }

  /** Every overlay lists live objects, nothing is listed twice, and every index agrees with its list. */
  ghost predicate Fits(d: Decls, nodes: set<Node>, funcs: set<FuncDecl>) {
    && d.cur < |d.lists|
    && (forall i | 0 <= i < |d.lists| :: ListFits(d.lists[i], nodes, funcs))
    && (forall i, j | 0 <= i < j < |d.lists| :: ListsApart(d.lists[i], d.lists[j]))
  }

  lemma FitsMore(d: Decls, nodes: set<Node>, funcs: set<FuncDecl>, nodes': set<Node>, funcs': set<FuncDecl>)
    requires Fits(d, nodes, funcs) && nodes <= nodes' && funcs <= funcs'
    ensures Fits(d, nodes', funcs')
  {
    hide IsIndex, ListsApart;
    forall i | 0 <= i < |d.lists| ensures ListFits(d.lists[i], nodes', funcs') {
      assert ListFits(d.lists[i], nodes, funcs);
    }
  }

  /** A function registered under a name, which stays its key even if the function is renamed. */
  function WithFunc(l: Listed, f: FuncDecl, key: string): Listed {
    l.(funcs := l.funcs + [f], keys := l.keys + [key], index := Registered(l.index, key, f))
  }

  lemma ElementsAppend<T>(s: seq<T>, x: T)
    ensures Elements(s + [x]) == Elements(s) + {x}
  {
    assert forall y | y in s + [x] :: y in s || y == x;
    assert (s + [x])[|s|] == x;
    forall y | y in s ensures y in s + [x] { }
  }

  lemma WithFuncFits(d: Decls, nodes: set<Node>, funcs: set<FuncDecl>, f: FuncDecl, key: string)
    requires Fits(d, nodes, funcs) && f !in funcs
    ensures Fits(WithCur(d, WithFunc(Cur(d), f, key)), nodes, funcs + {f})
  {
    hide IsIndex;
    var d' := WithCur(d, WithFunc(Cur(d), f, key));
    RegisteringKeepsIndex(Cur(d).index, Cur(d).funcs, Cur(d).keys, key, f);
    ElementsAppend(Cur(d).funcs, f);
    forall i | 0 <= i < |d'.lists| ensures ListFits(d'.lists[i], nodes, funcs + {f}) {
      assert ListFits(d.lists[i], nodes, funcs);
    }
    forall i, j | 0 <= i < j < |d'.lists| ensures ListsApart(d'.lists[i], d'.lists[j]) {
      assert ListsApart(d.lists[i], d.lists[j]) && ListFits(d.lists[i], nodes, funcs)
        && ListFits(d.lists[j], nodes, funcs);
      assert f !in Elements(d.lists[i].funcs) && f !in Elements(d.lists[j].funcs);
    }
  }

  function WithVar(l: Listed, n: Node, name: string): Listed {
    l.(vars := l.vars + [n], varKeys := l.varKeys + [name], varIndex := Registered(l.varIndex, name, n))
  }

  lemma WithVarFits(d: Decls, nodes: set<Node>, funcs: set<FuncDecl>, n: Node, name: string)
    requires Fits(d, nodes, funcs) && n in nodes && forall i | 0 <= i < |d.lists| :: n !in d.lists[i].vars
    ensures Fits(WithCur(d, WithVar(Cur(d), n, name)), nodes, funcs)
  {
    hide IsIndex;
    var d' := WithCur(d, WithVar(Cur(d), n, name));
    RegisteringKeepsIndex(Cur(d).varIndex, Cur(d).vars, Cur(d).varKeys, name, n);
    ElementsAppend(Cur(d).vars, n);
    forall i | 0 <= i < |d'.lists| ensures ListFits(d'.lists[i], nodes, funcs) {
      assert ListFits(d.lists[i], nodes, funcs);
    }
    forall i, j | 0 <= i < j < |d'.lists| ensures ListsApart(d'.lists[i], d'.lists[j]) {
      assert ListsApart(d.lists[i], d.lists[j]);
    }
  }

  /** An object that is not among those listed. */
  lemma NotYetListed(d: Decls, nodes: set<Node>, funcs: set<FuncDecl>, n: Node)
    requires Fits(d, nodes, funcs) && n !in nodes
    ensures forall i | 0 <= i < |d.lists| :: n !in d.lists[i].vars
  {
    hide IsIndex, ListsApart;
    forall i | 0 <= i < |d.lists| ensures n !in d.lists[i].vars {
      assert ListFits(d.lists[i], nodes, funcs) && n !in Elements(d.lists[i].vars);
    }
  }

  lemma SameListsFit(d: Decls, l: Listed, nodes: set<Node>, funcs: set<FuncDecl>)
    requires Fits(d, nodes, funcs) && ListFits(l, nodes, funcs) && l.funcs == Cur(d).funcs && l.vars == Cur(d).vars
    ensures Fits(WithCur(d, l), nodes, funcs)
  {
    hide ListFits;
    var d' := WithCur(d, l);
    forall i, j | 0 <= i < j < |d'.lists| ensures ListsApart(d'.lists[i], d'.lists[j]) {
      assert ListsApart(d.lists[i], d.lists[j]);
    }
  }

  /** Names and line numbers do not matter to the invariant. */
  lemma RecordsFit(d: Decls, symbols: seq<NameAt>, lines: seq<Csym.Line>, nodes: set<Node>, funcs: set<FuncDecl>)
    requires Fits(d, nodes, funcs)
    ensures Fits(WithCur(d, Cur(d).(symbols := symbols, lines := lines)), nodes, funcs)
  {
    hide IsIndex;
    assert ListFits(Cur(d), nodes, funcs);
    SameListsFit(d, Cur(d).(symbols := symbols, lines := lines), nodes, funcs);
  }

  /** A new, empty overlay, and what its ID stands for from now on. */
  function WithOverlay(d: Decls, addr: uint32, id: uint32, length: uint32): Decls {
    d.(lists := d.lists + [NewListed(addr, id, length)], ids := d.ids[id := |d.lists|])
  }

  lemma WithOverlayFits(d: Decls, addr: uint32, id: uint32, length: uint32, nodes: set<Node>, funcs: set<FuncDecl>)
    requires Fits(d, nodes, funcs)
    ensures Fits(WithOverlay(d, addr, id, length), nodes, funcs)
  {
    var d' := WithOverlay(d, addr, id, length);
    NothingFits(addr, id, length, nodes, funcs);
    hide ListFits;
    forall i, j | 0 <= i < j < |d'.lists| ensures ListsApart(d'.lists[i], d'.lists[j]) {
      if j < |d.lists| { assert ListsApart(d.lists[i], d.lists[j]); }
    }
  }

  lemma NothingFits(addr: uint32, id: uint32, length: uint32, nodes: set<Node>, funcs: set<FuncDecl>)
    ensures ListFits(NewListed(addr, id, length), nodes, funcs)
  {
  }

  // ----- every function has a function type of its own -----

  ghost function FuncTypes(funcs: set<FuncDecl>): map<FuncDecl, Type>
    reads funcs`v
  {
    map f | f in funcs :: f.v.typ
  }

  /** Every function has a function type of its own, which stands in no place of another object. */
  ghost predicate OwnTypes(types: map<FuncDecl, Type>, g: Graph) {
    && (forall f | f in types :: types[f].Ref? && types[f].node in g && g[types[f].node].Func?)
    && (forall f, h | f in types && h in types && f != h :: types[f] != types[h])
    && (forall f | f in types :: Unheld(g, types[f]))
  }

  lemma OneMoreType(types: map<FuncDecl, Type>, g: Graph, f: FuncDecl, t: Node, d: Def)
    requires OwnTypes(types, g) && Closed(g) && t !in g && d.Func? && d.ret.Basic?
    ensures OwnTypes(types[f := Ref(t)], g[t := d])
  {
    hide Closed;
    NewIsUnheld(g, t, d);
    forall h | h in types ensures Unheld(g[t := d], types[h]) {
    }
  }

  lemma OneMoreOwn(types: map<FuncDecl, Type>, g: Graph, f: FuncDecl, t: Node, funcs: set<FuncDecl>, nodes: set<Node>)
    requires OwnTypes(types, g) && f !in types && t !in g && funcs == types.Keys + {f} && nodes == g.Keys + {t}
    requires (forall h | h in types :: h.v.typ == types[h]) && (forall o | o in g :: o.def == g[o]) && Closed(g)
    requires f.v.typ == Ref(t) && t.def.Func? && t.def.ret.Basic?
    ensures OwnTypes(FuncTypes(funcs), Snap(nodes))
  {
    hide OwnTypes, Closed;
    OneMoreType(types, g, f, t, t.def);
    assert FuncTypes(funcs) == types[f := Ref(t)] && Snap(nodes) == g[t := t.def];
  }

  // ----- steps on the lists -----

  /** `parseSymbol` */
  method ParseSymbol(p: Parser, addr: uint32, name: string, ghost d: Decls) returns (ghost d': Decls)
    requires Holds(p, d)
    modifies p.curOverlay`symbols
    ensures Holds(p, d') && d' == WithCur(d, Cur(d).(symbols := Cur(d).symbols + [NameAt(addr, name)]))
  {
    p.curOverlay.symbols := p.curOverlay.symbols + [NameAt(addr, name)];
    d' := WithCur(d, Cur(d).(symbols := Cur(d).symbols + [NameAt(addr, name)]));
  }

  method AddLine(p: Parser, line: Csym.Line, ghost d: Decls) returns (ghost d': Decls)
    requires Holds(p, d)
    modifies p.curOverlay`lines
    ensures Holds(p, d') && d' == WithCur(d, Cur(d).(lines := Cur(d).lines + [line]))
  {
    p.curOverlay.lines := p.curOverlay.lines + [line];
    d' := WithCur(d, Cur(d).(lines := Cur(d).lines + [line]));
  }

  /** `parseOverlay` */
  method ParseOverlay(p: Parser, addr: uint32, length: uint32, id: uint32, ghost d: Decls) returns (ghost d': Decls)
    requires Holds(p, d) && forall o | o in p.AllOverlays() :: allocated(o)
    modifies p`overlays, p`overlayIDs
    ensures Holds(p, d') && d' == WithOverlay(d, addr, id, length)
    ensures p.overlays[..|old(p.overlays)|] == old(p.overlays) && |p.overlays| == |old(p.overlays)| + 1
    ensures var o := p.overlays[|old(p.overlays)|]; fresh(o) && o.addr == addr && o.id == id && o.length == length
  {
    var o := new Overlay(addr, id, length);
    ghost var os := p.AllOverlays();
    p.overlays := p.overlays + [o];
    p.overlayIDs := p.overlayIDs[id := o];
    d' := WithOverlay(d, addr, id, length);
    assert p.AllOverlays() == os + [o];
  }

  method AppendFunc(o: Overlay, f: FuncDecl, key: string)
    modifies o`funcs, o`funcNames, o`funcKeys
    ensures ListsOf(o) == WithFunc(old(ListsOf(o)), f, key)
  {
    o.funcs := o.funcs + [f];
    o.funcNames := o.funcNames[key := (if key in o.funcNames then o.funcNames[key] else []) + [f]];
    o.funcKeys := o.funcKeys + [key];
  }

  /** Appends a function to the current overlay and registers it. */
  method AddFunc(p: Parser, f: FuncDecl, key: string, ghost d: Decls) returns (ghost d': Decls)
    requires Holds(p, d)
    modifies p`funcs, p.curOverlay`funcs, p.curOverlay`funcNames, p.curOverlay`funcKeys
    ensures Holds(p, d') && d' == WithCur(d, WithFunc(Cur(d), f, key)) && p.funcs == old(p.funcs) + {f}
  {
    hide ListsOf, WithFunc;
    AppendFunc(p.curOverlay, f, key);
    p.funcs := p.funcs + {f};
    d' := WithCur(d, WithFunc(Cur(d), f, key));
  }

  /** Appends a variable to the current overlay. */
  method AddVar(p: Parser, n: Node, name: string, ghost d: Decls) returns (ghost d': Decls)
    requires Holds(p, d)
    modifies p.curOverlay`vars, p.curOverlay`varNames, p.curOverlay`varKeys
    ensures Holds(p, d') && d' == WithCur(d, WithVar(Cur(d), n, name))
  {
    var o := p.curOverlay;
    o.vars := o.vars + [n];
    o.varNames := o.varNames[name := (if name in o.varNames then o.varNames[name] else []) + [n]];
    o.varKeys := o.varKeys + [name];
    d' := WithCur(d, WithVar(Cur(d), n, name));
  }

  /** `emptyFunc`: a stub for a function that has not been declared. */
  method EmptyFunc(p: Parser, name: string, addr: uint32, ghost d: Decls)
    returns (f: FuncDecl, t: Node, ghost d': Decls)
    requires Holds(p, d)
    modifies p`nodes, p`funcs, p.curOverlay`funcs, p.curOverlay`funcNames, p.curOverlay`funcKeys
    ensures Holds(p, d') && d' == WithCur(d, WithFunc(Cur(d), f, name))
    ensures fresh(f) && fresh(t) && p.funcs == old(p.funcs) + {f} && p.nodes == old(p.nodes) + {t}
    ensures f.addr == addr && f.size == 0 && f.v == Var(Ref(t), name) && t.def == Func(Basic(Void), [], false)
    ensures f.path == "" && f.lineStart == 0 && f.lineEnd == 0 && f.blocks == []
  {
    t := new Node(Func(Basic(Void), [], false));
    p.nodes := p.nodes + {t};
    f := new FuncDecl(addr, 0, Var(Ref(t), name));
    d' := AddFunc(p, f, name, d);
  }

  /** A stub, renamed if its name is in use. */
  method NewFunc(p: Parser, key: string, addr: uint32, nameExists: bool, ghost d: Decls)
    returns (f: FuncDecl, t: Node, ghost d': Decls)
    requires Holds(p, d) && OwnTypes(FuncTypes(p.funcs), Snap(p.nodes)) && Closed(Snap(p.nodes))
    modifies p`nodes, p`funcs, p.curOverlay`funcs, p.curOverlay`funcNames, p.curOverlay`funcKeys
    ensures Holds(p, d') && d' == WithCur(d, WithFunc(Cur(d), f, key)) && OwnTypes(FuncTypes(p.funcs), Snap(p.nodes))
    ensures fresh(f) && fresh(t) && p.funcs == old(p.funcs) + {f} && p.nodes == old(p.nodes) + {t}
    ensures f.addr == addr && f.size == 0 && f.v == Var(Ref(t), if nameExists then UniqueName(key, addr) else key)
    ensures t.def == Func(Basic(Void), [], false)
    ensures f.path == "" && f.lineStart == 0 && f.lineEnd == 0 && f.blocks == []
  {
    hide Holds, OwnTypes, Closed;
    ghost var g, types := Snap(p.nodes), FuncTypes(p.funcs);
    f, t, d' := EmptyFunc(p, key, addr, d);
    if nameExists {
      f.v := f.v.(name := UniqueName(f.v.name, f.addr));
    }
    OneMoreOwn(types, g, f, t, p.funcs, p.nodes);
  }

  /** The first function of a list with this address. */
  method FirstWithAddr(s: seq<FuncDecl>, addr: uint32) returns (found: FuncDecl?, ghost at: nat)
    ensures found == null ==> forall f | f in s :: f.addr != addr
    ensures found != null ==> at < |s| && s[at] == found && IsFirstAt(s, addr, at)
  {
    found, at := null, 0;
    for i := 0 to |s|
      invariant found == null ==> forall j | 0 <= j < i :: s[j].addr != addr
      invariant found != null ==> at < i && s[at] == found && IsFirstAt(s, addr, at)
    {
      if s[i].addr == addr && found == null {
        found, at := s[i], i;
      }
    }
  }

  /** `findFunc`: the first function registered under the valid name for the address, as a search of
      the whole list would find it; if there is none, exactly one new stub, which is renamed if the
      name is in use but keeps its key.  Every function has a function type, so taking it cannot fail. */
  method FindFunc(p: Parser, name: string, addr: uint32, ghost d: Decls) returns (f: FuncDecl, t: Node, ghost d': Decls)
    requires Holds(p, d) && Fits(d, p.Late(), p.funcs) && OwnTypes(FuncTypes(p.funcs), Snap(p.nodes))
      && Closed(Snap(p.nodes))
    modifies p`nodes, p`funcs, p.curOverlay`funcs, p.curOverlay`funcNames, p.curOverlay`funcKeys
    ensures Holds(p, d') && Fits(d', p.Late(), p.funcs) && OwnTypes(FuncTypes(p.funcs), Snap(p.nodes))
    ensures f in p.funcs && f.v.typ == Ref(t) && t in p.nodes && t.def.Func?
    ensures IsFirst(Cur(d').funcs, Cur(d').keys, ValidName(name), addr, f)
    ensures var key, l := ValidName(name), Cur(d);
      if NoneAnswers(l.funcs, l.keys, key, addr) then
        && d' == WithCur(d, WithFunc(l, f, key)) && fresh(f) && fresh(t)
        && p.funcs == old(p.funcs) + {f} && p.nodes == old(p.nodes) + {t}
        && f.v.name == (if key in l.index then UniqueName(key, addr) else key)
        && t.def == Func(Basic(Void), [], false) && f.addr == addr && f.size == 0
        && f.path == "" && f.lineStart == 0 && f.lineEnd == 0 && f.blocks == []
      else d' == d && f in old(p.funcs) && p.funcs == old(p.funcs) && p.nodes == old(p.nodes)
  {
    hide Fits, OwnTypes, IsFirst, NoneAnswers, IsFirstAt, IsIndex, ListFits, Holds, Closed;
    var key := ValidName(name);
    var index := IndexOfCurrent(p, d);
    IndexFits(d, p.Late(), p.funcs, key);
    ghost var l := Cur(d);
    var s := if key in index then index[key] else [];
    var nameExists := |s| > 0;
    var found, at := FirstWithAddr(s, addr);
    if found == null {
      NoneKeyed(l.funcs, l.keys, key, addr);
      ghost var late, funcs := p.Late(), p.funcs;
      f, t, d' := NewFunc(p, key, addr, nameExists, d);
      WithFuncFits(d, late, funcs, f, key);
      FitsMore(d', late, funcs + {f}, p.Late(), p.funcs);
      AddedIsFirst(l.funcs, l.keys, key, addr, f);
    } else {
      f, d' := found, d;
      FirstKeyed(l.funcs, l.keys, key, addr, at);
      FirstIsOne(l.funcs, l.keys, key, addr, f);
      FoundFits(d, p.Late(), p.funcs, f);
      FoundOwn(FuncTypes(p.funcs), Snap(p.nodes), f);
      t := f.v.typ.node;
    }
  }

  method IndexOfCurrent(p: Parser, ghost d: Decls) returns (index: map<string, seq<FuncDecl>>)
    requires Holds(p, d)
    ensures index == Cur(d).index && d.cur < |d.lists|
  {
    index := p.curOverlay.funcNames;
  }

  lemma IndexFits(d: Decls, nodes: set<Node>, funcs: set<FuncDecl>, key: string)
    requires Fits(d, nodes, funcs)
    ensures d.cur < |d.lists| && |Cur(d).funcs| == |Cur(d).keys|
    ensures var s := Keyed(Cur(d).funcs, Cur(d).keys, key);
      if key in Cur(d).index then Cur(d).index[key] == s && s != [] else s == []
  {
    assert ListFits(Cur(d), nodes, funcs);
  }

  lemma FirstIsOne(fs: seq<FuncDecl>, keys: seq<string>, key: string, addr: uint32, f: FuncDecl)
    requires |fs| == |keys| && IsFirst(fs, keys, key, addr, f)
    ensures f in fs && !NoneAnswers(fs, keys, key, addr)
  {
  }

  lemma FoundFits(d: Decls, nodes: set<Node>, funcs: set<FuncDecl>, f: FuncDecl)
    requires Fits(d, nodes, funcs) && f in Cur(d).funcs
    ensures f in funcs
  {
    assert ListFits(Cur(d), nodes, funcs);
    assert f in Elements(Cur(d).funcs);
  }

  lemma FoundOwn(types: map<FuncDecl, Type>, g: Graph, f: FuncDecl)
    requires OwnTypes(types, g) && f in types
    ensures types[f].Ref? && types[f].node in g && g[types[f].node].Func? && Unheld(g, types[f])
  {
  }
}

// Function bodies: parameters, blocks and locals (csym/parse_decls.go).

module FuncBodies {
  import opened Ints
  import opened Fields
  import opened Records
  import C = CTypes
  import opened TypeGraph
  import opened TypeTrees
  import opened Lists
  import opened Csym
  import opened Fixups
  import opened TypesState
  import opened TagGroups
  import opened GroupScan
  import opened BlockTree
  import opened ResolveTypes
  import opened DeclState
  import opened DeclLists
  import opened GlobalDecls

  /** The content of a block object. */
  datatype Content = Content(lineStart: uint32, lineEnd: uint32, locals: seq<C.Node>)

  ghost function ContentOf(b: C.Block): Content
    reads b
  {
    Content(b.lineStart, b.lineEnd, b.locals)
  }

  ghost function Contents(bs: seq<C.Block>): (r: seq<Content>)
    reads bs
    ensures |r| == |bs|
  {
    seq(|bs|, k requires 0 <= k < |bs| reads bs => ContentOf(bs[k]))
  }

  /** These declarations are those of these records, in order. */
  ghost predicate DeclsMatch(v: State, ns: seq<C.Node>, syms: seq<Symbol>, ds: seq<nat>) {
    |ns| == |ds| && forall k | 0 <= k < |ns| :: ds[k] < |syms| && DeclMatches(v, ns[k], syms[ds[k]])
  }

  ghost predicate BlockMatches(v: State, c: Content, b: Blk, syms: seq<Symbol>) {
    c.lineStart == b.lineStart && c.lineEnd == b.lineEnd && DeclsMatch(v, c.locals, syms, b.locals)
  }

  /** The blocks and parameters are those of the machine. */
  ghost predicate BodyMatches(v: State, cs: seq<Content>, ps: seq<C.Node>, m: Machine, syms: seq<Symbol>) {
    && |cs| == |m.blocks| && (forall k | 0 <= k < |cs| :: BlockMatches(v, cs[k], m.blocks[k], syms))
    && DeclsMatch(v, ps, syms, m.params)
  }

  lemma DeclsMatchStays(v: State, w: State, ns: seq<C.Node>, syms: seq<Symbol>, ds: seq<nat>)
    requires DeclsMatch(v, ns, syms, ds) && Grows(v, w)
    ensures DeclsMatch(w, ns, syms, ds)
  {
    hide DeclMatches, Grows;
    forall k | 0 <= k < |ns| ensures DeclMatches(w, ns[k], syms[ds[k]]) {
      DeclMatchesStays(v, w, ns[k], syms[ds[k]]);
    }
  }

  lemma BodyMatchesStays(v: State, w: State, cs: seq<Content>, ps: seq<C.Node>, m: Machine, syms: seq<Symbol>)
    requires BodyMatches(v, cs, ps, m, syms) && Grows(v, w)
    ensures BodyMatches(w, cs, ps, m, syms)
  {
    hide DeclsMatch, Grows;
    forall k | 0 <= k < |cs| ensures BlockMatches(w, cs[k], m.blocks[k], syms) {
      assert BlockMatches(v, cs[k], m.blocks[k], syms);
      DeclsMatchStays(v, w, cs[k].locals, syms, m.blocks[k].locals);
    }
    DeclsMatchStays(v, w, ps, syms, m.params);
  }

  // ----- names already present -----

  ghost predicate AllDecls(v: State, ns: seq<C.Node>) {
    forall n | n in ns :: n in v.g && v.g[n].Decl?
  }

  ghost predicate NamesAre(v: State, ns: seq<C.Node>, names: seq<string>) {
    |ns| == |names| && forall k | 0 <= k < |ns| :: ns[k] in v.g && v.g[ns[k]].Decl? && v.g[ns[k]].v.name == names[k]
  }

  ghost predicate HasNamed(v: State, ns: seq<C.Node>, name: string) {
    exists k | 0 <= k < |ns| :: ns[k] in v.g && v.g[ns[k]].Decl? && v.g[ns[k]].v.name == name
  }

  lemma MatchedAreDecls(v: State, ns: seq<C.Node>, syms: seq<Symbol>, ds: seq<nat>)
    requires DeclsMatch(v, ns, syms, ds)
    ensures AllDecls(v, ns)
  {
    hide TypeMatches;
    forall n | n in ns ensures n in v.g && v.g[n].Decl? {
      var k :| 0 <= k < |ns| && ns[k] == n;
      assert DeclMatches(v, ns[k], syms[ds[k]]);
    }
  }

  lemma MatchedNames(v: State, ns: seq<C.Node>, syms: seq<Symbol>, ds: seq<nat>, name: string)
    requires DeclsMatch(v, ns, syms, ds)
    ensures HasNamed(v, ns, name) <==> exists k | 0 <= k < |ds| :: NameAtRecord(syms, ds[k]) == name
  {
    hide TypeMatches;
    forall k | 0 <= k < |ds|
      ensures ns[k] in v.g && v.g[ns[k]].Decl? && v.g[ns[k]].v.name == NameAtRecord(syms, ds[k])
    {
      assert DeclMatches(v, ns[k], syms[ds[k]]);
    }
    if HasNamed(v, ns, name) {
      var k :| 0 <= k < |ns| && ns[k] in v.g && v.g[ns[k]].Decl? && v.g[ns[k]].v.name == name;
      assert NameAtRecord(syms, ds[k]) == name;
    }
    if k :| 0 <= k < |ds| && NameAtRecord(syms, ds[k]) == name {
      assert ns[k] in v.g && v.g[ns[k]].v.name == name;
    }
  }

  /** A name is present among the given declarations and the matched ones exactly if the machine says it is taken. */
  lemma TakenNames(v: State, given: seq<C.Node>, taken: seq<string>, ns: seq<C.Node>, syms: seq<Symbol>, ds: seq<nat>,
    name: string)
    requires NamesAre(v, given, taken) && DeclsMatch(v, ns, syms, ds)
    ensures HasNamed(v, given + ns, name) <==> NameTaken(syms, taken, ds, name)
  {
    hide DeclsMatch;
    MatchedNames(v, ns, syms, ds, name);
    assert HasNamed(v, given + ns, name) <==> HasNamed(v, given, name) || HasNamed(v, ns, name) by {
      hide *;
      EitherNamed(v, given, ns, name);
    }
    if HasNamed(v, given, name) {
      var k :| 0 <= k < |given| && given[k] in v.g && v.g[given[k]].Decl? && v.g[given[k]].v.name == name;
      assert taken[k] == name;
    }
    if name in taken {
      var k :| 0 <= k < |taken| && taken[k] == name;
      assert given[k] in v.g && v.g[given[k]].v.name == name;
    }
  }

  lemma EitherNamed(v: State, a: seq<C.Node>, b: seq<C.Node>, name: string)
    ensures HasNamed(v, a + b, name) <==> HasNamed(v, a, name) || HasNamed(v, b, name)
  {
    var s := a + b;
    assert forall k | 0 <= k < |a| :: s[k] == a[k];
    assert forall k | 0 <= k < |b| :: s[|a| + k] == b[k];
    if HasNamed(v, s, name) {
      var k :| 0 <= k < |s| && s[k] in v.g && v.g[s[k]].Decl? && v.g[s[k]].v.name == name;
      if k >= |a| { assert b[k - |a|] == s[k]; }
    }
    if HasNamed(v, a, name) {
      var k :| 0 <= k < |a| && a[k] in v.g && v.g[a[k]].Decl? && v.g[a[k]].v.name == name;
      assert s[k] == a[k];
    }
    if HasNamed(v, b, name) {
      var k :| 0 <= k < |b| && b[k] in v.g && v.g[b[k]].Decl? && v.g[b[k]].v.name == name;
      assert s[|a| + k] == b[k];
    }
  }

  /** One more declaration, unless its name is present: the same on objects as on records. */
  lemma AddedMatchesFirst(v: State, given: seq<C.Node>, taken: seq<string>, ns: seq<C.Node>, syms: seq<Symbol>,
    ds: seq<nat>,
    n: C.Node, j: nat)
    requires NamesAre(v, given, taken) && DeclsMatch(v, ns, syms, ds) && j < |syms| && DeclMatches(v, n, syms[j])
    ensures n in v.g && v.g[n].Decl?
    ensures var ns' := if HasNamed(v, given + ns, v.g[n].v.name) then ns else ns + [n];
      DeclsMatch(v, ns', syms, AddFirst(syms, taken, ds, j))
  {
    hide TypeMatches, HasNamed, NameTaken;
    TakenNames(v, given, taken, ns, syms, ds, v.g[n].v.name);
    assert NameAtRecord(syms, j) == v.g[n].v.name;
  }

  // ----- the steps of the loop -----

  /** Whether a declaration of this name is in the list. */
  method NameListed(ns: seq<C.Node>, name: string) returns (found: bool)
    requires forall n | n in ns :: n.def.Decl?
    ensures found <==> exists k | 0 <= k < |ns| :: ns[k].def.v.name == name
  {
    for i := 0 to |ns|
      invariant forall k | 0 <= k < i :: ns[k].def.v.name != name
    {
      if ns[i].def.v.name == name {
        return true;
      }
    }
    return false;
  }

  /** The current block and the stack are those of the machine. */
  ghost predicate Tracks(bs: seq<C.Block>, stack: seq<C.Block>, cur: C.Block?, m: Machine) {
    && Fit(m) && |bs| == |m.blocks| && NoDup(bs)
    && |stack| == |m.stack| && (forall k | 0 <= k < |stack| :: stack[k] == bs[m.stack[k]])
    && (if m.cur.NoBlock? then cur == null else cur == bs[m.cur.index])
  }

  lemma OpenMatches(v: State, cs: seq<Content>, ps: seq<C.Node>, m: Machine, syms: seq<Symbol>, line: uint32)
    requires BodyMatches(v, cs, ps, m, syms)
    ensures BodyMatches(v, cs + [Content(line, 0, [])], ps, Open(m, line), syms)
  {
    hide DeclMatches;
    var cs', bs' := cs + [Content(line, 0, [])], Open(m, line).blocks;
    forall k | 0 <= k < |cs'| ensures BlockMatches(v, cs'[k], bs'[k], syms) {
      if k < |cs| { assert BlockMatches(v, cs[k], m.blocks[k], syms); }
    }
  }

  lemma CloseMatches(v: State, cs: seq<Content>, ps: seq<C.Node>, m: Machine, syms: seq<Symbol>, line: uint32)
    requires BodyMatches(v, cs, ps, m, syms) && m.cur.At? && m.cur.index < |cs|
    ensures BodyMatches(v, cs[m.cur.index := cs[m.cur.index].(lineEnd := line)], ps, Close(m, line), syms)
  {
    hide DeclsMatch;
    var k' := m.cur.index;
    var cs', bs' := cs[k' := cs[k'].(lineEnd := line)], Close(m, line).blocks;
    forall k | 0 <= k < |cs'| ensures BlockMatches(v, cs'[k], bs'[k], syms) {
      assert BlockMatches(v, cs[k], m.blocks[k], syms);
    }
  }

  /** The list with one more declaration, unless its name is present in front of or in it. */
  ghost function Extended(v: State, given: seq<C.Node>, ns: seq<C.Node>, n: C.Node): seq<C.Node>
    requires n in v.g && v.g[n].Decl?
  {
    if HasNamed(v, given + ns, v.g[n].v.name) then ns else ns + [n]
  }

  lemma LocalMatches(v: State, cs: seq<Content>, ps: seq<C.Node>, m: Machine, syms: seq<Symbol>, taken: seq<string>,
    n: C.Node, j: nat)
    requires BodyMatches(v, cs, ps, m, syms) && m.cur.At? && m.cur.index < |cs| && j < |syms|
      && DeclMatches(v, n, syms[j])
    ensures n in v.g && v.g[n].Decl?
    ensures var k := m.cur.index;
      BodyMatches(v, cs[k := cs[k].(locals := Extended(v, [], cs[k].locals, n))], ps, AddDecl(syms, taken, m, j), syms)
  {
    hide DeclsMatch, DeclMatches, HasNamed, AddFirst;
    var k' := m.cur.index;
    assert BlockMatches(v, cs[k'], m.blocks[k'], syms);
    assert [] + cs[k'].locals == cs[k'].locals;
    AddedMatchesFirst(v, [], [], cs[k'].locals, syms, m.blocks[k'].locals, n, j);
    var cs', bs' := cs[k' := cs[k'].(locals := Extended(v, [], cs[k'].locals, n))], AddDecl(syms, taken, m, j).blocks;
    forall k | 0 <= k < |cs'| ensures BlockMatches(v, cs'[k], bs'[k], syms) {
      assert BlockMatches(v, cs[k], m.blocks[k], syms);
    }
  }

  lemma ParamMatches(v: State, cs: seq<Content>, given: seq<C.Node>, ps: seq<C.Node>, m: Machine, syms: seq<Symbol>,
    taken: seq<string>,
    n: C.Node, j: nat)
    requires BodyMatches(v, cs, ps, m, syms) && m.cur.NoBlock? && j < |syms| && DeclMatches(v, n, syms[j])
    requires NamesAre(v, given, taken)
    ensures n in v.g && v.g[n].Decl?
    ensures BodyMatches(v, cs, Extended(v, given, ps, n), AddDecl(syms, taken, m, j), syms)
  {
    hide DeclsMatch, DeclMatches, HasNamed, AddFirst, NamesAre;
    AddedMatchesFirst(v, given, taken, ps, syms, m.params, n, j);
  }

  lemma OpenTracks(bs: seq<C.Block>, stack: seq<C.Block>, cur: C.Block?, m: Machine, b: C.Block, line: uint32)
    requires Tracks(bs, stack, cur, m) && b !in bs
    ensures Tracks(bs + [b], if cur == null then stack else stack + [cur], b, Open(m, line))
  {
  }

  lemma CloseTracks(bs: seq<C.Block>, stack: seq<C.Block>, cur: C.Block?, m: Machine, line: uint32)
    requires Tracks(bs, stack, cur, m) && cur != null
    ensures m.cur.At?
    ensures var n := |stack|;
      if n > 0 then Tracks(bs, stack[..n - 1], stack[n - 1], Close(m, line))
      else Tracks(bs, stack, null, Close(m, line))
  {
  }

  lemma DeclTracks(bs: seq<C.Block>, stack: seq<C.Block>, cur: C.Block?, m: Machine, syms: seq<Symbol>,
    taken: seq<string>, j: nat)
    requires Tracks(bs, stack, cur, m)
    ensures Tracks(bs, stack, cur, AddDecl(syms, taken, m, j))
  {
    hide AddFirst;
  }

  /** `addLocal` */
  method AddLocal(block: C.Block, n: C.Node)
    requires n.def.Decl? && forall l | l in block.locals :: l.def.Decl?
    modifies block`locals
    ensures block.locals == old(block.locals)
      + (if exists k | 0 <= k < |old(block.locals)| :: old(block.locals[k]).def.v.name == n.def.v.name then [] else [n])
  {
    var listed := NameListed(block.locals, n.def.v.name);
    if !listed {
      block.locals := block.locals + [n];
    }
  }

  /** `addParam` */
  method AddParam(t: C.Node, n: C.Node)
    requires n.def.Decl? && t.def.Func? && forall l | l in t.def.params :: l.def.Decl?
    modifies t
    ensures t.def == old(t.def).(params := old(t.def.params)
      + (if exists k | 0 <= k < |old(t.def.params)| ::
        old(t.def.params[k]).def.v.name == old(n.def.v.name) then [] else [n]))
  {
    var listed := NameListed(t.def.params, n.def.v.name);
    if !listed {
      t.def := t.def.(params := t.def.params + [n]);
    }
  }

  // ----- a body half read -----

  /** The ghost account of a body half read: the blocks and parameters there were before, those added
      since, and the machine. */
  datatype Account = Account(base: seq<C.Block>, bs: seq<C.Block>, given: seq<C.Node>, taken: seq<string>,
    ps: seq<C.Node>, m: Machine)

  /** The function f with type t, the stack and the current block are as the account says. */
  ghost predicate Reading(p: Parser, f: C.FuncDecl, t: C.Node, stack: seq<C.Block>, cur: C.Block?, a: Account,
    syms: seq<Symbol>)
    reads p, p.structs, p.unions, p.enums, p.nodes, f`v, f`blocks, a.bs
  {
    && f.v.typ == C.Ref(t) && f.blocks == a.base + a.bs
    && t in p.nodes && t.def.Func? && t.def.params == a.given + a.ps
    && NamesAre(View(p), a.given, a.taken) && Tracks(a.bs, stack, cur, a.m)
    && BodyMatches(Bare(View(p)), Contents(a.bs), a.ps, a.m, syms)
  }

  /** What the step does to the account. */
  function Opened(a: Account, b: C.Block, line: uint32): Account {
    a.(bs := a.bs + [b], m := Open(a.m, line))
  }

  lemma BlockJoins(funcs: set<C.FuncDecl>, nodes: set<C.Node>, blocks: set<C.Block>, f: C.FuncDecl, b: C.Block)
    requires forall h | h in funcs && h != f :: Elements(h.blocks) <= blocks
    requires f.blocks != [] && f.blocks[|f.blocks| - 1] == b && Elements(f.blocks[..|f.blocks| - 1]) <= blocks
    requires (forall b | b in blocks :: Elements(b.locals) <= nodes) && b.locals == []
    ensures BodiesFit(funcs, nodes, blocks + {b})
  {
    assert f.blocks == f.blocks[..|f.blocks| - 1] + [b];
    ElementsAppend(f.blocks[..|f.blocks| - 1], b);
  }

  method AppendBlock(p: Parser, f: C.FuncDecl, line: uint32) returns (block: C.Block)
    requires BodiesFit(p.funcs, p.Late(), p.blocks) && f in p.funcs
    modifies p`blocks, f`blocks
    ensures BodiesFit(p.funcs, p.Late(), p.blocks)
    ensures fresh(block) && ContentOf(block) == Content(line, 0, [])
    ensures f.blocks == old(f.blocks) + [block] && p.blocks == old(p.blocks) + {block}
  {
    block := new C.Block(line);
    f.blocks := f.blocks + [block];
    p.blocks := p.blocks + {block};
    BlockJoins(p.funcs, p.Late(), old(p.blocks), f, block);
  }

  lemma ContentsAppend(bs: seq<C.Block>, b: C.Block)
    ensures Contents(bs + [b]) == Contents(bs) + [ContentOf(b)]
  {
  }

  method NewBlock(p: Parser, f: C.FuncDecl, line: uint32, ghost d: Decls) returns (block: C.Block)
    requires OnCourse(p, d) && f in p.funcs
    modifies p`blocks, f`blocks
    ensures OnCourse(p, d) && View(p) == old(View(p))
    ensures fresh(block) && ContentOf(block) == Content(line, 0, [])
    ensures f.blocks == old(f.blocks) + [block] && p.blocks == old(p.blocks) + {block}
  {
    hide OnCourse, Ok, Holds, Fits, OwnTypes, View, EarlyOk, Separate, BodiesFit, FuncTypes, ContentOf, Snap;
    OnCourseMeans(p, d);
    block := AppendBlock(p, f, line);
    NowOnCourse(p, d);
  }

  lemma NotElement<T>(s: seq<T>, x: T)
    requires x !in Elements(s)
    ensures x !in s
  {
  }

  /** `BlockStart`: a new block inside the current one. */
  method OpenBlock(p: Parser, f: C.FuncDecl, t: C.Node, stack: seq<C.Block>, cur: C.Block?, line: uint32,
    ghost d: Decls, ghost a: Account, syms: seq<Symbol>)
    returns (stack': seq<C.Block>, cur': C.Block?, ghost a': Account)
    requires OnCourse(p, d) && f in p.funcs && Reading(p, f, t, stack, cur, a, syms) && Elements(a.bs) <= p.blocks
    modifies p`blocks, f`blocks
    ensures OnCourse(p, d) && View(p) == old(View(p)) && Reading(p, f, t, stack', cur', a', syms)
    ensures cur' != null && fresh(cur') && a' == Opened(a, cur', line) && p.blocks == old(p.blocks) + {cur'}
    ensures Elements(a'.bs) <= p.blocks
  {
    hide OnCourse, Ok, Tracks, BodyMatches, NamesAre, Bare, Contents;
    stack' := if cur != null then stack + [cur] else stack;
    assert cur == null || cur != null;
    ghost var cs := Contents(a.bs);
    var block := NewBlock(p, f, line, d);
    cur' := block;
    a' := Opened(a, block, line);
    assert a.base + a.bs + [block] == a.base + (a.bs + [block]);
    NotElement(a.bs, block);
    OpenTracks(a.bs, stack, cur, a.m, block, line);
    ContentsAppend(a.bs, block);
    OpenMatches(Bare(View(p)), cs, a.ps, a.m, syms, line);
    ElementsAppend(a.bs, block);
  }

  /** `BlockEnd`: the current block ends, the enclosing one becomes current. */
  method CloseBlock(p: Parser, f: C.FuncDecl, t: C.Node, stack: seq<C.Block>, cur: C.Block, line: uint32,
    ghost d: Decls, ghost a: Account, syms: seq<Symbol>)
    returns (stack': seq<C.Block>, cur': C.Block?, ghost a': Account)
    requires OnCourse(p, d) && Reading(p, f, t, stack, cur, a, syms)
    modifies cur`lineEnd
    ensures OnCourse(p, d) && View(p) == old(View(p)) && Reading(p, f, t, stack', cur', a', syms)
    ensures a.m.cur.At? && a' == a.(m := Close(a.m, line))
  {
    hide OnCourse, Ok, BodyMatches, NamesAre, Bare, Fit, Close;
    CloseTracks(a.bs, stack, cur, a.m, line);
    ghost var cs, k := Contents(a.bs), a.m.cur.index;
    TracksCurrent(a.bs, stack, cur, a.m);
    CloseMatches(Bare(View(p)), cs, a.ps, a.m, syms, line);
    cur.lineEnd := line;
    if |stack| > 0 {
      stack', cur' := stack[..|stack| - 1], stack[|stack| - 1];
    } else {
      stack', cur' := stack, null;
    }
    a' := a.(m := Close(a.m, line));
    assert Contents(a.bs) == cs[k := cs[k].(lineEnd := line)];
  }

  lemma TracksCurrent(bs: seq<C.Block>, stack: seq<C.Block>, cur: C.Block?, m: Machine)
    requires Tracks(bs, stack, cur, m)
    ensures cur == null <==> m.cur.NoBlock?
    ensures m.cur.At? ==> m.cur.index < |bs| && bs[m.cur.index] == cur
    ensures NoDup(bs)
  {
  }

  /** The declarations of a list whose names are compared with a new one. */
  lemma ListedNames(v: State, ns: seq<C.Node>, name: string)
    requires AllDecls(v, ns)
    ensures HasNamed(v, ns, name) <==> exists k | 0 <= k < |ns| :: v.g[ns[k]].v.name == name
  {
    if k :| 0 <= k < |ns| && v.g[ns[k]].v.name == name { assert ns[k] in v.g && v.g[ns[k]].Decl?; }
  }

  lemma BareDecls(v: State, ns: seq<C.Node>)
    requires AllDecls(Bare(v), ns)
    ensures forall n | n in ns :: n in v.g && v.g[n].Decl? && Bare(v).g[n] == v.g[n]
  {
    assert forall o | o in v.g :: Bare(v).g[o] == BareDef(v.g[o]);
  }

  /** `addLocal` leaves everything else as it was. */
  method AddLiveLocal(p: Parser, block: C.Block, n: C.Node, ghost d: Decls)
    requires OnCourse(p, d) && block in p.blocks && n in p.Late() && n.def.Decl?
    requires AllDecls(Bare(View(p)), block.locals)
    modifies block`locals
    ensures OnCourse(p, d) && View(p) == old(View(p))
    ensures block.locals == WithListed(Bare(View(p)), old(block.locals), n)
  {
    hide OnCourse, Ok, Holds, Fits, OwnTypes, HasNamed, Bare, AllDecls;
    OnCourseMeans(p, d);
    ghost var u := View(p);
    BareDecls(u, block.locals);
    ListedNames(Bare(u), block.locals, n.def.v.name);
    BareDecl(u, n);
    AddLocal(block, n);
    NowOnCourse(p, d);
  }

  lemma BareDecl(v: State, n: C.Node)
    requires n in v.g && v.g[n].Decl?
    ensures n in Bare(v).g && Bare(v).g[n] == v.g[n]
  {
  }

  /** A list with one more declaration, unless its name is in it. */
  ghost function WithListed(v: State, ns: seq<C.Node>, n: C.Node): seq<C.Node> {
    if n in v.g && v.g[n].Decl? && HasNamed(v, ns, v.g[n].v.name) then ns else ns + [n]
  }

  lemma ListingIsExtended(v: State, ns: seq<C.Node>, n: C.Node)
    requires n in v.g && v.g[n].Decl?
    ensures WithListed(v, ns, n) == Extended(v, [], ns, n)
  {
    assert [] + ns == ns;
  }

  /** A local of the current block. */
  method TakeLocal(p: Parser, f: C.FuncDecl, t: C.Node, stack: seq<C.Block>, cur: C.Block, n: C.Node, j: nat,
    ghost d: Decls, ghost a: Account, syms: seq<Symbol>)
    returns (ghost a': Account)
    requires OnCourse(p, d) && Reading(p, f, t, stack, cur, a, syms) && Elements(a.bs) <= p.blocks
    requires j < |syms| && n in p.Late() && n.def.Decl? && DeclMatches(Bare(View(p)), n, syms[j])
    modifies cur`locals
    ensures OnCourse(p, d) && View(p) == old(View(p)) && Reading(p, f, t, stack, cur, a', syms)
    ensures a' == a.(m := AddDecl(syms, a.taken, a.m, j))
  {
    hide OnCourse, Ok, NamesAre, Fit, AddDecl, DeclMatches, DeclsMatch, Tracks, Bare, WithListed, Extended, BodyMatches;
    TracksCurrent(a.bs, stack, cur, a.m);
    ghost var cs, k := Contents(a.bs), a.m.cur.index;
    ghost var v := Bare(View(p));
    LocalMatches(v, cs, a.ps, a.m, syms, a.taken, n, j);
    CurrentMatches(v, cs, a.ps, a.m, syms);
    ListingIsExtended(v, cs[k].locals, n);
    assert cur in Elements(a.bs) by { IsElement(a.bs, k); }
    AddLiveLocal(p, cur, n, d);
    a' := a.(m := AddDecl(syms, a.taken, a.m, j));
    DeclTracks(a.bs, stack, cur, a.m, syms, a.taken, j);
    assert Contents(a.bs) == cs[k := cs[k].(locals := WithListed(v, cs[k].locals, n))];
  }

  lemma IsElement<T>(s: seq<T>, k: nat)
    requires k < |s|
    ensures s[k] in Elements(s)
  {
  }

  lemma CurrentMatches(v: State, cs: seq<Content>, ps: seq<C.Node>, m: Machine, syms: seq<Symbol>)
    requires BodyMatches(v, cs, ps, m, syms) && m.cur.At? && m.cur.index < |cs|
    ensures AllDecls(v, cs[m.cur.index].locals)
  {
    var k := m.cur.index;
    assert BlockMatches(v, cs[k], m.blocks[k], syms);
    MatchedAreDecls(v, cs[k].locals, syms, m.blocks[k].locals);
  }

  lemma ParamsAreDecls(v: State, t: C.Node)
    requires Ok(v) && t in v.g && v.g[t].Func?
    ensures AllDecls(v, v.g[t].params) && AllDecls(Bare(v), v.g[t].params)
  {
    assert forall o | o in v.g :: Bare(v).g[o] == BareDef(v.g[o]);
    forall n | n in v.g[t].params ensures n in v.g && v.g[n].Decl? {
      var i :| 0 <= i < |Params(v.g[t])| && Params(v.g[t])[i] == n;
    }
  }

  lemma OwnParam(types: map<C.FuncDecl, C.Type>, v: State, t: C.Node, d: C.Def)
    requires OwnTypes(types, v.g) && t in v.g && v.g[t].Func? && d.Func? && d.ret == v.g[t].ret
    ensures OwnTypes(types, SetDef(v, t, d).g)
  {
    assert Slots(d) == Slots(v.g[t]);
  }

  lemma BareParam(v: State, t: C.Node, d: C.Def)
    requires t in v.g && v.g[t].Func? && d.Func? && BareDef(d) == BareDef(v.g[t])
    ensures Bare(SetDef(v, t, d)) == Bare(v)
  {
    assert Bare(SetDef(v, t, d)).g == Bare(v).g;
  }

  /** `addParam` on a function type of the graph. */
  method AddTheParam(p: Parser, t: C.Node, n: C.Node)
    requires Ok(View(p)) && t in p.nodes && t.def.Func? && n in p.nodes && n.def.Decl? && Unheld(View(p).g, C.Ref(t))
    modifies t
    ensures Ok(View(p)) && Bare(View(p)) == old(Bare(View(p))) && Later(old(View(p)), View(p))
    ensures t.def.Func? && t.def == old(t.def).(params := WithListed(Bare(View(p)), old(t.def.params), n))
    ensures View(p) == SetDef(old(View(p)), t, t.def)
  {
    hide Ok, HasNamed, Bare, AllDecls, Later, Unheld;
    ghost var u, params := View(p), t.def.params;
    ParamsAreDecls(u, t);
    BareDecls(u, params);
    ListedNames(Bare(u), params, n.def.v.name);
    BareDecl(u, n);
    AddParam(t, n);
    ghost var e := t.def;
    assert View(p) == SetDef(u, t, e) by { assert Snap(p.nodes) == u.g[t := e]; }
    BareParam(u, t, e);
    if e.params == params {
      assert e == u.g[t] && SetDef(u, t, e) == u;
      LaterRefl(u);
    } else {
      ParamKeepsOk(u, t, n);
    }
  }

  lemma StillLate(p: Parser, u: State, t: C.Node, n: C.Node)
    requires ParamsLate(u.g, p.early) && View(p) == SetDef(u, t, t.def) && p.early <= p.nodes && n !in p.early
    requires t in u.g && t.def.Func? && u.g[t].Func? && forall o | o in t.def.params :: o in u.g[t].params || o == n
    requires Elements(p.typedefs) <= p.early
    ensures EarlyOk(p)
  {
  }

  lemma ListingAdds(v: State, ns: seq<C.Node>, n: C.Node)
    ensures forall o | o in WithListed(v, ns, n) :: o in ns || o == n
  {
  }

  /** `addParam` changes this one function type, and no other object. */
  method AddLiveParam(p: Parser, f: C.FuncDecl, t: C.Node, n: C.Node, ghost d: Decls)
    requires OnCourse(p, d) && t in p.nodes && t.def.Func? && n in p.Late() && n.def.Decl?
    requires f in p.funcs && f.v.typ == C.Ref(t)
    modifies t
    ensures OnCourse(p, d) && Bare(View(p)) == old(Bare(View(p))) && Later(old(View(p)), View(p))
    ensures t.def.Func? && t.def == old(t.def).(params := WithListed(Bare(View(p)), old(t.def.params), n))
  {
    hide OnCourse, Ok, Holds, Fits, OwnTypes, BodiesFit, Bare, Later, WithListed, View, Separate;
    OnCourseMeans(p, d);
    ghost var u, types, params := View(p), FuncTypes(p.funcs), t.def.params;
    ViewHas(p);
    FoundOwn(types, Snap(p.nodes), f);
    AddTheParam(p, t, n);
    ViewHas(p);
    ListingAdds(Bare(u), params, n);
    StillLate(p, u, t, n);
    OwnParam(types, u, t, t.def);
    NowOnCourse(p, d);
  }

  lemma ViewHas(p: Parser)
    ensures View(p).g == Snap(p.nodes) && View(p).typedefs == p.typedefs
  {
  }

  lemma ListingBehind(v: State, given: seq<C.Node>, ns: seq<C.Node>, n: C.Node)
    requires n in v.g && v.g[n].Decl?
    ensures WithListed(v, given + ns, n) == given + Extended(v, given, ns, n)
  {
    assert given + ns + [n] == given + (ns + [n]);
  }

  lemma BareNames(v: State, ns: seq<C.Node>, names: seq<string>)
    ensures NamesAre(Bare(v), ns, names) <==> NamesAre(v, ns, names)
  {
    assert forall o | o in v.g :: Bare(v).g[o] == BareDef(v.g[o]);
  }

  /** A parameter of the function. */
  method TakeParam(p: Parser, f: C.FuncDecl, t: C.Node, stack: seq<C.Block>, n: C.Node, j: nat,
    ghost d: Decls, ghost a: Account, syms: seq<Symbol>)
    returns (ghost a': Account)
    requires OnCourse(p, d) && f in p.funcs && Reading(p, f, t, stack, null, a, syms)
    requires j < |syms| && n in p.Late() && n.def.Decl? && DeclMatches(Bare(View(p)), n, syms[j])
    modifies t
    ensures OnCourse(p, d) && Later(old(View(p)), View(p)) && Reading(p, f, t, stack, null, a', syms)
    ensures a'.base == a.base && a'.bs == a.bs && a'.given == a.given && a'.taken == a.taken
    ensures a'.m == AddDecl(syms, a.taken, a.m, j)
  {
    hide OnCourse, Ok, NamesAre, Fit, AddDecl, DeclMatches, DeclsMatch, Tracks, Bare, WithListed, Extended, BodyMatches,
      Later, Contents;
    TracksCurrent(a.bs, stack, null, a.m);
    ghost var v, cs := Bare(View(p)), Contents(a.bs);
    BareNames(View(p), a.given, a.taken);
    ParamMatches(v, cs, a.given, a.ps, a.m, syms, a.taken, n, j);
    ListingBehind(v, a.given, a.ps, n);
    AddLiveParam(p, f, t, n, d);
    BareNames(View(p), a.given, a.taken);
    a' := a.(ps := Extended(v, a.given, a.ps, n), m := AddDecl(syms, a.taken, a.m, j));
    DeclTracks(a.bs, stack, null, a.m, syms, a.taken, j);
  }

  /** The account stands while types are added. */
  lemma ReadingAdds(p: Parser, f: C.FuncDecl, t: C.Node, stack: seq<C.Block>, cur: C.Block?, a: Account,
    syms: seq<Symbol>, u: State)
    requires Adds(u, View(p)) && f.v.typ == C.Ref(t) && f.blocks == a.base + a.bs
    requires t in u.g && u.g[t].Func? && u.g[t].params == a.given + a.ps
    requires NamesAre(u, a.given, a.taken) && Tracks(a.bs, stack, cur, a.m)
    requires BodyMatches(Bare(u), Contents(a.bs), a.ps, a.m, syms)
    ensures Reading(p, f, t, stack, cur, a, syms)
  {
    hide BodyMatches, Tracks, Contents, Bare;
    BareAdds(u, View(p));
    AddsGrows(Bare(u), Bare(View(p)));
    BodyMatchesStays(Bare(u), Bare(View(p)), Contents(a.bs), a.ps, a.m, syms);
  }

  /** A declaration record: a local of the current block, or a parameter if there is none. */
  method TakeDecl(p: Parser, f: C.FuncDecl, t: C.Node, stack: seq<C.Block>, cur: C.Block?, j: nat,
    ghost d: Decls, ghost a: Account, syms: seq<Symbol>)
    returns (r: Outcome<Done>, ghost a': Account)
    requires OnCourse(p, d) && f in p.funcs && Reading(p, f, t, stack, cur, a, syms) && Elements(a.bs) <= p.blocks
    requires j < |syms| && IsDecl(syms[j])
    modifies p`nodes, p.structs, p.unions, p.enums, t, if cur == null then {} else {cur}
    ensures NodesAdded(p)
    ensures r.Good? == DeclOutcome(syms[j]).Good? && (r.Panicked? ==> r.why == DeclOutcome(syms[j]).why)
    ensures r.Good? ==> OnCourse(p, d) && Later(old(View(p)), View(p)) && Reading(p, f, t, stack, cur, a', syms)
    ensures r.Good? ==> a'.base == a.base && a'.bs == a.bs && a'.given == a.given && a'.taken == a.taken
    ensures r.Good? ==> a'.m == AddDecl(syms, a.taken, a.m, j)
  {
    hide OnCourse, Ok, Adds, NamesAre, AddDecl, DeclMatches, Tracks, Bare, BodyMatches, Later, Contents, DeclOutcome;
    ghost var u := View(p);
    a' := a;
    var n := ParseLocal(p, syms[j], d);
    if n.Panicked? {
      return Panicked(n.why), a';
    }
    r := Good(Done);
    ghost var v := View(p);
    ReadingAdds(p, f, t, stack, cur, a, syms, u);
    AddsLater(u, v);
    if cur != null {
      a' := TakeLocal(p, f, t, stack, cur, n.value, j, d, a, syms);
    } else {
      a' := TakeParam(p, f, t, stack, n.value, j, d, a, syms);
      LaterTrans(u, v, View(p));
    }
  }
}

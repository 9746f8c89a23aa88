// One function of the record stream (csym/parse_decls.go).

module ParseFunc {
  import opened Ints
  import opened Records
  import C = CTypes
  import opened TypeGraph
  import opened Naming
  import opened Csym
  import opened Fixups
  import opened TypesState
  import opened TagGroups
  import opened GroupScan
  import opened BlockTree
  import opened ResolveTypes
  import opened DeclState
  import opened FuncIndex
  import opened DeclLists
  import opened GlobalDecls
  import opened FuncBodies

  // ----- what a body says -----

  predicate ChangesLine(s: Symbol) {
    s.body.BlockStart? || s.body.BlockEnd?
  }

  /** The running line of the function that starts at i, in 32 bits, after the records before j. */
  function FuncLine(syms: seq<Symbol>, i: nat, j: nat): uint32
    requires i < j <= |syms| && syms[i].body.FuncStart?
    decreases j
  {
    if j == i + 1 then syms[i].body.line
    else if ChangesLine(syms[j - 1]) then (FuncLine(syms, i, j - 1) + syms[j - 1].body.line - 1) % TWO32
    else FuncLine(syms, i, j - 1)
  }

  /** The line numbers it gives: one for its start, one for each start and end of a block. */
  function FuncLines(syms: seq<Symbol>, i: nat, j: nat): seq<Csym.Line>
    requires i < j <= |syms| && syms[i].body.FuncStart?
    decreases j
  {
    if j == i + 1 then [Csym.Line(syms[i].hdr.value, syms[i].body.path, syms[i].body.line)]
    else
      FuncLines(syms, i, j - 1)
      + (if ChangesLine(syms[j - 1]) then [Csym.Line(syms[j - 1].hdr.value, syms[i].body.path, FuncLine(syms, i, j))]
        else [])
  }

  /** The first function end from j on. */
  function EndFrom(syms: seq<Symbol>, j: nat): (e: nat)
    requires j <= |syms|
    ensures j <= e <= |syms| && (e < |syms| ==> syms[e].body.FuncEnd?)
    ensures forall k | j <= k < e :: !syms[k].body.FuncEnd?
    decreases |syms| - j
  {
    if j == |syms| || syms[j].body.FuncEnd? then j else EndFrom(syms, j + 1)
  }

  /** What reading the body of the function at i comes to, given the parameter names taken before. */
  function BodyOutcome(syms: seq<Symbol>, i: nat, taken: seq<string>): Outcome<nat>
    requires i < |syms|
  {
    var e := EndFrom(syms, i + 1);
    match Run(syms, taken, START, i + 1, e)
    case Panicked(why) => Panicked(why)
    case Good(_) => if e < |syms| then Good(e + 1) else Panicked(EndOfRecords)
  }

  lemma RunNext(syms: seq<Symbol>, taken: seq<string>, i: nat, j: nat, m: Machine)
    requires i <= j < |syms| && Run(syms, taken, START, i, j) == Good(m)
    ensures Run(syms, taken, START, i, j + 1) == Step(syms, taken, m, j)
  {
    RunThen(syms, taken, START, i, j, j + 1);
    assert Step(syms, taken, m, j).Good? ==>
      Run(syms, taken, Step(syms, taken, m, j).value, j + 1, j + 1) == Step(syms, taken, m, j);
  }

  // ----- reading it -----

  /** One record of a body, other than a function end. */
  method BodyStep(p: Parser, f: C.FuncDecl, t: C.Node, stack: seq<C.Block>, cur: C.Block?, j: nat,
    ghost d: Decls, ghost a: Account, syms: seq<Symbol>)
    returns (r: Outcome<Done>, stack': seq<C.Block>, cur': C.Block?, ghost a': Account)
    requires OnCourse(p, d) && f in p.funcs && Reading(p, f, t, stack, cur, a, syms) && Elements(a.bs) <= p.blocks
    requires j < |syms|
    modifies p`nodes, p`blocks, p.structs, p.unions, p.enums, f`blocks, t, a.bs
    ensures NodesAdded(p)
    ensures r.Good? == Step(syms, a.taken, a.m, j).Good? && (r.Panicked? ==> r.why == Step(syms, a.taken, a.m, j).why)
    ensures r.Good? ==> OnCourse(p, d) && Later(old(View(p)), View(p)) && Reading(p, f, t, stack', cur', a', syms)
    ensures r.Good? ==> a'.base == a.base && a'.given == a.given && a'.taken == a.taken && Elements(a'.bs) <= p.blocks
    ensures r.Good? ==> Step(syms, a.taken, a.m, j) == Good(a'.m)
    ensures r.Good? ==> a.bs <= a'.bs && forall b | b in a'.bs && b !in a.bs :: fresh(b)
  {
    hide OnCourse, Ok, Tracks, Bare, BodyMatches, NamesAre, Later, Contents, DeclOutcome, Open, Close, AddDecl, Opened;
    var body := syms[j].body;
    stack', cur', a' := stack, cur, a;
    LaterRefl(View(p));
    TracksCurrent(a.bs, stack, cur, a.m);
    if body.BlockStart? {
      stack', cur', a' := OpenBlock(p, f, t, stack, cur, body.line, d, a, syms);
      OpenedAccount(a, cur', body.line);
      r := Good(Done);
    } else if body.BlockEnd? {
      if cur == null {
        return Panicked(Why.NoBlock), stack', cur', a';
      }
      stack', cur', a' := CloseBlock(p, f, t, stack, cur, body.line, d, a, syms);
      r := Good(Done);
    } else if IsDecl(syms[j]) {
      r, a' := TakeDecl(p, f, t, stack, cur, j, d, a, syms);
    } else {
      r := Panicked(UnsupportedRecord);
    }
  }

  lemma OpenedAccount(a: Account, b: C.Block, line: uint32)
    ensures var a' := Opened(a, b, line);
      && a'.base == a.base && a'.given == a.given && a'.taken == a.taken && a'.ps == a.ps && a'.bs == a.bs + [b]
      && a'.m == Open(a.m, line)
  {
  }

  /** The account at the start of a body. */
  function Untouched(f: C.FuncDecl, t: C.Node, taken: seq<string>): Account
    reads f, t
  {
    Account(f.blocks, [], if t.def.Func? then t.def.params else [], taken, [], START)
  }

  /** The names of the parameters a function type has. */
  ghost function ParamNames(v: State, t: C.Node): seq<string> {
    if t in v.g && v.g[t].Func? then
      var ps := v.g[t].params;
      seq(|ps|, k requires 0 <= k < |ps| => if ps[k] in v.g && v.g[ps[k]].Decl? then v.g[ps[k]].v.name else "")
    else []
  }

  lemma NothingRead(p: Parser, d: Decls, f: C.FuncDecl, t: C.Node, syms: seq<Symbol>)
    requires OnCourse(p, d) && f.v.typ == C.Ref(t) && t in p.nodes && t.def.Func?
    ensures Reading(p, f, t, [], null, Untouched(f, t, ParamNames(View(p), t)), syms)
  {
    hide Fits, OwnTypes, BodiesFit, Closed, TableOk, NamesOk, Holds;
    OnCourseMeans(p, d);
    hide OnCourse;
    var v := View(p);
    ParamsAreDecls(v, t);
    assert f.blocks + [] == f.blocks && t.def.params + [] == t.def.params;
    assert NamesAre(v, t.def.params, ParamNames(v, t));
  }

  /** The function's new blocks, and the parameters added to its type, are those the machine makes of
      the records from i + 1 to e; earlier blocks and parameters are kept. */
  ghost predicate IsBody(p: Parser, f: C.FuncDecl, t: C.Node, blocks: seq<C.Block>, d: C.Def, taken: seq<string>,
    a: Account, syms: seq<Symbol>, i: nat, e: nat)
    reads p, p.structs, p.unions, p.enums, p.nodes, f`v, f`blocks, t, a.bs
  {
    && i < e <= |syms| && Run(syms, taken, START, i + 1, e) == Good(a.m)
    && d.Func? && t.def == d.(params := d.params + a.ps) && f.blocks == blocks + a.bs
    && BodyMatches(Bare(View(p)), Contents(a.bs), a.ps, a.m, syms)
  }

  /** What a step of the loop keeps. */
  ghost predicate HalfRead(p: Parser, f: C.FuncDecl, t: C.Node, stack: seq<C.Block>, cur: C.Block?, a: Account,
    syms: seq<Symbol>, i: nat, j: nat, start: Account, u: State)
    reads p, p.structs, p.unions, p.enums, p.nodes, f`v, f`blocks, a.bs
  {
    && i < j <= |syms| && Reading(p, f, t, stack, cur, a, syms) && Elements(a.bs) <= p.blocks
    && a.base == start.base && a.given == start.given && a.taken == start.taken
    && Run(syms, a.taken, START, i + 1, j) == Good(a.m) && Later(u, View(p))
  }

  lemma HalfReadMeans(p: Parser, f: C.FuncDecl, t: C.Node, stack: seq<C.Block>, cur: C.Block?, a: Account,
    syms: seq<Symbol>, i: nat, j: nat, start: Account, u: State)
    requires HalfRead(p, f, t, stack, cur, a, syms, i, j, start, u)
    ensures i < j <= |syms| && Reading(p, f, t, stack, cur, a, syms) && Elements(a.bs) <= p.blocks
    ensures Run(syms, a.taken, START, i + 1, j) == Good(a.m) && Later(u, View(p)) && a.taken == start.taken
    ensures a.base == start.base && a.given == start.given
  {
  }

  lemma NowHalfRead(p: Parser, f: C.FuncDecl, t: C.Node, stack: seq<C.Block>, cur: C.Block?, a: Account,
    syms: seq<Symbol>, i: nat, j: nat, start: Account, u: State, b: Account, v: State)
    requires Reading(p, f, t, stack, cur, a, syms) && Elements(a.bs) <= p.blocks
    requires a.base == b.base == start.base && a.given == b.given == start.given && a.taken == b.taken == start.taken
    requires i < j < |syms| && Run(syms, a.taken, START, i + 1, j) == Good(b.m)
      && Step(syms, b.taken, b.m, j) == Good(a.m)
    requires Later(u, v) && Later(v, View(p))
    ensures HalfRead(p, f, t, stack, cur, a, syms, i, j + 1, start, u)
  {
    hide Reading, Step, Later, Run;
    RunNext(syms, a.taken, i + 1, j, b.m);
    LaterTrans(u, v, View(p));
  }

  lemma StartsHalfRead(p: Parser, d: Decls, f: C.FuncDecl, t: C.Node, syms: seq<Symbol>, i: nat)
    requires OnCourse(p, d) && f.v.typ == C.Ref(t) && t in p.nodes && t.def.Func? && i < |syms|
    ensures var start := Untouched(f, t, ParamNames(View(p), t));
      && HalfRead(p, f, t, [], null, start, syms, i, i + 1, start, View(p))
      && start.base == f.blocks && start.bs == [] && start.given == t.def.params
      && start.taken == ParamNames(View(p), t)
    ensures t in View(p).g && View(p).g[t] == t.def
  {
    hide OnCourse, Reading, Later, Step;
    NothingRead(p, d, f, t, syms);
    LaterRefl(View(p));
  }

  /** The lines record j of a body adds. */
  function LinesAt(syms: seq<Symbol>, i: nat, j: nat): seq<Csym.Line>
    requires i < j < |syms| && syms[i].body.FuncStart?
  {
    if ChangesLine(syms[j]) then [Csym.Line(syms[j].hdr.value, syms[i].body.path, FuncLine(syms, i, j + 1))] else []
  }

  /** The line number a block start or end gives. */
  method NoteBodyLine(p: Parser, syms: seq<Symbol>, i: nat, j: nat, line: uint32, ghost d: Decls)
    returns (line': uint32, ghost d': Decls)
    requires OnCourse(p, d) && i < j < |syms| && syms[i].body.FuncStart? && line == FuncLine(syms, i, j)
    modifies p.curOverlay`lines
    ensures OnCourse(p, d') && View(p) == old(View(p)) && d.cur < |d.lists|
    ensures line' == FuncLine(syms, i, j + 1) && d' == WithLines(d, LinesAt(syms, i, j))
  {
    hide OnCourse;
    OnCourseMeans(p, d);
    line', d' := line, d;
    if ChangesLine(syms[j]) {
      line' := (line + syms[j].body.line - 1) % TWO32;
      d' := NoteLine(p, Csym.Line(syms[j].hdr.value, syms[i].body.path, line'), d);
    } else {
      assert Cur(d).lines + [] == Cur(d).lines;
    }
  }

  /** One turn of the loop: the step and the line number it gives. */
  method BodyTurn(p: Parser, f: C.FuncDecl, t: C.Node, stack: seq<C.Block>, cur: C.Block?, syms: seq<Symbol>, i: nat,
    j: nat,
    line: uint32, ghost d: Decls, ghost a: Account, ghost start: Account, ghost u: State)
    returns (r: Outcome<Done>, stack': seq<C.Block>, cur': C.Block?, line': uint32, ghost d': Decls, ghost a': Account)
    requires OnCourse(p, d) && f in p.funcs && HalfRead(p, f, t, stack, cur, a, syms, i, j, start, u)
    requires j < |syms| && syms[i].body.FuncStart? && line == FuncLine(syms, i, j)
    modifies p`nodes, p`blocks, p.structs, p.unions, p.enums, f`blocks, t, a.bs, p.curOverlay`lines
    ensures NodesAdded(p)
    ensures r.Good? == Step(syms, a.taken, a.m, j).Good? && (r.Panicked? ==> r.why == Step(syms, a.taken, a.m, j).why)
    ensures r.Good? ==> OnCourse(p, d') && HalfRead(p, f, t, stack', cur', a', syms, i, j + 1, start, u)
    ensures r.Good? ==> line' == FuncLine(syms, i, j + 1) && d.cur < |d.lists|
    ensures r.Good? ==> d' == WithLines(d, LinesAt(syms, i, j))
    ensures r.Good? ==> forall b | b in a'.bs && b !in a.bs :: fresh(b)
  {
    hide OnCourse, HalfRead, Reading, Later, Step, Run, LinesAt, FuncLine, Ok;
    HalfReadMeans(p, f, t, stack, cur, a, syms, i, j, start, u);
    ghost var v := View(p);
    r, stack', cur', a' := BodyStep(p, f, t, stack, cur, j, d, a, syms);
    line', d' := line, d;
    if r.Panicked? {
      return;
    }
    NowHalfRead(p, f, t, stack', cur', a', syms, i, j, start, u, a, v);
    line', d' := NoteBodyLine(p, syms, i, j, line, d);
  }

  lemma LinesGrow(d: Decls, syms: seq<Symbol>, i: nat, j: nat)
    requires d.cur < |d.lists| && i < j < |syms| && syms[i].body.FuncStart?
    ensures WithLines(WithLines(d, FuncLines(syms, i, j)), LinesAt(syms, i, j))
      == WithLines(d, FuncLines(syms, i, j + 1))
  {
    if ChangesLine(syms[j]) {
      LinesThenLine(d, FuncLines(syms, i, j), LinesAt(syms, i, j)[0]);
    } else {
      var d' := WithLines(d, FuncLines(syms, i, j));
      assert Cur(d').lines + [] == Cur(d').lines && d'.lists[d'.cur := Cur(d')] == d'.lists;
      assert FuncLines(syms, i, j) + [] == FuncLines(syms, i, j);
    }
  }

  lemma BodyEnds(syms: seq<Symbol>, taken: seq<string>, i: nat, j: nat, m: Machine)
    requires i < j < |syms| && (forall k | i < k < j :: !syms[k].body.FuncEnd?) && syms[j].body.FuncEnd?
    requires Run(syms, taken, START, i + 1, j) == Good(m)
    ensures BodyOutcome(syms, i, taken) == Good(j + 1)
  {
    assert EndFrom(syms, i + 1) == j;
  }

  lemma BodyPanics(syms: seq<Symbol>, taken: seq<string>, i: nat, j: nat, m: Machine, why: Why)
    requires i < j < |syms| && (forall k | i < k <= j :: !syms[k].body.FuncEnd?)
    requires Run(syms, taken, START, i + 1, j) == Good(m) && Step(syms, taken, m, j) == Panicked(why)
    ensures BodyOutcome(syms, i, taken) == Panicked(why)
  {
    hide Step;
    RunNext(syms, taken, i + 1, j, m);
    var e := EndFrom(syms, i + 1);
    assert j < e;
    RunThen(syms, taken, START, i + 1, j + 1, e);
  }

  lemma BodyUnended(syms: seq<Symbol>, taken: seq<string>, i: nat, m: Machine)
    requires i < |syms| && (forall k | i < k < |syms| :: !syms[k].body.FuncEnd?)
    requires Run(syms, taken, START, i + 1, |syms|) == Good(m)
    ensures BodyOutcome(syms, i, taken) == Panicked(EndOfRecords)
  {
  }

  lemma KeptFunc(u: State, v: State, t: C.Node)
    requires Later(u, v) && t in u.g && u.g[t].Func?
    ensures t in v.g && v.g[t].Func? && v.g[t].ret == u.g[t].ret && v.g[t].variadic == u.g[t].variadic
  {
    assert t in Bare(u).g && Kept(Bare(u).g[t], Bare(v).g[t]);
    assert Bare(v).g[t] == BareDef(v.g[t]);
  }

  /** A body read to its end. */
  lemma BodyRead(p: Parser, f: C.FuncDecl, t: C.Node, stack: seq<C.Block>, cur: C.Block?, a: Account,
    syms: seq<Symbol>, i: nat, j: nat, start: Account, u: State)
    requires HalfRead(p, f, t, stack, cur, a, syms, i, j, start, u)
    requires t in u.g && u.g[t].Func? && start.given == u.g[t].params
    ensures IsBody(p, f, t, start.base, u.g[t], start.taken, a, syms, i, j)
  {
    hide Later, Run, BodyMatches, Tracks;
    KeptFunc(u, View(p), t);
  }

  /** The loop of `parseFunc`. */
  method ReadBody(p: Parser, f: C.FuncDecl, t: C.Node, syms: seq<Symbol>, i: nat, ghost d0: Decls, ghost d: Decls)
    returns (r: Outcome<nat>, ghost d': Decls, ghost a: Account)
    requires OnCourse(p, d) && f in p.funcs && f.v.typ == C.Ref(t) && t in p.nodes && t.def.Func?
    requires i < |syms| && syms[i].body.FuncStart?
    requires d0.cur < |d0.lists| && d == WithLines(d0, FuncLines(syms, i, i + 1))
    modifies p`nodes, p`blocks, p.structs, p.unions, p.enums, f`blocks, f`lineEnd, t, p.curOverlay`lines
    ensures NodesAdded(p)
    ensures r == BodyOutcome(syms, i, ParamNames(old(View(p)), t))
    ensures r.Good? ==> OnCourse(p, d') && Later(old(View(p)), View(p))
    ensures r.Good? ==>
      i + 1 < r.value <= |syms| && syms[r.value - 1].body.FuncEnd? && f.lineEnd == syms[r.value - 1].body.line
    ensures r.Good? ==> d' == WithLines(d0, FuncLines(syms, i, r.value - 1))
    ensures r.Good? ==> IsBody(p, f, t, old(f.blocks), old(t.def), ParamNames(old(View(p)), t), a, syms, i, r.value - 1)
    ensures r.Good? ==> forall b | b in a.bs :: fresh(b)
  {
    hide OnCourse, HalfRead, Later, Step, FuncLine, FuncLines, LinesAt, Run, BodyOutcome, IsBody, Ok;
    hide View, Snap, Untouched, ParamNames, WithLines, Cur, WithCur, Elements, Separate, Holds, Fits, OwnTypes,
      BodiesFit, Reading;
    ghost var u, taken := View(p), ParamNames(View(p), t);
    ghost var start := Untouched(f, t, taken);
    StartsHalfRead(p, d, f, t, syms, i);
    var stack, cur: C.Block?, line := [], null, syms[i].body.line;
    a, d' := start, d;
    FirstOfFunc(syms, i);
    for j := i + 1 to |syms|
      invariant OnCourse(p, d') && HalfRead(p, f, t, stack, cur, a, syms, i, j, start, u)
      invariant line == FuncLine(syms, i, j) && d' == WithLines(d0, FuncLines(syms, i, j))
      invariant forall k | i < k < j :: !syms[k].body.FuncEnd?
      invariant NodesAdded(p)
      invariant forall b | b in a.bs :: fresh(b)
    {
      HalfReadMeans(p, f, t, stack, cur, a, syms, i, j, start, u);
      if syms[j].body.FuncEnd? {
        BodyEnds(syms, taken, i, j, a.m);
        f.lineEnd := syms[j].body.line;
        BodyRead(p, f, t, stack, cur, a, syms, i, j, start, u);
        return Good(j + 1), d', a;
      }
      ghost var m := a.m;
      forall k | 0 <= k < |a.bs| ensures fresh(a.bs[k]) { var b := a.bs[k]; assert b in a.bs; }
      var turn;
      turn, stack, cur, line, d', a := BodyTurn(p, f, t, stack, cur, syms, i, j, line, d', a, start, u);
      if turn.Panicked? {
        BodyPanics(syms, taken, i, j, m, turn.why);
        return Panicked(turn.why), d', a;
      }
      LinesGrow(d0, syms, i, j);
    }
    HalfReadMeans(p, f, t, stack, cur, a, syms, i, |syms|, start, u);
    BodyUnended(syms, taken, i, a.m);
    r := Panicked(EndOfRecords);
  }

  lemma FirstOfFunc(syms: seq<Symbol>, i: nat)
    requires i < |syms| && syms[i].body.FuncStart?
    ensures FuncLine(syms, i, i + 1) == syms[i].body.line
    ensures FuncLines(syms, i, i + 1) == [Csym.Line(syms[i].hdr.value, syms[i].body.path, syms[i].body.line)]
  {
  }

  // ----- the whole function -----

  /** What was found when a function was parsed: the function and its type, the lists after the
      search, and the name, the start line, the blocks, the type and the parameter names it had before. */
  datatype Found = Found(f: C.FuncDecl, t: C.Node, lists: Decls, v: C.Var,
    line: uint32, blocks: seq<C.Block>, def: C.Def, taken: seq<string>)

  /** A function that was added by the search. */
  ghost predicate IsNew(x: Found, d: Decls, key: string, addr: uint32)
    requires d.cur < |d.lists|
  {
    && |Cur(d).funcs| == |Cur(d).keys| && NoneAnswers(Cur(d).funcs, Cur(d).keys, key, addr) && x.f.addr == addr
    && x.lists == WithCur(d, WithFunc(Cur(d), x.f, key))
    && x.f.size == 0 && x.v == C.Var(C.Ref(x.t), if key in Cur(d).index then UniqueName(key, addr) else key)
    && x.line == 0 && x.blocks == [] && x.def == C.Func(C.Basic(C.Void), [], false) && x.taken == []
  }

  /** `findFunc` keeps the parser on course. */
  method FindKept(p: Parser, name: string, addr: uint32, ghost d: Decls)
    returns (f: C.FuncDecl, t: C.Node, ghost d': Decls)
    requires OnCourse(p, d)
    modifies p`nodes, p`funcs, p.curOverlay`funcs, p.curOverlay`funcNames, p.curOverlay`funcKeys
    ensures OnCourse(p, d') && Later(old(View(p)), View(p)) && NodesAdded(p) && d.cur < |d.lists|
    ensures d'.cur < |d'.lists| && |Cur(d').funcs| == |Cur(d').keys|
    ensures f in p.funcs && t in p.nodes && f.v.typ == C.Ref(t) && t.def.Func?
    ensures ParamNames(View(p), t) == ParamNames(old(View(p)), t)
    ensures IsFirst(Cur(d').funcs, Cur(d').keys, ValidName(name), addr, f)
    ensures if f in old(p.funcs) then d' == d && p.funcs == old(p.funcs) && p.nodes == old(p.nodes)
      else (
        && d' == WithCur(d, WithFunc(Cur(d), f, ValidName(name))) && fresh(f) && fresh(t)
        && p.funcs == old(p.funcs) + {f}
        && f.blocks == [] && f.lineStart == 0 && t.def == C.Func(C.Basic(C.Void), [], false) && f.addr == addr
        && f.size == 0
        && f.v.name == (if ValidName(name) in Cur(d).index then UniqueName(ValidName(name), addr) else ValidName(name))
        && |Cur(d).funcs| == |Cur(d).keys| && NoneAnswers(Cur(d).funcs, Cur(d).keys, ValidName(name), addr))
  {
    hide OnCourse, Ok, Holds, Fits, OwnTypes, BodiesFit, Later, IsFirst, NoneAnswers, WithCur, WithFunc, ValidName,
      UniqueName;
    hide Separate, EarlyOk, View, ParamNames, Snap, FuncTypes;
    OnCourseMeans(p, d);
    ghost var u, funcs, late := View(p), p.funcs, p.Late();
    PartsOf(p);
    CurIndexed(d, p.Late(), p.funcs);
    f, t, d' := FindFunc(p, name, addr, d);
    CurIndexed(d', p.Late(), p.funcs);
    if f in funcs {
      LaterRefl(u);
    } else {
      StubAdded(p, u, f, t, funcs, late);
    }
    NowOnCourse(p, d');
  }

  lemma PartsOf(p: Parser)
    ensures View(p).g.Keys == p.nodes && forall o | o in p.nodes :: View(p).g[o] == o.def
    ensures View(p) == State(View(p).g, Table(p.structs.byTag, p.structs.inOrder),
      Table(p.unions.byTag, p.unions.inOrder),
      Table(p.enums.byTag, p.enums.inOrder), p.types, p.typedefs, p.enumMembers)
    ensures EarlyOk(p) ==> p.early <= p.nodes && Elements(p.typedefs) <= p.early && ParamsLate(View(p).g, p.early)
    ensures Ok(View(p)) ==> Closed(Snap(p.nodes))
  {
  }

  /** A stub with its type is all there is in addition. */
  lemma StubAdded(p: Parser, u: State, f: C.FuncDecl, t: C.Node, funcs: set<C.FuncDecl>, late: set<C.Node>)
    requires Ok(u) && p.nodes == u.g.Keys + {t} && t !in u.g && t.def == C.Func(C.Basic(C.Void), [], false)
    requires forall o | o in u.g :: o.def == u.g[o]
    requires u == State(u.g, Table(p.structs.byTag, p.structs.inOrder), Table(p.unions.byTag, p.unions.inOrder),
      Table(p.enums.byTag, p.enums.inOrder), p.types, p.typedefs, p.enumMembers)
    requires ParamsLate(u.g, p.early) && Elements(p.typedefs) <= p.early && p.early <= u.g.Keys
    requires BodiesFit(funcs, late, p.blocks) && late <= p.Late() && p.funcs == funcs + {f} && f.blocks == []
    ensures Ok(View(p)) && Later(u, View(p)) && EarlyOk(p) && BodiesFit(p.funcs, p.Late(), p.blocks)
    ensures ParamNames(View(p), t) == ParamNames(u, t)
  {
    hide Ok, Later, ParamNames, Elements, BodiesFit;
    assert Snap(p.nodes) == u.g[t := t.def];
    StubKeeps(u, t);
    StubHasNoNames(u, t);
    BodiesMore(funcs, late, p.blocks, p.funcs, p.Late());
  }

  /** The same, with an account of what was found. */
  method FindOnCourse(p: Parser, name: string, addr: uint32, ghost d: Decls)
    returns (f: C.FuncDecl, t: C.Node, ghost x: Found)
    requires OnCourse(p, d)
    modifies p`nodes, p`funcs, p.curOverlay`funcs, p.curOverlay`funcNames, p.curOverlay`funcKeys
    ensures OnCourse(p, x.lists) && Later(old(View(p)), View(p)) && NodesAdded(p)
    ensures d.cur < |d.lists| && x.lists.cur < |x.lists.lists| && |Cur(x.lists).funcs| == |Cur(x.lists).keys|
    ensures x.f == f && x.t == t && f in p.funcs && t in p.nodes && f.v.typ == C.Ref(t) && t.def.Func?
    ensures IsFirst(Cur(x.lists).funcs, Cur(x.lists).keys, ValidName(name), addr, f)
    ensures x.v == f.v && x.line == f.lineStart && x.blocks == f.blocks && x.def == t.def
    ensures x.taken == ParamNames(View(p), t) && x.taken == ParamNames(old(View(p)), t)
    ensures if f in old(p.funcs) then x.lists == d && p.funcs == old(p.funcs) && p.nodes == old(p.nodes)
      else IsNew(x, d, ValidName(name), addr) && fresh(f) && fresh(t) && p.funcs == old(p.funcs) + {f}
  {
    hide OnCourse, Ok, Later, IsFirst, WithFunc, WithCur;
    ghost var d';
    f, t, d' := FindKept(p, name, addr, d);
    x := Found(f, t, d', f.v, f.lineStart, f.blocks, t.def, ParamNames(View(p), t));
  }

  lemma StubHasNoNames(u: State, t: C.Node)
    requires t !in u.g
    ensures ParamNames(Alloc(u, t, C.Func(C.Basic(C.Void), [], false)), t) == ParamNames(u, t)
  {
  }

  lemma CurIndexed(d: Decls, nodes: set<C.Node>, funcs: set<C.FuncDecl>)
    requires Fits(d, nodes, funcs)
    ensures d.cur < |d.lists| && |Cur(d).funcs| == |Cur(d).keys|
  {
    assert ListFits(Cur(d), nodes, funcs);
  }

  lemma StubKeeps(u: State, t: C.Node)
    requires Ok(u) && t !in u.g
    ensures var v := Alloc(u, t, C.Func(C.Basic(C.Void), [], false)); Ok(v) && Later(u, v)
  {
    hide Ok, Adds, Later;
    AllocKeepsOk(u, t, C.Func(C.Basic(C.Void), [], false));
    AllocAdds(u, t, C.Func(C.Basic(C.Void), [], false));
    AddsLater(u, Alloc(u, t, C.Func(C.Basic(C.Void), [], false)));
  }

  /** The first function end from j on, if there is one. */
  method SkipToEnd(syms: seq<Symbol>, j: nat) returns (e: nat)
    requires j <= |syms|
    ensures e == EndFrom(syms, j)
  {
    e := j;
    while e < |syms| && !syms[e].body.FuncEnd?
      invariant j <= e <= |syms| && EndFrom(syms, j) == EndFrom(syms, e)
    {
      e := e + 1;
    }
  }

  /** A function that was read before, and whose records have an end, is skipped. */
  predicate IsSkipped(x: Found, syms: seq<Symbol>, i: nat)
    requires i < |syms|
  {
    x.line != 0 && EndFrom(syms, i + 1) < |syms|
  }

  /** The function found is what the records from i to the function end at e say. */
  ghost predicate IsRead(p: Parser, x: Found, a: Account, syms: seq<Symbol>, i: nat, e: nat, d: Decls)
    reads p, p.structs, p.unions, p.enums, p.nodes, x.f, x.t, a.bs
  {
    && i < e < |syms| && syms[i].body.FuncStart? && syms[e].body.FuncEnd? && x.lists.cur < |x.lists.lists|
    && d == WithLines(x.lists, FuncLines(syms, i, e))
    && x.f.path == syms[i].body.path && x.f.lineStart == syms[i].body.line && x.f.lineEnd == syms[e].body.line
    && IsBody(p, x.f, x.t, x.blocks, x.def, x.taken, a, syms, i, e)
  }

  /** The rest of `parseFunc`, for a function that is not skipped. */
  method ReadFunc(p: Parser, f: C.FuncDecl, t: C.Node, syms: seq<Symbol>, i: nat, ghost x: Found)
    returns (r: Outcome<nat>, ghost d': Decls, ghost a: Account)
    requires OnCourse(p, x.lists) && i < |syms| && syms[i].body.FuncStart?
    requires x.f == f && x.t == t && f in p.funcs && t in p.nodes && f.v.typ == C.Ref(t) && t.def.Func?
    requires x.blocks == f.blocks && x.def == t.def && x.taken == ParamNames(View(p), t)
    modifies p`nodes, p`blocks, p.structs, p.unions, p.enums, f, t, p.curOverlay`lines
    ensures NodesAdded(p) && r == BodyOutcome(syms, i, x.taken) && f.v == old(f.v)
    ensures r.Good? ==> r.value > 0 && IsRead(p, x, a, syms, i, r.value - 1, d')
    ensures r.Good? ==> OnCourse(p, d') && Later(old(View(p)), View(p))
  {
    hide OnCourse, Ok, Later, BodyOutcome, FuncLines, Cur, WithCur, Bare, View, IsBody, ParamNames;
    CurOnCourse(p, x.lists);
    f.path := syms[i].body.path;
    f.lineStart := syms[i].body.line;
    d' := NoteLine(p, Csym.Line(syms[i].hdr.value, f.path, f.lineStart), x.lists);
    FirstOfFunc(syms, i);
    r, d', a := ReadBody(p, f, t, syms, i, x.lists, d');
  }

  lemma CurOnCourse(p: Parser, d: Decls)
    requires OnCourse(p, d)
    ensures d.cur < |d.lists|
  {
  }

  /** Every function but this one, and every type but this one, is as it was. */
  twostate predicate OnlyThese(p: Parser, new f: C.FuncDecl, new t: C.Node)
    requires old(p.funcs) <= p.funcs && old(p.nodes) <= p.nodes
    reads p, p.funcs, p.nodes
  {
    && (forall h | h in old(p.funcs) && h != f :: unchanged(h))
    && (forall o | o in old(p.nodes) && o != t :: o.def == old(o.def))
  }

  /** What is known of the function found. */
  twostate predicate IsFound(p: Parser, new x: Found, d: Decls, key: string, addr: uint32)
    reads p, p.structs, p.unions, p.enums, p.funcs, p.nodes
  {
    && d.cur < |d.lists| && x.lists.cur < |x.lists.lists| && |Cur(x.lists).funcs| == |Cur(x.lists).keys|
    && IsFirst(Cur(x.lists).funcs, Cur(x.lists).keys, key, addr, x.f) && x.f in p.funcs && x.t in p.nodes
    && x.f.v == x.v && x.v.typ == C.Ref(x.t) && x.taken == ParamNames(old(View(p)), x.t)
    && (if x.f in old(p.funcs) then x.lists == d && p.funcs == old(p.funcs)
        else IsNew(x, d, key, addr) && p.funcs == old(p.funcs) + {x.f} && fresh(x.f))
    && (forall h | h in old(p.funcs) && h == x.f ::
      x.v == old(h.v) && x.line == old(h.lineStart) && x.blocks == old(h.blocks))
    && (forall o | o in old(p.nodes) && o == x.t :: x.def == old(o.def))
  }

  /** `parseFunc`: the function registered under this name and address, or a new one.  If it was read
      before, its records are skipped and nothing changes.  Otherwise its blocks, locals and
      parameters are those of its records, and no other function and no other type changes. */
  method ParseFunc(p: Parser, syms: seq<Symbol>, i: nat, ghost d: Decls)
    returns (r: Outcome<nat>, ghost d': Decls, ghost x: Found, ghost a: Account)
    requires OnCourse(p, d) && i < |syms| && syms[i].body.FuncStart?
    modifies p`nodes, p`blocks, p`funcs, p.structs, p.unions, p.enums, p.funcs, p.nodes, p.curOverlay
    ensures NodesAdded(p) && IsFound(p, x, d, ValidName(syms[i].body.name), syms[i].hdr.value) && OnlyThese(p, x.f, x.t)
    ensures r == if IsSkipped(x, syms, i) then Good(EndFrom(syms, i + 1) + 1) else BodyOutcome(syms, i, x.taken)
    ensures IsSkipped(x, syms, i) ==> d' == x.lists && forall h | h in old(p.funcs) :: unchanged(h)
    ensures IsSkipped(x, syms, i) ==> forall o | o in old(p.nodes) :: o.def == old(o.def)
    ensures r.Good? && !IsSkipped(x, syms, i) ==> r.value > 0 && IsRead(p, x, a, syms, i, r.value - 1, d')
    ensures r.Good? ==> OnCourse(p, d') && Later(old(View(p)), View(p))
  {
    hide OnCourse, Ok, Later, IsFirst, WithFunc, WithCur, IsNew, BodyOutcome, FuncLines, Cur, Bare, View, IsRead,
      EndFrom, ParamNames;
    hide Separate, Snap, Untouched, ValidName, UniqueName, TypeOutcome, Run, FuncLine, IsBody, Holds, Fits, OwnTypes,
      BodiesFit, EarlyOk;
    ghost var u := View(p);
    var body := syms[i].body;
    var f, t;
    f, t, x := FindOnCourse(p, body.name, syms[i].hdr.value, d);
    d' := x.lists;
    a := Untouched(f, t, x.taken);
    if f.lineStart != 0 {
      var e := SkipToEnd(syms, i + 1);
      if e < |syms| {
        return Good(e + 1), d', x, a;
      }
    }
    ghost var v := View(p);
    r, d', a := ReadFunc(p, f, t, syms, i, x);
    if r.Good? {
      LaterTrans(u, v, View(p));
    }
  }
}

// Parsing the records into declarations (csym/parse_decls.go).

module ParseDecls {
  import opened Ints
  import opened Records
  import C = CTypes
  import opened Lists
  import opened Naming
  import opened Csym
  import opened Fixups
  import opened TypesState
  import opened GroupScan
  import opened BlockTree
  import opened ResolveTypes
  import opened DeclState
  import opened FuncIndex
  import opened DeclLists
  import opened GlobalDecls
  import LineNumbers
  import PF = ParseFunc
  import opened FuncBodies
  import opened OverlayRun
  import opened FuncRun
  import opened FuncValues
  import opened Projection
  import opened DeclScan

  /** Overlays that are not current keep everything they list. */
  ghost predicate OthersStay(d: Decls, d': Decls) {
    |d.lists| <= |d'.lists| && forall k | 0 <= k < |d.lists| && k != d.cur :: d'.lists[k] == d.lists[k]
  }

  /** Parsing is on course, and the overlays hold their projections of the records so far. */
  ghost predicate InStep(p: Parser, d: Decls, syms: seq<Symbol>, tops: seq<nat>)
    reads p, p.structs, p.unions, p.enums, p.nodes, p.overlay, p.overlays, p.funcs, p.blocks
  {
    OnCourse(p, d) && Projected(Bare(View(p)), Values(p), d, syms, tops)
  }

  lemma InStepMeans(p: Parser, d: Decls, syms: seq<Symbol>, tops: seq<nat>)
    requires InStep(p, d, syms, tops)
    ensures OnCourse(p, d) && Holds(p, d) && d.cur < |d.lists| && Projected(Bare(View(p)), Values(p), d, syms, tops)
  {
  }

  lemma NowInStep(p: Parser, d: Decls, syms: seq<Symbol>, tops: seq<nat>)
    requires OnCourse(p, d) && Projected(Bare(View(p)), Values(p), d, syms, tops)
    ensures InStep(p, d, syms, tops)
  {
  }

  /** A name record. */
  method NameTurn(p: Parser, syms: seq<Symbol>, i: nat, ghost d: Decls, ghost tops: seq<nat>) returns (ghost d': Decls)
    requires InStep(p, d, syms, tops) && i < |syms| && IsName(syms[i])
    modifies p.curOverlay`symbols
    ensures InStep(p, d', syms, tops + [i]) && View(p) == old(View(p)) && OthersStay(d, d')
  {
    hide InStep, OnCourse, Ok, Holds, Fits, OwnTypes, BodiesFit, Projected, Bare, Values;
    InStepMeans(p, d, syms, tops);
    OnCourseMeans(p, d);
    ghost var u, vals := View(p), Values(p);
    d' := ParseSymbol(p, syms[i].hdr.value, syms[i].body.name, d);
    assert View(p) == u;
    RecordsFit(d, Cur(d).symbols + [NameAt(syms[i].hdr.value, syms[i].body.name)], Cur(d).lines, p.Late(), p.funcs);
    NowOnCourse(p, d');
    NameRecord(Bare(u), vals, d, syms, tops, i);
    NowInStep(p, d', syms, tops + [i]);
  }

  /** A group of line numbers. */
  method LinesTurn(p: Parser, syms: seq<Symbol>, i: nat, ghost d: Decls, ghost tops: seq<nat>)
    returns (r: Outcome<nat>, ghost d': Decls)
    requires InStep(p, d, syms, tops) && i < |syms| && syms[i].body.SetSLD2?
    modifies p.curOverlay`lines
    ensures r == LineNumbers.LinesOutcome(syms, i) && View(p) == old(View(p))
    ensures r.Good? ==> r.value == NextTop(syms, i) && InStep(p, d', syms, tops + [i]) && OthersStay(d, d')
  {
    hide InStep, OnCourse, Projected, Bare, View, Holds, Values;
    InStepMeans(p, d, syms, tops);
    r, d' := LineNumbers.ParseLineNumbers(p, syms, i, d);
    if r.Good? {
      QuietRecord(Bare(View(p)), Values(p), d, syms, tops, i);
      NowInStep(p, d', syms, tops + [i]);
    }
  }

  /** The functions there were hold what they held. */
  lemma OldValues(p: Parser, d: Decls, d': Decls, vals: FuncVals, funcs: set<C.FuncDecl>)
    requires Fits(d, p.Late(), funcs) && vals.Keys == funcs
    requires forall f | f in funcs :: f in Values(p) && Values(p)[f] == vals[f]
    ensures d.cur < |d.lists| && OthersSame(d, vals, Values(p)) && SameValues(vals, Values(p), Cur(d).funcs)
  {
    hide Values, IsIndex, ListsApart;
    forall k | 0 <= k < |d.lists| ensures SameValues(vals, Values(p), d.lists[k].funcs) {
      assert ListFits(d.lists[k], p.Late(), funcs);
      forall f | f in d.lists[k].funcs ensures f in funcs { assert f in Elements(d.lists[k].funcs); }
    }
  }

  lemma CurFits(p: Parser, d: Decls)
    requires OnCourse(p, d)
    ensures Fits(d, p.Late(), p.funcs)
  {
  }

  lemma AddedToCur(d: Decls, a: Added, name: string)
    requires d.cur < |d.lists|
    ensures OthersStay(d, WithAdded(d, a, name))
  {
  }

  /** A global declaration. */
  method GlobalTurn(p: Parser, syms: seq<Symbol>, i: nat, ghost d: Decls, ghost tops: seq<nat>)
    returns (r: Outcome<nat>, ghost d': Decls)
    requires InStep(p, d, syms, tops) && i < |syms| && IsGlobal(syms[i])
    modifies p`nodes, p`funcs, p.structs, p.unions, p.enums
    modifies p.curOverlay`vars, p.curOverlay`varNames, p.curOverlay`varKeys, p.curOverlay`funcs, p.curOverlay`funcNames,
      p.curOverlay`funcKeys
    ensures r == (if RecordType(syms[i]).Panicked? then Panicked(RecordType(syms[i]).why) else Good(i + 1))
    ensures NodesAdded(p) && old(p.funcs) <= p.funcs && fresh(p.funcs - old(p.funcs))
    ensures r.Good? ==> InStep(p, d', syms, tops + [i]) && OthersStay(d, d') && Later(old(View(p)), View(p))
  {
    hide InStep, OnCourse, Projected, Bare, View, Holds, RecordType, Later, Values, OthersSame, SameValues, TypeMatches,
      DeclMatches, IsFuncWord;
    hide Fits, OthersStay;
    InStepMeans(p, d, syms, tops);
    ghost var u, vals := View(p), Values(p);
    var done;
    ghost var a;
    ghost var late, funcs := p.Late(), p.funcs;
    CurFits(p, d);
    done, d', a := ParseGlobalValue(p, syms[i], d);
    if done.Panicked? {
      return Panicked(done.why), d';
    }
    FitsMore(d, late, funcs, p.Late(), funcs);
    OldValues(p, d, d', vals, funcs);
    AddedToCur(d, a, ValidName(syms[i].body.name));
    LaterGrows(u, View(p));
    if a.AddedFunc? {
      DeclaredRecord(Bare(u), Bare(View(p)), vals, Values(p), d, a.f, syms, tops, i);
    } else {
      VarRecord(Bare(u), Bare(View(p)), vals, Values(p), d, a.n, syms, tops, i);
    }
    NowInStep(p, d', syms, tops + [i]);
    r := Good(i + 1);
  }

  /** An overlay is declared. */
  method OverlayTurn(p: Parser, syms: seq<Symbol>, i: nat, ghost d: Decls, ghost tops: seq<nat>)
    returns (ghost d': Decls)
    requires InStep(p, d, syms, tops) && i < |syms| && syms[i].body.Overlay?
    modifies p`overlays, p`overlayIDs
    ensures InStep(p, d', syms, tops + [i]) && View(p) == old(View(p)) && OthersStay(d, d')
    ensures |p.overlays| == |old(p.overlays)| + 1 && p.overlays[..|old(p.overlays)|] == old(p.overlays)
    ensures fresh(p.overlays[|old(p.overlays)|])
    ensures p.overlays[|old(p.overlays)|].addr == syms[i].hdr.value
      && p.overlays[|old(p.overlays)|].length == syms[i].body.length
      && p.overlays[|old(p.overlays)|].id == syms[i].body.id
  {
    hide InStep, OnCourse, Ok, Holds, Fits, OwnTypes, BodiesFit, Projected, Bare, Values;
    InStepMeans(p, d, syms, tops);
    OnCourseMeans(p, d);
    ghost var u, vals := View(p), Values(p);
    d' := ParseOverlay(p, syms[i].hdr.value, syms[i].body.length, syms[i].body.id, d);
    assert View(p) == u;
    WithOverlayFits(d, syms[i].hdr.value, syms[i].body.id, syms[i].body.length, p.Late(), p.funcs);
    NowOnCourse(p, d');
    OverlayRecord(Bare(u), vals, d, syms, tops, i);
    NowInStep(p, d', syms, tops + [i]);
  }

  /** The overlay declared under this identifier becomes the current one. */
  method SelectOverlay(p: Parser, id: uint32, ghost d: Decls)
    requires Holds(p, d) && id in d.ids
    modifies p`curOverlay
    ensures Holds(p, d.(cur := d.ids[id])) && d.ids[id] < |d.lists|
  {
    hide ListsOf, NoDup;
    p.curOverlay := p.overlayIDs[id];
  }

  method SelectDeclared(p: Parser, id: uint32, ghost d: Decls)
    requires OnCourse(p, d) && id in d.ids
    modifies p`curOverlay
    ensures d.ids[id] < |d.lists| && OnCourse(p, d.(cur := d.ids[id]))
  {
    hide *;
    OnCourseMeans(p, d);
    SelectOverlay(p, id, d);
    ReselectedFits(d, d.ids[id], p.Late(), p.funcs);
    NowOnCourse(p, d.(cur := d.ids[id]));
  }

  /** An overlay is selected. */
  method SelectTurn(p: Parser, syms: seq<Symbol>, i: nat, ghost d: Decls, ghost tops: seq<nat>)
    returns (r: Outcome<nat>, ghost d': Decls)
    requires InStep(p, d, syms, tops) && i < |syms| && syms[i].body.SetOverlay?
    modifies p`curOverlay
    ensures r == (if DeclaredAs(syms, tops, syms[i].hdr.value) != 0 then Good(i + 1) else Panicked(NoOverlay))
    ensures r.Good? ==> InStep(p, d', syms, tops + [i]) && View(p) == old(View(p)) && OthersStay(d, d')
  {
    hide InStep, OnCourse, Projected, Bare, Values, View;
    InStepMeans(p, d, syms, tops);
    var id := syms[i].hdr.value;
    SelectRecord(Bare(View(p)), Values(p), d, syms, tops, i);
    d' := d;
    if id !in p.overlayIDs {
      return Panicked(NoOverlay), d';
    }
    SelectDeclared(p, id, d);
    d' := d.(cur := d.ids[id]);
    NowInStep(p, d', syms, tops + [i]);
    r := Good(i + 1);
  }

  lemma ReselectedFits(d: Decls, k: nat, nodes: set<C.Node>, funcs: set<C.FuncDecl>)
    requires Fits(d, nodes, funcs) && k < |d.lists|
    ensures Fits(d.(cur := k), nodes, funcs)
  {
  }

  /** Every function's type is in the graph, and its parameters are those it holds. */
  lemma ParamsHeld(p: Parser, d: Decls)
    requires OnCourse(p, d)
    ensures Values(p).Keys == p.funcs
    ensures forall f | f in p.funcs :: TypeHeld(View(p), Values(p)[f]) && Values(p)[f].v == f.v
  {
    hide OnCourse;
    FoundBefore(p, d);
    ValuesAre(p);
  }

  ghost predicate TypeHeld(v: State, x: FuncVal) {
    x.v.typ.Ref? && x.v.typ.node in v.g && v.g[x.v.typ.node].Func? && v.g[x.v.typ.node].params == x.params
  }

  /** Functions that are not the one found hold what they held. */
  lemma OthersOnly(d: Decls, nodes: set<C.Node>, vals: FuncVals, vals': FuncVals, f: C.FuncDecl)
    requires Fits(d, nodes, vals.Keys) && OnlyChanges(vals, vals', f) && d.cur < |d.lists|
    requires f in Cur(d).funcs || f !in vals || (f in vals' && vals'[f] == vals[f])
    ensures OthersSame(d, vals, vals')
    ensures f !in vals || (f in vals' && vals'[f] == vals[f]) ==> SameValues(vals, vals', Cur(d).funcs)
    ensures NoDup(Cur(d).funcs) && IsIndex(Cur(d).index, Cur(d).funcs, Cur(d).keys)
    ensures f !in vals ==> f !in Cur(d).funcs
  {
    hide IsIndex;
    assert ListFits(Cur(d), nodes, vals.Keys);
    forall k | 0 <= k < |d.lists| ensures forall h | h in d.lists[k].funcs :: h in vals {
      assert ListFits(d.lists[k], nodes, vals.Keys);
      forall h | h in d.lists[k].funcs ensures h in vals { assert h in Elements(d.lists[k].funcs); }
    }
    forall k | 0 <= k < |d.lists| && k != d.cur ensures SameValues(vals, vals', d.lists[k].funcs) {
      if k < d.cur { assert ListsApart(d.lists[k], Cur(d)); } else { assert ListsApart(Cur(d), d.lists[k]); }
    }
  }

  /** The type of a function that was added has only gained parameters. */
  lemma NewType(p: Parser, x: PF.Found, a: Account, syms: seq<Symbol>, i: nat, e: nat, d: Decls)
    requires PF.IsRead(p, x, a, syms, i, e, d) && x.t in p.nodes && x.def == C.Func(C.Basic(C.Void), [], false)
    ensures x.t in Bare(View(p)).g && Bare(View(p)).g[x.t] == C.Func(C.Basic(C.Void), [], false)
  {
    hide BodyMatches, Run, PF.FuncLines;
    assert View(p).g[x.t] == x.t.def;
  }

  /** The next state, when the function found has been read. */
  lemma AfterRead(p: Parser, d: Decls, d': Decls, u: State, vals: FuncVals, x: PF.Found, a: Account, syms: seq<Symbol>,
    tops: seq<nat>, i: nat,
    late: set<C.Node>)
    requires Projected(Bare(u), vals, d, syms, tops) && OnCourse(p, d') && Later(u, View(p)) && Fits(d, late, vals.Keys)
    requires i < |syms| && syms[i].body.FuncStart? && PF.EndFrom(syms, i + 1) < |syms| && d.cur < |d.lists|
    requires x.f in vals && x.lists == d && |Cur(d).funcs| == |Cur(d).keys| && TypeHeld(u, vals[x.f])
      && vals[x.f].v.typ == C.Ref(x.t)
    requires IsFirst(Cur(d).funcs, Cur(d).keys, RegistrationOf(syms, i).key, RegistrationOf(syms, i).addr, x.f)
    requires vals[x.f].lineStart == 0 && x.taken == PF.ParamNames(u, x.t)
    requires PF.IsRead(p, x, a, syms, i, PF.EndFrom(syms, i + 1), d')
    requires x.f in Values(p) && OnlyChanges(vals, Values(p), x.f)
    requires IsReadInto(Bare(View(p)), vals[x.f], Values(p)[x.f], syms, i, x.taken, Contents(a.bs), a.ps, a.m)
    ensures InStep(p, d', syms, tops + [i]) && OthersStay(d, d')
  {
    hide InStep, OnCourse, Projected, Bare, View, Later, Values, IsReadInto, Contents, OnlyChanges, Fits, OthersSame,
      SameValues, PF.IsRead, PF.ParamNames;
    hide RegistrationOf, IsFirst, Reads, FuncsOf, IsFirstOf, Tells, NoDup, IsIndex;
    var first := FoundIsReadAt(Bare(u), vals, d, syms, tops, i, x.f);
    assert x.f in Cur(d).funcs;
    OthersOnly(d, late, vals, Values(p), x.f);
    LaterGrows(u, View(p));
    ParamNamesTold(u, vals[x.f], syms, Reads(syms, tops, d.cur, RegistrationOf(syms, i)), x.t);
    ReadWithLines(p, x, a, syms, i, d');
    ReadRecord(Bare(u), Bare(View(p)), vals, Values(p), d, syms, tops, i, first, x.taken, Contents(a.bs), a.ps, a.m);
    NowInStep(p, d', syms, tops + [i]);
  }

  /** The next state, when a function has been added and read. */
  lemma AfterAdded(p: Parser, d: Decls, d': Decls, u: State, vals: FuncVals, x: PF.Found, a: Account, syms: seq<Symbol>,
    tops: seq<nat>, i: nat,
    late: set<C.Node>)
    requires Projected(Bare(u), vals, d, syms, tops) && OnCourse(p, d') && Later(u, View(p)) && Fits(d, late, vals.Keys)
    requires i < |syms| && syms[i].body.FuncStart? && PF.EndFrom(syms, i + 1) < |syms| && d.cur < |d.lists|
    requires x.f !in vals && PF.IsNew(x, d, RegistrationOf(syms, i).key, RegistrationOf(syms, i).addr) && x.t in p.nodes
    requires PF.IsRead(p, x, a, syms, i, PF.EndFrom(syms, i + 1), d')
    requires x.f in Values(p) && OnlyChanges(vals, Values(p), x.f)
    requires IsReadInto(Bare(View(p)), Unread(x.v), Values(p)[x.f], syms, i, x.taken, Contents(a.bs), a.ps, a.m)
    ensures InStep(p, d', syms, tops + [i]) && OthersStay(d, d')
  {
    hide InStep, OnCourse, Projected, Bare, View, Later, Values, IsReadInto, Contents, OnlyChanges, Fits, OthersSame,
      SameValues, PF.IsRead;
    hide RegistrationOf, NoDup, IsIndex, NoneAnswers;
    OthersOnly(d, late, vals, Values(p), x.f);
    LaterGrows(u, View(p));
    NewType(p, x, a, syms, i, PF.EndFrom(syms, i + 1), d');
    ReadWithLines(p, x, a, syms, i, d');
    NewRecord(Bare(u), Bare(View(p)), vals, Values(p), d, x, syms, tops, i, Contents(a.bs), a.ps, a.m);
    NowInStep(p, d', syms, tops + [i]);
  }

  /** The next state, when the function found has been skipped. */
  lemma AfterSkipped(p: Parser, d: Decls, u: State, vals: FuncVals, f: C.FuncDecl, syms: seq<Symbol>, tops: seq<nat>,
    i: nat, late: set<C.Node>)
    requires Projected(Bare(u), vals, d, syms, tops) && OnCourse(p, d) && Later(u, View(p)) && Fits(d, late, vals.Keys)
    requires i < |syms| && syms[i].body.FuncStart? && d.cur < |d.lists| && |Cur(d).funcs| == |Cur(d).keys|
    requires IsFirst(Cur(d).funcs, Cur(d).keys, RegistrationOf(syms, i).key, RegistrationOf(syms, i).addr, f)
    requires f in vals && vals[f].lineStart != 0
    requires OnlyChanges(vals, Values(p), f) && f in Values(p) && Values(p)[f] == vals[f]
    ensures InStep(p, d, syms, tops + [i]) && OthersStay(d, d)
  {
    hide InStep, OnCourse, Projected, Bare, View, Later, Values, OnlyChanges, Fits, OthersSame, SameValues;
    hide RegistrationOf, IsFirst, FuncsOf, IsFirstOf, NoDup, IsIndex, Tells;
    var first := FoundIsReadAt(Bare(u), vals, d, syms, tops, i, f);
    assert f in Cur(d).funcs;
    OthersOnly(d, late, vals, Values(p), f);
    LaterGrows(u, View(p));
    SkippedRecord(Bare(u), Bare(View(p)), vals, Values(p), d, syms, tops, i, first);
    NowInStep(p, d, syms, tops + [i]);
  }

  lemma SkippedOutcome(syms: seq<Symbol>, tops: seq<nat>, i: nat, x: PF.Found)
    requires i < |syms| && syms[i].body.FuncStart? && (IsReadAt(syms, tops, i) <==> x.line == 0)
    ensures RecordOutcome(syms, tops, i)
      == if PF.IsSkipped(x, syms, i) then Good(PF.EndFrom(syms, i + 1) + 1) else PF.BodyOutcome(syms, i, x.taken)
  {
    hide IsReadAt, PF.BodyOutcome;
    BodyAlike(syms, i, x.taken);
  }

  /** A function. */
  method FuncTurn(p: Parser, syms: seq<Symbol>, i: nat, ghost d: Decls, ghost tops: seq<nat>)
    returns (r: Outcome<nat>, ghost d': Decls)
    requires InStep(p, d, syms, tops) && i < |syms| && syms[i].body.FuncStart?
    modifies p`nodes, p`blocks, p`funcs, p.structs, p.unions, p.enums, p.funcs, p.nodes, p.curOverlay
    ensures r == RecordOutcome(syms, tops, i)
    ensures NodesAdded(p) && old(p.funcs) <= p.funcs && fresh(p.funcs - old(p.funcs))
    ensures r.Good? ==> InStep(p, d', syms, tops + [i]) && OthersStay(d, d') && Later(old(View(p)), View(p))
  {
    hide InStep, OnCourse, Projected, Bare, View, Holds, Later, IsFirst, PF.IsRead, PF.BodyOutcome, PF.FuncLines,
      PF.IsNew, PF.ParamNames;
    hide Values, IsReadInto, Contents, OnlyChanges, Fits, OthersStay, IsReadAt, RecordOutcome, Cur, TypeHeld,
      PF.EndFrom;
    hide ValidName, OwnTypes, BodiesFit, EarlyOk, Separate, WithCur, PF.IsBody;
    InStepMeans(p, d, syms, tops);
    CurFits(p, d);
    ParamsHeld(p, d);
    ghost var u, vals, late := View(p), Values(p), p.Late();
    assert RegistrationOf(syms, i) == Registration(ValidName(syms[i].body.name), syms[i].hdr.value);
    ghost var x, a;
    r, d', x, a := ParseFuncValue(p, syms, i, d);
    if x.f in vals {
      ghost var first := FoundIsReadAt(Bare(u), vals, d, syms, tops, i, x.f);
      SkippedOutcome(syms, tops, i, x);
      if r.Good? {
        if PF.IsSkipped(x, syms, i) {
          AfterSkipped(p, d, u, vals, x.f, syms, tops, i, late);
        } else {
          EndOfBody(syms, i, x.taken);
          AfterRead(p, d, d', u, vals, x, a, syms, tops, i, late);
        }
      }
    } else {
      NewIsReadAt(Bare(u), vals, d, syms, tops, i, x);
      SkippedOutcome(syms, tops, i, x);
      if r.Good? {
        EndOfBody(syms, i, x.taken);
        AfterAdded(p, d, d', u, vals, x, a, syms, tops, i, late);
      }
    }
  }

  /** Functions and overlays are added, none is lost. */
  twostate predicate DeclsAdded(p: Parser)
    reads p
  {
    && old(p.funcs) <= p.funcs && fresh(p.funcs - old(p.funcs))
    && |old(p.overlays)| <= |p.overlays| && p.overlays[..|old(p.overlays)|] == old(p.overlays)
    && forall k | |old(p.overlays)| <= k < |p.overlays| :: fresh(p.overlays[k])
  }

  /** One record that starts no function. */
  method PlainTurn(p: Parser, syms: seq<Symbol>, i: nat, ghost d: Decls, ghost tops: seq<nat>)
    returns (r: Outcome<nat>, ghost d': Decls)
    requires InStep(p, d, syms, tops) && i < |syms| && !syms[i].body.FuncStart?
    modifies p, p.structs, p.unions, p.enums, p.curOverlay
    ensures r == RecordOutcome(syms, tops, i) && NodesAdded(p) && DeclsAdded(p)
    ensures r.Good? ==> r.value == NextTop(syms, i) && InStep(p, d', syms, tops + [i])
    ensures r.Good? ==> OthersStay(d, d') && Later(old(View(p)), View(p))
  {
    hide InStep, View, Later, RecordType, Bare, Holds, LineNumbers.LinesOutcome, IsQuietClass;
    var s := syms[i];
    LaterRefl(View(p));
    d' := d;
    if IsName(s) {
      d' := NameTurn(p, syms, i, d, tops);
      r := Good(i + 1);
    } else if s.body.SetSLD2? {
      r, d' := LinesTurn(p, syms, i, d, tops);
    } else if IsDecl(s) && IsGlobal(s) {
      r, d' := GlobalTurn(p, syms, i, d, tops);
    } else if s.body.Overlay? {
      d' := OverlayTurn(p, syms, i, d, tops);
      r := Good(i + 1);
    } else if s.body.SetOverlay? {
      r, d' := SelectTurn(p, syms, i, d, tops);
    } else if s.body.EndSLD? || (IsDecl(s) && IsQuietClass(s)) {
      QuietTurn(p, d, syms, tops, i);
      r := Good(i + 1);
    } else {
      r := Panicked(if IsDecl(s) then UnsupportedClass else UnsupportedRecord);
    }
  }

  lemma QuietTurn(p: Parser, d: Decls, syms: seq<Symbol>, tops: seq<nat>, i: nat)
    requires InStep(p, d, syms, tops) && i < |syms| && AddsNothing(syms[i]) && !syms[i].body.SetSLD2?
    ensures InStep(p, d, syms, tops + [i]) && OthersStay(d, d)
  {
    hide OnCourse, Projected, Bare, Values;
    InStepMeans(p, d, syms, tops);
    QuietRecord(Bare(View(p)), Values(p), d, syms, tops, i);
    assert Cur(d).lines + [] == Cur(d).lines;
    assert d == WithLines(d, []);
  }

  lemma CurListed(p: Parser, d: Decls, syms: seq<Symbol>, tops: seq<nat>)
    requires InStep(p, d, syms, tops)
    ensures p.curOverlay == p.overlay || p.curOverlay in p.overlays
  {
    InStepMeans(p, d, syms, tops);
  }

  /** One turn of the main loop. */
  method OneTurn(p: Parser, syms: seq<Symbol>, i: nat, ghost d: Decls, ghost tops: seq<nat>)
    returns (r: Outcome<nat>, ghost d': Decls)
    requires InStep(p, d, syms, tops) && i < |syms|
    modifies p, p.structs, p.unions, p.enums, p.funcs, p.nodes, p.overlay, p.overlays
    ensures r == RecordOutcome(syms, tops, i) && NodesAdded(p) && DeclsAdded(p)
    ensures r.Good? ==> r.value == NextTop(syms, i) && InStep(p, d', syms, tops + [i]) && Later(old(View(p)), View(p))
  {
    hide InStep, View, Later, OthersStay, PlainOutcome, NextTop, RecordOutcome, ValidName, IsReadAt, PF.BodyOutcome,
      PF.EndFrom;
    CurListed(p, d, syms, tops);
    if syms[i].body.FuncStart? {
      r, d' := FuncTurn(p, syms, i, d, tops);
    } else {
      r, d' := PlainTurn(p, syms, i, d, tops);
    }
  }

  /** `ParseDecls`: it panics exactly where the records say so; otherwise the overlays are those the
      records declare, the current one is the one selected last, and each holds exactly its projection
      of the records. */
  method ParseDecls(p: Parser, syms: seq<Symbol>, ghost d: Decls) returns (r: Outcome<Done>, ghost d': Decls)
    requires InStep(p, d, syms, [])
    modifies p, p.structs, p.unions, p.enums, p.funcs, p.nodes, p.overlay, p.overlays
    ensures r == DeclsOutcome(syms)
    ensures r.Good? ==> InStep(p, d', syms, TopsFrom(syms, 0)) && Later(old(View(p)), View(p))
    ensures r.Good? ==> NodesAdded(p) && DeclsAdded(p)
  {
    hide InStep, View, Later, OthersStay, PlainOutcome, NextTop, RecordOutcome, ValidName, IsReadAt, PF.BodyOutcome,
      PF.EndFrom;
    ghost var tops: seq<nat> := [];
    d' := d;
    LaterRefl(View(p));
    var i := 0;
    while i < |syms|
      invariant tops + TopsFrom(syms, i) == TopsFrom(syms, 0) && DeclsFrom(syms, tops, i) == DeclsOutcome(syms)
      invariant InStep(p, d', syms, tops) && Later(old(View(p)), View(p))
      invariant NodesAdded(p) && DeclsAdded(p)
      decreases |syms| - i
    {
      ghost var v := View(p);
      var turn;
      turn, d' := OneTurn(p, syms, i, d', tops);
      if turn.Panicked? {
        return Panicked(turn.why), d';
      }
      LaterTrans(old(View(p)), v, View(p));
      NextTops(syms, tops, i);
      tops, i := tops + [i], turn.value;
    }
    assert tops + [] == tops;
    r := Good(Done);
  }

  lemma NextTops(syms: seq<Symbol>, tops: seq<nat>, i: nat)
    requires i < |syms|
    ensures tops + [i] + TopsFrom(syms, NextTop(syms, i)) == tops + TopsFrom(syms, i)
  {
    assert tops + [i] + TopsFrom(syms, NextTop(syms, i)) == tops + ([i] + TopsFrom(syms, NextTop(syms, i)));
  }
}

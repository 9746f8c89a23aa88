// What the overlays hold after a run: each its projection of the records (csym/parse_decls.go).

module Projection {
  import opened Ints
  import opened Records
  import C = CTypes
  import opened Lists
  import opened Naming
  import opened Spelling
  import opened Csym
  import opened TypesState
  import opened TagGroups
  import opened BlockTree
  import opened DeclState
  import opened FuncIndex
  import opened DeclLists
  import opened GlobalDecls
  import opened FuncBodies
  import LN = LineNumbers
  import PF = ParseFunc
  import opened OverlayRun
  import opened FuncRun

  // ----- line numbers -----

  /** Whether the function that starts at i is read, not skipped. */
  predicate IsReadAt(syms: seq<Symbol>, tops: seq<nat>, i: nat)
    requires i < |syms|
  {
    StartLine(syms, Reads(syms, tops, Selected(syms, tops), RegistrationOf(syms, i))) == 0
  }

  /** The line numbers the record at i gives, with the records that belong to it. */
  function LinesFrom(syms: seq<Symbol>, tops: seq<nat>, i: nat): seq<Csym.Line>
    requires i < |syms|
  {
    if syms[i].body.SetSLD2? then LN.GroupLines(syms, i, LN.LineStop(syms, i + 1))
    else if syms[i].body.FuncStart? && IsReadAt(syms, tops, i) && PF.EndFrom(syms, i + 1) < |syms|
    then PF.FuncLines(syms, i, PF.EndFrom(syms, i + 1))
    else []
  }

  /** The line numbers of overlay k, in order. */
  function LinesOf(syms: seq<Symbol>, tops: seq<nat>, k: nat): seq<Csym.Line> {
    if tops == [] then []
    else
      var before, i := tops[..|tops| - 1], tops[|tops| - 1];
      var lines := LinesOf(syms, before, k);
      if i < |syms| && Selected(syms, before) == k then lines + LinesFrom(syms, before, i) else lines
  }

  // ----- what the overlays hold -----

  ghost predicate VarsMatch(v: State, vars: seq<C.Node>, syms: seq<Symbol>, ds: seq<nat>) {
    DeclsMatch(v, vars, syms, ds)
  }

  /** The header of overlay k: zero for the default binary. */
  predicate HeaderMatches(l: Listed, syms: seq<Symbol>, tops: seq<nat>, k: nat) {
    if k == 0 then l.addr == 0 && l.id == 0 && l.length == 0
    else
      && k - 1 < |Declarations(syms, tops)|
      && var i := Declarations(syms, tops)[k - 1];
         i < |syms| && syms[i].body.Overlay?
         && l.addr == syms[i].hdr.value && l.id == syms[i].body.id && l.length == syms[i].body.length
  }

  ghost predicate ListMatches(v: State, vals: FuncVals, l: Listed, syms: seq<Symbol>, tops: seq<nat>, k: nat) {
    && HeaderMatches(l, syms, tops, k)
    && l.symbols == SymbolsOf(syms, tops, k) && l.lines == LinesOf(syms, tops, k)
    && VarsMatch(v, l.vars, syms, VarsOf(syms, tops, k))
    && FuncsMatch(l.funcs, l.keys, syms, FuncsOf(syms, tops, k))
    && FuncsHold(v, vals, l.funcs, syms, tops, k, FuncsOf(syms, tops, k))
  }

  ghost predicate OverlaysMatch(d: Decls, syms: seq<Symbol>, tops: seq<nat>) {
    && |d.lists| == 1 + Declared(syms, tops) && d.cur == Selected(syms, tops)
    && forall id: uint32 :: IdMatches(d, syms, tops, id)
  }

  predicate IdMatches(d: Decls, syms: seq<Symbol>, tops: seq<nat>, id: uint32) {
    (id in d.ids <==> DeclaredAs(syms, tops, id) != 0) && (id in d.ids ==> d.ids[id] == DeclaredAs(syms, tops, id))
  }

  /** The overlays are those declared, and each lists exactly its projection of the records. */
  ghost predicate Projected(v: State, vals: FuncVals, d: Decls, syms: seq<Symbol>, tops: seq<nat>) {
    OverlaysMatch(d, syms, tops) && forall k | 0 <= k < |d.lists| :: ListMatches(v, vals, d.lists[k], syms, tops, k)
  }

  /** An overlay that is not declared yet has nothing. */
  lemma {:induction false} NothingBefore(syms: seq<Symbol>, tops: seq<nat>, k: nat)
    requires k > Declared(syms, tops)
    ensures SymbolsOf(syms, tops, k) == [] && VarsOf(syms, tops, k) == [] && FuncsOf(syms, tops, k) == []
      && LinesOf(syms, tops, k) == []
  {
    if tops != [] {
      NothingAboveDeclared(syms, tops[..|tops| - 1]);
      hide LinesFrom, Registers, Selected;
      NothingBefore(syms, tops[..|tops| - 1], k);
    }
  }

  // ----- one more record -----

  /** What one more record adds to the lists of overlay k. */
  lemma OneMoreFor(syms: seq<Symbol>, tops: seq<nat>, i: nat, k: nat)
    requires i < |syms|
    ensures var before := SymbolsOf(syms, tops, k);
      SymbolsOf(syms, tops + [i], k)
      == if IsName(syms[i]) && Selected(syms, tops) == k then before + [NameAt(syms[i].hdr.value, syms[i].body.name)]
        else before
    ensures var before := VarsOf(syms, tops, k);
      VarsOf(syms, tops + [i], k)
      == if IsGlobal(syms[i]) && !IsFuncWord(syms[i].body.typ) && Selected(syms, tops) == k then before + [i]
        else before
    ensures var before := LinesOf(syms, tops, k);
      LinesOf(syms, tops + [i], k) == if Selected(syms, tops) == k then before + LinesFrom(syms, tops, i) else before
  {
    Last(tops, i);
    hide Selected, IsFuncWord, IsGlobal, IsName, LinesFrom;
  }

  lemma HeaderStays(l: Listed, syms: seq<Symbol>, tops: seq<nat>, i: nat, k: nat)
    requires HeaderMatches(l, syms, tops, k) && i < |syms|
    ensures HeaderMatches(l, syms, tops + [i], k)
  {
    OneMore(syms, tops, i);
    hide Declarations;
  }

  /** A record that declares no overlay and selects none. */
  lemma SameOverlays(d: Decls, l: Listed, syms: seq<Symbol>, tops: seq<nat>, i: nat)
    requires OverlaysMatch(d, syms, tops) && i < |syms| && !syms[i].body.Overlay? && !syms[i].body.SetOverlay?
    ensures d.cur < |d.lists| && OverlaysMatch(WithCur(d, l), syms, tops + [i])
  {
    OneMore(syms, tops, i);
    NothingAboveDeclared(syms, tops);
    hide Declared, DeclaredAs, Selected;
    forall id: uint32 ensures IdMatches(WithCur(d, l), syms, tops + [i], id) {
      assert IdMatches(d, syms, tops, id);
    }
  }

  lemma VarsMatchStays(v: State, w: State, vars: seq<C.Node>, syms: seq<Symbol>, ds: seq<nat>)
    requires VarsMatch(v, vars, syms, ds) && Grows(v, w)
    ensures VarsMatch(w, vars, syms, ds)
  {
    DeclsMatchStays(v, w, vars, syms, ds);
  }

  /** The lists of all overlays but the selected one are as before. */
  lemma OtherLists(v: State, w: State, vals: FuncVals, vals': FuncVals, l: Listed, syms: seq<Symbol>, tops: seq<nat>,
    i: nat, k: nat)
    requires ListMatches(v, vals, l, syms, tops, k) && Grows(v, w) && k != Selected(syms, tops) && i < |syms|
    requires SameValues(vals, vals', l.funcs)
    ensures ListMatches(w, vals', l, syms, tops + [i], k)
  {
    hide SymbolsOf, VarsOf, FuncsOf, LinesOf, Selected, VarsMatch, FuncsMatch, FuncsHold, Grows, HeaderMatches,
      LinesFrom, Registers, SameValues;
    OneMoreFor(syms, tops, i, k);
    OneMoreFunc(syms, tops, i, k);
    HeaderStays(l, syms, tops, i, k);
    VarsMatchStays(v, w, l.vars, syms, VarsOf(syms, tops, k));
    ElsewhereHolds(v, w, vals, vals', l.funcs, syms, tops, i, k, FuncsOf(syms, tops, k));
  }

  /** The functions of all overlays but the current one are as before. */
  ghost predicate OthersSame(d: Decls, vals: FuncVals, vals': FuncVals) {
    forall k | 0 <= k < |d.lists| && k != d.cur :: SameValues(vals, vals', d.lists[k].funcs)
  }

  /** Main step: a record that declares no overlay and selects none changes the lists of the current
      overlay only. */
  lemma OneList(v: State, w: State, vals: FuncVals, vals': FuncVals, d: Decls, l: Listed, syms: seq<Symbol>,
    tops: seq<nat>, i: nat)
    requires Projected(v, vals, d, syms, tops) && Grows(v, w) && i < |syms| && !syms[i].body.Overlay?
      && !syms[i].body.SetOverlay?
    requires OthersSame(d, vals, vals')
    requires d.cur < |d.lists| && ListMatches(w, vals', l, syms, tops + [i], d.cur)
    ensures Projected(w, vals', WithCur(d, l), syms, tops + [i])
  {
    hide ListMatches, Grows, OverlaysMatch, Selected, SameValues;
    SameOverlays(d, l, syms, tops, i);
    CurIsSelected(d, syms, tops);
    var d' := WithCur(d, l);
    forall k | 0 <= k < |d'.lists| ensures ListMatches(w, vals', d'.lists[k], syms, tops + [i], k) {
      if k != d.cur {
        assert ListMatches(v, vals, d.lists[k], syms, tops, k);
        OtherLists(v, w, vals, vals', d.lists[k], syms, tops, i, k);
      }
    }
  }

  lemma CurIsSelected(d: Decls, syms: seq<Symbol>, tops: seq<nat>)
    requires OverlaysMatch(d, syms, tops)
    ensures d.cur == Selected(syms, tops) && d.cur < |d.lists|
  {
    NothingAboveDeclared(syms, tops);
  }

  /** The lists of the current overlay, and what they hold. */
  lemma CurMatches(v: State, vals: FuncVals, d: Decls, syms: seq<Symbol>, tops: seq<nat>)
    requires Projected(v, vals, d, syms, tops)
    ensures d.cur == Selected(syms, tops) && d.cur < |d.lists| && ListMatches(v, vals, Cur(d), syms, tops, d.cur)
  {
    CurIsSelected(d, syms, tops);
  }

  /** A record that adds to no list but the line numbers. */
  predicate AddsNothing(s: Symbol) {
    !IsName(s) && !IsGlobal(s) && !s.body.FuncStart? && !s.body.Overlay? && !s.body.SetOverlay?
  }

  lemma AllSame(v: State, vals: FuncVals, d: Decls, syms: seq<Symbol>, tops: seq<nat>)
    requires Projected(v, vals, d, syms, tops)
    ensures OthersSame(d, vals, vals) && d.cur < |d.lists| && SameValues(vals, vals, Cur(d).funcs)
  {
    CurIsSelected(d, syms, tops);
    forall k | 0 <= k < |d.lists| ensures SameValues(vals, vals, d.lists[k].funcs) {
      HaveValues(v, vals, d.lists[k], syms, tops, k);
    }
  }

  lemma HaveValues(v: State, vals: FuncVals, l: Listed, syms: seq<Symbol>, tops: seq<nat>, k: nat)
    requires ListMatches(v, vals, l, syms, tops, k)
    ensures forall f | f in l.funcs :: f in vals
  {
    hide OriginMatches, Tells, ReadsOf;
    forall f | f in l.funcs ensures f in vals {
      var j :| 0 <= j < |l.funcs| && l.funcs[j] == f;
      assert FuncHolds(v, vals, l.funcs[j], syms, tops, k, FuncsOf(syms, tops, k), j);
    }
  }

  lemma QuietRecord(v: State, vals: FuncVals, d: Decls, syms: seq<Symbol>, tops: seq<nat>, i: nat)
    requires Projected(v, vals, d, syms, tops) && i < |syms| && AddsNothing(syms[i])
    ensures d.cur < |d.lists| && Projected(v, vals, WithLines(d, LinesFrom(syms, tops, i)), syms, tops + [i])
  {
    hide Projected, Grows, SymbolsOf, VarsOf, FuncsOf, LinesOf, Selected, VarsMatch, FuncsMatch, FuncsHold,
      HeaderMatches, LinesFrom;
    hide SameValues, OthersSame;
    CurMatches(v, vals, d, syms, tops);
    AllSame(v, vals, d, syms, tops);
    OneMoreFor(syms, tops, i, d.cur);
    OneMoreFunc(syms, tops, i, d.cur);
    HeaderStays(Cur(d), syms, tops, i, d.cur);
    GrowsRefl(v);
    ElsewhereHolds(v, v, vals, vals, Cur(d).funcs, syms, tops, i, d.cur, FuncsOf(syms, tops, d.cur));
    SameHeader(Cur(d), WithLines(d, LinesFrom(syms, tops, i)).lists[d.cur], syms, tops + [i], d.cur);
    OneList(v, v, vals, vals, d, WithLines(d, LinesFrom(syms, tops, i)).lists[d.cur], syms, tops, i);
  }

  lemma SameHeader(l: Listed, m: Listed, syms: seq<Symbol>, tops: seq<nat>, k: nat)
    requires HeaderMatches(l, syms, tops, k) && m.addr == l.addr && m.id == l.id && m.length == l.length
    ensures HeaderMatches(m, syms, tops, k)
  {
  }

  lemma NameRecord(v: State, vals: FuncVals, d: Decls, syms: seq<Symbol>, tops: seq<nat>, i: nat)
    requires Projected(v, vals, d, syms, tops) && i < |syms| && IsName(syms[i])
    ensures d.cur < |d.lists|
    ensures var named := Cur(d).(symbols := Cur(d).symbols + [NameAt(syms[i].hdr.value, syms[i].body.name)]);
      Projected(v, vals, WithCur(d, named), syms, tops + [i])
  {
    hide Projected, Grows, SymbolsOf, VarsOf, FuncsOf, LinesOf, Selected, VarsMatch, FuncsMatch, FuncsHold,
      HeaderMatches;
    hide SameValues, OthersSame;
    CurMatches(v, vals, d, syms, tops);
    AllSame(v, vals, d, syms, tops);
    OneMoreFor(syms, tops, i, d.cur);
    OneMoreFunc(syms, tops, i, d.cur);
    HeaderStays(Cur(d), syms, tops, i, d.cur);
    GrowsRefl(v);
    ElsewhereHolds(v, v, vals, vals, Cur(d).funcs, syms, tops, i, d.cur, FuncsOf(syms, tops, d.cur));
    var l := Cur(d).(symbols := Cur(d).symbols + [NameAt(syms[i].hdr.value, syms[i].body.name)]);
    SameHeader(Cur(d), l, syms, tops + [i], d.cur);
    assert LinesOf(syms, tops, d.cur) + [] == LinesOf(syms, tops, d.cur);
    OneList(v, v, vals, vals, d, l, syms, tops, i);
  }

  lemma OneMoreVar(v: State, vars: seq<C.Node>, syms: seq<Symbol>, ds: seq<nat>, n: C.Node, i: nat)
    requires VarsMatch(v, vars, syms, ds) && i < |syms| && DeclMatches(v, n, syms[i])
    ensures VarsMatch(v, vars + [n], syms, ds + [i])
  {
    hide DeclMatches;
  }

  lemma OneMoreKey(l: Listed, syms: seq<Symbol>, ps: seq<nat>, f: C.FuncDecl, i: nat, key: string)
    requires FuncsMatch(l.funcs, l.keys, syms, ps) && Registration(key, f.addr) == RegistrationOf(syms, i)
    ensures FuncsMatch(l.funcs + [f], l.keys + [key], syms, ps + [i])
  {
  }

  /** A global variable. */
  lemma VarRecord(v: State, w: State, vals: FuncVals, vals': FuncVals, d: Decls, n: C.Node, syms: seq<Symbol>,
    tops: seq<nat>, i: nat)
    requires Projected(v, vals, d, syms, tops) && i < |syms| && IsGlobal(syms[i]) && Grows(v, w)
      && OthersSame(d, vals, vals')
    requires !IsFuncWord(syms[i].body.typ) && DeclMatches(w, n, syms[i]) && d.cur < |d.lists|
      && SameValues(vals, vals', Cur(d).funcs)
    ensures Projected(w, vals', WithCur(d, WithVar(Cur(d), n, ValidName(syms[i].body.name))), syms, tops + [i])
  {
    hide Projected, Grows, SymbolsOf, VarsOf, FuncsOf, LinesOf, Selected, VarsMatch, FuncsMatch, FuncsHold,
      HeaderMatches;
    hide SameValues, OthersSame, DeclMatches, IsFuncWord;
    CurMatches(v, vals, d, syms, tops);
    OneMoreFor(syms, tops, i, d.cur);
    OneMoreFunc(syms, tops, i, d.cur);
    HeaderStays(Cur(d), syms, tops, i, d.cur);
    var l, ds := Cur(d), VarsOf(syms, tops, d.cur);
    VarsMatchStays(v, w, l.vars, syms, ds);
    OneMoreVar(w, l.vars, syms, ds, n, i);
    ElsewhereHolds(v, w, vals, vals', l.funcs, syms, tops, i, d.cur, FuncsOf(syms, tops, d.cur));
    var l' := WithVar(l, n, ValidName(syms[i].body.name));
    SameHeader(l, l', syms, tops + [i], d.cur);
    assert LinesOf(syms, tops, d.cur) + [] == LinesOf(syms, tops, d.cur);
    OneList(v, w, vals, vals', d, l', syms, tops, i);
  }

  /** A global function. */
  lemma DeclaredRecord(v: State, w: State, vals: FuncVals, vals': FuncVals, d: Decls, f: C.FuncDecl, syms: seq<Symbol>,
    tops: seq<nat>, i: nat)
    requires Projected(v, vals, d, syms, tops) && i < |syms| && IsGlobal(syms[i]) && Grows(v, w)
      && OthersSame(d, vals, vals')
    requires IsFuncWord(syms[i].body.typ) && d.cur < |d.lists| && SameValues(vals, vals', Cur(d).funcs)
    requires f in vals' && IsUnread(vals'[f]) && f.addr == syms[i].hdr.value
    requires f.size == syms[i].body.size && vals'[f].v.name == ValidName(syms[i].body.name)
    requires TypeMatches(w, vals'[f].v.typ, syms[i].body.typ, DimsOf(syms[i]), TagTextOf(syms[i]))
    ensures Projected(w, vals', WithCur(d, WithFunc(Cur(d), f, ValidName(syms[i].body.name))), syms, tops + [i])
  {
    hide Projected, Grows, SymbolsOf, VarsOf, FuncsOf, LinesOf, Selected, VarsMatch, FuncsMatch, FuncsHold,
      HeaderMatches;
    hide SameValues, OthersSame, TypeMatches, IsFuncWord;
    CurMatches(v, vals, d, syms, tops);
    OneMoreFor(syms, tops, i, d.cur);
    OneMoreFunc(syms, tops, i, d.cur);
    HeaderStays(Cur(d), syms, tops, i, d.cur);
    var l, ps := Cur(d), FuncsOf(syms, tops, d.cur);
    VarsMatchStays(v, w, l.vars, syms, VarsOf(syms, tops, d.cur));
    assert (ps + [i])[|ps|] == i;
    DeclaredHolds(v, w, vals, vals', l.funcs, f, syms, tops, i, d.cur, ps);
    OneMoreKey(l, syms, ps, f, i, ValidName(syms[i].body.name));
    var l' := WithFunc(l, f, ValidName(syms[i].body.name));
    SameHeader(l, l', syms, tops + [i], d.cur);
    assert LinesOf(syms, tops, d.cur) + [] == LinesOf(syms, tops, d.cur);
    OneList(v, w, vals, vals', d, l', syms, tops, i);
  }

  // ----- functions that start -----

  /** No function but this one changes. */
  ghost predicate OnlyChanges(vals: FuncVals, vals': FuncVals, f: C.FuncDecl) {
    forall h | h in vals && h != f :: h in vals' && vals'[h] == vals[h]
  }

  /** The function a search finds is the first of its registration. */
  lemma FoundFirst(l: Listed, syms: seq<Symbol>, ps: seq<nat>, e: Registration, f: C.FuncDecl) returns (k: nat)
    requires FuncsMatch(l.funcs, l.keys, syms, ps) && IsFirst(l.funcs, l.keys, e.key, e.addr, f)
    ensures k < |l.funcs| && l.funcs[k] == f && IsFirstOf(syms, ps, e, k)
  {
    k :| 0 <= k < |l.funcs| && l.funcs[k] == f && Answers(l.funcs, l.keys, e.key, e.addr, k)
      && forall j | 0 <= j < k :: !Answers(l.funcs, l.keys, e.key, e.addr, j);
    forall j | 0 <= j < k ensures RegistrationOf(syms, ps[..k][j]) != e {
      assert !Answers(l.funcs, l.keys, e.key, e.addr, j) && ps[..k][j] == ps[j];
    }
  }

  lemma NoneFound(l: Listed, syms: seq<Symbol>, ps: seq<nat>, e: Registration)
    requires FuncsMatch(l.funcs, l.keys, syms, ps) && NoneAnswers(l.funcs, l.keys, e.key, e.addr)
    ensures !IsRegistered(syms, ps, e)
  {
    if IsRegistered(syms, ps, e) {
      var j :| 0 <= j < |ps| && RegistrationOf(syms, ps[j]) == e;
      assert Answers(l.funcs, l.keys, e.key, e.addr, j);
    }
  }

  /** What is known of the current list when a function starts. */
  lemma FuncStarts(v: State, w: State, vals: FuncVals, d: Decls, syms: seq<Symbol>, tops: seq<nat>, i: nat)
    requires Projected(v, vals, d, syms, tops) && i < |syms| && syms[i].body.FuncStart? && Grows(v, w)
    ensures d.cur == Selected(syms, tops) && d.cur < |d.lists| && HeaderMatches(Cur(d), syms, tops + [i], d.cur)
    ensures Cur(d).symbols == SymbolsOf(syms, tops + [i], d.cur)
    ensures VarsMatch(w, Cur(d).vars, syms, VarsOf(syms, tops + [i], d.cur))
    ensures LinesOf(syms, tops + [i], d.cur) == Cur(d).lines + LinesFrom(syms, tops, i)
    ensures FuncsMatch(Cur(d).funcs, Cur(d).keys, syms, FuncsOf(syms, tops, d.cur))
    ensures FuncsHold(v, vals, Cur(d).funcs, syms, tops, d.cur, FuncsOf(syms, tops, d.cur))
    ensures FuncsOf(syms, tops + [i], d.cur)
      == FuncsOf(syms, tops, d.cur)
        + (if IsRegistered(syms, FuncsOf(syms, tops, d.cur), RegistrationOf(syms, i)) then [] else [i])
  {
    hide Projected, Grows, SymbolsOf, VarsOf, FuncsOf, LinesOf, Selected, VarsMatch, FuncsMatch, FuncsHold,
      HeaderMatches, LinesFrom, IsRegistered;
    CurMatches(v, vals, d, syms, tops);
    OneMoreFor(syms, tops, i, d.cur);
    OneMoreFunc(syms, tops, i, d.cur);
    HeaderStays(Cur(d), syms, tops, i, d.cur);
    VarsMatchStays(v, w, Cur(d).vars, syms, VarsOf(syms, tops, d.cur));
    assert FuncsOf(syms, tops, d.cur) + [] == FuncsOf(syms, tops, d.cur);
  }

  lemma FirstIsRegistered(syms: seq<Symbol>, ps: seq<nat>, e: Registration, k: nat)
    requires IsFirstOf(syms, ps, e, k)
    ensures IsRegistered(syms, ps, e)
  {
  }

  /** The start line of the function found is the one its bodies have given it. */
  lemma FirstStartLine(v: State, vals: FuncVals, fs: seq<C.FuncDecl>, syms: seq<Symbol>, tops: seq<nat>, k: nat,
    ps: seq<nat>, e: Registration, first: nat)
    requires FuncsHold(v, vals, fs, syms, tops, k, ps) && IsFirstOf(syms, ps, e, first)
    ensures fs[first] in vals && vals[fs[first]].lineStart == StartLine(syms, Reads(syms, tops, k, e))
    ensures Tells(v, vals[fs[first]], syms, Reads(syms, tops, k, e))
  {
    hide BodyMatches, StoryOf, OriginMatches;
    assert FuncHolds(v, vals, fs[first], syms, tops, k, ps, first);
    FirstReads(syms, tops, k, ps, e, first);
  }

  /** Whether the function found is read is a matter of its start line. */
  lemma FoundIsReadAt(v: State, vals: FuncVals, d: Decls, syms: seq<Symbol>, tops: seq<nat>, i: nat, f: C.FuncDecl)
    returns (first: nat)
    requires Projected(v, vals, d, syms, tops) && i < |syms| && syms[i].body.FuncStart? && d.cur < |d.lists|
    requires |Cur(d).funcs| == |Cur(d).keys|
    requires IsFirst(Cur(d).funcs, Cur(d).keys, RegistrationOf(syms, i).key, RegistrationOf(syms, i).addr, f)
    ensures first < |Cur(d).funcs| && Cur(d).funcs[first] == f && f in vals
    ensures IsFirstOf(syms, FuncsOf(syms, tops, d.cur), RegistrationOf(syms, i), first)
    ensures IsReadAt(syms, tops, i) <==> vals[f].lineStart == 0
    ensures Tells(v, vals[f], syms, Reads(syms, tops, d.cur, RegistrationOf(syms, i)))
  {
    hide Projected, SymbolsOf, VarsOf, FuncsOf, LinesOf, Selected, VarsMatch, FuncsMatch, FuncsHold, HeaderMatches;
    hide RegistrationOf, Reads, IsFirstOf, StartLine, Tells, IsFirst;
    CurMatches(v, vals, d, syms, tops);
    var ps, e := FuncsOf(syms, tops, d.cur), RegistrationOf(syms, i);
    first := FoundFirst(Cur(d), syms, ps, e, f);
    FirstStartLine(v, vals, Cur(d).funcs, syms, tops, d.cur, ps, e, first);
  }

  /** A function that has to be added is read. */
  lemma NewIsReadAt(v: State, vals: FuncVals, d: Decls, syms: seq<Symbol>, tops: seq<nat>, i: nat, x: PF.Found)
    requires Projected(v, vals, d, syms, tops) && i < |syms| && syms[i].body.FuncStart? && d.cur < |d.lists|
    requires PF.IsNew(x, d, RegistrationOf(syms, i).key, RegistrationOf(syms, i).addr)
    ensures IsReadAt(syms, tops, i) && x.line == 0
  {
    hide Projected, SymbolsOf, VarsOf, FuncsOf, LinesOf, Selected, VarsMatch, FuncsMatch, FuncsHold, HeaderMatches,
      RegistrationOf, Reads, NoneAnswers;
    CurMatches(v, vals, d, syms, tops);
    var ps, e := FuncsOf(syms, tops, d.cur), RegistrationOf(syms, i);
    NoneFound(Cur(d), syms, ps, e);
    if Reads(syms, tops, d.cur, e) != [] { ReadIsRegistered(syms, tops, d.cur, e); }
  }

  /** A function that was read before: its records change nothing. */
  lemma SkippedRecord(v: State, w: State, vals: FuncVals, vals': FuncVals, d: Decls, syms: seq<Symbol>, tops: seq<nat>,
    i: nat, first: nat)
    requires Projected(v, vals, d, syms, tops) && i < |syms| && syms[i].body.FuncStart? && Grows(v, w)
    requires d.cur < |d.lists| && OthersSame(d, vals, vals') && SameValues(vals, vals', Cur(d).funcs)
    requires IsFirstOf(syms, FuncsOf(syms, tops, d.cur), RegistrationOf(syms, i), first) && first < |Cur(d).funcs|
    requires Cur(d).funcs[first] in vals && vals[Cur(d).funcs[first]].lineStart != 0
    ensures !IsReadAt(syms, tops, i) && Projected(w, vals', d, syms, tops + [i])
  {
    hide Projected, Grows, SymbolsOf, VarsOf, FuncsOf, LinesOf, Selected, VarsMatch, FuncsMatch, FuncsHold,
      HeaderMatches;
    hide SameValues, OthersSame, RegistrationOf, Reads, IsFirstOf, IsRegistered, StartLine;
    FuncStarts(v, w, vals, d, syms, tops, i);
    var ps, e := FuncsOf(syms, tops, d.cur), RegistrationOf(syms, i);
    FirstStartLine(v, vals, Cur(d).funcs, syms, tops, d.cur, ps, e, first);
    FirstIsRegistered(syms, ps, e, first);
    assert ps + [] == ps && Cur(d).lines + [] == Cur(d).lines;
    SkippedHolds(v, w, vals, vals', Cur(d).funcs, syms, tops, i, d.cur, ps);
    OneList(v, w, vals, vals', d, Cur(d), syms, tops, i);
    assert WithCur(d, Cur(d)) == d;
  }

  lemma ChangesOnlyOne(vals: FuncVals, vals': FuncVals, fs: seq<C.FuncDecl>, first: nat)
    requires first < |fs| && NoDup(fs) && OnlyChanges(vals, vals', fs[first]) && forall f | f in fs :: f in vals
    ensures forall j | 0 <= j < |fs| && j != first :: fs[j] in vals && fs[j] in vals' && vals'[fs[j]] == vals[fs[j]]
  {
    forall j | 0 <= j < |fs| && j != first ensures fs[j] in vals && fs[j] != fs[first] {
      assert fs[j] in fs;
    }
  }

  /** A function that is there, and is read. */
  lemma ReadRecord(v: State, w: State, vals: FuncVals, vals': FuncVals, d: Decls, syms: seq<Symbol>, tops: seq<nat>,
    i: nat, first: nat,
    taken: seq<string>, cs: seq<Content>, qs: seq<C.Node>, m: Machine)
    requires Projected(v, vals, d, syms, tops) && i < |syms| && syms[i].body.FuncStart? && Grows(v, w)
    requires d.cur < |d.lists| && OthersSame(d, vals, vals') && NoDup(Cur(d).funcs)
    requires IsFirstOf(syms, FuncsOf(syms, tops, d.cur), RegistrationOf(syms, i), first) && first < |Cur(d).funcs|
    requires OnlyChanges(vals, vals', Cur(d).funcs[first])
    requires Cur(d).funcs[first] in vals && Cur(d).funcs[first] in vals' && vals[Cur(d).funcs[first]].lineStart == 0
    requires IsReadInto(w, vals[Cur(d).funcs[first]], vals'[Cur(d).funcs[first]], syms, i, taken, cs, qs, m)
    requires taken == NamesOf(syms, StoryOf(syms, Reads(syms, tops, d.cur, RegistrationOf(syms, i))).params)
    requires PF.EndFrom(syms, i + 1) < |syms|
    ensures IsReadAt(syms, tops, i)
    ensures Projected(w, vals', WithLines(d, PF.FuncLines(syms, i, PF.EndFrom(syms, i + 1))), syms, tops + [i])
  {
    hide Projected, Grows, SymbolsOf, VarsOf, FuncsOf, LinesOf, Selected, VarsMatch, FuncsMatch, FuncsHold,
      HeaderMatches;
    hide OthersSame, RegistrationOf, Reads, IsFirstOf, IsRegistered, StartLine, IsReadInto, OnlyChanges, NoDup, StoryOf,
      NamesOf;
    FuncStarts(v, w, vals, d, syms, tops, i);
    var fs, ps, e := Cur(d).funcs, FuncsOf(syms, tops, d.cur), RegistrationOf(syms, i);
    FirstStartLine(v, vals, fs, syms, tops, d.cur, ps, e, first);
    FirstIsRegistered(syms, ps, e, first);
    assert ps + [] == ps;
    HoldersHaveValues(v, vals, fs, syms, tops, d.cur, ps);
    ChangesOnlyOne(vals, vals', fs, first);
    ReadHolds(v, w, vals, vals', fs, syms, tops, i, d.cur, ps, first, cs, qs, m);
    var l' := Cur(d).(lines := Cur(d).lines + PF.FuncLines(syms, i, PF.EndFrom(syms, i + 1)));
    SameHeader(Cur(d), l', syms, tops + [i], d.cur);
    OneList(v, w, vals, vals', d, l', syms, tops, i);
  }

  lemma HoldersHaveValues(v: State, vals: FuncVals, fs: seq<C.FuncDecl>, syms: seq<Symbol>, tops: seq<nat>, k: nat,
    ps: seq<nat>)
    requires FuncsHold(v, vals, fs, syms, tops, k, ps)
    ensures |fs| == |ps| && forall f | f in fs :: f in vals
  {
    hide OriginMatches, Tells, ReadsOf;
    forall f | f in fs ensures f in vals {
      var j :| 0 <= j < |fs| && fs[j] == f;
      assert FuncHolds(v, vals, fs[j], syms, tops, k, ps, j);
    }
  }

  /** The value a function has before its body is read. */
  function Unread(v: C.Var): FuncVal {
    FuncVal(v, "", 0, 0, [], [])
  }

  /** A key is in the index exactly if some function was registered under it. */
  lemma KeyInIndex(l: Listed, syms: seq<Symbol>, ps: seq<nat>, key: string)
    requires IsIndex(l.index, l.funcs, l.keys) && FuncsMatch(l.funcs, l.keys, syms, ps)
    ensures key in l.index <==> exists j | 0 <= j < |ps| :: RegistrationOf(syms, ps[j]).key == key
  {
    hide RegistrationOf;
    KeyedSome(l.funcs, l.keys, key);
    if j :| 0 <= j < |ps| && RegistrationOf(syms, ps[j]).key == key { assert l.keys[j] == key; }
    if j :| 0 <= j < |l.keys| && l.keys[j] == key { assert RegistrationOf(syms, ps[j]).key == key; }
  }

  lemma {:induction false} KeyedSome(fs: seq<C.FuncDecl>, keys: seq<string>, key: string)
    requires |fs| == |keys|
    ensures Keyed(fs, keys, key) != [] <==> exists j | 0 <= j < |keys| :: keys[j] == key
  {
    if fs != [] {
      var n := |fs| - 1;
      KeyedSome(fs[..n], keys[..n], key);
      if j :| 0 <= j < |keys| && keys[j] == key {
        if j < n { assert keys[..n][j] == key; }
      }
    }
  }

  lemma StubOrigin(w: State, d: Decls, x: PF.Found, syms: seq<Symbol>, ps: seq<nat>, i: nat)
    requires d.cur < |d.lists| && i < |syms| && syms[i].body.FuncStart?
    requires IsIndex(Cur(d).index, Cur(d).funcs, Cur(d).keys) && FuncsMatch(Cur(d).funcs, Cur(d).keys, syms, ps)
    requires PF.IsNew(x, d, RegistrationOf(syms, i).key, RegistrationOf(syms, i).addr)
    requires x.t in w.g && w.g[x.t] == C.Func(C.Basic(C.Void), [], false)
    ensures OriginMatches(w, x.f.size, Unread(x.v), syms, ps + [i], |ps|)
  {
    hide IsIndex, NoneAnswers, FuncsMatch;
    var e := RegistrationOf(syms, i);
    AddressName(e.key, e.addr);
    hide IsAddressName;
    KeyInIndex(Cur(d), syms, ps, e.key);
    hide RegistrationOf;
    var qs := ps + [i];
    assert qs[|ps|] == i && forall l | 0 <= l < |ps| :: qs[l] == ps[l];
    assert (exists l | 0 <= l < |ps| :: RegistrationOf(syms, qs[l]).key == e.key) <==> e.key in Cur(d).index by {
      if l :| 0 <= l < |ps| && RegistrationOf(syms, ps[l]).key == e.key {
        assert RegistrationOf(syms, qs[l]).key == e.key;
      }
    }
  }

  /** A function that is added, and read. */
  lemma NewRecord(v: State, w: State, vals: FuncVals, vals': FuncVals, d: Decls, x: PF.Found, syms: seq<Symbol>,
    tops: seq<nat>, i: nat,
    cs: seq<Content>, qs: seq<C.Node>, m: Machine)
    requires Projected(v, vals, d, syms, tops) && i < |syms| && syms[i].body.FuncStart? && Grows(v, w)
    requires d.cur < |d.lists| && OthersSame(d, vals, vals') && SameValues(vals, vals', Cur(d).funcs)
    requires PF.IsNew(x, d, RegistrationOf(syms, i).key, RegistrationOf(syms, i).addr) && x.f !in Cur(d).funcs
    requires IsIndex(Cur(d).index, Cur(d).funcs, Cur(d).keys)
    requires x.t in w.g && w.g[x.t] == C.Func(C.Basic(C.Void), [], false)
    requires x.f in vals' && IsReadInto(w, Unread(x.v), vals'[x.f], syms, i, [], cs, qs, m)
    requires PF.EndFrom(syms, i + 1) < |syms|
    ensures IsReadAt(syms, tops, i)
    ensures Projected(w, vals', WithLines(x.lists, PF.FuncLines(syms, i, PF.EndFrom(syms, i + 1))), syms, tops + [i])
  {
    hide Projected, Grows, SymbolsOf, VarsOf, FuncsOf, LinesOf, Selected, VarsMatch, FuncsMatch, FuncsHold,
      HeaderMatches;
    hide OthersSame, RegistrationOf, Reads, IsFirstOf, IsRegistered, IsReadInto, IsIndex, NoneAnswers, OriginMatches,
      PF.FuncLines, LinesFrom;
    FuncStarts(v, w, vals, d, syms, tops, i);
    var l, fs, ps, e, f := Cur(d), Cur(d).funcs, FuncsOf(syms, tops, d.cur), RegistrationOf(syms, i), x.f;
    var mid := vals'[f := Unread(x.v)];
    NoneFound(l, syms, ps, e);
    StubOrigin(w, d, x, syms, ps, i);
    AddedHolds(v, w, vals, mid, fs, f, syms, tops, i, d.cur, ps);
    NewReadHolds(w, mid, vals', fs, f, syms, tops, i, d.cur, ps, cs, qs, m);
    OneMoreKey(l, syms, ps, f, i, e.key);
    ReadLines(syms, tops, i);
    var l' := WithFunc(l, f, e.key).(lines := l.lines + PF.FuncLines(syms, i, PF.EndFrom(syms, i + 1)));
    SameHeader(l, l', syms, tops + [i], d.cur);
    OneList(v, w, vals, vals', d, l', syms, tops, i);
    assert WithLines(x.lists, PF.FuncLines(syms, i, PF.EndFrom(syms, i + 1))) == WithCur(d, l');
  }

  lemma ReadLines(syms: seq<Symbol>, tops: seq<nat>, i: nat)
    requires i < |syms| && syms[i].body.FuncStart? && PF.EndFrom(syms, i + 1) < |syms|
    requires Reads(syms, tops, Selected(syms, tops), RegistrationOf(syms, i)) == []
    ensures IsReadAt(syms, tops, i) && LinesFrom(syms, tops, i) == PF.FuncLines(syms, i, PF.EndFrom(syms, i + 1))
  {
  }

  lemma NewReadHolds(w: State, mid: FuncVals, vals': FuncVals, fs: seq<C.FuncDecl>, f: C.FuncDecl, syms: seq<Symbol>,
    tops: seq<nat>, i: nat, k: nat, ps: seq<nat>, cs: seq<Content>, qs: seq<C.Node>, m: Machine)
    requires FuncsHold(w, mid, fs + [f], syms, tops, k, ps + [i]) && i < |syms| && k == Selected(syms, tops)
      && syms[i].body.FuncStart?
    requires IsFirstOf(syms, ps + [i], RegistrationOf(syms, i), |ps|)
      && Reads(syms, tops, k, RegistrationOf(syms, i)) == []
    requires f in mid && f in vals' && mid == vals'[f := mid[f]] && f !in fs
    requires IsReadInto(w, mid[f], vals'[f], syms, i, [], cs, qs, m)
    ensures FuncsHold(w, vals', fs + [f], syms, tops + [i], k, ps + [i])
  {
    hide Selected, FuncsHold, RegistrationOf, IsFirstOf, IsReadInto;
    var gs := fs + [f];
    GrowsRefl(w);
    HoldersHaveValues(w, mid, gs, syms, tops, k, ps + [i]);
    forall j | 0 <= j < |gs| && j != |fs| ensures gs[j] in mid && gs[j] in vals' && vals'[gs[j]] == mid[gs[j]] {
      assert gs[j] in fs && gs[j] in gs;
    }
    assert gs[|fs|] == f;
    ReadHolds(w, w, mid, vals', gs, syms, tops, i, k, ps + [i], |ps|, cs, qs, m);
  }

  // ----- overlays -----

  lemma SameLists(v: State, vals: FuncVals, l: Listed, syms: seq<Symbol>, tops: seq<nat>, i: nat, k: nat)
    requires ListMatches(v, vals, l, syms, tops, k) && i < |syms| && (syms[i].body.Overlay? || syms[i].body.SetOverlay?)
    ensures ListMatches(v, vals, l, syms, tops + [i], k)
  {
    hide SymbolsOf, VarsOf, FuncsOf, LinesOf, Selected, VarsMatch, FuncsMatch, FuncsHold, HeaderMatches;
    OneMoreFor(syms, tops, i, k);
    OneMoreFunc(syms, tops, i, k);
    HeaderStays(l, syms, tops, i, k);
    GrowsRefl(v);
    HoldersHaveValues(v, vals, l.funcs, syms, tops, k, FuncsOf(syms, tops, k));
    ElsewhereHolds(v, v, vals, vals, l.funcs, syms, tops, i, k, FuncsOf(syms, tops, k));
    assert LinesOf(syms, tops, k) + [] == LinesOf(syms, tops, k);
  }

  /** What a new overlay lists: nothing, under the header its record gives it. */
  lemma NothingMatches(v: State, vals: FuncVals, syms: seq<Symbol>, tops: seq<nat>, i: nat)
    requires i < |syms| && syms[i].body.Overlay?
    ensures ListMatches(v, vals, NewListed(syms[i].hdr.value, syms[i].body.id, syms[i].body.length), syms,
      tops + [i], 1 + Declared(syms, tops))
  {
    var k := 1 + Declared(syms, tops);
    NothingBefore(syms, tops, k);
    NothingAboveDeclared(syms, tops);
    OneMoreFor(syms, tops, i, k);
    OneMoreFunc(syms, tops, i, k);
    OneMore(syms, tops, i);
    hide SymbolsOf, VarsOf, FuncsOf, LinesOf, Selected, Declarations, Registers, LinesFrom;
    var l := NewListed(syms[i].hdr.value, syms[i].body.id, syms[i].body.length);
    EmptyMatches(v, vals, l, syms, tops + [i], k);
  }

  /** A list with nothing in it, where there is nothing to list. */
  lemma EmptyMatches(v: State, vals: FuncVals, l: Listed, syms: seq<Symbol>, tops: seq<nat>, k: nat)
    requires HeaderMatches(l, syms, tops, k) && l == NewListed(l.addr, l.id, l.length)
    requires SymbolsOf(syms, tops, k) == [] && VarsOf(syms, tops, k) == [] && FuncsOf(syms, tops, k) == []
      && LinesOf(syms, tops, k) == []
    ensures ListMatches(v, vals, l, syms, tops, k)
  {
    hide SymbolsOf, VarsOf, FuncsOf, LinesOf, HeaderMatches, DeclMatches;
  }

  lemma OverlayRecord(v: State, vals: FuncVals, d: Decls, syms: seq<Symbol>, tops: seq<nat>, i: nat)
    requires Projected(v, vals, d, syms, tops) && i < |syms| && syms[i].body.Overlay?
    ensures Projected(v, vals, WithOverlay(d, syms[i].hdr.value, syms[i].body.id, syms[i].body.length), syms,
      tops + [i])
  {
    OneMore(syms, tops, i);
    NothingAboveDeclared(syms, tops);
    hide Declared, DeclaredAs, Selected, ListMatches;
    var d' := WithOverlay(d, syms[i].hdr.value, syms[i].body.id, syms[i].body.length);
    NothingMatches(v, vals, syms, tops, i);
    forall k | 0 <= k < |d'.lists| ensures ListMatches(v, vals, d'.lists[k], syms, tops + [i], k) {
      if k < |d.lists| { SameLists(v, vals, d.lists[k], syms, tops, i, k); }
    }
    forall id: uint32 ensures IdMatches(d', syms, tops + [i], id) {
      assert IdMatches(d, syms, tops, id);
    }
  }

  /** Selecting an overlay succeeds exactly if one was declared with the ID. */
  lemma SelectRecord(v: State, vals: FuncVals, d: Decls, syms: seq<Symbol>, tops: seq<nat>, i: nat)
    requires Projected(v, vals, d, syms, tops) && i < |syms| && syms[i].body.SetOverlay?
    ensures syms[i].hdr.value in d.ids <==> DeclaredAs(syms, tops, syms[i].hdr.value) != 0
    ensures syms[i].hdr.value in d.ids ==> Projected(v, vals, d.(cur := d.ids[syms[i].hdr.value]), syms, tops + [i])
  {
    OneMore(syms, tops, i);
    NothingAboveDeclared(syms, tops);
    hide Declared, DeclaredAs, Selected, ListMatches;
    var chosen := syms[i].hdr.value;
    assert IdMatches(d, syms, tops, chosen);
    if chosen in d.ids {
      var d' := d.(cur := d.ids[chosen]);
      forall k | 0 <= k < |d'.lists| ensures ListMatches(v, vals, d'.lists[k], syms, tops + [i], k) {
        SameLists(v, vals, d.lists[k], syms, tops, i, k);
      }
      forall id: uint32 ensures IdMatches(d', syms, tops + [i], id) {
        assert IdMatches(d, syms, tops, id);
      }
    }
  }
}

// Which overlay is selected at a record, and what each overlay lists, by positions in the file instead of
// from record to record (csym/parse_decls.go).

module OverlayFacts {
  import opened Ints
  import opened Records
  import opened Selections
  import opened Naming
  import opened Csym
  import opened BlockTree
  import opened DeclLists
  import opened GlobalDecls
  import opened ClassNumbers
  import opened OverlayRun
  import opened FuncRun
  import Projection
  import DS = DeclScan
  import LN = LineNumbers
  import PF = ParseFunc

  // ----- the records of the main loop -----

  /** What lies between two records of the main loop, one behind the other: nothing; or, behind the start of
      a function, its body up to the first function end; or, behind the start of line numbers, line records
      up to the first other record, and the end marker if that is one. */
  predicate IsNext(syms: seq<Symbol>, i: nat, n: nat)
    requires i < |syms|
  {
    if syms[i].body.FuncStart? then
      && (forall k | i < k < n - 1 && k < |syms| :: !syms[k].body.FuncEnd?)
      && i + 1 < n && (if n <= |syms| then syms[n - 1].body.FuncEnd? else n == |syms| + 1)
    else if syms[i].body.SetSLD2? then
      exists e | i < e <= |syms| :: LinesUpTo(syms, i, e)
        && n == if e < |syms| && syms[e].body.EndSLD? then e + 1 else e
    else n == i + 1
  }

  /** A record that belongs to line numbers: an increment, or a new line. */
  predicate IsLineRecord(s: Symbol) {
    s.body.IncSLD? || s.body.IncSLDByte? || s.body.IncSLDWord? || s.body.SetSLD? || s.body.SetSLD2?
  }

  predicate LinesUpTo(syms: seq<Symbol>, i: nat, e: nat) {
    e <= |syms| && (forall k | i < k < e :: IsLineRecord(syms[k])) && (e < |syms| ==> !IsLineRecord(syms[e]))
  }

  lemma NextIs(syms: seq<Symbol>, i: nat)
    requires i < |syms|
    ensures IsNext(syms, i, NextTop(syms, i))
  {
    if syms[i].body.SetSLD2? {
      var e := LN.LineStop(syms, i + 1);
      assert LinesUpTo(syms, i, e);
    }
  }

  /** The records of the main loop: the first of the file, and behind each the next, to the end. */
  lemma {:induction false} TopsAre(syms: seq<Symbol>, i: nat) returns (end: nat)
    requires i < |syms|
    ensures var tops := TopsFrom(syms, i);
      && tops != [] && tops[0] == i && (forall m | 0 <= m < |tops| :: tops[m] < |syms|)
      && (forall m | 0 <= m < |tops| - 1 :: IsNext(syms, tops[m], tops[m + 1]))
      && end >= |syms| && IsNext(syms, tops[|tops| - 1], end)
    decreases |syms| - i
  {
    hide IsNext;
    NextIs(syms, i);
    var next := NextTop(syms, i);
    if next < |syms| {
      end := TopsAre(syms, next);
    } else {
      end := next;
    }
  }

  // ----- overlays -----

  predicate DeclaresOverlay(syms: seq<Symbol>, tops: seq<nat>, m: nat) {
    m < |tops| && tops[m] < |syms| && syms[tops[m]].body.Overlay?
  }

  predicate DeclaresId(syms: seq<Symbol>, tops: seq<nat>, m: nat, id: uint32) {
    DeclaresOverlay(syms, tops, m) && syms[tops[m]].body.id == id
  }

  predicate SelectsOverlay(syms: seq<Symbol>, tops: seq<nat>, m: nat) {
    m < |tops| && tops[m] < |syms| && syms[tops[m]].body.SetOverlay?
  }

  lemma Before(tops: seq<nat>, n: nat)
    requires n < |tops|
    ensures tops[..n + 1] != [] && tops[..n + 1][n] == tops[n] && tops[..n + 1][..n] == tops[..n]
  {
  }

  /** The overlays are the records that declare one, in order. */
  lemma {:induction false} DeclarationsAre(syms: seq<Symbol>, tops: seq<nat>, n: nat) returns (ms: seq<nat>)
    requires n <= |tops|
    ensures Selects(ms, 0, n, (m: nat) => DeclaresOverlay(syms, tops, m))
    ensures var ds := Declarations(syms, tops[..n]);
      |ds| == |ms| && forall q | 0 <= q < |ms| :: ms[q] < |tops| && ds[q] == tops[ms[q]]
  {
    hide Selects;
    var has := (m: nat) => DeclaresOverlay(syms, tops, m);
    if n == 0 {
      ms := [];
      SelectsNone(0, has);
    } else {
      var before := DeclarationsAre(syms, tops, n - 1);
      Before(tops, n - 1);
      SelectsLast(before, 0, n - 1, has);
      ms := before + (if has(n - 1) then [n - 1] else []);
    }
  }

  /** An ID stands for the overlay that is declared last under it. */
  ghost predicate IsDeclaredAs(syms: seq<Symbol>, tops: seq<nat>, n: nat, id: uint32, k: nat)
    requires n <= |tops|
  {
    if k == 0 then forall m: nat | m < n :: !DeclaresId(syms, tops, m, id)
    else
      exists m: nat | m < n :: DeclaresId(syms, tops, m, id) && IsCount(syms, tops, m, k)
        && forall l | m < l < n :: !DeclaresId(syms, tops, l, id)
  }

  /** Overlay k is declared by the m-th record: it is the k-th that is. */
  ghost predicate IsCount(syms: seq<Symbol>, tops: seq<nat>, m: nat, k: nat) {
    k == |DeclaringTo(syms, tops, m)|
  }

  function DeclaringTo(syms: seq<Symbol>, tops: seq<nat>, n: nat): set<nat> {
    set l: nat | l <= n && DeclaresOverlay(syms, tops, l)
  }

  lemma DeclaringNext(syms: seq<Symbol>, tops: seq<nat>, n: nat)
    ensures |DeclaringTo(syms, tops, n + 1)|
      == |DeclaringTo(syms, tops, n)| + (if DeclaresOverlay(syms, tops, n + 1) then 1 else 0)
    ensures |DeclaringTo(syms, tops, 0)| == if DeclaresOverlay(syms, tops, 0) then 1 else 0
  {
    assert DeclaringTo(syms, tops, n + 1)
      == DeclaringTo(syms, tops, n) + (if DeclaresOverlay(syms, tops, n + 1) then {n + 1} else {});
    assert DeclaringTo(syms, tops, 0) == if DeclaresOverlay(syms, tops, 0) then {0} else {};
  }

  lemma DeclaredNext(syms: seq<Symbol>, tops: seq<nat>, n: nat)
    requires n < |tops|
    ensures Declared(syms, tops[..n + 1])
      == Declared(syms, tops[..n]) + (if DeclaresOverlay(syms, tops, n) then 1 else 0)
    ensures Declared(syms, tops[..0]) == 0
  {
    Before(tops, n);
  }

  lemma {:induction false} DeclaredCount(syms: seq<Symbol>, tops: seq<nat>, n: nat)
    requires n < |tops|
    ensures IsCount(syms, tops, n, Declared(syms, tops[..n + 1]))
  {
    hide Declared, DeclaringTo;
    DeclaredNext(syms, tops, n);
    if n == 0 {
      DeclaringNext(syms, tops, 0);
    } else {
      DeclaredCount(syms, tops, n - 1);
      DeclaringNext(syms, tops, n - 1);
    }
  }

  lemma {:induction false} DeclaredLast(syms: seq<Symbol>, tops: seq<nat>, n: nat, id: uint32)
    requires n <= |tops|
    ensures IsDeclaredAs(syms, tops, n, id, DeclaredAs(syms, tops[..n], id))
  {
    hide IsCount;
    if n > 0 {
      DeclaredLast(syms, tops, n - 1, id);
      Before(tops, n - 1);
      DeclaredCount(syms, tops, n - 1);
      if DeclaresId(syms, tops, n - 1, id) {
        DeclaredSome(syms, tops, n - 1);
      }
    }
  }

  lemma DeclaredSome(syms: seq<Symbol>, tops: seq<nat>, m: nat)
    requires DeclaresOverlay(syms, tops, m)
    ensures Declared(syms, tops[..m + 1]) > 0
  {
    Before(tops, m);
  }

  /** Overlay k is selected in front of the n-th record: by the last record that selects one, the overlay
      its value stood for then; the default binary, 0, if there is none. */
  ghost predicate IsSelected(syms: seq<Symbol>, tops: seq<nat>, n: nat, k: nat)
    requires n <= |tops|
  {
    if forall m: nat | m < n :: !SelectsOverlay(syms, tops, m) then k == 0
    else
      exists m: nat | m < n :: SelectsOverlay(syms, tops, m)
        && (forall l | m < l < n :: !SelectsOverlay(syms, tops, l))
        && IsDeclaredAs(syms, tops, m, syms[tops[m]].hdr.value, k)
  }

  lemma {:induction false} SelectedLast(syms: seq<Symbol>, tops: seq<nat>, n: nat)
    requires n <= |tops|
    ensures IsSelected(syms, tops, n, Selected(syms, tops[..n]))
  {
    hide IsDeclaredAs, DeclaredAs;
    if n > 0 {
      SelectedLast(syms, tops, n - 1);
      Before(tops, n - 1);
      if SelectsOverlay(syms, tops, n - 1) { DeclaredLast(syms, tops, n - 1, syms[tops[n - 1]].hdr.value); }
    }
  }

  // ----- what an overlay lists -----

  /** Record m is read while overlay k is selected. */
  predicate Belongs(syms: seq<Symbol>, tops: seq<nat>, k: nat, m: nat) {
    m < |tops| && tops[m] < |syms| && Selected(syms, tops[..m]) == k
  }

  predicate GivesSymbol(syms: seq<Symbol>, tops: seq<nat>, k: nat, m: nat) {
    Belongs(syms, tops, k, m) && (syms[tops[m]].body.Name1? || syms[tops[m]].body.Name2?)
  }

  /** The symbols of an overlay: one for each name record read while it is selected, in order. */
  lemma {:induction false} SymbolsAre(syms: seq<Symbol>, tops: seq<nat>, k: nat, n: nat) returns (ms: seq<nat>)
    requires n <= |tops|
    ensures Selects(ms, 0, n, (m: nat) => GivesSymbol(syms, tops, k, m))
    ensures var s := SymbolsOf(syms, tops[..n], k);
      |s| == |ms| && forall q | 0 <= q < |ms| ::
        GivesSymbol(syms, tops, k, ms[q]) && s[q] == NameAt(syms[tops[ms[q]]].hdr.value, syms[tops[ms[q]]].body.name)
  {
    hide Selects, Selected;
    var has := (m: nat) => GivesSymbol(syms, tops, k, m);
    if n == 0 {
      ms := [];
      SelectsNone(0, has);
    } else {
      var before := SymbolsAre(syms, tops, k, n - 1);
      Before(tops, n - 1);
      SelectsLast(before, 0, n - 1, has);
      ms := before + (if has(n - 1) then [n - 1] else []);
    }
  }

  predicate GivesVariable(syms: seq<Symbol>, tops: seq<nat>, k: nat, m: nat) {
    Belongs(syms, tops, k, m) && DeclaresGlobal(syms[tops[m]]) && !IsFuncWord(syms[tops[m]].body.typ)
  }

  /** The variables of an overlay: one for each global definition without a function type. */
  lemma {:induction false} VariablesAre(syms: seq<Symbol>, tops: seq<nat>, k: nat, n: nat) returns (ms: seq<nat>)
    requires n <= |tops|
    ensures Selects(ms, 0, n, (m: nat) => GivesVariable(syms, tops, k, m))
    ensures var ds := VarsOf(syms, tops[..n], k);
      |ds| == |ms| && forall q | 0 <= q < |ms| :: GivesVariable(syms, tops, k, ms[q]) && ds[q] == tops[ms[q]]
  {
    hide Selects, Selected, IsFuncWord;
    var has := (m: nat) => GivesVariable(syms, tops, k, m);
    if n == 0 {
      ms := [];
      SelectsNone(0, has);
    } else {
      var before := VariablesAre(syms, tops, k, n - 1);
      Before(tops, n - 1);
      SelectsLast(before, 0, n - 1, has);
      ms := before + (if has(n - 1) then [n - 1] else []);
    }
  }

  // ----- functions -----

  predicate DeclaresFunction(s: Symbol) {
    DeclaresGlobal(s) && IsFuncWord(s.body.typ)
  }

  /** Record m is one that can add a function: a global definition with a function type, or the start of a
      function. */
  predicate NamesFunction(syms: seq<Symbol>, tops: seq<nat>, k: nat, m: nat) {
    Belongs(syms, tops, k, m) && (DeclaresFunction(syms[tops[m]]) || syms[tops[m]].body.FuncStart?)
  }

  /** The record has this identifier made from its name, and this value. */
  predicate NamesIt(s: Symbol, e: Registration) {
    && (s.body.Def? || s.body.Def2? || s.body.FuncStart?)
    && ValidName(s.body.name) == e.key && s.hdr.value == e.addr
  }

  lemma RegistrationNames(syms: seq<Symbol>, i: nat, e: Registration)
    requires i < |syms| && (IsDecl(syms[i]) || syms[i].body.FuncStart?)
    ensures RegistrationOf(syms, i) == e <==> NamesIt(syms[i], e)
  {
  }

  /** Records l and m name one function. */
  predicate SameFunction(syms: seq<Symbol>, tops: seq<nat>, l: nat, m: nat) {
    && l < |tops| && m < |tops| && tops[l] < |syms| && tops[m] < |syms|
    && NamesIt(syms[tops[m]], RegistrationOf(syms, tops[l]))
  }

  /** Record m adds a function: a definition always does, the start of one only if no record before it, in
      the same overlay, names the same function. */
  predicate AddsFunction(syms: seq<Symbol>, tops: seq<nat>, k: nat, m: nat) {
    && NamesFunction(syms, tops, k, m)
    && (DeclaresFunction(syms[tops[m]])
        || forall l: nat | l < m :: NamesFunction(syms, tops, k, l) ==> !SameFunction(syms, tops, l, m))
  }

  /** What is registered before record n is what the records before it name. */
  lemma {:induction false} RegisteredAre(syms: seq<Symbol>, tops: seq<nat>, k: nat, n: nat, e: Registration)
    requires n <= |tops|
    ensures IsRegistered(syms, FuncsOf(syms, tops[..n], k), e)
      <==> exists l: nat | l < n :: NamesFunction(syms, tops, k, l) && RegistrationOf(syms, tops[l]) == e
  {
    hide RegistrationOf, Selected, IsFuncWord, IsRegistered;
    NoneRegistered(syms, e);
    if n > 0 {
      RegisteredAre(syms, tops, k, n - 1, e);
      Before(tops, n - 1);
      var ps := FuncsOf(syms, tops[..n - 1], k);
      MoreRegistered(syms, ps, tops[n - 1], e);
    }
  }

  lemma NoneRegistered(syms: seq<Symbol>, e: Registration)
    ensures !IsRegistered(syms, [], e)
  {
  }

  /** The functions of an overlay, each with the record that adds it. */
  lemma {:induction false} FunctionsAre(syms: seq<Symbol>, tops: seq<nat>, k: nat, n: nat) returns (ms: seq<nat>)
    requires n <= |tops|
    ensures Selects(ms, 0, n, (m: nat) => AddsFunction(syms, tops, k, m))
    ensures var ps := FuncsOf(syms, tops[..n], k);
      |ps| == |ms| && forall q | 0 <= q < |ms| :: AddsFunction(syms, tops, k, ms[q]) && ps[q] == tops[ms[q]]
  {
    hide Selects, Selected, IsFuncWord, RegistrationOf, IsRegistered;
    var has := (m: nat) => AddsFunction(syms, tops, k, m);
    if n == 0 {
      ms := [];
      SelectsNone(0, has);
    } else {
      var before := FunctionsAre(syms, tops, k, n - 1);
      Before(tops, n - 1);
      SelectsLast(before, 0, n - 1, has);
      AddsIfRegisters(syms, tops, k, n - 1);
      ms := before + (if has(n - 1) then [n - 1] else []);
    }
  }

  lemma AddsIfRegisters(syms: seq<Symbol>, tops: seq<nat>, k: nat, m: nat)
    requires m < |tops|
    ensures AddsFunction(syms, tops, k, m)
      <==> Belongs(syms, tops, k, m) && Registers(syms, tops[m], FuncsOf(syms, tops[..m], k))
  {
    hide Selected, IsFuncWord, RegistrationOf, IsRegistered, NamesIt;
    if NamesFunction(syms, tops, k, m) {
      var e := RegistrationOf(syms, tops[m]);
      RegisteredAre(syms, tops, k, m, e);
      forall l: nat | l < m && NamesFunction(syms, tops, k, l)
        ensures SameFunction(syms, tops, l, m) <==> RegistrationOf(syms, tops[l]) == e
      {
        RegistrationNames(syms, tops[m], RegistrationOf(syms, tops[l]));
      }
    }
  }

  /** Record m starts this function, in this overlay. */
  predicate StartsIt(syms: seq<Symbol>, tops: seq<nat>, k: nat, e: Registration, m: nat) {
    Belongs(syms, tops, k, m) && syms[tops[m]].body.FuncStart? && NamesIt(syms[tops[m]], e)
  }

  /** Record m is one whose body is read into this function: all its starts, up to and with the first that
      has a line other than 0. */
  predicate IsReadFrom(syms: seq<Symbol>, tops: seq<nat>, k: nat, e: Registration, m: nat) {
    && StartsIt(syms, tops, k, e, m)
    && forall l: nat | l < m :: StartsIt(syms, tops, k, e, l) ==> syms[tops[l]].body.line == 0
  }

  lemma {:induction false} ReadsAre(syms: seq<Symbol>, tops: seq<nat>, k: nat, e: Registration, n: nat)
    returns (ms: seq<nat>)
    requires n <= |tops|
    ensures Selects(ms, 0, n, (m: nat) => IsReadFrom(syms, tops, k, e, m))
    ensures var rs := Reads(syms, tops[..n], k, e);
      |rs| == |ms| && forall q | 0 <= q < |ms| :: IsReadFrom(syms, tops, k, e, ms[q]) && rs[q] == tops[ms[q]]
    ensures StartLine(syms, Reads(syms, tops[..n], k, e)) == 0
      <==> forall l: nat | l < n :: StartsIt(syms, tops, k, e, l) ==> syms[tops[l]].body.line == 0
  {
    hide Selects, Selected, RegistrationOf, NamesIt;
    var has := (m: nat) => IsReadFrom(syms, tops, k, e, m);
    if n == 0 {
      ms := [];
      SelectsNone(0, has);
    } else {
      var before := ReadsAre(syms, tops, k, e, n - 1);
      Before(tops, n - 1);
      if Belongs(syms, tops, k, n - 1) && syms[tops[n - 1]].body.FuncStart? {
        RegistrationNames(syms, tops[n - 1], e);
      }
      SelectsLast(before, 0, n - 1, has);
      ms := before + (if has(n - 1) then [n - 1] else []);
    }
  }

  // ----- where the declaration pass panics -----

  /** The function that starts at record m is read, not skipped: no start of it before, in the same overlay,
      has a line other than 0. */
  predicate IsRead(syms: seq<Symbol>, tops: seq<nat>, m: nat)
    requires m < |tops| && tops[m] < |syms|
  {
    forall l: nat | l < m ::
      StartsIt(syms, tops, Selected(syms, tops[..m]), RegistrationOf(syms, tops[m]), l) ==> syms[tops[l]].body.line == 0
  }

  /** The function end that belongs to a start. */
  predicate IsEndOf(syms: seq<Symbol>, i: nat, e: nat) {
    i < e < |syms| && syms[e].body.FuncEnd? && forall k | i < k < e :: !syms[k].body.FuncEnd?
  }

  /** Records i to e are a body that can be read. */
  predicate BodyReads(syms: seq<Symbol>, i: nat, e: nat)
    requires i < e <= |syms|
  {
    var first := i + 1;
    (forall k | first <= k < e :: FitsBody(syms[k])) && forall k | first <= k <= e :: Depth(syms, first, k) >= 0
  }

  /** Record m of the main loop does not make the program panic. */
  ghost predicate RecordFine(syms: seq<Symbol>, tops: seq<nat>, m: nat)
    requires m < |tops| && tops[m] < |syms|
  {
    var i := tops[m];
    var s := syms[i];
    if s.body.FuncStart? then
      exists e: nat :: IsEndOf(syms, i, e) && (IsRead(syms, tops, m) ==> BodyReads(syms, i, e))
    else if s.body.SetSLD2? then exists e: nat | e < |syms| :: i < e && LinesUpTo(syms, i, e)
    else if s.body.SetOverlay? then exists l: nat | l < m :: DeclaresId(syms, tops, l, s.hdr.value)
    else
      s.body.Name1? || s.body.Name2? || s.body.EndSLD? || s.body.Overlay? || PassesOver(s)
      || (DeclaresGlobal(s) && HasType(s))
  }

  lemma LinesFine(syms: seq<Symbol>, i: nat)
    requires i < |syms| && syms[i].body.SetSLD2?
    ensures LN.LinesOutcome(syms, i).Good? <==> exists e: nat | e < |syms| :: i < e && LinesUpTo(syms, i, e)
  {
    var stop := LN.LineStop(syms, i + 1);
    if stop < |syms| { assert LinesUpTo(syms, i, stop); }
    if e: nat :| e < |syms| && i < e && LinesUpTo(syms, i, e) {
      assert stop == |syms| ==> LN.IsLine(syms[e]);
    }
  }

  lemma BodyIsRead(syms: seq<Symbol>, i: nat, e: nat)
    requires i < e <= |syms|
    ensures Run(syms, [], START, i + 1, e).Good? <==> BodyReads(syms, i, e)
  {
    var first := i + 1;
    BodyReadsExactly(syms, [], first, e);
    assert Run(syms, [], START, first, e).Good?
      <==> (forall k | first <= k < e :: FitsBody(syms[k])) && forall k | first <= k <= e :: Depth(syms, first, k) >= 0;
  }

  lemma ReadIsRead(syms: seq<Symbol>, tops: seq<nat>, m: nat)
    requires m < |tops| && tops[m] < |syms|
    ensures Projection.IsReadAt(syms, tops[..m], tops[m]) <==> IsRead(syms, tops, m)
  {
    hide Reads, RegistrationOf, StartsIt, StartLine;
    var ms := ReadsAre(syms, tops, Selected(syms, tops[..m]), RegistrationOf(syms, tops[m]), m);
  }

  lemma FunctionFine(syms: seq<Symbol>, tops: seq<nat>, m: nat)
    requires m < |tops| && tops[m] < |syms| && syms[tops[m]].body.FuncStart?
    ensures DS.FuncOutcome(syms, tops[..m], tops[m]).Good? <==> RecordFine(syms, tops, m)
  {
    hide FitsBody, Depth, Reads, Run, RegistrationOf, StartsIt, StartLine;
    var i := tops[m];
    var e := PF.EndFrom(syms, i + 1);
    ReadIsRead(syms, tops, m);
    BodyIsRead(syms, i, e);
    hide BodyReads, IsRead;
    if e < |syms| { assert IsEndOf(syms, i, e); }
    if f: nat :| IsEndOf(syms, i, f) && (IsRead(syms, tops, m) ==> BodyReads(syms, i, f)) { assert f == e; }
  }

  lemma RecordIsFine(syms: seq<Symbol>, tops: seq<nat>, m: nat)
    requires m < |tops| && tops[m] < |syms|
    ensures DS.RecordOutcome(syms, tops[..m], tops[m]).Good? <==> RecordFine(syms, tops, m)
  {
    hide IsRead, HasType, IsEndOf, BodyReads, LinesUpTo, DS.FuncOutcome, LN.LinesOutcome, DeclaredAs;
    var s := syms[tops[m]];
    if s.body.FuncStart? {
      FunctionFine(syms, tops, m);
    } else if s.body.SetSLD2? {
      LinesFine(syms, tops[m]);
    } else if s.body.SetOverlay? {
      DeclaredLast(syms, tops, m, s.hdr.value);
    } else {
      PlainByNumber(syms, tops[..m], tops[m]);
    }
  }

  predicate RecordGood(syms: seq<Symbol>, tops: seq<nat>, m: nat)
    requires m < |tops|
  {
    tops[m] < |syms| && DS.RecordOutcome(syms, tops[..m], tops[m]).Good?
  }

  lemma TopsNext(syms: seq<Symbol>, i: nat)
    ensures TopsFrom(syms, i) == if i >= |syms| then [] else [i] + TopsFrom(syms, NextTop(syms, i))
  {
  }

  lemma DeclsNext(syms: seq<Symbol>, before: seq<nat>, i: nat)
    ensures i >= |syms| ==> DS.DeclsFrom(syms, before, i).Good?
    ensures i < |syms| ==>
      var r := DS.RecordOutcome(syms, before, i);
      DS.DeclsFrom(syms, before, i).Good? == (r.Good? && DS.DeclsFrom(syms, before + [i], r.value).Good?)
  {
    hide DS.RecordOutcome;
  }

  lemma {:induction false} AllRecords(syms: seq<Symbol>, before: seq<nat>, i: nat, tops: seq<nat>)
    requires tops == before + TopsFrom(syms, i)
    ensures DS.DeclsFrom(syms, before, i).Good? <==> forall m | |before| <= m < |tops| :: RecordGood(syms, tops, m)
    decreases |syms| - i
  {
    hide DS.RecordOutcome, DS.DeclsFrom, TopsFrom;
    var n := |before|;
    TopsNext(syms, i);
    DeclsNext(syms, before, i);
    if i < |syms| {
      assert tops[..n] == before && tops[n] == i;
      var r := DS.RecordOutcome(syms, before, i);
      assert RecordGood(syms, tops, n) <==> r.Good?;
      hide RecordGood;
      if r.Good? {
        AllRecords(syms, before + [i], r.value, tops);
        assert (forall m | n <= m < |tops| :: RecordGood(syms, tops, m))
          <==> forall m | n + 1 <= m < |tops| :: RecordGood(syms, tops, m);
      }
    }
  }

  /** The declaration pass succeeds exactly if no record of its main loop makes it panic. */
  lemma DeclsSucceedExactly(syms: seq<Symbol>)
    ensures var tops := TopsFrom(syms, 0);
      DS.DeclsOutcome(syms).Good? <==> forall m | 0 <= m < |tops| :: tops[m] < |syms| && RecordFine(syms, tops, m)
  {
    var tops := TopsFrom(syms, 0);
    TopsInside(syms, 0);
    hide DS.RecordOutcome, RecordFine, DS.DeclsFrom, TopsFrom, RecordGood;
    assert [] + tops == tops;
    AllRecords(syms, [], 0, tops);
    forall m | 0 <= m < |tops|
      ensures RecordGood(syms, tops, m) <==> tops[m] < |syms| && RecordFine(syms, tops, m)
    {
      GoodIsFine(syms, tops, m);
    }
  }

  lemma TopsInside(syms: seq<Symbol>, i: nat)
    ensures forall m | 0 <= m < |TopsFrom(syms, i)| :: TopsFrom(syms, i)[m] < |syms|
  {
    if i < |syms| { var end := TopsAre(syms, i); }
  }

  lemma GoodIsFine(syms: seq<Symbol>, tops: seq<nat>, m: nat)
    requires m < |tops|
    ensures RecordGood(syms, tops, m) <==> tops[m] < |syms| && RecordFine(syms, tops, m)
  {
    hide DS.RecordOutcome, RecordFine;
    if tops[m] < |syms| { RecordIsFine(syms, tops, m); }
  }
}

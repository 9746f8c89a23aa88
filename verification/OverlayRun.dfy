// Which record belongs to which overlay (csym/parse_decls.go).

module OverlayRun {
  import opened Ints
  import opened Records
  import opened Csym
  import opened DeclLists
  import opened GlobalDecls
  import LineNumbers
  import PF = ParseFunc

  // ----- the records outside function bodies and line groups -----

  /** Where parsing goes on after the record at i. */
  function NextTop(syms: seq<Symbol>, i: nat): (n: nat)
    requires i < |syms|
    ensures i < n
  {
    if syms[i].body.SetSLD2? then
      var e := LineNumbers.LineStop(syms, i + 1);
      if e < |syms| && syms[e].body.EndSLD? then e + 1 else e
    else if syms[i].body.FuncStart? then PF.EndFrom(syms, i + 1) + 1
    else i + 1
  }

  /** The records the main loop comes to, from i on. */
  function TopsFrom(syms: seq<Symbol>, i: nat): seq<nat>
    decreases |syms| - i
  {
    if i >= |syms| then [] else [i] + TopsFrom(syms, NextTop(syms, i))
  }

  // ----- overlays -----

  /** The records that declare overlays, in order. */
  function Declarations(syms: seq<Symbol>, tops: seq<nat>): seq<nat> {
    if tops == [] then []
    else
      var i := tops[|tops| - 1];
      Declarations(syms, tops[..|tops| - 1]) + (if i < |syms| && syms[i].body.Overlay? then [i] else [])
  }

  /** How many overlays these records declare. */
  function Declared(syms: seq<Symbol>, tops: seq<nat>): nat {
    |Declarations(syms, tops)|
  }

  /** The number of the overlay declared last with this ID; 0 if there is none. */
  function DeclaredAs(syms: seq<Symbol>, tops: seq<nat>, id: uint32): nat {
    if tops == [] then 0
    else
      var i := tops[|tops| - 1];
      if i < |syms| && syms[i].body.Overlay? && syms[i].body.id == id then Declared(syms, tops)
      else DeclaredAs(syms, tops[..|tops| - 1], id)
  }

  /** The overlay the last SetOverlay selects; the default binary, number 0, if there is none. */
  function Selected(syms: seq<Symbol>, tops: seq<nat>): nat {
    if tops == [] then 0
    else
      var i := tops[|tops| - 1];
      if i < |syms| && syms[i].body.SetOverlay? then DeclaredAs(syms, tops[..|tops| - 1], syms[i].hdr.value)
      else Selected(syms, tops[..|tops| - 1])
  }

  // ----- projections of the record stream -----

  predicate IsName(s: Symbol) {
    s.body.Name1? || s.body.Name2?
  }

  /** The symbols of overlay k: the names whose record it is selected for, in order. */
  function SymbolsOf(syms: seq<Symbol>, tops: seq<nat>, k: nat): seq<NameAt> {
    if tops == [] then []
    else
      var before, i := tops[..|tops| - 1], tops[|tops| - 1];
      SymbolsOf(syms, before, k)
      + (if i < |syms| && IsName(syms[i]) && Selected(syms, before) == k
         then [NameAt(syms[i].hdr.value, syms[i].body.name)] else [])
  }

  /** The records of the global variables of overlay k, in order. */
  function VarsOf(syms: seq<Symbol>, tops: seq<nat>, k: nat): seq<nat> {
    if tops == [] then []
    else
      var before, i := tops[..|tops| - 1], tops[|tops| - 1];
      VarsOf(syms, before, k)
      + (if i < |syms| && IsGlobal(syms[i]) && !IsFuncWord(syms[i].body.typ) && Selected(syms, before) == k then [i]
        else [])
  }

  lemma {:induction false} NothingAboveDeclared(syms: seq<Symbol>, tops: seq<nat>)
    ensures Selected(syms, tops) <= Declared(syms, tops)
      && forall id :: DeclaredAs(syms, tops, id) <= Declared(syms, tops)
  {
    if tops != [] { NothingAboveDeclared(syms, tops[..|tops| - 1]); }
  }

  // ----- one more record -----

  lemma Last(tops: seq<nat>, i: nat)
    ensures (tops + [i])[..|tops + [i]| - 1] == tops && (tops + [i])[|tops + [i]| - 1] == i
  {
  }

  /** What one more record does to the overlays. */
  lemma OneMore(syms: seq<Symbol>, tops: seq<nat>, i: nat)
    requires i < |syms|
    ensures Declarations(syms, tops + [i]) == Declarations(syms, tops) + (if syms[i].body.Overlay? then [i] else [])
    ensures Declared(syms, tops + [i]) == Declared(syms, tops) + (if syms[i].body.Overlay? then 1 else 0)
    ensures Selected(syms, tops + [i])
      == if syms[i].body.SetOverlay? then DeclaredAs(syms, tops, syms[i].hdr.value) else Selected(syms, tops)
    ensures forall id ::
      DeclaredAs(syms, tops + [i], id)
      == if syms[i].body.Overlay? && syms[i].body.id == id then Declared(syms, tops + [i])
        else DeclaredAs(syms, tops, id)
  {
    Last(tops, i);
  }
}

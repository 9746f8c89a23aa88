// The list of type definitions, and what each name stands for (csym/parse_types.go).

module Typedefs {
  import opened Records
  import C = CTypes
  import opened TypeGraph
  import opened TypeTrees
  import opened TagTables
  import opened Naming
  import opened TypesState
  import opened Scaffolds
  import opened TagGroups
  import opened Ledgers
  import opened GroupScan
  import opened EnumNames
  import opened Filling

  /** The k-th type definition says what its record says. */
  ghost predicate TypedefMatches(v: State, d: C.Node, s: Symbol) {
    && d in v.g && v.g[d].Decl? && v.g[d].addr == 0 && v.g[d].size == 0 && v.g[d].class_ == C.Typedef
    && (s.body.Def? || s.body.Def2?) && v.g[d].v.name == ValidName(s.body.name)
    && TypeMatches(v, v.g[d].v.typ, s.body.typ, DimsOf(s), TagTextOf(s))
  }

  /** The last definition of a name gives its meaning. */
  predicate NamesLast(v: State) {
    forall k | 0 <= k < |v.typedefs| :: IsLastNamed(v, k) ==> NamedIs(v, v.typedefs[k])
  }

  predicate NamedIs(v: State, d: C.Node) {
    d in v.g && v.g[d].Decl? && v.g[d].v.name in v.types && v.types[v.g[d].v.name] == C.Ref(d)
  }

  predicate IsLastNamed(v: State, k: nat)
    requires k < |v.typedefs|
  {
    forall l | k < l < |v.typedefs| :: !SameName(v, v.typedefs[k], v.typedefs[l])
  }

  predicate SameName(v: State, d: C.Node, e: C.Node) {
    d in v.g && e in v.g && v.g[d].Decl? && v.g[e].Decl? && v.g[d].v.name == v.g[e].v.name
  }

  /** The list of type definitions is the list of their records, in file order. */
  ghost predicate TypedefsMatch(v: State, syms: seq<Symbol>, i: nat)
    requires i <= |syms|
  {
    var ds := TypedefRecords(syms, i);
    && |v.typedefs| == |ds|
    && (forall k | 0 <= k < |ds| :: ds[k] < |syms| && TypedefMatches(v, v.typedefs[k], syms[ds[k]]))
    && NamesLast(v)
  }

  /** `parseTypedef`, once the type is known. */
  function Define(v: State, n: C.Node, d: C.Def): State
    requires d.Decl?
  {
    v.(g := v.g[n := d], types := v.types[d.v.name := C.Ref(n)], typedefs := v.typedefs + [n])
  }

  lemma TypedefStays(v: State, w: State, d: C.Node, s: Symbol)
    requires Grows(v, w) && TypedefMatches(v, d, s)
    ensures TypedefMatches(w, d, s) && w.g[d] == v.g[d]
  {
    assert Kept(v.g[d], w.g[d]);
    TypeMatchesStays(v, w, v.g[d].v.typ, s.body.typ, DimsOf(s), TagTextOf(s));
  }

  lemma GrowingKeepsTypedefs(v: State, w: State, syms: seq<Symbol>, i: nat, j: nat)
    requires i <= j <= |syms| && TypedefsMatch(v, syms, i) && Grows(v, w)
    requires w.typedefs == v.typedefs && w.types == v.types
    requires forall k | i <= k < j :: !IsTypedefRecord(syms[k])
    ensures TypedefsMatch(w, syms, j)
  {
    hide Grows, TypedefMatches, NamesLast;
    NoTypedefRecords(syms, i, j);
    var ds := TypedefRecords(syms, i);
    forall k | 0 <= k < |ds| ensures TypedefMatches(w, v.typedefs[k], syms[ds[k]]) && SameDef(v, w, v.typedefs[k]) {
      TypedefStays(v, w, v.typedefs[k], syms[ds[k]]);
      Matched(v, v.typedefs[k], syms[ds[k]]);
    }
    NamesStayLast(v, w);
  }

  predicate SameDef(v: State, w: State, d: C.Node) {
    d in v.g && d in w.g && w.g[d] == v.g[d]
  }

  lemma Matched(v: State, d: C.Node, s: Symbol)
    requires TypedefMatches(v, d, s)
    ensures d in v.g && v.g[d].Decl? && v.g[d].v.name == ValidName(s.body.name)
  {
  }

  lemma NamesStayLast(v: State, w: State)
    requires NamesLast(v) && w.typedefs == v.typedefs && w.types == v.types
    requires forall k | 0 <= k < |v.typedefs| :: SameDef(v, w, v.typedefs[k])
    ensures NamesLast(w)
  {
    forall k | 0 <= k < |w.typedefs| && IsLastNamed(w, k) ensures NamedIs(w, w.typedefs[k]) {
      forall l | k < l < |v.typedefs| ensures !SameName(v, v.typedefs[k], v.typedefs[l]) {
        assert !SameName(w, w.typedefs[k], w.typedefs[l]) && SameDef(v, w, v.typedefs[k])
          && SameDef(v, w, v.typedefs[l]);
      }
      assert IsLastNamed(v, k) && NamedIs(v, v.typedefs[k]) && SameDef(v, w, v.typedefs[k]);
    }
  }

  lemma DefiningNamesLast(v: State, n: C.Node, d: C.Def)
    requires NamesLast(v) && n !in v.g && d.Decl?
    requires forall k | 0 <= k < |v.typedefs| :: v.typedefs[k] in v.g && v.g[v.typedefs[k]].Decl?
    ensures NamesLast(Define(v, n, d))
  {
    var w := Define(v, n, d);
    var last := |v.typedefs|;
    forall k | 0 <= k < |w.typedefs| && IsLastNamed(w, k) ensures NamedIs(w, w.typedefs[k]) {
      if k < last {
        assert w.typedefs[last] == n && !SameName(w, w.typedefs[k], w.typedefs[last]);
        forall l | k < l < last ensures !SameName(v, v.typedefs[k], v.typedefs[l]) {
          assert !SameName(w, w.typedefs[k], w.typedefs[l]);
        }
        assert IsLastNamed(v, k) && NamedIs(v, v.typedefs[k]);
      }
    }
  }

  /** One more type definition. */
  lemma DefiningKeepsTypedefs(v: State, n: C.Node, d: C.Def, syms: seq<Symbol>, i: nat)
    requires i < |syms| && IsTypedefRecord(syms[i]) && TypedefsMatch(v, syms, i) && n !in v.g && d.Decl?
    requires Grows(v, Define(v, n, d)) && TypedefMatches(Define(v, n, d), n, syms[i])
    ensures TypedefsMatch(Define(v, n, d), syms, i + 1)
  {
    hide Grows, TypedefMatches, NamesLast;
    var w := Define(v, n, d);
    var ds, es := TypedefRecords(syms, i), TypedefRecords(syms, i + 1);
    assert es == ds + [i];
    forall k | 0 <= k < |es| ensures es[k] < |syms| && TypedefMatches(w, w.typedefs[k], syms[es[k]]) {
      if k < |ds| { TypedefStays(v, w, v.typedefs[k], syms[ds[k]]); }
    }
    forall k | 0 <= k < |ds| ensures v.typedefs[k] in v.g && v.g[v.typedefs[k]].Decl? {
      Matched(v, v.typedefs[k], syms[ds[k]]);
    }
    DefiningNamesLast(v, n, d);
  }

  /** A new declaration of a type that is in the graph. */
  lemma DefiningKeepsOk(v: State, n: C.Node, d: C.Def)
    requires Ok(v) && n !in v.g && d.Decl? && In(v.g, d.v.typ) && Loose(v.g, d.v.typ)
    ensures Ok(Define(v, n, d)) && Grows(v, Define(v, n, d))
  {
    hide TableOk, Closed, Slots, Trees, Loose;
    var w := Define(v, n, d);
    DeclSlots(d);
    AllocKeepsOk(v, n, d);
    AllocAdds(v, n, d);
    AddsGrows(v, Alloc(v, n, d));
    SameTable(w, Alloc(v, n, d), StructTag);
    SameTable(w, Alloc(v, n, d), UnionTag);
    SameTable(w, Alloc(v, n, d), EnumTag);
  }

  lemma DeclSlots(d: C.Def)
    requires d.Decl?
    ensures Slots(d) == [d.v.typ] && Params(d) == []
  {
  }

  lemma SameTable(w: State, v: State, kind: TagKind)
    requires w.g == v.g && w.structs == v.structs && w.unions == v.unions && w.enums == v.enums && TableOk(v, kind)
    ensures TableOk(w, kind)
  {
    assert TableOf(w, kind) == TableOf(v, kind);
  }

  lemma QuietKeepsNamesDistinct(v: State, w: State)
    requires NamesDistinct(v) && TableOk(v, EnumTag) && w.enums == v.enums && w.names == v.names
    requires forall o | o in v.g :: o in w.g && w.g[o] == v.g[o]
    ensures NamesDistinct(w)
  {
    hide HasName;
    forall o, k: nat, name | o in v.enums.inOrder ensures HasName(w, o, k, name) <==> HasName(v, o, k, name) {
      SameMembersSameNames(v, w, o, k, name);
    }
    forall name | name in w.names ensures IsIssued(w, name) {
      assert IsIssued(v, name);
      var o, k: nat :| o in v.enums.inOrder && HasName(v, o, k, name);
      assert o in w.enums.inOrder && HasName(w, o, k, name);
    }
  }

  lemma DefiningKeepsOnTrack(v: State, n: C.Node, d: C.Def, syms: seq<Symbol>, i: nat, book: Book)
    requires OnTrack(v, syms, i, book) && i < |syms| && !OpensAnyGroup(syms[i])
    requires n !in v.g && d.Decl? && In(v.g, d.v.typ) && Loose(v.g, d.v.typ)
    ensures OnTrack(Define(v, n, d), syms, i + 1, book) && Grows(v, Define(v, n, d))
  {
    hide Enough, Ledger, NamesDistinct, TableOk, Closed, NamesOk, Grows, Trees, Loose;
    DefiningKeepsOk(v, n, d);
    QuietKeepsEnough(v, Define(v, n, d), syms, i);
    SkippingKeepsEnough(Define(v, n, d), syms, i, i + 1);
    QuietKeepsLedger(v, Define(v, n, d), syms, i, i + 1, book);
    QuietKeepsNamesDistinct(v, Define(v, n, d));
  }

  lemma SkippingKeepsOnTrack(v: State, syms: seq<Symbol>, i: nat, book: Book)
    requires OnTrack(v, syms, i, book) && i < |syms| && !OpensAnyGroup(syms[i])
    ensures OnTrack(v, syms, i + 1, book)
  {
    hide Enough, Ledger, NamesDistinct, TableOk, Closed, NamesOk;
    SkippingKeepsEnough(v, syms, i, i + 1);
    GrowsRefl(v);
    QuietKeepsLedger(v, v, syms, i, i + 1, book);
  }
}

// Scaffolding: one empty type for every tag group of the file (csym/parse_types.go).

module Initial {
  import opened Ints
  import opened Records
  import C = CTypes
  import opened TypeGraph
  import opened TypeTrees
  import opened TagTables
  import opened Naming
  import opened TypesState
  import opened Scaffolds
  import opened Ledgers
  import opened EnumNames
  import opened Filling
  import opened Typedefs

  const NO_TYPES := Table(map[], [])

  /** The state of a new parser. */
  const NOTHING := State(map[], NO_TYPES, NO_TYPES, NO_TYPES, map[], [], {})

  /** `bool` is declared before anything else. */
  const BOOL_DECL := C.Decl(0, 0, C.Typedef, C.Var(C.Basic(C.Int), "bool"))

  function WithBool(n: C.Node): State {
    NOTHING.(g := map[n := BOOL_DECL], types := map["bool" := C.Ref(n)])
  }

  function EmptyType(kind: TagKind, tag: string, size: uint32): C.Def {
    match kind
    case StructTag => C.Struct(size, tag, [], [])
    case UnionTag => C.Union(size, tag, [])
    case EnumTag => C.Enum(tag, [])
  }

  ghost predicate AllEmpty(v: State) {
    v.names == {} && v.typedefs == [] && forall o | o in v.g && IsTagged(v.g[o]) :: EmptyDef(v.g[o])
  }

  /** Every group before position i has its scaffold. */
  ghost predicate CreatedFor(v: State, syms: seq<Symbol>, i: nat)
    requires i <= |syms|
  {
    forall kind: TagKind, tag: string, size: uint32 :: HasCreated(v, syms, i, kind, tag, size)
  }

  predicate HasCreated(v: State, syms: seq<Symbol>, i: nat, kind: TagKind, tag: string, size: uint32)
    requires i <= |syms|
  {
    Count(v.g, GroupOf(TableOf(v, kind), tag), kind, size) + GroupsAhead(syms, i, kind, tag, size)
      >= GroupsAhead(syms, 0, kind, tag, size)
  }

  function KindIn(d: C.Def): TagKind {
    if d.Struct? then StructTag else if d.Union? then UnionTag else EnumTag
  }

  /** A type that some record opens a group for, or the one that is there from the start. */
  predicate IsCalledFor(d: C.Def, syms: seq<Symbol>) {
    d == EmptyType(StructTag, "__vtbl_ptr_type", 0)
    || exists j | 0 <= j < |syms| :: OpensGroup(syms[j], KindIn(d), TagOf(d), SizeOf(d))
  }

  /** No tagged type is there without a record that calls for it. */
  ghost predicate FromRecords(v: State, syms: seq<Symbol>) {
    forall o | o in v.g && IsTagged(v.g[o]) :: IsCalledFor(v.g[o], syms)
  }

  // ----- which types there are -----

  /** The records before position i that open a group of this kind, in order. */
  function Openers(syms: seq<Symbol>, i: nat, kind: TagKind): seq<nat>
    requires i <= |syms|
  {
    if i == 0 then []
    else
      Openers(syms, i - 1, kind)
      + (if syms[i - 1].body.Def? && syms[i - 1].body.class_ == TagClass(kind) then [i - 1] else [])
  }

  /** How many types there are before those of the file: one struct. */
  function BuiltIn(kind: TagKind): nat {
    if kind == StructTag then 1 else 0
  }

  predicate IsBuiltIn(v: State, o: C.Node) {
    o in v.g && v.g[o] == C.Struct(0, "__vtbl_ptr_type", [], [])
  }

  /** An empty type with the tag and the size that the record says. */
  predicate IsScaffoldFor(v: State, o: C.Node, kind: TagKind, s: Symbol) {
    && o in v.g && s.body.Def?
    && v.g[o] == match kind
         case StructTag => C.Struct(s.body.size, ValidName(s.body.name), [], [])
         case UnionTag => C.Union(s.body.size, ValidName(s.body.name), [])
         case EnumTag => C.Enum(ValidName(s.body.name), [])
  }

  /** The list of one kind: a type for each record that opens a group, in order, and nothing else but the
      type that is built in. */
  predicate ListsScaffolds(v: State, syms: seq<Symbol>, i: nat, kind: TagKind)
    requires i <= |syms|
  {
    var s, ks, n := TableOf(v, kind).inOrder, Openers(syms, i, kind), BuiltIn(kind);
    && |s| == n + |ks| && (n > 0 ==> IsBuiltIn(v, s[0]))
    && forall q | 0 <= q < |ks| :: ks[q] < |syms| && IsScaffoldFor(v, s[n + q], kind, syms[ks[q]])
  }

  /** The name `bool` stands for a definition of int. */
  predicate IsBoolKnown(v: State) {
    && "bool" in v.types && v.types["bool"].Ref? && v.types["bool"].node in v.g
    && v.g[v.types["bool"].node] == C.Decl(0, 0, C.Typedef, C.Var(C.Basic(C.Int), "bool"))
  }

  ghost predicate AllListed(v: State, syms: seq<Symbol>, i: nat)
    requires i <= |syms|
  {
    IsBoolKnown(v) && forall kind: TagKind :: ListsScaffolds(v, syms, i, kind)
  }

  lemma NothingListed(n: C.Node, o: C.Node, syms: seq<Symbol>)
    requires o != n
    ensures AllListed(AddTagged(WithBool(n), StructTag, o, EmptyType(StructTag, "__vtbl_ptr_type", 0)), syms, 0)
  {
  }

  /** The list of one kind with one more type. */
  lemma ListedLonger(v: State, w: State, n: C.Node, kind: TagKind, syms: seq<Symbol>, i: nat)
    requires i < |syms| && ListsScaffolds(v, syms, i, kind) && IsScaffoldFor(w, n, kind, syms[i])
    requires TableOf(w, kind).inOrder == TableOf(v, kind).inOrder + [n]
    requires Openers(syms, i + 1, kind) == Openers(syms, i, kind) + [i]
    requires forall o | o in v.g :: o in w.g && w.g[o] == v.g[o]
    ensures ListsScaffolds(w, syms, i + 1, kind)
  {
    hide TableOf, Openers, BuiltIn, ValidName;
  }

  lemma ListedHere(v: State, n: C.Node, kind: TagKind, syms: seq<Symbol>, i: nat)
    requires i < |syms| && ListsScaffolds(v, syms, i, kind) && n !in v.g
    requires syms[i].body.Def? && syms[i].body.class_ == TagClass(kind)
    ensures var d := EmptyType(kind, ValidName(syms[i].body.name), syms[i].body.size);
      ListsScaffolds(AddTagged(v, kind, n, d), syms, i + 1, kind)
  {
    var w := AddTagged(v, kind, n, EmptyType(kind, ValidName(syms[i].body.name), syms[i].body.size));
    hide ValidName, ListsScaffolds;
    ListedLonger(v, w, n, kind, syms, i);
  }

  lemma ListedElsewhere(v: State, n: C.Node, kind: TagKind, d: C.Def, syms: seq<Symbol>, i: nat, other: TagKind)
    requires i < |syms| && ListsScaffolds(v, syms, i, other) && n !in v.g && other != kind
    requires syms[i].body.Def? && syms[i].body.class_ == TagClass(kind)
    ensures ListsScaffolds(AddTagged(v, kind, n, d), syms, i + 1, other)
  {
    var w := AddTagged(v, kind, n, d);
    hide ValidName;
    assert TableOf(w, other) == TableOf(v, other);
    assert Openers(syms, i + 1, other) == Openers(syms, i, other);
    hide TableOf, Openers, TagClass;
  }

  lemma BoolStillKnown(v: State, kind: TagKind, n: C.Node, d: C.Def)
    requires IsBoolKnown(v) && n !in v.g
    ensures IsBoolKnown(AddTagged(v, kind, n, d))
  {
  }

  lemma ListedOneMore(v: State, n: C.Node, kind: TagKind, syms: seq<Symbol>, i: nat)
    requires i < |syms| && AllListed(v, syms, i) && n !in v.g
    requires syms[i].body.Def? && syms[i].body.class_ == TagClass(kind)
    ensures var d := EmptyType(kind, ValidName(syms[i].body.name), syms[i].body.size);
      AllListed(AddTagged(v, kind, n, d), syms, i + 1)
  {
    hide ListsScaffolds, AddTagged, EmptyType, TagClass, IsBoolKnown;
    BoolStillKnown(v, kind, n, EmptyType(kind, ValidName(syms[i].body.name), syms[i].body.size));
    var d, next := EmptyType(kind, ValidName(syms[i].body.name), syms[i].body.size), i + 1;
    forall other: TagKind ensures ListsScaffolds(AddTagged(v, kind, n, d), syms, next, other) {
      assert ListsScaffolds(v, syms, i, other);
      if other == kind { ListedHere(v, n, kind, syms, i); } else { ListedElsewhere(v, n, kind, d, syms, i, other); }
    }
  }

  lemma ListedNoMore(v: State, syms: seq<Symbol>, i: nat)
    requires i < |syms| && AllListed(v, syms, i) && !OpensAnyGroup(syms[i])
    ensures AllListed(v, syms, i + 1)
  {
    var next := i + 1;
    forall other: TagKind ensures ListsScaffolds(v, syms, next, other) {
      assert ListsScaffolds(v, syms, i, other);
    }
  }

  // ----- the invariant -----

  ghost predicate Scaffolded(v: State, syms: seq<Symbol>, i: nat) {
    i <= |syms| && Ok(v) && NoParams(v.g) && AllEmpty(v) && FromRecords(v, syms) && CreatedFor(v, syms, i)
  }

  lemma BoolAlone(n: C.Node, syms: seq<Symbol>)
    ensures Scaffolded(WithBool(n), syms, 0)
  {
    var v := WithBool(n);
    assert Trees(map[]);
    AllocKeepsTrees(map[], n, BOOL_DECL);
    assert v.g == map[][n := BOOL_DECL];
    assert TableOk(v, StructTag) && TableOk(v, UnionTag) && TableOk(v, EnumTag);
    assert forall kind: TagKind, tag: string, size: uint32 :: HasCreated(v, syms, 0, kind, tag, size);
  }

  /** A new scaffold, which may be the one for the group at position i. */
  lemma AddingScaffold(v: State, n: C.Node, kind: TagKind, tag: string, size: uint32, syms: seq<Symbol>, i: nat)
    requires Scaffolded(v, syms, i) && n !in v.g && IsCalledFor(EmptyType(kind, tag, size), syms)
    ensures var w := AddTagged(v, kind, n, EmptyType(kind, tag, size));
      && Scaffolded(w, syms, i)
      && (i < |syms| && OpensGroup(syms[i], kind, tag, size) ==> Scaffolded(w, syms, i + 1))
  {
    hide Ok, TablesOk, Count, GroupsAhead, IsCalledFor;
    var d := EmptyType(kind, tag, size);
    var w := AddTagged(v, kind, n, d);
    AddingKeepsOk(v, kind, n, d);
    OkTables(v);
    forall other: TagKind, x: string, y: uint32 ensures HasCreated(w, syms, i, other, x, y) {
      assert HasCreated(v, syms, i, other, x, y);
      AddingCounts(v, kind, n, d, other, x, y);
    }
    if i < |syms| && OpensGroup(syms[i], kind, tag, size) {
      var next := i + 1;
      forall other: TagKind, x: string, y: uint32 ensures HasCreated(w, syms, next, other, x, y) {
        assert HasCreated(v, syms, i, other, x, y);
        AddingCounts(v, kind, n, d, other, x, y);
        OneGroupLess(syms, i, other, x, y);
      }
    }
  }

  lemma OneGroupLess(syms: seq<Symbol>, i: nat, kind: TagKind, tag: string, size: uint32)
    requires i < |syms|
    ensures GroupsAhead(syms, i, kind, tag, size)
      == (if OpensGroup(syms[i], kind, tag, size) then 1 else 0) + GroupsAhead(syms, i + 1, kind, tag, size)
  {
  }

  lemma NoScaffoldNeeded(v: State, syms: seq<Symbol>, i: nat)
    requires Scaffolded(v, syms, i) && i < |syms| && !OpensAnyGroup(syms[i])
    ensures Scaffolded(v, syms, i + 1)
  {
    hide Ok, Count, GroupsAhead;
    var next := i + 1;
    forall other: TagKind, x: string, y: uint32 ensures HasCreated(v, syms, next, other, x, y) {
      assert HasCreated(v, syms, i, other, x, y);
      OneGroupLess(syms, i, other, x, y);
    }
  }

  lemma EmptyInTable(v: State, kind: TagKind, o: C.Node)
    requires TableOk(v, kind) && AllEmpty(v) && o in TableOf(v, kind).inOrder
    ensures o in v.g && EmptyDef(v.g[o])
  {
  }

  lemma NothingEntered(v: State, syms: seq<Symbol>, kind: TagKind)
    requires TablesOk(v) && AllEmpty(v)
    ensures KindLedger(v, syms, 0, map[], kind)
  {
    hide Closed, Indexed, EmptyDef, Entry;
    OneTableOk(v, kind);
    forall o | o in TableOf(v, kind).inOrder ensures Entry(v, syms, map[], kind, o) {
      EmptyInTable(v, kind, o);
      EmptyEntry(v, syms, map[], kind, o);
    }
  }

  lemma EmptyHasNoNames(v: State, o: C.Node, k: nat, name: string)
    requires AllEmpty(v)
    ensures !HasName(v, o, k, name)
  {
  }

  lemma GroupCallsFor(syms: seq<Symbol>, i: nat, kind: TagKind, tag: string, size: uint32)
    requires i < |syms| && OpensGroup(syms[i], kind, tag, size)
    ensures IsCalledFor(EmptyType(kind, tag, size), syms)
  {
    var d := EmptyType(kind, tag, size);
    assert OpensGroup(syms[i], KindIn(d), TagOf(d), SizeOf(d));
  }

  /** With all scaffolds in place, parsing is on track at the first record. */
  lemma ReadyToFill(v: State, syms: seq<Symbol>)
    requires Scaffolded(v, syms, |syms|)
    ensures OnTrack(v, syms, 0, map[]) && TypedefsMatch(v, syms, 0) && FromRecords(v, syms)
  {
    hide Count, HasName, TableOk, Closed, KindLedger;
    forall kind: TagKind, tag: string, size: uint32 ensures EnoughFor(v, syms, 0, kind, tag, size) {
      assert HasCreated(v, syms, |syms|, kind, tag, size);
    }
    forall kind: TagKind ensures KindLedger(v, syms, 0, map[], kind) {
      NothingEntered(v, syms, kind);
    }
    forall o, k: nat, name ensures !HasName(v, o, k, name) {
      EmptyHasNoNames(v, o, k, name);
    }
  }
}

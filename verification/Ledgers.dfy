// The record of which groups picked which type, and what they left in it (csym/parse_types.go).

module Ledgers {
  import opened Ints
  import opened Records
  import C = CTypes
  import opened TypeGraph
  import opened Lists
  import opened TagTables
  import opened TypesState
  import opened Scaffolds
  import opened TagGroups

  /** The groups that picked a type, in order, as the positions they open at. */
  type Book = map<C.Node, seq<nat>>

  function Picks(book: Book, o: C.Node): seq<nat> {
    if o in book then book[o] else []
  }

  /** One more group picks type t. */
  function Picked(book: Book, t: C.Node, i: nat): Book {
    book[t := Picks(book, t) + [i]]
  }

  /** The method records of these groups, one group after the other. */
  function MethodRecords(syms: seq<Symbol>, ps: seq<nat>, kind: TagKind): seq<nat> {
    if ps == [] then []
    else MethodRecords(syms, ps[..|ps| - 1], kind) + Methods(syms, ps[|ps| - 1] + 1, kind)
  }

  /** The member records of the last of these groups. */
  function LastMembers(syms: seq<Symbol>, ps: seq<nat>, kind: TagKind): seq<nat> {
    if ps == [] then [] else Members(syms, ps[|ps| - 1] + 1, kind)
  }

  /** Groups of one kind, tag and size, in order; none but the last has members. */
  ghost predicate PicksMatch(syms: seq<Symbol>, ps: seq<nat>, kind: TagKind, tag: string, size: uint32) {
    && (forall a | 0 <= a < |ps| :: ps[a] < |syms| && OpensGroup(syms[ps[a]], kind, tag, size))
    && (forall a, b | 0 <= a < b < |ps| :: ps[a] < ps[b] && Members(syms, ps[a] + 1, kind) == [])
  }

  /** A tagged type has the members of the last group that picked it, and the methods of all of them. */
  ghost predicate Entry(v: State, syms: seq<Symbol>, book: Book, kind: TagKind, o: C.Node) {
    o in v.g && HoldsPicks(v, v.g[o], syms, Picks(book, o), kind)
  }

  ghost predicate HoldsPicks(v: State, d: C.Def, syms: seq<Symbol>, ps: seq<nat>, kind: TagKind) {
    && PicksMatch(syms, ps, kind, TagOf(d), SizeOf(d))
    && ContentMatches(v, d, syms, LastMembers(syms, ps, kind))
    && FieldsMatch(v, MethodsOf(d), syms, MethodRecords(syms, ps, kind))
  }

  /** Of two types with one tag and size, the later one has its members before the earlier one is picked. */
  ghost predicate LatestFirst(v: State, book: Book, kind: TagKind, tag: string) {
    FilledInOrder(v.g, GroupOf(TableOf(v, kind), tag), book)
  }

  ghost predicate FilledInOrder(g: Graph, s: seq<C.Node>, book: Book) {
    forall a, b | 0 <= a < b < |s| && s[a] in g && s[b] in g && SizeOf(g[s[a]]) == SizeOf(g[s[b]]) && s[a] in book ::
      s[b] in book && !Blank(g[s[b]]) && FilledBefore(book[s[b]], book[s[a]])
  }

  predicate FilledBefore(ps: seq<nat>, qs: seq<nat>) {
    ps != [] && qs != [] && ps[|ps| - 1] < qs[0]
  }

  /** No group picked two types. */
  ghost predicate BookOk(v: State, i: nat, book: Book) {
    && (forall o | o in book :: o in v.g && IsTagged(v.g[o]) && book[o] != [] && forall j | j in book[o] :: j < i)
    && (forall o, u | o in book && u in book && o != u :: forall j | j in book[o] :: j !in book[u])
  }

  ghost predicate Entries(v: State, syms: seq<Symbol>, book: Book, kind: TagKind) {
    forall o | o in TableOf(v, kind).inOrder :: Entry(v, syms, book, kind, o)
  }

  ghost predicate InLatestOrder(v: State, book: Book, kind: TagKind) {
    forall tag | tag in TableOf(v, kind).groups :: LatestFirst(v, book, kind, tag)
  }

  /** Every group before position i picked some type. */
  ghost predicate AllAccounted(syms: seq<Symbol>, i: nat, book: Book, kind: TagKind) {
    forall j | 0 <= j < i :: Accounted(syms, j, book, kind)
  }

  ghost predicate Accounted(syms: seq<Symbol>, j: nat, book: Book, kind: TagKind) {
    OpensKind(syms, j, kind) ==> exists o | o in book :: j in book[o]
  }

  /** What the groups before position i have left in the types of one kind. */
  ghost predicate KindLedger(v: State, syms: seq<Symbol>, i: nat, book: Book, kind: TagKind) {
    Entries(v, syms, book, kind) && InLatestOrder(v, book, kind) && AllAccounted(syms, i, book, kind)
  }

  ghost predicate Ledger(v: State, syms: seq<Symbol>, i: nat, book: Book) {
    BookOk(v, i, book) && forall kind: TagKind :: KindLedger(v, syms, i, book, kind)
  }

  // ----- types are added -----

  lemma EntryStays(v: State, w: State, syms: seq<Symbol>, book: Book, kind: TagKind, o: C.Node)
    requires Entry(v, syms, book, kind, o) && Grows(v, w) && o in w.g && w.g[o] == v.g[o]
    ensures Entry(w, syms, book, kind, o)
  {
    var ps := Picks(book, o);
    ContentStays(v, w, v.g[o], syms, LastMembers(syms, ps, kind));
    FieldsMatchStays(v, w, MethodsOf(v.g[o]), syms, MethodRecords(syms, ps, kind));
  }

  lemma TagInUse(v: State, kind: TagKind, o: C.Node)
    requires TableOk(v, kind) && o in v.g && OfKind(v.g[o], kind)
    ensures TagOf(v.g[o]) in TableOf(v, kind).groups
  {
  }

  lemma AddsKeepsLatestFirst(v: State, w: State, book: Book, kind: TagKind, tag: string)
    requires TableOk(v, kind) && TableOk(w, kind) && TableAdds(v, w, kind)
    requires (forall o | o in v.g :: o in w.g && w.g[o] == v.g[o]) && (forall o | o in book :: o in v.g)
    requires forall x | x in TableOf(v, kind).groups :: LatestFirst(v, book, kind, x)
    requires tag in TableOf(w, kind).groups
    ensures LatestFirst(w, book, kind, tag)
  {
    var s := GroupOf(TableOf(w, kind), tag);
    if tag in TableOf(v, kind).groups {
      GroupInGraph(v, kind, tag);
      assert LatestFirst(v, book, kind, tag) && s == GroupOf(TableOf(v, kind), tag);
    } else {
      GroupInGraph(w, kind, tag);
      forall o | o in s ensures o !in book {
        assert TagOf(w.g[o]) == tag && OfKind(w.g[o], kind);
        if o in v.g { TagInUse(v, kind, o); }
      }
    }
  }

  lemma EmptyEntry(v: State, syms: seq<Symbol>, book: Book, kind: TagKind, o: C.Node)
    requires o in v.g && EmptyDef(v.g[o]) && o !in book
    ensures Entry(v, syms, book, kind, o)
  {
  }

  lemma AddsKeepsEntries(v: State, w: State, syms: seq<Symbol>, i: nat, book: Book, kind: TagKind)
    requires TableOk(v, kind) && TableOk(w, kind) && Adds(v, w) && TableAdds(v, w, kind)
    requires BookOk(v, i, book) && Entries(v, syms, book, kind) && InLatestOrder(v, book, kind)
    ensures Entries(w, syms, book, kind) && InLatestOrder(w, book, kind)
  {
    hide Entry, EmptyDef;
    AddsGrows(v, w);
    forall o | o in TableOf(w, kind).inOrder ensures Entry(w, syms, book, kind, o) {
      if o in TableOf(v, kind).inOrder {
        EntryStays(v, w, syms, book, kind, o);
      } else {
        EmptyEntry(w, syms, book, kind, o);
      }
    }
    forall tag | tag in TableOf(w, kind).groups ensures LatestFirst(w, book, kind, tag) {
      AddsKeepsLatestFirst(v, w, book, kind, tag);
    }
  }

  lemma AddsKeepsLedger(v: State, w: State, syms: seq<Symbol>, i: nat, book: Book)
    requires TablesOk(v) && TablesOk(w) && Adds(v, w) && Ledger(v, syms, i, book)
    ensures Ledger(w, syms, i, book)
  {
    hide Entries, InLatestOrder, TableOk, TableAdds, AllAccounted;
    forall kind: TagKind ensures KindLedger(w, syms, i, book, kind) {
      assert KindLedger(v, syms, i, book, kind);
      OneTableOk(v, kind);
      OneTableOk(w, kind);
      OneTableAdds(v, w, kind);
      AddsKeepsEntries(v, w, syms, i, book, kind);
    }
  }

  lemma OneTableAdds(v: State, w: State, kind: TagKind)
    requires Adds(v, w)
    ensures TableAdds(v, w, kind)
  {
  }

  // ----- a group is read -----

  /** In the group of t, everything after t with its size has its members. */
  lemma AfterLastScaffold(u: State, syms: seq<Symbol>, book: Book, kind: TagKind, t: C.Node)
    requires TableOk(u, kind) && t in u.g && OfKind(u.g[t], kind) && Entries(u, syms, book, kind)
    requires LastScaffold(u.g, GroupOf(TableOf(u, kind), TagOf(u.g[t])), kind, SizeOf(u.g[t]), t)
    ensures AllFilledAfter(u.g, GroupOf(TableOf(u, kind), TagOf(u.g[t])), book, t)
  {
    hide HoldsPicks;
    var s := GroupOf(TableOf(u, kind), TagOf(u.g[t]));
    GroupInGraph(u, kind, TagOf(u.g[t]));
    forall a, b | 0 <= a < b < |s| && s[a] == t && s[b] in u.g && SizeOf(u.g[s[b]]) == SizeOf(u.g[t])
      ensures s[b] in book && !Blank(u.g[s[b]])
    {
      assert !IsScaffold(u.g[s[b]], kind, SizeOf(u.g[t]));
      assert s[b] in s && s[b] in TableOf(u, kind).inOrder && OfKind(u.g[s[b]], kind);
      if s[b] !in book { UnpickedIsBlank(u, syms, book, kind, s[b]); }
    }
  }

  lemma UnpickedIsBlank(u: State, syms: seq<Symbol>, book: Book, kind: TagKind, o: C.Node)
    requires Entry(u, syms, book, kind, o) && Picks(book, o) == []
    ensures Blank(u.g[o])
  {
  }

  ghost predicate AllFilledAfter(g: Graph, s: seq<C.Node>, book: Book, t: C.Node)
    requires t in g
  {
    forall a, b | 0 <= a < b < |s| && s[a] == t && s[b] in g && SizeOf(g[s[b]]) == SizeOf(g[t]) ::
      s[b] in book && !Blank(g[s[b]])
  }

  lemma PickedNext(g: Graph, h: Graph, s: seq<C.Node>, book: Book, i: nat, t: C.Node)
    requires FilledInOrder(g, s, book) && t in g && Blank(g[t]) && AllFilledAfter(g, s, book, t)
    requires forall o | o in book :: book[o] != [] && forall j | j in book[o] :: j < i
    requires forall o | o in s :: o in g && o in h && SizeOf(h[o]) == SizeOf(g[o]) && (o != t ==> h[o] == g[o])
    requires NoDup(s)
    ensures FilledInOrder(h, s, Picked(book, t, i))
  {
    var next := Picked(book, t, i);
    forall a, b | 0 <= a < b < |s| && SizeOf(h[s[a]]) == SizeOf(h[s[b]]) && s[a] in next
      ensures s[b] in next && !Blank(h[s[b]]) && FilledBefore(next[s[b]], next[s[a]])
    {
      assert s[b] in s && s[a] in s;
      if s[a] == t && t !in book {
        assert s[b] in book && book[s[b]][|book[s[b]]| - 1] in book[s[b]];
      } else {
        assert FilledBefore(book[s[b]], book[s[a]]);
      }
    }
  }

  lemma PickingKeepsLatestFirst(u: State, w: State, syms: seq<Symbol>, book: Book, i: nat, kind: TagKind, t: C.Node,
    d: C.Def, other: TagKind, tag: string)
    requires TablesOk(u) && t in u.g && Kept(u.g[t], d) && OfKind(u.g[t], kind) && w == SetDef(u, t, d)
    requires LastScaffold(u.g, GroupOf(TableOf(u, kind), TagOf(u.g[t])), kind, SizeOf(u.g[t]), t)
    requires BookOk(u, i, book) && Entries(u, syms, book, kind) && Blank(u.g[t]) && IsTagged(u.g[t])
    requires LatestFirst(u, book, other, tag) && tag in TableOf(u, other).groups
    ensures LatestFirst(w, Picked(book, t, i), other, tag)
  {
    hide LastScaffold, TablesOk, TableOk, Entries, Blank, FilledInOrder, AllFilledAfter, OfKind, TagOf;
    OneTableOk(u, kind);
    OneTableOk(u, other);
    AfterLastScaffold(u, syms, book, kind, t);
    GroupInGraph(u, other, tag);
    var s := GroupOf(TableOf(u, other), tag);
    SameTables(u, t, d, other);
    SetKeepsSizes(u, t, d, s);
    if t in s {
      KindsDiffer(u.g[t], kind, other);
      PickedNext(u.g, w.g, s, book, i, t);
    } else {
      PickedElsewhere(u.g, w.g, s, book, i, t);
    }
  }

  lemma SameTables(u: State, t: C.Node, d: C.Def, kind: TagKind)
    ensures TableOf(SetDef(u, t, d), kind) == TableOf(u, kind)
  {
  }

  lemma SetKeepsSizes(u: State, t: C.Node, d: C.Def, s: seq<C.Node>)
    requires t in u.g && Kept(u.g[t], d) && IsTagged(u.g[t]) && forall o | o in s :: o in u.g
    ensures var h := SetDef(u, t, d).g;
      forall o | o in s :: o in h && SizeOf(h[o]) == SizeOf(u.g[o]) && (o != t ==> h[o] == u.g[o])
  {
  }

  lemma PickedElsewhere(g: Graph, h: Graph, s: seq<C.Node>, book: Book, i: nat, t: C.Node)
    requires FilledInOrder(g, s, book) && t !in s && forall o | o in s :: o in g && o in h && h[o] == g[o]
    ensures FilledInOrder(h, s, Picked(book, t, i))
  {
    var next := Picked(book, t, i);
    forall a, b | 0 <= a < b < |s| && SizeOf(h[s[a]]) == SizeOf(h[s[b]]) && s[a] in next
      ensures s[b] in next && !Blank(h[s[b]]) && FilledBefore(next[s[b]], next[s[a]])
    {
      assert s[a] in s && s[b] in s;
    }
  }

  /** The methods of d are those of the type before, and then those of these records. */
  ghost predicate MethodsGrow(v: State, d: C.Def, e: C.Def, syms: seq<Symbol>, ms: seq<nat>) {
    && |MethodsOf(e)| == |MethodsOf(d)| + |ms| && MethodsOf(e)[..|MethodsOf(d)|] == MethodsOf(d)
    && FieldsMatch(v, MethodsOf(e)[|MethodsOf(d)|..], syms, ms)
  }

  lemma FieldsMatchAppend(v: State, fs: seq<C.Field>, gs: seq<C.Field>, syms: seq<Symbol>, ms: seq<nat>, ns: seq<nat>)
    requires FieldsMatch(v, fs, syms, ms) && FieldsMatch(v, gs, syms, ns)
    ensures FieldsMatch(v, fs + gs, syms, ms + ns)
  {
    hide FieldMatches;
    forall k | 0 <= k < |fs + gs| ensures FieldMatches(v, (fs + gs)[k], syms[(ms + ns)[k]]) {
      if k >= |fs| { assert FieldMatches(v, gs[k - |fs|], syms[ns[k - |fs|]]); }
    }
  }

  lemma NextPicks(syms: seq<Symbol>, ps: seq<nat>, i: nat, kind: TagKind)
    ensures MethodRecords(syms, ps + [i], kind) == MethodRecords(syms, ps, kind) + Methods(syms, i + 1, kind)
    ensures LastMembers(syms, ps + [i], kind) == Members(syms, i + 1, kind)
  {
    assert (ps + [i])[..|ps + [i]| - 1] == ps;
  }

  lemma NextPicksMatch(syms: seq<Symbol>, ps: seq<nat>, i: nat, kind: TagKind, tag: string, size: uint32)
    requires PicksMatch(syms, ps, kind, tag, size) && LastMembers(syms, ps, kind) == []
    requires i < |syms| && OpensGroup(syms[i], kind, tag, size) && forall j | j in ps :: j < i
    ensures PicksMatch(syms, ps + [i], kind, tag, size)
  {
    hide Members, OpensGroup;
    var qs := ps + [i];
    forall a, b | 0 <= a < b < |qs| ensures qs[a] < qs[b] && Members(syms, qs[a] + 1, kind) == [] {
      assert qs[a] == ps[a] && ps[a] in ps;
    }
  }

  /** Main step: the group that opens at position i has been read into t. */
  lemma PickedHolds(u: State, w: State, syms: seq<Symbol>, i: nat, ps: seq<nat>, kind: TagKind, c: C.Def, d: C.Def)
    requires HoldsPicks(u, c, syms, ps, kind) && Grows(u, w) && Blank(c) && Kept(c, d) && IsTagged(c)
    requires i < |syms| && OpensGroup(syms[i], kind, TagOf(c), SizeOf(c)) && forall j | j in ps :: j < i
    requires ContentMatches(w, d, syms, Members(syms, i + 1, kind))
    requires MethodsGrow(w, c, d, syms, Methods(syms, i + 1, kind))
    ensures HoldsPicks(w, d, syms, ps + [i], kind)
  {
    BlankHasNone(u, c, syms, LastMembers(syms, ps, kind));
    hide Members, Methods, OpensGroup, ContentMatches, MethodRecords, LastMembers, Grows, FieldsMatch, PicksMatch,
      Blank, Kept,
      IsTagged, TagOf, SizeOf, MethodsOf, MethodsGrow;
    KeptTag(c, d);
    NextPicks(syms, ps, i, kind);
    NextPicksMatch(syms, ps, i, kind, TagOf(c), SizeOf(c));
    MethodsHold(u, w, c, d, syms, MethodRecords(syms, ps, kind), Methods(syms, i + 1, kind));
  }

  lemma MethodsHold(u: State, w: State, c: C.Def, d: C.Def, syms: seq<Symbol>, ms: seq<nat>, ns: seq<nat>)
    requires FieldsMatch(u, MethodsOf(c), syms, ms) && Grows(u, w) && MethodsGrow(w, c, d, syms, ns)
    ensures FieldsMatch(w, MethodsOf(d), syms, ms + ns)
  {
    hide FieldsMatch, Grows, MethodsOf;
    FieldsMatchStays(u, w, MethodsOf(c), syms, ms);
    var n := |MethodsOf(c)|;
    assert MethodsOf(d) == MethodsOf(c) + MethodsOf(d)[n..];
    FieldsMatchAppend(w, MethodsOf(c), MethodsOf(d)[n..], syms, ms, ns);
  }

  lemma KeptTag(c: C.Def, d: C.Def)
    requires Kept(c, d) && IsTagged(c)
    ensures TagOf(d) == TagOf(c) && SizeOf(d) == SizeOf(c)
  {
  }

  lemma BlankHasNone(v: State, d: C.Def, syms: seq<Symbol>, ms: seq<nat>)
    requires ContentMatches(v, d, syms, ms) && Blank(d)
    ensures ms == []
  {
  }

  lemma LedgerEntries(u: State, w: State, syms: seq<Symbol>, i: nat, book: Book, kind: TagKind, t: C.Node, d: C.Def,
    other: TagKind)
    requires TableOk(u, kind) && TableOk(u, other) && t in u.g && OfKind(u.g[t], kind) && w == SetDef(u, t, d)
      && Grows(u, w)
    requires HoldsPicks(w, d, syms, Picks(book, t) + [i], kind) && Entries(u, syms, book, other)
    ensures Entries(w, syms, Picked(book, t, i), other)
  {
    hide HoldsPicks, Grows;
    assert TableOf(w, other) == TableOf(u, other);
    forall o | o in TableOf(w, other).inOrder ensures Entry(w, syms, Picked(book, t, i), other, o) {
      if o == t {
        KindsDiffer(u.g[t], kind, other);
      } else {
        EntryStays(u, w, syms, book, other, o);
      }
    }
  }

  lemma LedgerAccounts(syms: seq<Symbol>, i: nat, next: nat, book: Book, kind: TagKind, t: C.Node, other: TagKind)
    requires i < next <= |syms| && AllAccounted(syms, i, book, other) && OpensKind(syms, i, kind)
    requires forall k | i < k < next :: !OpensAnyGroup(syms[k])
    ensures AllAccounted(syms, next, Picked(book, t, i), other)
  {
    var more := Picked(book, t, i);
    forall j | 0 <= j < next ensures Accounted(syms, j, more, other) {
      if OpensKind(syms, j, other) {
        if j < i {
          assert Accounted(syms, j, book, other);
          var o: C.Node :| o in book && j in book[o];
          assert o in more && j in more[o];
        } else {
          assert j == i && t in more && more[t][|more[t]| - 1] == i;
        }
      }
    }
  }

  lemma LedgerOrder(u: State, w: State, syms: seq<Symbol>, i: nat, book: Book, kind: TagKind, t: C.Node, d: C.Def,
    other: TagKind)
    requires TablesOk(u) && t in u.g && OfKind(u.g[t], kind) && Kept(u.g[t], d) && w == SetDef(u, t, d)
    requires LastScaffold(u.g, GroupOf(TableOf(u, kind), TagOf(u.g[t])), kind, SizeOf(u.g[t]), t)
    requires BookOk(u, i, book) && Entries(u, syms, book, kind) && Blank(u.g[t]) && IsTagged(u.g[t])
    requires InLatestOrder(u, book, other)
    ensures InLatestOrder(w, Picked(book, t, i), other)
  {
    hide LastScaffold, LatestFirst, TablesOk, Entries, BookOk, Blank, Kept;
    forall tag | tag in TableOf(w, other).groups ensures LatestFirst(w, Picked(book, t, i), other, tag) {
      assert TableOf(w, other) == TableOf(u, other);
      PickingKeepsLatestFirst(u, w, syms, book, i, kind, t, d, other, tag);
    }
  }

  lemma BookMore(u: State, w: State, i: nat, next: nat, book: Book, t: C.Node, d: C.Def)
    requires BookOk(u, i, book) && t in u.g && IsTagged(u.g[t]) && Kept(u.g[t], d) && w == SetDef(u, t, d) && i < next
    ensures BookOk(w, next, Picked(book, t, i))
  {
    var more := Picked(book, t, i);
    forall o | o in more ensures forall j | j in more[o] :: j < next && (j == i ==> o == t) {
    }
    forall o, u | o in more && u in more && o != u ensures forall j | j in more[o] :: j !in more[u] {
    }
  }

  lemma TagIsScaffold(g: Graph, s: seq<C.Node>, kind: TagKind, size: uint32, t: C.Node)
    requires LastScaffold(g, s, kind, size, t)
    ensures t in g && Blank(g[t])
  {
  }

  lemma GroupRecord(s: Symbol, kind: TagKind, tag: string, size: uint32)
    requires OpensGroup(s, kind, tag, size)
    ensures s.body.Def? && s.body.class_ == TagClass(kind)
  {
  }

  lemma OkTables(v: State)
    requires Ok(v)
    ensures TablesOk(v)
  {
  }

  lemma KindIsTagged(d: C.Def, kind: TagKind)
    requires OfKind(d, kind)
    ensures IsTagged(d)
  {
  }

  lemma InTheTable(v: State, kind: TagKind, o: C.Node)
    requires TableOk(v, kind) && o in v.g && OfKind(v.g[o], kind)
    ensures o in TableOf(v, kind).inOrder
  {
  }

  /** The group that opens at position i has picked t and has been read into it: the book gains the pick. */
  lemma FillingKeepsLedger(
    u: State, w: State, syms: seq<Symbol>, i: nat, next: nat, book: Book, kind: TagKind, t: C.Node, d: C.Def)
    requires TablesOk(u) && Ledger(u, syms, i, book) && i < next <= |syms|
    requires t in u.g && OfKind(u.g[t], kind) && Kept(u.g[t], d) && w == SetDef(u, t, d)
    requires OpensGroup(syms[i], kind, TagOf(u.g[t]), SizeOf(u.g[t]))
    requires LastScaffold(u.g, GroupOf(TableOf(u, kind), TagOf(u.g[t])), kind, SizeOf(u.g[t]), t)
    requires ContentMatches(w, d, syms, Members(syms, i + 1, kind))
    requires MethodsGrow(w, u.g[t], d, syms, Methods(syms, i + 1, kind))
    requires forall j | i < j < next :: !OpensAnyGroup(syms[j])
    ensures Ledger(w, syms, next, Picked(book, t, i))
  {
    KindIsTagged(u.g[t], kind);
    SetDefGrows(u, t, d);
    TagIsScaffold(u.g, GroupOf(TableOf(u, kind), TagOf(u.g[t])), kind, SizeOf(u.g[t]), t);
    GroupRecord(syms[i], kind, TagOf(u.g[t]), SizeOf(u.g[t]));
    OneTableOk(u, kind);
    InTheTable(u, kind, t);
    BookMore(u, w, i, next, book, t, d);
    hide LastScaffold, ContentMatches, OpensGroup, OpensAnyGroup, MethodsGrow, Members, Methods, Grows, IsTagged, Kept,
      TablesOk, TableOk, HoldsPicks, InLatestOrder, AllAccounted, Blank, SetDef;
    assert KindLedger(u, syms, i, book, kind) && Entry(u, syms, book, kind, t);
    PickedHolds(u, w, syms, i, Picks(book, t), kind, u.g[t], d);
    hide Entry, Entries;
    forall other: TagKind ensures KindLedger(w, syms, next, Picked(book, t, i), other) {
      assert KindLedger(u, syms, i, book, other);
      OneTableOk(u, other);
      LedgerEntries(u, w, syms, i, book, kind, t, d, other);
      LedgerOrder(u, w, syms, i, book, kind, t, d, other);
      LedgerAccounts(syms, i, next, book, kind, t, other);
    }
  }
}

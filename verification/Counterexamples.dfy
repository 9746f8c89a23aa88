// Where the program falls short of what it promises: inputs on which a type definition is left behind, the
// walk does not end, and a printed offset is wrong.

module Counterexamples {
  import opened Ints
  import opened Fields
  import opened Records
  import C = CTypes
  import opened TypeGraph
  import opened TypeTrees
  import opened TagTables
  import opened CTree
  import opened TypeWord
  import opened Naming
  import opened TypesState
  import opened Scaffolds
  import opened TagGroups
  import opened Ledgers
  import opened GroupScan
  import opened EnumNames
  import opened Filling
  import opened Typedefs
  import opened Initial
  import opened Rewriting
  import opened WalkTermination
  import opened WalkStarts
  import opened RemoveDuplicates
  import opened BlockTree
  import opened DeclState
  import opened GlobalDecls
  import opened FuncRun
  import opened DeclScan
  import opened SymFile
  import opened Pipeline

  const OPEN := Symbol(Header(0, KIND_DEF), Def(CLASS_UNTAG, BASE_UNION, 4, "u"))
  const CLOSE := Symbol(Header(0, KIND_DEF2), Def2(CLASS_EOS, 0, 4, [], "u", ".eos"))

  lemma TagU()
    ensures ValidName("u") == "u"
  {
    ValidNameKeeps("u");
  }

  /** What `union u` with no modifiers, or behind one pointer, says. */
  lemma Words()
    ensures ModsOf(BASE_UNION) == [] && BaseBits(BASE_UNION) == BASE_UNION
    ensures ModsOf(BASE_UNION + 16) == [PointerMod] && BaseBits(BASE_UNION + 16) == BASE_UNION
  {
    assert ModsFrom(0, 5) == [] by { NoMods(5); }
    assert ModsFrom(0, 6) == [] by { NoMods(6); }
    assert ModsFrom(1, 6) == [ModOf(1)] + ModsFrom(0, 5);
  }

  lemma {:induction false} NoMods(n: nat)
    ensures ModsFrom(0, n) == []
  {
    if n > 0 { NoMods(n - 1); }
  }

  // ----- a type definition of the later of two twins -----

  /** union u {}; union u {}; and a type definition t with the modifiers of this type word. */
  function Twins(word: uint16, dims: dimensions): seq<Symbol> {
    [OPEN, CLOSE, OPEN, CLOSE, Symbol(Header(0, KIND_DEF2), Def2(CLASS_TPDEF, word, 4, dims, "u", "t"))]
  }

  /** A type word for union u, and as many array lengths as it needs. */
  predicate NamesUnion(word: uint16, dims: dimensions) {
    BaseBits(word) == BASE_UNION && Arrays(ModsOf(word)) <= |dims|
  }

  /** typedef union u t; and typedef union u *t; */
  lemma PlainAndPointer()
    ensures NamesUnion(BASE_UNION, []) && |ModsOf(BASE_UNION)| == 0
    ensures NamesUnion(BASE_UNION + 16, []) && |ModsOf(BASE_UNION + 16)| == 1
  {
    Words();
  }

  /** Any list without functions, lines and overlays is read to its end. */
  lemma {:induction false} QuietDecls(syms: seq<Symbol>, tops: seq<nat>, i: nat)
    requires forall j | 0 <= j < |syms| :: IsDecl(syms[j]) && !IsGlobal(syms[j]) && IsQuietClass(syms[j])
    ensures DeclsFrom(syms, tops, i) == Good(Done)
    decreases |syms| - i
  {
    if i < |syms| { QuietDecls(syms, tops + [i], i + 1); }
  }

  /** Both passes accept these records. */
  lemma TwinsAreRead(word: uint16, dims: dimensions)
    requires NamesUnion(word, dims)
    ensures TypesOutcome(Twins(word, dims), 0) == Good(Done) && DeclsOutcome(Twins(word, dims)) == Good(Done)
  {
    hide ModsFrom;
    var syms := Twins(word, dims);
    Words();
    assert GroupEnd(syms, 1, UnionTag) == Good(2) && GroupEnd(syms, 3, UnionTag) == Good(4);
    assert TurnOutcome(syms, 0) == Good(2) && TurnOutcome(syms, 2) == Good(4) && TurnOutcome(syms, 4) == Good(5);
    assert TypesOutcome(syms, 5) == Good(Done);
    assert TypesOutcome(syms, 4) == Good(Done);
    assert TypesOutcome(syms, 2) == Good(Done);
    QuietDecls(syms, [], 0);
  }

  lemma {:induction false} NoMoreThanThereAre(g: Graph, s: seq<C.Node>, kind: TagKind, size: uint32)
    ensures Count(g, s, kind, size) <= |s|
  {
    if s != [] { NoMoreThanThereAre(g, s[..|s| - 1], kind, size); }
  }

  /** All there is under this tag at the start: a scaffold for each of the n groups. */
  lemma ScaffoldsOfU(start: State, syms: seq<Symbol>, n: nat)
    requires OnTrack(start, syms, 0, map[]) && FromRecords(start, syms)
      && GroupsAhead(syms, 0, UnionTag, "u", 4) == n > 0
    requires forall j, x | 0 <= j < |syms| :: OpensGroup(syms[j], UnionTag, "u", x) ==> x == 4
    ensures "u" in start.unions.groups && |start.unions.groups["u"]| >= n
    ensures forall o | o in start.unions.groups["u"] ::
      o in start.g && start.g[o].Union? && start.g[o].tag == "u" && start.g[o].size == 4
  {
    hide Ledger, NamesDistinct, OpensGroup;
    assert EnoughFor(start, syms, 0, UnionTag, "u", 4);
    var s := GroupOf(TableOf(start, UnionTag), "u");
    NoMoreThanThereAre(start.g, s, UnionTag, 4);
    OneTableOk(start, UnionTag);
    GroupInGraph(start, UnionTag, "u");
    forall o | o in s ensures start.g[o].size == 4 {
      assert IsCalledFor(start.g[o], syms);
    }
  }

  lemma {:induction false} NoMembers(syms: seq<Symbol>, i: nat)
    requires forall j | 0 <= j < |syms| :: !IsMember(syms[j], UnionTag)
    ensures Members(syms, i, UnionTag) == []
    decreases |syms| - i
  {
    if i < |syms| { NoMembers(syms, i + 1); }
  }

  lemma UnionEntry(types: State, syms: seq<Symbol>, book: Book, o: C.Node)
    requires OnTrack(types, syms, |syms|, book) && o in types.g && types.g[o].Union?
    ensures Entry(types, syms, book, UnionTag, o)
  {
    hide Entry, NamesDistinct, Enough, Indexed, InLatestOrder, Closed, NamesOk, AllAccounted, Trees;
    assert TableOk(types, UnionTag) && KindLedger(types, syms, |syms|, book, UnionTag);
    assert o in TableOf(types, UnionTag).inOrder;
  }

  /** A group that no member record fills stays empty. */
  lemma EmptyAfterwards(start: State, types: State, syms: seq<Symbol>, book: Book, o: C.Node)
    requires OnTrack(types, syms, |syms|, book) && Grows(start, types) && o in start.g && start.g[o].Union?
    requires forall j | 0 <= j < |syms| :: !IsMember(syms[j], UnionTag)
    ensures o in types.g && types.g[o] == C.Union(start.g[o].size, start.g[o].tag, [])
  {
    assert Kept(start.g[o], types.g[o]);
    UnionEntry(types, syms, book, o);
    hide OnTrack, Grows, Members, Picks, MethodRecords, PicksMatch;
    EmptyUnion(types, types.g[o], syms, Picks(book, o));
  }

  lemma EmptyUnion(v: State, d: C.Def, syms: seq<Symbol>, ps: seq<nat>)
    requires d.Union? && HoldsPicks(v, d, syms, ps, UnionTag)
      && forall j | 0 <= j < |syms| :: !IsMember(syms[j], UnionTag)
    ensures d.fields == []
  {
    hide Members, MethodRecords, PicksMatch, FieldMatches, MemberMatches, OpensGroup;
    if ps != [] { NoMembers(syms, ps[|ps| - 1] + 1); }
  }

  lemma EmptyUnionsAreEqual(g: Graph, a: C.Node, b: C.Node, size: uint32, tag: string)
    requires a in g && b in g && g[a] == g[b] == C.Union(size, tag, [])
    ensures DeepEqual(g, C.Ref(a), C.Ref(b))
  {
  }

  lemma TwoGroups(word: uint16, dims: dimensions)
    ensures GroupsAhead(Twins(word, dims), 0, UnionTag, "u", 4) == 2
  {
    TagU();
    assert GroupsAhead(Twins(word, dims), 4, UnionTag, "u", 4) == 0;
    assert GroupsAhead(Twins(word, dims), 2, UnionTag, "u", 4) == 1;
  }

  lemma OneTypedef(word: uint16, dims: dimensions)
    ensures TypedefRecords(Twins(word, dims), 5) == [4]
  {
    NoTypedefRecords(Twins(word, dims), 0, 4);
  }

  lemma TwinsInTypes(word: uint16, dims: dimensions, start: State, book: Book, types: State)
    requires HasTypes(Twins(word, dims), start, book, types)
    ensures "u" in types.unions.groups && |types.unions.groups["u"]| >= 2
    ensures forall o | o in types.unions.groups["u"] :: o in types.g && types.g[o] == C.Union(4, "u", [])
  {
    hide OnTrack, TypedefsMatch, GroupsAhead, FromRecords;
    TwoGroups(word, dims);
    ScaffoldsOfU(start, Twins(word, dims), 2);
    forall o | o in start.unions.groups["u"] ensures types.g[o] == C.Union(4, "u", []) && o in types.g {
      EmptyAfterwards(start, types, Twins(word, dims), book, o);
    }
  }

  lemma TypedefOfTwins(word: uint16, dims: dimensions, start: State, book: Book, types: State)
    requires HasTypes(Twins(word, dims), start, book, types) && "u" in types.unions.groups
      && BaseBits(word) == BASE_UNION
    ensures |types.typedefs| == 1 && types.typedefs[0] in types.g && types.g[types.typedefs[0]].Decl?
    ensures var s := types.unions.groups["u"];
      s != [] && NamedBy(types.g, types.typedefs[0], |ModsOf(word)|) == C.Ref(s[|s| - 1])
  {
    hide OnTrack, TypedefRecords, Grows, FromRecords, NamesLast, ModsFrom, Represents;
    TagU();
    OneTypedef(word, dims);
    assert TypedefMatches(types, types.typedefs[0], Twins(word, dims)[4]);
  }

  /** Under modifiers, a type names later what it named. */
  lemma NamedLater(v: State, w: State, t: C.Node, m: nat)
    requires Later(v, w) && Closed(v.g) && t in v.g && v.g[t].Decl?
    ensures NamedBy(w.g, t, m) == NamedBy(v.g, t, m)
  {
    assert BareDef(w.g[t]) == BareDef(v.g[t]);
    assert In(v.g, Slots(v.g[t])[0]);
    hide Closed;
    StripLater(v, w, v.g[t].v.typ, m);
  }

  lemma {:induction false} StripLater(v: State, w: State, t: C.Type, m: nat)
    requires Later(v, w) && Closed(v.g) && In(v.g, t)
    ensures Strip(w.g, t, m) == Strip(v.g, t, m)
    decreases m
  {
    if m > 0 && t.Ref? {
      assert BareDef(w.g[t.node]) == BareDef(v.g[t.node]);
      ClosedAt(v.g, t.node);
      if IsDerived(v.g[t.node]) {
        StripLater(v, w, Slots(v.g[t.node])[0], m - 1);
      }
    }
  }

  /** However these records are translated, whatever modifiers the type definition has, under them it names
      the later of two twins: when the duplicates have been removed, it comes to a type that is gone. */
  lemma TypedefLeftBehind(word: uint16, dims: dimensions, start: State, book: Book, types: State, v: State)
    requires NamesUnion(word, dims) && HasTypes(Twins(word, dims), start, book, types) && Later(types, v) && Ok(v)
    ensures exists t | t in v.typedefs :: NamesLaterTwin(v, t, |ModsOf(word)|)
  {
    hide *;
    UnionWord(word, dims);
    TypesAreOk(Twins(word, dims), start, book, types);
    TwinsInTypes(word, dims, start, book, types);
    TypedefOfTwins(word, dims, start, book, types);
    var t := types.typedefs[0];
    NamedLater(types, v, t, |ModsOf(word)|);
    LastIsLaterTwin(types, v, types.unions.groups["u"]);
    NowNamesLaterTwin(v, t, |ModsOf(word)|);
    assert t in types.typedefs;
  }

  lemma UnionWord(word: uint16, dims: dimensions)
    requires NamesUnion(word, dims)
    ensures BaseBits(word) == BASE_UNION
  {
  }

  lemma NowNamesLaterTwin(v: State, t: C.Node, m: nat)
    requires IsLaterTwin(v.g, v.structs.groups, v.structs.inOrder, v.unions.groups, v.unions.inOrder,
      NamedBy(v.g, t, m))
    ensures NamesLaterTwin(v, t, m)
  {
  }

  lemma TypesAreOk(syms: seq<Symbol>, start: State, book: Book, types: State)
    requires HasTypes(syms, start, book, types)
    ensures Closed(types.g)
  {
  }

  lemma LastIsLaterTwin(types: State, v: State, s: seq<C.Node>)
    requires "u" in types.unions.groups && types.unions.groups["u"] == s && |s| >= 2 && Later(types, v) && Ok(v)
    requires forall o | o in s :: o in types.g && types.g[o] == C.Union(4, "u", [])
    ensures v.typedefs == types.typedefs
    ensures IsLaterTwin(v.g, v.structs.groups, v.structs.inOrder, v.unions.groups, v.unions.inOrder, C.Ref(s[|s| - 1]))
  {
    var a, b := s[0], s[|s| - 1];
    assert s == v.unions.groups["u"];
    assert BareDef(v.g[a]) == BareDef(types.g[a]) && BareDef(v.g[b]) == BareDef(types.g[b]);
    assert v.g[a] == v.g[b] == C.Union(4, "u", []);
    assert TableOk(v, UnionTag) && b in v.unions.inOrder;
    EmptyUnionsAreEqual(v.g, a, b, 4, "u");
    assert IsLaterIn(v.g, s, b);
  }

  // ----- a union that holds a pointer to itself -----

  const SELF := Symbol(Header(0, KIND_DEF2), Def2(CLASS_MOU, BASE_UNION + 16, 4, [], "u", "next"))

  /** union u { union u *next; }; */
  const LOOP: seq<Symbol> := [OPEN, SELF, CLOSE]

  lemma LoopIsRead()
    ensures TypesOutcome(LOOP, 0) == Good(Done) && DeclsOutcome(LOOP) == Good(Done)
  {
    Words();
    assert GroupEnd(LOOP, 2, UnionTag) == Good(3);
    assert GroupEnd(LOOP, 1, UnionTag) == Good(3);
    assert TurnOutcome(LOOP, 0) == Good(3);
    assert TypesOutcome(LOOP, 3) == Good(Done);
    QuietDecls(LOOP, [], 0);
  }

  /** The type that holds the members of the group at position i. */
  ghost predicate FilledBy(types: State, o: C.Node, syms: seq<Symbol>, i: nat) {
    o in types.g && types.g[o].Union? && ContentMatches(types, types.g[o], syms, Members(syms, i + 1, UnionTag))
  }

  /** The first group of the file, if it has members, is the only one that picked the type it filled. */
  lemma FilledType(types: State, syms: seq<Symbol>, book: Book) returns (o: C.Node)
    requires OnTrack(types, syms, |syms|, book) && OpensKind(syms, 0, UnionTag) && Members(syms, 1, UnionTag) != []
    ensures FilledBy(types, o, syms, 0) && o in book && book[o] != [] && book[o][0] == 0
    ensures o in GroupOf(types.unions, ValidName(syms[0].body.name)) && types.g[o].tag == ValidName(syms[0].body.name)
  {
    hide NamesDistinct, Enough, Members, Closed, NamesOk, Trees, InLatestOrder, HoldsPicks, Entries, AllAccounted;
    o := FirstPick(types, syms, book);
    var kind := if types.g[o].Struct? then StructTag else if types.g[o].Union? then UnionTag else EnumTag;
    assert KindLedger(types, syms, |syms|, book, kind);
    PickedEntry(types, syms, book, kind, o);
    OneTableOk(types, kind);
    OneTableOk(types, UnionTag);
    FirstHolds(types, types.g[o], syms, book[o], kind);
    GroupMembers(types.g, UnionTag, types.unions.groups, types.unions.inOrder);
  }

  lemma PickedEntry(types: State, syms: seq<Symbol>, book: Book, kind: TagKind, o: C.Node)
    requires TablesOk(types) && Entries(types, syms, book, kind) && o in types.g && OfKind(types.g[o], kind)
      && o in book
    ensures HoldsPicks(types, types.g[o], syms, book[o], kind)
  {
    OneTableOk(types, kind);
    assert Entry(types, syms, book, kind, o);
  }

  lemma FirstPick(types: State, syms: seq<Symbol>, book: Book) returns (o: C.Node)
    requires OnTrack(types, syms, |syms|, book) && OpensKind(syms, 0, UnionTag)
    ensures o in book && 0 in book[o] && o in types.g && IsTagged(types.g[o])
  {
    hide NamesDistinct, Enough, Ok;
    assert KindLedger(types, syms, |syms|, book, UnionTag) && Accounted(syms, 0, book, UnionTag);
    o :| o in book && 0 in book[o];
  }

  lemma PicksStart(syms: seq<Symbol>, ps: seq<nat>, kind: TagKind, tag: string, size: uint32, a: nat)
    requires PicksMatch(syms, ps, kind, tag, size) && a < |ps|
    ensures ps[0] <= ps[a] && (ps[0] == ps[a] ==> a == 0) && (|ps| > 1 ==> Members(syms, ps[0] + 1, kind) == [])
  {
    hide Members, OpensGroup;
    if a > 0 { assert ps[0] < ps[a]; }
    if |ps| > 1 { assert ps[0] < ps[1]; }
  }

  lemma FirstHolds(v: State, d: C.Def, syms: seq<Symbol>, ps: seq<nat>, kind: TagKind)
    requires HoldsPicks(v, d, syms, ps, kind) && 0 in ps && OpensKind(syms, 0, UnionTag)
      && Members(syms, 1, UnionTag) != []
    ensures kind == UnionTag && ps[0] == 0 && TagOf(d) == ValidName(syms[0].body.name)
    ensures ContentMatches(v, d, syms, Members(syms, 1, UnionTag))
  {
    hide Members, ContentMatches, FieldsMatch, MethodRecords;
    var a :| 0 <= a < |ps| && ps[a] == 0;
    assert OpensGroup(syms[ps[a]], kind, TagOf(d), SizeOf(d));
    assert kind == UnionTag;
    PicksStart(syms, ps, kind, TagOf(d), SizeOf(d), a);
  }

  lemma LoopMembers()
    ensures OpensKind(LOOP, 0, UnionTag) && Members(LOOP, 1, UnionTag) == [1]
  {
    assert Members(LOOP, 2, UnionTag) == [];
  }

  /** Of the types of one tag, all of one size, the first group of the file fills the last. */
  lemma FirstFillsLast(types: State, syms: seq<Symbol>, book: Book, o: C.Node, size: uint32)
    requires OnTrack(types, syms, |syms|, book) && o in types.g && types.g[o].Union? && o in book
    requires book[o] != [] && book[o][0] == 0
    requires forall u | u in GroupOf(types.unions, types.g[o].tag) :: u in types.g && SizeOf(types.g[u]) == size
    ensures var s := GroupOf(types.unions, types.g[o].tag); s != [] && s[|s| - 1] == o
  {
    hide NamesDistinct, Enough, Closed, NamesOk, Entries, AllAccounted, FilledInOrder, Trees;
    assert KindLedger(types, syms, |syms|, book, UnionTag);
    OneTableOk(types, UnionTag);
    hide TablesOk;
    GroupMembers(types.g, UnionTag, types.unions.groups, types.unions.inOrder);
    assert LatestFirst(types, book, UnionTag, types.g[o].tag);
    LastIsFirst(types.g, GroupOf(types.unions, types.g[o].tag), book, o, size);
  }

  lemma LastIsFirst(g: Graph, s: seq<C.Node>, book: Book, o: C.Node, size: uint32)
    requires FilledInOrder(g, s, book) && o in s && o in book && book[o] != [] && book[o][0] == 0
    requires forall u | u in s :: u in g && SizeOf(g[u]) == size
    ensures s[|s| - 1] == o
  {
    var a :| 0 <= a < |s| && s[a] == o;
    assert s[a] in s && s[|s| - 1] in s;
  }

  /** All unions of this tag have one size. */
  lemma SizesOfU(start: State, types: State, syms: seq<Symbol>, n: nat)
    requires OnTrack(start, syms, 0, map[]) && FromRecords(start, syms)
      && GroupsAhead(syms, 0, UnionTag, "u", 4) == n > 0
    requires forall j, x | 0 <= j < |syms| :: OpensGroup(syms[j], UnionTag, "u", x) ==> x == 4
    requires Grows(start, types)
    ensures forall o | o in GroupOf(types.unions, "u") :: o in types.g && SizeOf(types.g[o]) == 4
  {
    ScaffoldsOfU(start, syms, n);
    hide OnTrack, FromRecords;
    forall o | o in start.unions.groups["u"] ensures o in types.g && SizeOf(types.g[o]) == 4 {
      assert Kept(start.g[o], types.g[o]);
    }
  }

  lemma OneGroup()
    ensures GroupsAhead(LOOP, 0, UnionTag, "u", 4) == 1
  {
    TagU();
    assert GroupsAhead(LOOP, 3, UnionTag, "u", 4) == 0;
    assert GroupsAhead(LOOP, 2, UnionTag, "u", 4) == 0;
    assert GroupsAhead(LOOP, 1, UnionTag, "u", 4) == 0;
  }

  lemma FieldMatchesRecord(types: State, o: C.Node)
    requires FilledBy(types, o, LOOP, 0)
    ensures |types.g[o].fields| == 1 && FieldMatches(types, types.g[o].fields[0], SELF)
  {
    hide FieldMatches, OpensGroup;
    LoopMembers();
    assert FieldMatches(types, types.g[o].fields[0], LOOP[1]);
  }

  /** A type that is a pointer to the last union of the tag. */
  lemma PointerToLast(types: State, t: C.Type)
    requires TypeMatches(types, t, BASE_UNION + 16, [], "u")
    ensures var s := GroupOf(types.unions, "u");
      t.Ref? && t.node in types.g && s != [] && types.g[t.node] == C.Pointer(C.Ref(s[|s| - 1]))
  {
    hide ModsFrom;
    TagU();
    Words();
    assert Build(Strip(types.g, t, 1), [PointerMod], []) == PointerTo(BaseType(Strip(types.g, t, 1)));
  }

  /** A field that is a pointer to the last union of the tag. */
  lemma FieldOfLoop(types: State, o: C.Node)
    requires FilledBy(types, o, LOOP, 0)
    ensures |types.g[o].fields| == 1
    ensures var t, s := types.g[o].fields[0].v.typ, GroupOf(types.unions, "u");
      t.Ref? && t.node in types.g && s != [] && types.g[t.node] == C.Pointer(C.Ref(s[|s| - 1]))
  {
    FieldMatchesRecord(types, o);
    hide FilledBy, TypeMatches;
    PointerToLast(types, types.g[o].fields[0].v.typ);
  }

  /** However these records are translated, there is a union that holds a pointer to itself. */
  lemma LoopInTypes(start: State, book: Book, types: State) returns (o: C.Node, n: C.Node)
    requires HasTypes(LOOP, start, book, types)
    ensures o in types.g && n in types.g && types.g[n] == C.Pointer(C.Ref(o))
    ensures types.g[o].Union? && |types.g[o].fields| == 1 && types.g[o].fields[0].v.typ == C.Ref(n)
  {
    hide OnTrack, TypedefsMatch, FromRecords, GroupsAhead, Members, Grows;
    TagU();
    LoopMembers();
    OneGroup();
    o := FilledType(types, LOOP, book);
    FieldOfLoop(types, o);
    n := types.g[o].fields[0].v.typ.node;
    SizesOfU(start, types, LOOP, 1);
    assert types.g[o].tag == "u";
    FirstFillsLast(types, LOOP, book, o, 4);
  }

  lemma PointerLoop(g: Graph, o: C.Node, n: C.Node)
    requires o in g && n in g && g[n] == C.Pointer(C.Ref(o)) && g[o].Union? && |g[o].fields| == 1
    requires g[o].fields[0].v.typ == C.Ref(n)
    ensures Leads(g, Slot(o, 0), Slot(o, 0)) && |Slots(g[o])| == 1
  {
    var a, b := Slot(o, 0), Slot(n, 0);
    assert FieldTypes(g[o].fields)[0] == C.Ref(n);
    assert Slots(g[o])[0] == C.Ref(n) && |Slots(g[o])| == 1 && Slots(g[n]) == [C.Ref(o)];
    assert SlotType(g, a) == C.Ref(n) && SlotType(g, b) == C.Ref(o);
    assert WalkSlots(g, C.Ref(n)) == [b] && WalkSlots(g, C.Ref(o)) == [a];
    assert b in Next(g, a);
    assert a in Next(g, b);
    LeadsNext(g, a, b);
    LeadsNext(g, b, a);
    LeadsTrans(g, a, b, a);
  }

  /** However these records are translated, a union is listed from whose field, where the program starts a
      walk, the walk returns at no depth. */
  lemma WalkDoesNotEnd(start: State, book: Book, types: State, v: State) returns (o: C.Node)
    requires HasTypes(LOOP, start, book, types) && Later(types, v) && Ok(v)
    ensures o in v.unions.inOrder && o in v.g && |Slots(v.g[o])| == 1 && !Returns(v.g, Slot(o, 0))
    ensures !FieldsReturn(v.g, v.unions.inOrder)
  {
    var n;
    o, n := LoopInTypes(start, book, types);
    hide HasTypes;
    assert BareDef(v.g[o]) == BareDef(types.g[o]) && BareDef(v.g[n]) == BareDef(types.g[n]);
    PointerLoop(v.g, o, n);
    OkIsReady(v);
    LoopNeverReturns(v.g, Slot(o, 0));
  }

  // ----- a record as long as the 16-bit count -----

  /** A definition with 16384 array lengths. */
  function LongRecord(): Symbol {
    Symbol(Header(0, KIND_DEF2), Def2(CLASS_EXT, BASE_UNION, 4, seq(16384, i => 1), "u", "a"))
  }

  /** The record behind it is listed 65536 bytes too early. */
  lemma OffsetIsWrong(hdr: FileHeader)
    ensures OffsetOf([LongRecord()], 1) == 27 && PositionOf(hdr, [LongRecord()], 1) == TWO16 + 27
  {
    hide PutSymbol, PutSymbols, TextBytes;
    SizeOfSymbols([LongRecord()], 1, []);
    assert [LongRecord()][..1] == [LongRecord()];
    assert Size(LongRecord()) == 19 && Wraps(LongRecord()) == 1;
    assert OffsetOf([LongRecord()], 0) == 8 && WrapsBefore([LongRecord()], 0) == 0;
  }
}

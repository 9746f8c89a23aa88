// The state of type parsing as a value, and the invariants kept by every step
// (csym/parse_types.go).

module TypesState {
  import opened Ints
  import opened CTypes
  import opened TypeGraph
  import opened TypeTrees
  import opened Lists
  import opened TagTables
  import opened CTree
  import opened TypeWord
  import opened Naming

  /** One table: the groups by tag, and the list in order of creation. */
  datatype Table = Table(groups: Groups, inOrder: seq<Node>)

  /** Everything type parsing reads and writes. */
  datatype State = State(
    g: Graph, structs: Table, unions: Table, enums: Table,
    types: map<string, Type>, typedefs: seq<Node>, names: set<string>)

  function TableOf(v: State, kind: TagKind): Table {
    match kind
    case StructTag => v.structs
    case UnionTag => v.unions
    case EnumTag => v.enums
  }

  function WithTable(v: State, kind: TagKind, t: Table): State {
    match kind
    case StructTag => v.(structs := t)
    case UnionTag => v.(unions := t)
    case EnumTag => v.(enums := t)
  }

  function GroupOf(t: Table, tag: string): seq<Node> {
    if tag in t.groups then t.groups[tag] else []
  }

  /** `AddStruct` and its twins. */
  function AddTagged(v: State, kind: TagKind, n: Node, d: Def): State {
    var t := TableOf(v, kind);
    var t' := Table(t.groups[TagOf(d) := GroupOf(t, TagOf(d)) + [n]], t.inOrder + [n]);
    WithTable(v.(g := v.g[n := d]), kind, t')
  }

  function Alloc(v: State, n: Node, d: Def): State {
    v.(g := v.g[n := d])
  }

  // ----- the invariant -----

  ghost predicate TableOk(v: State, kind: TagKind) {
    && Indexed(v.g, kind, TableOf(v, kind).groups, TableOf(v, kind).inOrder)
    && forall o | o in v.g && OfKind(v.g[o], kind) :: o in TableOf(v, kind).inOrder
  }

  /** Type names stand for declarations of that name; `bool` is one of them. */
  ghost predicate NamesOk(v: State) {
    && "bool" in v.types
    && (forall name | name in v.types :: IsTypedef(v.g, v.types[name], name))
    && (forall d | d in v.typedefs :: d in v.g && v.g[d].Decl?)
  }

  predicate IsTypedef(g: Graph, t: Type, name: string) {
    t.Ref? && t.node in g && g[t.node].Decl? && g[t.node].v.name == name
  }

  ghost predicate TablesOk(v: State) {
    Closed(v.g) && TableOk(v, StructTag) && TableOk(v, UnionTag) && TableOk(v, EnumTag)
  }

  ghost predicate Ok(v: State) {
    TablesOk(v) && NamesOk(v) && Trees(v.g)
  }

  lemma AddingKeepsIndexed(g: Graph, kind: TagKind, t: Table, n: Node, d: Def)
    requires Indexed(g, kind, t.groups, t.inOrder) && n !in g && OfKind(d, kind)
    ensures Indexed(g[n := d], kind, t.groups[TagOf(d) := GroupOf(t, TagOf(d)) + [n]], t.inOrder + [n])
  {
    var g' := g[n := d];
    var tag := TagOf(d);
    var groups' := t.groups[tag := GroupOf(t, tag) + [n]];
    forall x | x in groups' ensures groups'[x] == Keep(t.inOrder + [n], Tagged(g', x)) && groups'[x] != [] {
      KeepAppend(t.inOrder, [n], Tagged(g', x));
      KeepSame(t.inOrder, Tagged(g, x), Tagged(g', x));
      assert Keep([n], Tagged(g', x)) == if x == tag then [n] else [];
      if x == tag && x !in t.groups {
        NoGroupNoMembers(g, kind, t, x);
      }
    }
  }

  lemma NoGroupNoMembers(g: Graph, kind: TagKind, t: Table, tag: string)
    requires Indexed(g, kind, t.groups, t.inOrder) && tag !in t.groups
    ensures Keep(t.inOrder, Tagged(g, tag)) == []
  {
    KeepSame(t.inOrder, Tagged(g, tag), {});
    KeepNone(t.inOrder);
  }

  /** A table stays in order when other objects change, or appear. */
  lemma ExtendingKeepsIndexed(g: Graph, g': Graph, kind: TagKind, t: Table)
    requires Indexed(g, kind, t.groups, t.inOrder)
    requires forall o | o in t.inOrder :: o in g' && TagOf(g'[o]) == TagOf(g[o]) && OfKind(g'[o], kind)
    ensures Indexed(g', kind, t.groups, t.inOrder)
  {
    forall x | x in t.groups ensures t.groups[x] == Keep(t.inOrder, Tagged(g', x)) {
      KeepSame(t.inOrder, Tagged(g, x), Tagged(g', x));
    }
  }

  lemma KindsDiffer(d: Def, kind: TagKind, other: TagKind)
    requires OfKind(d, kind) && OfKind(d, other)
    ensures kind == other
  {
  }

  lemma AddingKeepsTable(v: State, kind: TagKind, n: Node, d: Def, other: TagKind)
    requires TableOk(v, kind) && TableOk(v, other) && n !in v.g && OfKind(d, kind)
    ensures TableOk(AddTagged(v, kind, n, d), other)
  {
    var v' := AddTagged(v, kind, n, d);
    if other == kind {
      AddingKeepsIndexed(v.g, kind, TableOf(v, kind), n, d);
    } else {
      ExtendingKeepsIndexed(v.g, v'.g, other, TableOf(v, other));
    }
    assert TableOf(v', other) == if other == kind then TableOf(v', kind) else TableOf(v, other);
  }

  predicate EmptyDef(d: Def) {
    (d.Struct? && d.fields == [] && d.methods == []) || (d.Union? && d.fields == []) || (d.Enum? && d.members == [])
  }

  lemma AddingKeepsOk(v: State, kind: TagKind, n: Node, d: Def)
    requires Ok(v) && n !in v.g && OfKind(d, kind) && EmptyDef(d)
    ensures Ok(AddTagged(v, kind, n, d))
  {
    hide TableOk, Closed, Trees;
    assert TableOk(v, kind);
    AddingKeepsTable(v, kind, n, d, StructTag);
    AddingKeepsTable(v, kind, n, d, UnionTag);
    AddingKeepsTable(v, kind, n, d, EnumTag);
    EmptySlots(d);
    AllocKeepsClosed(v.g, n, d);
    AllocKeepsTrees(v.g, n, d);
  }

  lemma EmptySlots(d: Def)
    requires EmptyDef(d)
    ensures Slots(d) == [] && Params(d) == []
  {
  }

  lemma AllocKeepsClosed(g: Graph, n: Node, d: Def)
    requires Closed(g) && n !in g
    requires forall i | 0 <= i < |Slots(d)| :: In(g, Slots(d)[i])
    requires Params(d) == []
    ensures Closed(g[n := d])
  {
  }

  lemma OneSlot(d: Def)
    requires !IsTagged(d)
    ensures |Slots(d)| == 1
  {
  }

  /** Allocating an untagged object whose reference is in the graph, and to nothing that is held. */
  lemma AllocKeepsOk(v: State, n: Node, d: Def)
    requires Ok(v) && n !in v.g
    requires forall i | 0 <= i < |Slots(d)| :: In(v.g, Slots(d)[i]) && Loose(v.g, Slots(d)[i])
    requires Params(d) == [] && !d.Struct? && !d.Union? && !d.Enum?
    ensures Ok(Alloc(v, n, d))
  {
    OneSlot(d);
    hide TableOk, Closed, Slots, Params, Trees, Loose;
    AllocKeepsClosed(v.g, n, d);
    AllocKeepsTrees(v.g, n, d);
    AllocKeepsTable(v, n, d, StructTag);
    AllocKeepsTable(v, n, d, UnionTag);
    AllocKeepsTable(v, n, d, EnumTag);
  }

  lemma AllocKeepsTable(v: State, n: Node, d: Def, kind: TagKind)
    requires TableOk(v, kind) && n !in v.g && !OfKind(d, kind)
    ensures TableOk(Alloc(v, n, d), kind)
  {
    ExtendingKeepsIndexed(v.g, Alloc(v, n, d).g, kind, TableOf(v, kind));
    assert TableOf(Alloc(v, n, d), kind) == TableOf(v, kind);
  }

  // ----- resolving base types -----

  const BASE_NULL := 0
  const BASE_STRUCT := 8
  const BASE_UNION := 9
  const BASE_ENUM := 10

  /** The plain base types (type.go); floating point and enum members are not supported. */
  function PlainBase(base: nat): Type
    requires PlainBits(base)
  {
    match base
    case 1 => Basic(Void)
    case 2 => Basic(Char)
    case 3 => Basic(Short)
    case 4 => Basic(Int)
    case 5 => Basic(Long)
    case 12 => Basic(UChar)
    case 13 => Basic(UShort)
    case 14 => Basic(UInt)
    case _ => Basic(ULong)
  }

  predicate PlainBits(base: nat) {
    1 <= base <= 5 || 12 <= base <= 15
  }

  predicate TagBits(base: nat) {
    base == BASE_STRUCT || base == BASE_UNION || base == BASE_ENUM
  }

  function KindOfBits(base: nat): TagKind
    requires TagBits(base)
  {
    if base == BASE_STRUCT then StructTag else if base == BASE_UNION then UnionTag else EnumTag
  }

  predicate Supported(base: nat) {
    base == BASE_NULL || PlainBits(base) || TagBits(base)
  }

  /** The base type that these bits and this tag stand for: the last type of a tag's group. */
  predicate Resolves(v: State, base: nat, tag: string, t: Type) {
    if base == BASE_NULL then IsTypedef(v.g, t, "bool")
    else if PlainBits(base) then t == PlainBase(base)
    else if TagBits(base) then
      var s := GroupOf(TableOf(v, KindOfBits(base)), ValidName(tag));
      s != [] && t == Ref(s[|s| - 1])
    else false
  }

  /** The group of a tag that no record opens a group for: one type of size 0. */
  predicate IsImplicit(g: Graph, s: seq<Node>) {
    |s| == 1 && s[0] in g && SizeOf(g[s[0]]) == 0
  }

  /** Groups in use never change; new ones have one type each, of size 0. */
  ghost predicate GroupsGrow(s: Groups, t: Groups, h: Graph) {
    && (forall tag | tag in s :: tag in t && t[tag] == s[tag])
    && (forall tag | tag in t && tag !in s :: IsImplicit(h, t[tag]))
  }

  ghost predicate TablesGrow(v: State, w: State) {
    && GroupsGrow(v.structs.groups, w.structs.groups, w.g)
    && GroupsGrow(v.unions.groups, w.unions.groups, w.g)
    && GroupsGrow(v.enums.groups, w.enums.groups, w.g)
  }

  predicate IsTagged(d: Def) {
    d.Struct? || d.Union? || d.Enum?
  }

  function SizeOf(d: Def): uint32 {
    if d.Struct? || d.Union? then d.size else 0
  }

  /** Objects stay; only tagged types change, and they keep their kind, tag and size. */
  ghost predicate GraphGrows(g: Graph, h: Graph) {
    forall o | o in g :: o in h && Kept(g[o], h[o])
  }

  predicate Kept(d: Def, e: Def) {
    if !IsTagged(d) then e == d
    else
      && e.Struct? == d.Struct? && e.Union? == d.Union? && e.Enum? == d.Enum?
      && TagOf(e) == TagOf(d) && SizeOf(e) == SizeOf(d)
  }

  ghost predicate Grows(v: State, w: State) {
    TablesGrow(v, w) && GraphGrows(v.g, w.g)
  }

  lemma GrowsTrans(u: State, v: State, w: State)
    requires Grows(u, v) && Grows(v, w)
    ensures Grows(u, w)
  {
    forall o | o in u.g ensures o in w.g && Kept(u.g[o], w.g[o]) {
      assert Kept(u.g[o], v.g[o]) && Kept(v.g[o], w.g[o]);
    }
  }

  lemma GrowsRefl(v: State)
    ensures Grows(v, v)
  {
  }

  /** What a tag resolves to once, it resolves to ever after; and it resolves to one object only. */
  lemma ResolutionIsStable(v: State, w: State, base: nat, tag: string, t: Type)
    requires Grows(v, w) && Resolves(v, base, tag, t)
    ensures Resolves(w, base, tag, t)
    ensures base != BASE_NULL ==> forall u | Resolves(w, base, tag, u) :: u == t
  {
    if base == BASE_NULL { assert Kept(v.g[t.node], w.g[t.node]); }
  }

  // ----- types in the graph against types as trees -----

  /** The type t of the graph is the tree ct, down to base types. */
  ghost predicate Represents(g: Graph, t: Type, ct: CType<Type>)
    decreases ct
  {
    match ct
    case BaseType(u) => t == u
    case PointerTo(e) => t.Ref? && t.node in g && g[t.node].Pointer? && Represents(g, g[t.node].elem, e)
    case ArrayOf(e, len) =>
      t.Ref? && t.node in g && g[t.node].Array? && g[t.node].len == len && Represents(g, g[t.node].elem, e)
    case FuncOf(r, ps, variadic) =>
      t.Ref? && t.node in g && g[t.node].Func? && g[t.node].variadic == variadic && g[t.node].params == [] && ps == []
      && Represents(g, g[t.node].ret, r)
  }

  lemma {:induction false} RepresentsStays(g: Graph, h: Graph, t: Type, ct: CType<Type>)
    requires Represents(g, t, ct)
    requires forall o | o in g && !IsTagged(g[o]) :: o in h && h[o] == g[o]
    ensures Represents(h, t, ct)
    decreases ct
  {
    match ct
    case BaseType(_) =>
    case PointerTo(e) => RepresentsStays(g, h, g[t.node].elem, e);
    case ArrayOf(e, _) => RepresentsStays(g, h, g[t.node].elem, e);
    case FuncOf(r, _, _) => RepresentsStays(g, h, g[t.node].ret, r);
  }

  lemma {:induction false} StripBuilt(g: Graph, t: Type, u: Type, mods: seq<Mod>, dims: seq<nat>)
    requires Arrays(mods) <= |dims| && Represents(g, t, Build(u, mods, dims))
    ensures Strip(g, t, |mods|) == u
    decreases |mods|
  {
    if mods != [] {
      var d := g[t.node];
      StripBuilt(g, if d.Func? then d.ret else d.elem, u, mods[1..], dims);
    }
  }

  lemma {:induction false} StripStays(g: Graph, h: Graph, t: Type, u: Type, mods: seq<Mod>, dims: seq<nat>)
    requires Arrays(mods) <= |dims| && Represents(g, t, Build(u, mods, dims))
    requires forall o | o in g && !IsTagged(g[o]) :: o in h && h[o] == g[o]
    ensures Strip(h, t, |mods|) == Strip(g, t, |mods|)
  {
    RepresentsStays(g, h, t, Build(u, mods, dims));
    StripBuilt(g, t, u, mods, dims);
    StripBuilt(h, t, u, mods, dims);
  }

  /** The type t is what this type word, with these array lengths and this tag, stands for. */
  ghost predicate TypeMatches(v: State, t: Type, word: uint16, dims: seq<nat>, tag: string) {
    && Arrays(ModsOf(word)) <= |dims|
    && var base := Strip(v.g, t, |ModsOf(word)|);
       Resolves(v, BaseBits(word), tag, base) && Represents(v.g, t, Build(base, ModsOf(word), dims))
  }

  lemma TypeMatchesStays(v: State, w: State, t: Type, word: uint16, dims: seq<nat>, tag: string)
    requires Grows(v, w) && TypeMatches(v, t, word, dims, tag)
    ensures TypeMatches(w, t, word, dims, tag)
  {
    hide ModsFrom, Resolves;
    var mods := ModsOf(word);
    var base := Strip(v.g, t, |mods|);
    forall o | o in v.g && !IsTagged(v.g[o]) ensures o in w.g && w.g[o] == v.g[o] {
      assert Kept(v.g[o], w.g[o]);
    }
    ResolutionIsStable(v, w, BaseBits(word), tag, base);
    RepresentsStays(v.g, w.g, t, Build(base, mods, dims));
    StripStays(v.g, w.g, t, base, mods, dims);
  }
}

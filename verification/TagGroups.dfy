// Tag groups in the record stream, and types that appear around one that is being filled
// (csym/parse_types.go).

module TagGroups {
  import opened Ints
  import opened Records
  import C = CTypes
  import opened TypeGraph
  import opened TypeTrees
  import opened TagTables
  import opened Naming
  import opened TypesState
  import opened Scaffolds

  // ----- groups -----

  predicate IsEos(s: Symbol) {
    s.body.Def2? && s.body.class_ == CLASS_EOS
  }

  /** A member record of a group; enum members are never long definitions. */
  predicate IsMember(s: Symbol, kind: TagKind) {
    (s.body.Def? || (s.body.Def2? && kind != EnumTag)) && s.body.class_ == MemberClass(kind)
  }

  /** A method record; methods are never long definitions. */
  predicate IsMethod(s: Symbol, kind: TagKind) {
    kind == StructTag && s.body.Def? && s.body.class_ == CLASS_FIELD
  }

  predicate OpensKind(syms: seq<Symbol>, j: nat, kind: TagKind) {
    j < |syms| && syms[j].body.Def? && syms[j].body.class_ == TagClass(kind)
  }

  /** The positions of the method records of a group, from position j up to its end marker. */
  function Methods(syms: seq<Symbol>, j: nat, kind: TagKind): seq<nat>
    decreases |syms| - j
  {
    if j >= |syms| || IsEos(syms[j]) then []
    else (if IsMethod(syms[j], kind) then [j] else []) + Methods(syms, j + 1, kind)
  }

  /** The positions of the member records of a group, from position j up to its end marker. */
  function Members(syms: seq<Symbol>, j: nat, kind: TagKind): seq<nat>
    decreases |syms| - j
  {
    if j >= |syms| || IsEos(syms[j]) then []
    else (if IsMember(syms[j], kind) then [j] else []) + Members(syms, j + 1, kind)
  }

  function DimsOf(s: Symbol): seq<nat> {
    if s.body.Def2? then s.body.dims else []
  }

  function TagTextOf(s: Symbol): string {
    if s.body.Def2? then s.body.tag else ""
  }

  /** A field that says what its record says, with the type its type word stands for. */
  ghost predicate FieldMatches(v: State, f: C.Field, s: Symbol) {
    && (s.body.Def? || s.body.Def2?)
    && f.offset == s.hdr.value && f.size == s.body.size && f.v.name == ValidName(s.body.name)
    && TypeMatches(v, f.v.typ, s.body.typ, DimsOf(s), TagTextOf(s))
  }

  ghost predicate FieldsMatch(v: State, fs: seq<C.Field>, syms: seq<Symbol>, ms: seq<nat>) {
    |fs| == |ms| && forall k | 0 <= k < |fs| :: ms[k] < |syms| && FieldMatches(v, fs[k], syms[ms[k]])
  }

  lemma FieldsMatchStays(v: State, w: State, fs: seq<C.Field>, syms: seq<Symbol>, ms: seq<nat>)
    requires Grows(v, w) && FieldsMatch(v, fs, syms, ms)
    ensures FieldsMatch(w, fs, syms, ms)
  {
    forall k | 0 <= k < |fs| ensures FieldMatches(w, fs[k], syms[ms[k]]) {
      var s := syms[ms[k]];
      assert FieldMatches(v, fs[k], s);
      TypeMatchesStays(v, w, fs[k].v.typ, s.body.typ, DimsOf(s), TagTextOf(s));
    }
  }

  function FieldsOf(d: C.Def): seq<C.Field> {
    if d.Struct? || d.Union? then d.fields else []
  }

  function MethodsOf(d: C.Def): seq<C.Field> {
    if d.Struct? then d.methods else []
  }

  /** No fields, or no enum members, yet. */
  predicate Blank(d: C.Def) {
    FieldsOf(d) == [] && (d.Enum? ==> d.members == [])
  }

  /** The names the program may give an enum member: its own, or a numbered duplicate of it. */
  ghost predicate IsNameFor(name: string, given: string) {
    exists i: nat :: name == Candidate(given, i)
  }

  /** The i-th name `uniqueEnum` tries. */
  function Candidate(name: string, i: nat): string {
    if i == 0 then name else name + "_DUPLICATE_" + Decimal(i - 1)
  }

  ghost predicate MemberMatches(m: C.EnumMember, s: Symbol) {
    s.body.Def? && m.value == s.hdr.value && IsNameFor(m.name, ValidName(s.body.name))
  }

  ghost predicate MembersMatch(es: seq<C.EnumMember>, syms: seq<Symbol>, ms: seq<nat>) {
    |es| == |ms| && forall k | 0 <= k < |es| :: ms[k] < |syms| && MemberMatches(es[k], syms[ms[k]])
  }

  /** The content of a tagged type is what these member records say, in order. */
  ghost predicate ContentMatches(v: State, d: C.Def, syms: seq<Symbol>, ms: seq<nat>) {
    if d.Enum? then MembersMatch(d.members, syms, ms) else FieldsMatch(v, FieldsOf(d), syms, ms)
  }

  lemma ContentStays(v: State, w: State, d: C.Def, syms: seq<Symbol>, ms: seq<nat>)
    requires Grows(v, w) && ContentMatches(v, d, syms, ms)
    ensures ContentMatches(w, d, syms, ms)
  {
    if !d.Enum? { FieldsMatchStays(v, w, FieldsOf(d), syms, ms); }
  }

  // ----- states that only gain empty types and untagged objects -----

  /** New objects and new, empty tagged types appear; everything else stays. */
  ghost predicate Adds(v: State, w: State) {
    && (forall o | o in v.g :: o in w.g && w.g[o] == v.g[o])
    && (forall o | o in w.g && o !in v.g :: Params(w.g[o]) == [])
    && w.types == v.types && w.typedefs == v.typedefs && w.names == v.names
    && TableAdds(v, w, StructTag) && TableAdds(v, w, UnionTag) && TableAdds(v, w, EnumTag)
  }

  ghost predicate TableAdds(v: State, w: State, kind: TagKind) {
    var s, t := TableOf(v, kind), TableOf(w, kind);
    && (forall tag | tag in s.groups :: tag in t.groups && t.groups[tag] == s.groups[tag])
    && s.inOrder <= t.inOrder
    && (forall o | o in t.inOrder && o !in s.inOrder :: o !in v.g && o in w.g && EmptyDef(w.g[o]))
    && (forall tag | tag in t.groups && tag !in s.groups :: IsImplicit(w.g, t.groups[tag]))
  }

  lemma AddsGrows(v: State, w: State)
    requires Adds(v, w)
    ensures Grows(v, w)
  {
    assert TableAdds(v, w, StructTag) && TableAdds(v, w, UnionTag) && TableAdds(v, w, EnumTag);
  }

  lemma AddsRefl(v: State)
    ensures Adds(v, v)
  {
  }

  lemma TableAddsTrans(u: State, v: State, w: State, kind: TagKind)
    requires TableAdds(u, v, kind) && TableAdds(v, w, kind)
    requires forall o | o in u.g :: o in v.g
    requires forall o | o in v.g :: o in w.g && w.g[o] == v.g[o]
    ensures TableAdds(u, w, kind)
  {
  }

  lemma AddsTrans(u: State, v: State, w: State)
    requires Adds(u, v) && Adds(v, w)
    ensures Adds(u, w)
  {
    hide TableAdds;
    TableAddsTrans(u, v, w, StructTag);
    TableAddsTrans(u, v, w, UnionTag);
    TableAddsTrans(u, v, w, EnumTag);
  }

  lemma AllocAdds(v: State, n: C.Node, d: C.Def)
    requires n !in v.g && Params(d) == []
    ensures Adds(v, Alloc(v, n, d))
  {
  }

  lemma AddTaggedAdds(v: State, kind: TagKind, n: C.Node, d: C.Def)
    requires n !in v.g && EmptyDef(d) && SizeOf(d) == 0 && TagOf(d) !in TableOf(v, kind).groups
    ensures Adds(v, AddTagged(v, kind, n, d))
  {
    var w := AddTagged(v, kind, n, d);
    hide TableAdds;
    AddsHere(v, kind, n, d);
    forall other: TagKind | other != kind ensures TableAdds(v, w, other) { AddsElsewhere(v, w, other); }
  }

  lemma AddsHere(v: State, kind: TagKind, n: C.Node, d: C.Def)
    requires n !in v.g && EmptyDef(d) && SizeOf(d) == 0 && TagOf(d) !in TableOf(v, kind).groups
    ensures TableAdds(v, AddTagged(v, kind, n, d), kind)
  {
    assert GroupOf(TableOf(v, kind), TagOf(d)) + [n] == [n];
    assert TableOf(AddTagged(v, kind, n, d), kind).groups == TableOf(v, kind).groups[TagOf(d) := [n]];
  }

  lemma AddsElsewhere(v: State, w: State, other: TagKind)
    requires TableOf(w, other) == TableOf(v, other)
    ensures TableAdds(v, w, other)
  {
  }

  lemma AddsKeepsEnough(v: State, w: State, syms: seq<Symbol>, i: nat)
    requires TablesOk(v) && i <= |syms| && Enough(v, syms, i) && Adds(v, w)
    ensures Enough(w, syms, i)
  {
    forall kind: TagKind, tag: string, size: uint32 ensures EnoughFor(w, syms, i, kind, tag, size) {
      assert EnoughFor(v, syms, i, kind, tag, size);
      GroupInGraph(v, kind, tag);
      assert TableAdds(v, w, kind);
      if tag in TableOf(v, kind).groups {
        CountSame(v.g, w.g, TableOf(v, kind).groups[tag], kind, size);
      }
    }
  }

  // ----- filling -----

  function SetDef(v: State, t: C.Node, d: C.Def): State {
    v.(g := v.g[t := d])
  }

  /** A tagged type that keeps its kind, tag and size. */
  lemma SetDefGrows(v: State, t: C.Node, d: C.Def)
    requires t in v.g && IsTagged(v.g[t]) && Kept(v.g[t], d)
    ensures Grows(v, SetDef(v, t, d))
  {
  }

  lemma SetDefKeepsTable(v: State, t: C.Node, d: C.Def, kind: TagKind)
    requires TableOk(v, kind) && t in v.g && IsTagged(v.g[t]) && Kept(v.g[t], d)
    ensures TableOk(SetDef(v, t, d), kind)
  {
    ExtendingKeepsIndexed(v.g, SetDef(v, t, d).g, kind, TableOf(v, kind));
    assert TableOf(SetDef(v, t, d), kind) == TableOf(v, kind);
  }

  lemma SetDefKeepsClosed(g: Graph, t: C.Node, d: C.Def)
    requires Closed(g) && t in g && IsTagged(g[t]) && Params(d) == []
    requires forall i | 0 <= i < |Slots(d)| :: In(g, Slots(d)[i])
    ensures Closed(g[t := d])
  {
  }

  lemma SetDefKeepsOk(v: State, t: C.Node, d: C.Def)
    requires Ok(v) && t in v.g && IsTagged(v.g[t]) && Kept(v.g[t], d)
    requires Trees(v.g[t := d]) && forall i | 0 <= i < |Slots(d)| :: In(v.g, Slots(d)[i])
    ensures Ok(SetDef(v, t, d))
  {
    hide Closed, TableOk, Slots, Trees;
    SetDefKeepsClosed(v.g, t, d);
    SetDefKeepsTable(v, t, d, StructTag);
    SetDefKeepsTable(v, t, d, UnionTag);
    SetDefKeepsTable(v, t, d, EnumTag);
  }

  /** The places of d are those of e from place a on. */
  predicate SlotsFrom(d: C.Def, e: C.Def, a: nat) {
    a + |Slots(d)| <= |Slots(e)| && forall i | 0 <= i < |Slots(d)| :: Slots(d)[i] == Slots(e)[a + i]
  }

  /** Undoing the filling of t underneath whatever was added since. */
  lemma AddsBeneath(u: State, t: C.Node, d: C.Def, w: State, a: nat)
    requires Ok(u) && t in u.g && IsTagged(u.g[t]) && Kept(u.g[t], d) && SlotsFrom(u.g[t], d, a)
    requires Adds(SetDef(u, t, d), w) && Ok(w)
    ensures Adds(u, SetDef(w, t, u.g[t])) && Ok(SetDef(w, t, u.g[t]))
    ensures w == SetDef(SetDef(w, t, u.g[t]), t, d)
  {
    hide TableOk, TableAdds, NamesOk, Closed, Slots, Params;
    OkBeneath(u, t, d, w, a);
    KeptBack(u, t, d, w);
    hide Kept, IsTagged;
    TableAddsBeneath(u, t, d, w, StructTag);
    TableAddsBeneath(u, t, d, w, UnionTag);
    TableAddsBeneath(u, t, d, w, EnumTag);
    assert w.g[t] == SetDef(u, t, d).g[t] == d;
  }

  lemma KeptBack(u: State, t: C.Node, d: C.Def, w: State)
    requires t in u.g && IsTagged(u.g[t]) && Kept(u.g[t], d) && Adds(SetDef(u, t, d), w)
    ensures t in w.g && w.g[t] == d && IsTagged(d) && Kept(d, u.g[t])
  {
    hide TableAdds;
    assert t in SetDef(u, t, d).g;
  }

  lemma OkBeneath(u: State, t: C.Node, d: C.Def, w: State, a: nat)
    requires Closed(u.g) && t in u.g && IsTagged(u.g[t]) && Kept(u.g[t], d) && SlotsFrom(u.g[t], d, a)
    requires Adds(SetDef(u, t, d), w) && Ok(w)
    ensures Ok(SetDef(w, t, u.g[t]))
  {
    KeptFixed(u.g[t], d);
    OkClosed(w);
    hide TableAdds, TablesOk, NamesOk, Trees, Slots, Kept, IsTagged, IsFixed;
    forall i | 0 <= i < |Slots(u.g[t])| ensures In(w.g, Slots(u.g[t])[i]) {
      assert In(u.g, Slots(u.g[t])[i]);
    }
    FewerKeepTrees(w.g, t, u.g[t], a);
    SetDefKeepsOk(w, t, u.g[t]);
  }

  lemma KeptFixed(d: C.Def, e: C.Def)
    requires IsTagged(d) && Kept(d, e)
    ensures IsFixed(d) && IsFixed(e) && IsTagged(e) && Kept(e, d)
  {
  }

  lemma OkClosed(v: State)
    requires Ok(v)
    ensures Closed(v.g) && Trees(v.g)
  {
  }

  lemma TableAddsBeneath(u: State, t: C.Node, d: C.Def, w: State, kind: TagKind)
    requires TableOk(u, kind) && t in u.g && IsTagged(u.g[t]) && TableAdds(SetDef(u, t, d), w, kind)
    requires t in w.g && Kept(w.g[t], u.g[t]) && IsTagged(w.g[t])
    ensures TableAdds(u, SetDef(w, t, u.g[t]), kind)
  {
    assert TableOf(SetDef(w, t, u.g[t]), kind) == TableOf(w, kind);
    assert TableOf(SetDef(u, t, d), kind) == TableOf(u, kind);
  }
}

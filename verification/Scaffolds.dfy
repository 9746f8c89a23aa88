// Scaffolds for tagged types: created empty first, each filled by one tag group later
// (csym/parse_types.go).

module Scaffolds {
  import opened Ints
  import opened Records
  import C = CTypes
  import opened TypeGraph
  import opened Lists
  import opened TagTables
  import opened Naming
  import opened TypesState

  // Definition classes (class.go).
  const CLASS_AUTO := 0x0001
  const CLASS_EXT := 0x0002
  const CLASS_STAT := 0x0003
  const CLASS_REG := 0x0004
  const CLASS_LABEL := 0x0006
  const CLASS_MOS := 0x0008
  const CLASS_ARG := 0x0009
  const CLASS_STRTAG := 0x000A
  const CLASS_MOU := 0x000B
  const CLASS_UNTAG := 0x000C
  const CLASS_TPDEF := 0x000D
  const CLASS_ENTAG := 0x000F
  const CLASS_MOE := 0x0010
  const CLASS_REGPARM := 0x0011
  const CLASS_FIELD := 0x0012
  const CLASS_EOS := 0x0066
  const CLASS_103 := 0x0067

  function TagClass(kind: TagKind): uint16 {
    match kind
    case StructTag => CLASS_STRTAG
    case UnionTag => CLASS_UNTAG
    case EnumTag => CLASS_ENTAG
  }

  function MemberClass(kind: TagKind): uint16 {
    match kind
    case StructTag => CLASS_MOS
    case UnionTag => CLASS_MOU
    case EnumTag => CLASS_MOE
  }

  /** A record that opens a group of this kind, with this tag and size (enums have no size). */
  predicate OpensGroup(s: Symbol, kind: TagKind, tag: string, size: uint32) {
    && s.body.Def? && s.body.class_ == TagClass(kind) && ValidName(s.body.name) == tag
    && (kind == EnumTag || s.body.size == size)
  }

  predicate OpensAnyGroup(s: Symbol) {
    s.body.Def? && (s.body.class_ == CLASS_STRTAG || s.body.class_ == CLASS_UNTAG || s.body.class_ == CLASS_ENTAG)
  }

  /** How many records from position i on open a group of this kind, tag and size. */
  function GroupsAhead(syms: seq<Symbol>, i: nat, kind: TagKind, tag: string, size: uint32): nat
    requires i <= |syms|
    decreases |syms| - i
  {
    if i == |syms| then 0
    else (if OpensGroup(syms[i], kind, tag, size) then 1 else 0) + GroupsAhead(syms, i + 1, kind, tag, size)
  }

  /** A type of the right kind and size with no members yet. */
  predicate IsScaffold(d: C.Def, kind: TagKind, size: uint32) {
    match kind
    case StructTag => d.Struct? && d.size == size && d.fields == []
    case UnionTag => d.Union? && d.size == size && d.fields == []
    case EnumTag => d.Enum? && d.members == []
  }

  /** How many scaffolds a list holds. */
  function Count(g: Graph, s: seq<C.Node>, kind: TagKind, size: uint32): nat {
    if s == [] then 0
    else
      Count(g, s[..|s| - 1], kind, size)
      + (if s[|s| - 1] in g && IsScaffold(g[s[|s| - 1]], kind, size) then 1 else 0)
  }

  lemma {:induction false} CountNone(g: Graph, s: seq<C.Node>, kind: TagKind, size: uint32)
    requires forall o | o in s :: o in g && !IsScaffold(g[o], kind, size)
    ensures Count(g, s, kind, size) == 0
  {
    if s != [] {
      assert forall o | o in s[..|s| - 1] :: o in s;
      CountNone(g, s[..|s| - 1], kind, size);
    }
  }

  lemma {:induction false} CountSame(g: Graph, h: Graph, s: seq<C.Node>, kind: TagKind, size: uint32)
    requires forall o | o in s :: o in g && o in h && (IsScaffold(h[o], kind, size) <==> IsScaffold(g[o], kind, size))
    ensures Count(h, s, kind, size) == Count(g, s, kind, size)
  {
    if s != [] {
      assert forall o | o in s[..|s| - 1] :: o in s;
      CountSame(g, h, s[..|s| - 1], kind, size);
    }
  }

  /** Changing one object costs a list at most one scaffold, and none if the object was not one. */
  lemma {:induction false} CountAfterChange(g: Graph, h: Graph, s: seq<C.Node>, kind: TagKind, size: uint32, t: C.Node)
    requires NoDup(s) && t in g && forall o | o in s :: o in g && o in h
    requires forall o | o in s && o != t :: h[o] == g[o]
    ensures Count(h, s, kind, size) + (if IsScaffold(g[t], kind, size) then 1 else 0) >= Count(g, s, kind, size)
  {
    if s != [] {
      var n := |s| - 1;
      assert forall o | o in s[..n] :: o in s;
      if s[n] == t {
        assert t !in s[..n];
        CountSame(g, h, s[..n], kind, size);
      } else {
        CountAfterChange(g, h, s[..n], kind, size, t);
      }
    }
  }

  /** Enough scaffolds: for every kind, tag and size, at least as many as groups still ahead. */
  ghost predicate Enough(v: State, syms: seq<Symbol>, i: nat)
    requires i <= |syms|
  {
    forall kind: TagKind, tag: string, size: uint32 :: EnoughFor(v, syms, i, kind, tag, size)
  }

  predicate EnoughFor(v: State, syms: seq<Symbol>, i: nat, kind: TagKind, tag: string, size: uint32)
    requires i <= |syms|
  {
    Count(v.g, GroupOf(TableOf(v, kind), tag), kind, size) >= GroupsAhead(syms, i, kind, tag, size)
  }

  /** `findEmptyStruct` and its twins: the last scaffold of a group. */
  ghost predicate LastScaffold(g: Graph, s: seq<C.Node>, kind: TagKind, size: uint32, t: C.Node) {
    exists i | 0 <= i < |s| ::
      && s[i] == t && t in g && IsScaffold(g[t], kind, size)
      && forall j | i < j < |s| :: s[j] in g && !IsScaffold(g[s[j]], kind, size)
  }

  /** Adding a scaffold to its group makes one more; nothing else changes. */
  lemma AddingCounts(v: State, kind: TagKind, n: C.Node, d: C.Def, other: TagKind, tag: string, size: uint32)
    requires TablesOk(v) && n !in v.g && OfKind(d, kind)
    ensures Count(AddTagged(v, kind, n, d).g, GroupOf(TableOf(AddTagged(v, kind, n, d), other), tag), other, size)
         == Count(v.g, GroupOf(TableOf(v, other), tag), other, size)
            + (if other == kind && tag == TagOf(d) && IsScaffold(d, kind, size) then 1 else 0)
  {
    hide Count, IsScaffold, TablesOk;
    var w := AddTagged(v, kind, n, d);
    var s := GroupOf(TableOf(v, other), tag);
    assert TableOk(v, other) by { OneTableOk(v, other); }
    GroupInGraph(v, other, tag);
    CountSame(v.g, w.g, s, other, size);
    if other == kind && tag == TagOf(d) {
      CountAppend(w.g, s, n, other, size);
    }
  }

  lemma OneTableOk(v: State, kind: TagKind)
    requires TablesOk(v)
    ensures TableOk(v, kind)
  {
  }

  lemma CountAppend(g: Graph, s: seq<C.Node>, n: C.Node, kind: TagKind, size: uint32)
    ensures Count(g, s + [n], kind, size)
         == Count(g, s, kind, size) + (if n in g && IsScaffold(g[n], kind, size) then 1 else 0)
  {
    assert (s + [n])[..|s + [n]| - 1] == s;
  }

  lemma GroupInGraph(v: State, kind: TagKind, tag: string)
    requires TableOk(v, kind)
    ensures NoDup(GroupOf(TableOf(v, kind), tag))
    ensures forall o | o in GroupOf(TableOf(v, kind), tag) :: o in v.g && OfKind(v.g[o], kind) && TagOf(v.g[o]) == tag
  {
    GroupMembers(v.g, kind, TableOf(v, kind).groups, TableOf(v, kind).inOrder);
  }

  lemma QuietKeepsEnough(v: State, w: State, syms: seq<Symbol>, i: nat)
    requires TablesOk(v) && i <= |syms| && Enough(v, syms, i)
    requires w.structs == v.structs && w.unions == v.unions && w.enums == v.enums
    requires forall o | o in v.g :: o in w.g && w.g[o] == v.g[o]
    ensures Enough(w, syms, i)
  {
    forall other: TagKind, tag: string, size: uint32 ensures EnoughFor(w, syms, i, other, tag, size) {
      assert EnoughFor(v, syms, i, other, tag, size);
      GroupInGraph(v, other, tag);
      assert TableOf(w, other) == TableOf(v, other);
      CountSame(v.g, w.g, GroupOf(TableOf(v, other), tag), other, size);
    }
  }

  /** Where enough scaffolds are left, a group that opens here finds one. */
  lemma EnoughFindsOne(v: State, syms: seq<Symbol>, i: nat, kind: TagKind, tag: string, size: uint32)
    requires TablesOk(v) && i < |syms| && Enough(v, syms, i) && OpensGroup(syms[i], kind, tag, size)
    ensures exists o | o in GroupOf(TableOf(v, kind), tag) :: o in v.g && IsScaffold(v.g[o], kind, size)
  {
    assert EnoughFor(v, syms, i, kind, tag, size);
    GroupInGraph(v, kind, tag);
    if forall o | o in GroupOf(TableOf(v, kind), tag) :: !IsScaffold(v.g[o], kind, size) {
      CountNone(v.g, GroupOf(TableOf(v, kind), tag), kind, size);
    }
  }

  /** Filling the scaffold of the group that opens here leaves enough for the groups after it. */
  lemma FillingKeepsEnough(v: State, w: State, syms: seq<Symbol>, i: nat, kind: TagKind, t: C.Node)
    requires TablesOk(v) && i < |syms| && Enough(v, syms, i)
    requires t in v.g && OfKind(v.g[t], kind) && OpensGroup(syms[i], kind, TagOf(v.g[t]), SizeOf(v.g[t]))
    requires w.structs == v.structs && w.unions == v.unions && w.enums == v.enums
    requires w.g.Keys == v.g.Keys && forall o | o in v.g && o != t :: w.g[o] == v.g[o]
    ensures Enough(w, syms, i + 1)
  {
    var next := i + 1;
    forall other: TagKind, tag: string, size: uint32 ensures EnoughFor(w, syms, next, other, tag, size) {
      assert EnoughFor(v, syms, i, other, tag, size);
      FillingKeepsEnoughFor(v, w, syms, i, kind, t, other, tag, size);
    }
  }

  lemma FillingKeepsEnoughFor(
    v: State, w: State, syms: seq<Symbol>, i: nat, kind: TagKind, t: C.Node, other: TagKind, tag: string, size: uint32)
    requires TablesOk(v) && i < |syms| && EnoughFor(v, syms, i, other, tag, size)
    requires t in v.g && OfKind(v.g[t], kind) && OpensGroup(syms[i], kind, TagOf(v.g[t]), SizeOf(v.g[t]))
    requires w.structs == v.structs && w.unions == v.unions && w.enums == v.enums
    requires w.g.Keys == v.g.Keys && forall o | o in v.g && o != t :: w.g[o] == v.g[o]
    ensures EnoughFor(w, syms, i + 1, other, tag, size)
  {
    hide TableOk, Closed, Count;
    OneTableOk(v, other);
    GroupInGraph(v, other, tag);
    var s := GroupOf(TableOf(v, other), tag);
    assert TableOf(w, other) == TableOf(v, other);
    if t in s {
      CountAfterChange(v.g, w.g, s, other, size, t);
      if IsScaffold(v.g[t], other, size) { KindsDiffer(v.g[t], kind, other); }
    } else {
      CountSame(v.g, w.g, s, other, size);
    }
  }

  /** Records that open no group can be skipped. */
  lemma {:induction false} SkippingKeepsGroupsAhead(syms: seq<Symbol>, i: nat, j: nat, kind: TagKind, tag: string,
    size: uint32)
    requires i <= j <= |syms| && forall k | i <= k < j :: !OpensAnyGroup(syms[k])
    ensures GroupsAhead(syms, i, kind, tag, size) == GroupsAhead(syms, j, kind, tag, size)
    decreases j - i
  {
    if i < j { SkippingKeepsGroupsAhead(syms, i + 1, j, kind, tag, size); }
  }

  lemma SkippingKeepsEnough(v: State, syms: seq<Symbol>, i: nat, j: nat)
    requires i <= j <= |syms| && (forall k | i <= k < j :: !OpensAnyGroup(syms[k])) && Enough(v, syms, i)
    ensures Enough(v, syms, j)
  {
    forall kind: TagKind, tag: string, size: uint32 ensures EnoughFor(v, syms, j, kind, tag, size) {
      assert EnoughFor(v, syms, i, kind, tag, size);
      SkippingKeepsGroupsAhead(syms, i, j, kind, tag, size);
    }
  }
}

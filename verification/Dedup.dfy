// Finding duplicate types and taking them off the lists (csym/parse_fixups.go, csym/parse_types.go).

module Dedup {
  import opened CTypes
  import opened TypeGraph
  import opened Rewriting
  import opened Lists
  import opened TagTables
  import opened Comparison

  /** The position of the first member of the list that s[k] is deeply equal to. */
  ghost function First(g: Graph, s: seq<Node>, k: nat): (f: nat)
    requires k < |s|
    ensures f <= k && DeepEqual(g, Ref(s[f]), Ref(s[k]))
    ensures forall j | 0 <= j < f :: !DeepEqual(g, Ref(s[j]), Ref(s[k]))
  {
    FirstFrom(g, s, k, 0)
  }

  ghost function FirstFrom(g: Graph, s: seq<Node>, k: nat, j: nat): (f: nat)
    requires j <= k < |s|
    ensures j <= f <= k && DeepEqual(g, Ref(s[f]), Ref(s[k]))
    ensures forall i | j <= i < f :: !DeepEqual(g, Ref(s[i]), Ref(s[k]))
    decreases k - j
  {
    if DeepEqual(g, Ref(s[j]), Ref(s[k])) then j else FirstFrom(g, s, k, j + 1)
  }

  /** Exactly the non-first members of a list are remapped, each to the first it equals. */
  ghost predicate RemapsList(g: Graph, s: seq<Node>, remap: Remap) {
    forall k | 0 <= k < |s| :: RemapsAt(g, s, remap, k)
  }

  ghost predicate RemapsAt(g: Graph, s: seq<Node>, remap: Remap, k: nat)
    requires k < |s|
  {
    var f := First(g, s, k);
    && (Ref(s[k]) in remap <==> f < k)
    && (Ref(s[k]) in remap ==> remap[Ref(s[k])] == Ref(s[f]))
  }

  /** The remap of one pass: every group remapped, and nothing else. */
  ghost predicate IsDupRemap(g: Graph, groups: Groups, remap: Remap) {
    && (forall tag | tag in groups :: RemapsList(g, groups[tag], remap))
    && (forall t | t in remap :: t.Ref? && exists tag | tag in groups :: t.node in groups[tag])
  }

  lemma DeepEqualIsEquivalence(g: Graph, a: Type, b: Type, c: Type)
    ensures DeepEqual(g, a, a)
    ensures DeepEqual(g, a, b) ==> DeepEqual(g, b, a)
    ensures DeepEqual(g, a, b) && DeepEqual(g, b, c) ==> DeepEqual(g, a, c)
  {
    if DeepEqual(g, a, b) && DeepEqual(g, b, c) {
      forall n: nat ensures Unfold(g, a, n) == Unfold(g, c, n) {
        assert Unfold(g, a, n) == Unfold(g, b, n);
      }
    }
  }

  /** Where the search of one list stands when positions below i are done, and position i has been
      compared with positions below k. */
  ghost predicate SearchedTo(g: Graph, s: seq<Node>, remap: Remap, i: nat, k: nat) {
    forall m | 0 <= m < |s| :: SearchedAt(g, s, remap, i, k, m)
  }

  ghost predicate SearchedAt(g: Graph, s: seq<Node>, remap: Remap, i: nat, k: nat, m: nat)
    requires m < |s|
  {
    var f := First(g, s, m);
    && (Ref(s[m]) in remap <==> f < m && (f < i || (f == i && m < k)))
    && (Ref(s[m]) in remap ==> remap[Ref(s[m])] == Ref(s[f]))
  }

  lemma FirstIsFirst(g: Graph, s: seq<Node>, k: nat)
    requires k < |s|
    ensures First(g, s, First(g, s, k)) == First(g, s, k)
  {
    var f := First(g, s, k);
    var e := First(g, s, f);
    DeepEqualIsEquivalence(g, Ref(s[e]), Ref(s[f]), Ref(s[k]));
  }

  lemma FirstAgainst(g: Graph, s: seq<Node>, i: nat, k: nat)
    requires i < k < |s| && First(g, s, i) == i && First(g, s, k) >= i
    ensures First(g, s, k) == i <==> DeepEqual(g, Ref(s[k]), Ref(s[i]))
  {
    DeepEqualIsEquivalence(g, Ref(s[k]), Ref(s[i]), Ref(s[i]));
    DeepEqualIsEquivalence(g, Ref(s[i]), Ref(s[k]), Ref(s[i]));
  }

  /** Comparing position k with position i, when neither is remapped yet, takes the search one on. */
  lemma SearchStep(g: Graph, s: seq<Node>, remap: Remap, i: nat, k: nat, found: bool)
    requires NoDup(s) && i < k < |s| && First(g, s, i) == i
    requires SearchedTo(g, s, remap, i, k)
    requires found <==> Ref(s[k]) !in remap && DeepEqual(g, Ref(s[k]), Ref(s[i]))
    ensures SearchedTo(g, s, if found then remap[Ref(s[k]) := Ref(s[i])] else remap, i, k + 1)
  {
    hide DeepEqual, First;
    var after := if found then remap[Ref(s[k]) := Ref(s[i])] else remap;
    var k' := k + 1;
    forall m | 0 <= m < |s| ensures SearchedAt(g, s, after, i, k', m) {
      assert SearchedAt(g, s, remap, i, k, m) && SearchedAt(g, s, remap, i, k, k);
      if m == k {
        if First(g, s, k) >= i { FirstAgainst(g, s, i, k); }
      } else {
        assert s[m] != s[k];
      }
    }
  }

  lemma SearchNext(g: Graph, s: seq<Node>, remap: Remap, i: nat, k: nat)
    requires i < |s| && SearchedTo(g, s, remap, i, k)
    requires k == |s| || (k == 0 && Ref(s[i]) in remap)
    ensures SearchedTo(g, s, remap, i + 1, 0)
  {
    hide DeepEqual, First;
    assert SearchedAt(g, s, remap, i, k, i);
    var i' := i + 1;
    forall m | 0 <= m < |s| ensures SearchedAt(g, s, remap, i', 0, m) {
      assert SearchedAt(g, s, remap, i, k, m);
      FirstIsFirst(g, s, m);
    }
  }

  lemma SearchStart(g: Graph, s: seq<Node>, remap: Remap, i: nat)
    requires i < |s| && SearchedTo(g, s, remap, i, 0) && Ref(s[i]) !in remap
    ensures First(g, s, i) == i && SearchedTo(g, s, remap, i, i + 1)
  {
    hide DeepEqual, First;
    assert SearchedAt(g, s, remap, i, 0, i);
    var i' := i + 1;
    forall m | 0 <= m < |s| ensures SearchedAt(g, s, remap, i, i', m) {
      assert SearchedAt(g, s, remap, i, 0, m);
    }
  }

  lemma SearchBegin(g: Graph, s: seq<Node>, remap: Remap)
    requires forall o | o in s :: Ref(o) !in remap
    ensures SearchedTo(g, s, remap, 0, 0)
  {
  }

  lemma SearchEnd(g: Graph, s: seq<Node>, remap: Remap)
    requires SearchedTo(g, s, remap, |s|, 0)
    ensures RemapsList(g, s, remap)
  {
    forall k | 0 <= k < |s| ensures RemapsAt(g, s, remap, k) {
      assert SearchedAt(g, s, remap, |s|, 0, k);
    }
  }

  /** One group: the two nested loops over positions. */
  method SearchGroup(s: seq<Node>, remap0: Remap, ghost nodes: set<Node>) returns (remap: Remap)
    requires NoDup(s) && (forall o | o in s :: o in nodes && Ref(o) !in remap0) && Closed(Snap(nodes))
    ensures RemapsList(Snap(nodes), s, remap)
    ensures forall t | t in remap0 :: t in remap && remap[t] == remap0[t]
    ensures forall t | t in remap :: t in remap0 || (t.Ref? && t.node in s)
  {
    hide DeepEqual, First, SearchedTo, Closed;
    ghost var g := Snap(nodes);
    remap := remap0;
    SearchBegin(g, s, remap);
    for i := 0 to |s|
      invariant SearchedTo(g, s, remap, i, 0)
      invariant forall t | t in remap0 :: t in remap && remap[t] == remap0[t]
      invariant forall t | t in remap :: t in remap0 || (t.Ref? && t.node in s)
    {
      if Ref(s[i]) in remap {
        SearchNext(g, s, remap, i, 0);
        continue;
      }
      SearchStart(g, s, remap, i);
      for k := i + 1 to |s|
        invariant SearchedTo(g, s, remap, i, k)
        invariant forall t | t in remap0 :: t in remap && remap[t] == remap0[t]
        invariant forall t | t in remap :: t in remap0 || (t.Ref? && t.node in s)
      {
        if Ref(s[k]) in remap {
          SearchStep(g, s, remap, i, k, false);
          continue;
        }
        var equal := DeepEquals(s[k], s[i], nodes);
        SearchStep(g, s, remap, i, k, equal);
        if !equal { continue; }
        remap := remap[Ref(s[k]) := Ref(s[i])];
      }
      SearchNext(g, s, remap, i, |s|);
    }
    SearchEnd(g, s, remap);
  }

  /** All groups, in whatever order the map is iterated. */
  method FindDuplicates(groups: Groups, ghost nodes: set<Node>, ghost kind: TagKind, ghost inOrder: seq<Node>)
    returns (remap: Remap)
    requires Indexed(Snap(nodes), kind, groups, inOrder) && Closed(Snap(nodes))
    ensures IsDupRemap(Snap(nodes), groups, remap)
  {
    hide DeepEqual, First, Closed;
    ghost var g := Snap(nodes);
    remap := map[];
    var todo := groups.Keys;
    GroupMembers(g, kind, groups, inOrder);
    while todo != {}
      invariant todo <= groups.Keys
      invariant forall tag | tag in groups && tag !in todo :: RemapsList(g, groups[tag], remap)
      invariant forall t | t in remap :: t.Ref? && t.node in inOrder && t.node in g && TagOf(g[t.node]) !in todo
    {
      var tag :| tag in todo;
      var before := remap;
      remap := SearchGroup(groups[tag], remap, nodes);
      forall other | other in groups && other !in todo ensures RemapsList(g, groups[other], remap) {
        assert RemapsList(g, groups[other], before);
        assert forall o | o in groups[other] :: o !in groups[tag];
        forall k | 0 <= k < |groups[other]| ensures RemapsAt(g, groups[other], remap, k) {
          assert RemapsAt(g, groups[other], before, k) && groups[other][k] in groups[other];
        }
      }
      todo := todo - {tag};
    }
    assert forall t | t in remap :: t.node in groups[TagOf(g[t.node])];
  }

  /** Every pair of the remap is deeply equal and no target is itself remapped. */
  lemma DupRemapIsSound(g: Graph, kind: TagKind, groups: Groups, inOrder: seq<Node>, remap: Remap)
    requires Indexed(g, kind, groups, inOrder) && IsDupRemap(g, groups, remap)
    ensures Sound(g, remap)
    ensures forall t | t in remap ::
      t.Ref? && t.node in inOrder && remap[t].Ref? && remap[t].node in inOrder
  {
    hide DeepEqual;
    GroupMembers(g, kind, groups, inOrder);
    forall t | t in remap
      ensures t.Ref? && t.node in inOrder && remap[t].Ref? && remap[t].node in inOrder
      ensures In(g, t) && In(g, remap[t]) && remap[t] !in remap && DeepEqual(g, t, remap[t])
    {
      var tag :| tag in groups && t.node in groups[tag];
      var s := groups[tag];
      var k :| 0 <= k < |s| && s[k] == t.node;
      var f := First(g, s, k);
      assert RemapsList(g, s, remap) && RemapsAt(g, s, remap, k) && RemapsAt(g, s, remap, f);
      FirstIsFirst(g, s, k);
      DeepEqualIsEquivalence(g, Ref(s[f]), Ref(s[k]), t);
    }
  }

  // ----- list surgery -----

  /** The entries that are not nil, in order. */
  function NonNil(s: seq<Node?>): (r: seq<Node>) {
    if s == [] then []
    else NonNil(s[..|s| - 1]) + (if s[|s| - 1] != null then [s[|s| - 1]] else [])
  }

  lemma {:induction false} NonNilAppend(s: seq<Node?>, t: seq<Node?>)
    ensures NonNil(s + t) == NonNil(s) + NonNil(t)
  {
    if t == [] {
      assert s + t == s;
    } else {
      var n := |t| - 1;
      assert (s + t)[..|s + t| - 1] == s + t[..n] && (s + t)[|s + t| - 1] == t[n];
      NonNilAppend(s, t[..n]);
    }
  }

  /** `replaceStructsInSlice` and its twins: entries that are keys become what the map says. */
  method ReplaceInSlice(s: seq<Node>, remap: map<Type, Node?>) returns (r: seq<Node?>)
    ensures |r| == |s|
    ensures forall i | 0 <= i < |s| :: r[i] == if Ref(s[i]) in remap then remap[Ref(s[i])] else s[i]
  {
    r := s;
    for i := 0 to |s|
      invariant |r| == |s|
      invariant forall j | 0 <= j < |s| :: r[j] == if j < i && Ref(s[j]) in remap then remap[Ref(s[j])] else s[j]
    {
      if Ref(s[i]) in remap {
        r := r[i := remap[Ref(s[i])]];
      }
    }
  }

  lemma NilAlone(s: seq<Node?>)
    requires |s| == 1 && s[0] == null
    ensures NonNil(s) == []
  {
    assert NonNil(s[..0]) == [];
  }

  lemma WithoutNil(a: seq<Node?>, i: nat)
    requires i < |a| && a[i] == null
    ensures NonNil(a[..i] + a[i + 1..]) == NonNil(a)
  {
    hide NonNil;
    var x, y, z := a[..i], a[i..i + 1], a[i + 1..];
    NilAlone(y);
    assert a == x + y + z;
    NonNilAppend(x + y, z);
    NonNilAppend(x, y);
    NonNilAppend(x, z);
    assert NonNil(x) + [] == NonNil(x);
  }

  /** `rmNilStructsFromSlice` and its twins: each nil entry is overwritten by the rest of the slice. */
  method RmNilFromSlice(s: seq<Node?>) returns (r: seq<Node>)
    ensures r == NonNil(s)
  {
    var a := s;
    var i := 0;
    while i < |a|
      invariant i <= |a|
      invariant forall j | 0 <= j < i :: a[j] != null
      invariant NonNil(a) == NonNil(s)
      decreases |a| - i
    {
      if a[i] != null {
        i := i + 1;
        continue;
      }
      WithoutNil(a, i);
      a := a[..i] + a[i + 1..];
    }
    r := a;
    AllNonNil(r);
  }

  lemma {:induction false} AllNonNil(s: seq<Node>)
    ensures NonNil(s) == s
  {
    if s != [] { AllNonNil(s[..|s| - 1]); }
  }

  ghost function Survivors(s: seq<Node>, remap: Remap): set<Node> {
    set o | o in s && Ref(o) !in remap
  }

  lemma {:induction false} NilledIsKept(s: seq<Node>, r: seq<Node?>, remap: Remap, alive: set<Node>)
    requires |r| == |s| && forall i | 0 <= i < |s| :: r[i] == if Ref(s[i]) in remap then null else s[i]
    requires forall o | o in s :: o in alive <==> Ref(o) !in remap
    ensures NonNil(r) == Keep(s, alive)
  {
    if s != [] {
      var n := |s| - 1;
      assert forall o | o in s[..n] :: o in s;
      NilledIsKept(s[..n], r[..n], remap, alive);
    }
  }

  /** Taking the remapped entries off one list. */
  method Drop(s: seq<Node>, remap: Remap) returns (r: seq<Node>)
    ensures r == Keep(s, Survivors(s, remap))
  {
    var nils: map<Type, Node?> := map t | t in remap :: null;
    var holes := ReplaceInSlice(s, nils);
    r := RmNilFromSlice(holes);
    NilledIsKept(s, holes, remap, Survivors(s, remap));
  }

  // ----- which types survive -----

  /** The types that come first, in their group, among the ones they are deeply equal to. */
  ghost function Leaders(g: Graph, groups: Groups): set<Node> {
    set tag, k | tag in groups && 0 <= k < |groups[tag]| && First(g, groups[tag], k) == k :: groups[tag][k]
  }

  /** No two types of one group are deeply equal. */
  ghost predicate NoTwins(g: Graph, groups: Groups) {
    forall tag | tag in groups ::
      forall i, j | 0 <= i < j < |groups[tag]| :: !DeepEqual(g, Ref(groups[tag][i]), Ref(groups[tag][j]))
  }

  lemma SurvivorsAreLeaders(g: Graph, kind: TagKind, groups: Groups, inOrder: seq<Node>, remap: Remap)
    requires Indexed(g, kind, groups, inOrder) && IsDupRemap(g, groups, remap)
    ensures forall o | o in inOrder :: o in Leaders(g, groups) <==> Ref(o) !in remap
  {
    hide DeepEqual, First;
    GroupMembers(g, kind, groups, inOrder);
    forall o | o in inOrder ensures o in Leaders(g, groups) <==> Ref(o) !in remap {
      var tag := TagOf(g[o]);
      assert o in groups[tag];
      var k :| 0 <= k < |groups[tag]| && groups[tag][k] == o;
      assert RemapsList(g, groups[tag], remap) && RemapsAt(g, groups[tag], remap, k);
      if o in Leaders(g, groups) {
        var tag', k' :| tag' in groups && 0 <= k' < |groups[tag']| && First(g, groups[tag'], k') == k'
          && groups[tag'][k'] == o;
        assert tag' == tag && k' == k;
      }
    }
  }

  /** One group without its duplicates is the group of its tag in the list without duplicates. */
  lemma DroppingKeepsGroup(
    g: Graph, kind: TagKind, groups: Groups, inOrder: seq<Node>, remap: Remap, alive: set<Node>, tag: string)
    requires Indexed(g, kind, groups, inOrder) && IsDupRemap(g, groups, remap) && tag in groups
    requires forall o | o in inOrder :: o in alive <==> Ref(o) !in remap
    ensures Keep(groups[tag], alive) == Keep(Keep(inOrder, alive), Tagged(g, tag))
    ensures Keep(groups[tag], alive) != []
  {
    hide DeepEqual, First;
    KeepKeep(inOrder, Tagged(g, tag), alive);
    KeepKeep(inOrder, alive, Tagged(g, tag));
    assert Tagged(g, tag) * alive == alive * Tagged(g, tag);
    GroupMembers(g, kind, groups, inOrder);
    KeepMembers(groups[tag], alive);
    assert RemapsList(g, groups[tag], remap) && RemapsAt(g, groups[tag], remap, 0);
    assert groups[tag][0] in groups[tag] && groups[tag][0] in alive;
  }

  lemma DroppingLeavesNoTwins(g: Graph, s: seq<Node>, remap: Remap, alive: set<Node>)
    requires RemapsList(g, s, remap) && NoDup(s)
    requires forall o | o in s :: o in alive <==> Ref(o) !in remap
    ensures forall i, j | 0 <= i < j < |Keep(s, alive)| ::
      !DeepEqual(g, Ref(Keep(s, alive)[i]), Ref(Keep(s, alive)[j]))
  {
    hide DeepEqual, First;
    var r := Keep(s, alive);
    KeepMembers(s, alive);
    KeepNoDup(s, alive);
    forall i, j | 0 <= i < j < |r| ensures !DeepEqual(g, Ref(r[i]), Ref(r[j])) {
      var a, b := r[i], r[j];
      assert a in Keep(s, alive) && b in Keep(s, alive);
      LeadersDiffer(g, s, remap, r[i], r[j]);
    }
  }

  /** One group after the removal. */
  lemma DroppedGroup(g: Graph, kind: TagKind, groups: Groups, inOrder: seq<Node>, remap: Remap, alive: set<Node>,
    tag: string)
    requires Indexed(g, kind, groups, inOrder) && IsDupRemap(g, groups, remap) && tag in groups
    requires forall o | o in inOrder :: o in alive <==> Ref(o) !in remap
    ensures var s := Keep(groups[tag], alive);
      && s == Keep(Keep(inOrder, alive), Tagged(g, tag)) && s != []
      && forall i, j | 0 <= i < j < |s| :: !DeepEqual(g, Ref(s[i]), Ref(s[j]))
  {
    hide DeepEqual, First, RemapsList, Tagged, NoDup;
    DroppingKeepsGroup(g, kind, groups, inOrder, remap, alive, tag);
    KeepNoDup(inOrder, Tagged(g, tag));
    KeepMembers(inOrder, Tagged(g, tag));
    DroppingLeavesNoTwins(g, groups[tag], remap, alive);
  }

  /** Taking the duplicates off the list and off every group keeps the table in order. */
  lemma DroppingKeepsIndexed(
    g: Graph, kind: TagKind, groups: Groups, inOrder: seq<Node>, remap: Remap, groups': Groups, inOrder': seq<Node>)
    requires Indexed(g, kind, groups, inOrder) && IsDupRemap(g, groups, remap)
    requires inOrder' == Keep(inOrder, Leaders(g, groups))
    requires groups'.Keys == groups.Keys
    requires forall tag | tag in groups :: groups'[tag] == Keep(groups[tag], Leaders(g, groups))
    ensures Indexed(g, kind, groups', inOrder') && NoTwins(g, groups')
  {
    hide DeepEqual, First, RemapsList, Leaders, Tagged, Keep, IsDupRemap;
    var alive := Leaders(g, groups);
    SurvivorsAreLeaders(g, kind, groups, inOrder, remap);
    forall tag | tag in groups'
      ensures groups'[tag] == Keep(inOrder', Tagged(g, tag)) && groups'[tag] != []
      ensures forall i, j | 0 <= i < j < |groups'[tag]| :: !DeepEqual(g, Ref(groups'[tag][i]), Ref(groups'[tag][j]))
    {
      DroppedGroup(g, kind, groups, inOrder, remap, alive, tag);
    }
    KeepNoDup(inOrder, alive);
    KeepMembers(inOrder, alive);
    assert forall o | o in inOrder' :: o in Keep(inOrder, alive);
  }

  lemma LeadersDiffer(g: Graph, s: seq<Node>, remap: Remap, a: Node, b: Node)
    requires RemapsList(g, s, remap) && a in s && b in s && a != b
    requires Ref(a) !in remap && Ref(b) !in remap
    ensures !DeepEqual(g, Ref(a), Ref(b))
  {
    var i :| 0 <= i < |s| && s[i] == a;
    var j :| 0 <= j < |s| && s[j] == b;
    assert RemapsAt(g, s, remap, i) && RemapsAt(g, s, remap, j);
    DeepEqualIsEquivalence(g, Ref(a), Ref(b), Ref(a));
  }

  /** With no twins left there is nothing to remap. */
  lemma NoTwinsNoRemap(g: Graph, groups: Groups, remap: Remap)
    requires NoTwins(g, groups) && IsDupRemap(g, groups, remap)
    ensures remap == map[]
  {
    forall tag, k | tag in groups && 0 <= k < |groups[tag]| ensures Ref(groups[tag][k]) !in remap {
      assert RemapsList(g, groups[tag], remap) && RemapsAt(g, groups[tag], remap, k);
      assert First(g, groups[tag], k) == k;
    }
    assert forall t :: t !in remap;
  }
}

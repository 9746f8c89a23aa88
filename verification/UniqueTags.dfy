// Making struct, union and enum tags unique (csym/parse_fixups.go).

module UniqueTags {
  import opened CTypes
  import opened TypeGraph
  import opened Lists
  import opened TagTables
  import opened Csym
  import opened Naming
  import opened Spelling

  /** `UniqueTag`: the letter says which kind of type the tag belongs to. */
  function UniqueTag(tag: string, typ: char, idx: nat): string {
    tag + "_duplicate_" + [typ] + Decimal(idx)
  }

  function Letter(kind: TagKind): (c: char)
    ensures !IsDigit(c)
  {
    match kind
    case StructTag => 's'
    case UnionTag => 'u'
    case EnumTag => 'e'
  }

  lemma UniqueTagInjective(a: string, i: nat, b: string, j: nat, typ: char)
    requires !IsDigit(typ) && UniqueTag(a, typ, i) == UniqueTag(b, typ, j)
    ensures a == b && i == j
  {
    var d := "_duplicate_" + [typ];
    var p, q := a + d, b + d;
    assert UniqueTag(a, typ, i) == p + Decimal(i) && UniqueTag(b, typ, j) == q + Decimal(j);
    assert p[|p| - 1] == typ && q[|q| - 1] == typ;
    NumberedNameInjective(p, i, q, j);
    assert p[..|a|] == a && q[..|b|] == b;
  }

  /** The made tag is the tag it is made from, a marker, the letter of the kind, and a numeral. */
  predicate IsMadeFrom(made: string, tag: string, kind: TagKind, k: int) {
    var n := |tag| + 12;
    && |made| > n && made[..|tag| + 11] == tag + "_duplicate_" && IsNumeral(made[n..], k)
    && made[n - 1] == match kind
         case StructTag => 's'
         case UnionTag => 'u'
         case EnumTag => 'e'
  }

  lemma UniqueTagIs(tag: string, kind: TagKind, k: nat)
    ensures IsMadeFrom(UniqueTag(tag, Letter(kind), k), tag, kind, k)
  {
    DecimalIsNumeral(k);
    var made := UniqueTag(tag, Letter(kind), k);
    assert made[..|tag| + 11] == tag + "_duplicate_";
    assert made[|tag| + 12..] == Decimal(k);
  }

  /** The position of a type in a list, or the length of the list. */
  function Position(s: seq<Node>, t: Node): (k: nat)
    ensures k <= |s| && (t in s ==> k < |s| && s[k] == t) && (t !in s ==> k == |s|)
  {
    if s == [] then 0 else if s[0] == t then 0 else 1 + Position(s[1..], t)
  }

  /** The next candidate for the tag of t, when `tag` is taken. */
  function NextTag(groups: Groups, kind: TagKind, tag: string, t: Node): (r: string)
    requires tag in groups
    ensures |r| > |tag|
  {
    UniqueTag(tag, Letter(kind), Position(groups[tag], t))
  }

  /** Each candidate is longer than the one before, so the search runs out of tags in use. */
  ghost function Measure(groups: Groups, tag: string): nat {
    |NoShorter(groups, tag)|
  }

  ghost function NoShorter(groups: Groups, tag: string): set<string> {
    set k | k in groups && |k| >= |tag|
  }

  lemma {:induction false} SmallerSet<T>(a: set<T>, b: set<T>)
    requires a < b
    ensures |a| < |b|
  {
    var x :| x in b && x !in a;
    assert a <= b - {x};
    SubsetSize(a, b - {x});
  }

  lemma MeasureDrops(groups: Groups, tag: string, longer: string)
    requires tag in groups && |longer| > |tag|
    ensures Measure(groups, longer) < Measure(groups, tag)
  {
    assert tag in NoShorter(groups, tag) && tag !in NoShorter(groups, longer);
    SmallerSet(NoShorter(groups, longer), NoShorter(groups, tag));
  }

  /** The candidate after i steps of the search that starts with `tag`. */
  ghost function TagCandidate(groups: Groups, kind: TagKind, tag: string, t: Node, i: nat): string {
    if i == 0 then tag
    else
      var c := TagCandidate(groups, kind, tag, t, i - 1);
      if c in groups then NextTag(groups, kind, c, t) else c
  }

  /** How many steps the search takes. */
  ghost function Steps(groups: Groups, kind: TagKind, tag: string, t: Node): nat
    decreases Measure(groups, tag)
  {
    if tag !in groups then 0
    else
      MeasureDrops(groups, tag, NextTag(groups, kind, tag, t));
      1 + Steps(groups, kind, NextTag(groups, kind, tag, t), t)
  }

  /** The tag the search ends with. */
  ghost function Fresh(groups: Groups, kind: TagKind, tag: string, t: Node): string {
    TagCandidate(groups, kind, tag, t, Steps(groups, kind, tag, t))
  }

  lemma {:induction false} TagCandidateShift(groups: Groups, kind: TagKind, tag: string, t: Node, i: nat)
    requires tag in groups
    ensures TagCandidate(groups, kind, tag, t, i + 1) == TagCandidate(groups, kind, NextTag(groups, kind, tag, t), t, i)
  {
    if i > 0 {
      TagCandidateShift(groups, kind, tag, t, i - 1);
    }
  }

  /** Exactly the candidates before the last are tags in use. */
  lemma {:induction false} SearchEnds(groups: Groups, kind: TagKind, tag: string, t: Node, i: nat)
    requires i <= Steps(groups, kind, tag, t)
    ensures TagCandidate(groups, kind, tag, t, i) in groups <==> i < Steps(groups, kind, tag, t)
    decreases i
  {
    if i > 0 {
      var next := NextTag(groups, kind, tag, t);
      TagCandidateShift(groups, kind, tag, t, i - 1);
      SearchEnds(groups, kind, next, t, i - 1);
    }
  }

  lemma TagCandidateNext(groups: Groups, kind: TagKind, tag: string, t: Node, i: nat)
    requires TagCandidate(groups, kind, tag, t, i) in groups
    ensures var c := TagCandidate(groups, kind, tag, t, i);
      TagCandidate(groups, kind, tag, t, i + 1) == UniqueTag(c, Letter(kind), Position(groups[c], t))
  {
  }

  /** Two searches that end with the same tag agree, candidate by candidate, going backwards. */
  lemma {:induction false} SearchesAgreeBackwards(
    groups: Groups, kind: TagKind, a: string, t: Node, b: string, u: Node, j: nat)
    requires Fresh(groups, kind, a, t) == Fresh(groups, kind, b, u)
    requires j <= Steps(groups, kind, a, t) && j <= Steps(groups, kind, b, u)
    ensures TagCandidate(groups, kind, a, t, Steps(groups, kind, a, t) - j)
         == TagCandidate(groups, kind, b, u, Steps(groups, kind, b, u) - j)
    decreases j
  {
    hide UniqueTag, Position, TagCandidate;
    if j > 0 {
      var m, n := Steps(groups, kind, a, t) - j, Steps(groups, kind, b, u) - j;
      SearchesAgreeBackwards(groups, kind, a, t, b, u, j - 1);
      SearchEnds(groups, kind, a, t, m);
      SearchEnds(groups, kind, b, u, n);
      var c, d := TagCandidate(groups, kind, a, t, m), TagCandidate(groups, kind, b, u, n);
      TagCandidateNext(groups, kind, a, t, m);
      TagCandidateNext(groups, kind, b, u, n);
      UniqueTagInjective(c, Position(groups[c], t), d, Position(groups[d], u), Letter(kind));
    }
  }

  /** Two different types, each stored once and under its own tag, never get the same new tag. */
  lemma FreshTagsDiffer(groups: Groups, kind: TagKind, a: string, t: Node, b: string, u: Node)
    requires a in groups && b in groups && t != u
    requires forall tag | tag in groups :: (t in groups[tag] <==> tag == a) && (u in groups[tag] <==> tag == b)
    ensures Fresh(groups, kind, a, t) != Fresh(groups, kind, b, u)
  {
    if Fresh(groups, kind, a, t) == Fresh(groups, kind, b, u) {
      var m, n := Steps(groups, kind, a, t), Steps(groups, kind, b, u);
      if m >= n {
        FreshTagsDifferFrom(groups, kind, a, t, b, u);
      } else {
        FreshTagsDifferFrom(groups, kind, b, u, a, t);
      }
    }
  }

  lemma FreshTagsDifferFrom(groups: Groups, kind: TagKind, a: string, t: Node, b: string, u: Node)
    requires a in groups && b in groups
    requires forall tag | tag in groups :: (t in groups[tag] <==> tag == a) && (u in groups[tag] <==> tag == b)
    requires Fresh(groups, kind, a, t) == Fresh(groups, kind, b, u)
    requires Steps(groups, kind, a, t) >= Steps(groups, kind, b, u)
    ensures t == u
  {
    var m, n := Steps(groups, kind, a, t), Steps(groups, kind, b, u);
    SearchesAgreeBackwards(groups, kind, a, t, b, u, n);
    SearchesAgreeBackwards(groups, kind, a, t, b, u, n - 1);
    assert TagCandidate(groups, kind, a, t, m - n) == b;
    assert NextTag(groups, kind, b, t) == NextTag(groups, kind, b, u);
    UniqueTagInjective(b, Position(groups[b], t), b, Position(groups[b], u), Letter(kind));
  }

  // ----- the renaming pass -----

  /** The tag a type ends up with: its own if no other type shares it, else the end of its search. */
  ghost function FinalTag(g: Graph, kind: TagKind, groups: Groups, o: Node): string
    requires o in g && TagOf(g[o]) in groups
  {
    var tag := TagOf(g[o]);
    if |groups[tag]| < 2 then tag else Fresh(groups, kind, tag, o)
  }

  /** All final tags of one kind are different, across all groups, whatever the tags look like. */
  lemma FinalTagsDistinct(g: Graph, kind: TagKind, groups: Groups, inOrder: seq<Node>, o: Node, u: Node)
    requires Indexed(g, kind, groups, inOrder) && o in inOrder && u in inOrder && o != u
    ensures FinalTag(g, kind, groups, o) != FinalTag(g, kind, groups, u)
  {
    GroupMembers(g, kind, groups, inOrder);
    var a, b := TagOf(g[o]), TagOf(g[u]);
    assert o in groups[a] && u in groups[b];
    SearchEnds(groups, kind, a, o, Steps(groups, kind, a, o));
    SearchEnds(groups, kind, b, u, Steps(groups, kind, b, u));
    if |groups[a]| >= 2 && |groups[b]| >= 2 {
      FreshTagsDiffer(groups, kind, a, o, b, u);
    }
  }

  /** The tag made from this one in m steps: each appends the position that the type has among those of the
      tag so far, or their number if it is not among them.  All tags on the way are in use. */
  ghost predicate IsMadeIn(groups: Groups, kind: TagKind, tag: string, t: Node, m: nat, made: string)
    decreases m
  {
    if m == 0 then made == tag
    else
      exists before: string | before in groups ::
        IsMadeIn(groups, kind, tag, t, m - 1, before) && IsStep(groups[before], kind, before, t, made)
  }

  ghost predicate IsStep(s: seq<Node>, kind: TagKind, tag: string, t: Node, made: string) {
    exists k: nat :: IsPlace(s, t, k) && IsMadeFrom(made, tag, kind, k)
  }

  lemma NextTagIsStep(groups: Groups, kind: TagKind, tag: string, t: Node)
    requires tag in groups
    ensures IsStep(groups[tag], kind, tag, t, UniqueTag(tag, Letter(kind), Position(groups[tag], t)))
  {
    var k := Position(groups[tag], t);
    assert IsPlace(groups[tag], t, k);
    hide IsMadeFrom, UniqueTag, Letter;
    UniqueTagIs(tag, kind, k);
  }

  predicate IsPlace(s: seq<Node>, t: Node, k: nat) {
    if k < |s| then s[k] == t else t !in s && k == |s|
  }

  /** The tag of a type afterwards: its own if it is the only type with it; else one that is not in use,
      made from its own in at least one step. */
  ghost predicate IsNewTag(groups: Groups, kind: TagKind, tag: string, t: Node, made: string) {
    if tag !in groups || forall u | u in groups[tag] :: u == t then made == tag
    else made !in groups && exists m: nat :: m > 0 && IsMadeIn(groups, kind, tag, t, m, made)
  }

  lemma {:induction false} CandidateIsMade(groups: Groups, kind: TagKind, tag: string, t: Node, m: nat)
    requires m <= Steps(groups, kind, tag, t)
    ensures IsMadeIn(groups, kind, tag, t, m, TagCandidate(groups, kind, tag, t, m))
    decreases m
  {
    hide IsStep, UniqueTag, Letter, Position, TagCandidate, Steps;
    if m == 0 {
      NoCandidate(groups, kind, tag, t);
    } else {
      CandidateIsMade(groups, kind, tag, t, m - 1);
      SearchEnds(groups, kind, tag, t, m - 1);
      TagCandidateNext(groups, kind, tag, t, m - 1);
      NextTagIsStep(groups, kind, TagCandidate(groups, kind, tag, t, m - 1), t);
    }
  }

  lemma NoCandidate(groups: Groups, kind: TagKind, tag: string, t: Node)
    ensures TagCandidate(groups, kind, tag, t, 0) == tag
  {
  }

  lemma SeveralOrOne(s: seq<Node>, t: Node)
    requires NoDup(s) && t in s
    ensures |s| < 2 <==> forall u | u in s :: u == t
  {
    if |s| >= 2 { assert s[0] in s && s[1] in s; }
  }

  lemma FreshIsNew(groups: Groups, kind: TagKind, tag: string, t: Node)
    requires tag in groups
    ensures Fresh(groups, kind, tag, t) !in groups
    ensures exists m: nat :: m > 0 && IsMadeIn(groups, kind, tag, t, m, Fresh(groups, kind, tag, t))
  {
    var m := Steps(groups, kind, tag, t);
    SearchEnds(groups, kind, tag, t, 0);
    SearchEnds(groups, kind, tag, t, m);
    CandidateIsMade(groups, kind, tag, t, m);
  }

  lemma RenamedTagIs(g: Graph, kind: TagKind, groups: Groups, inOrder: seq<Node>, o: Node)
    requires Indexed(g, kind, groups, inOrder) && o in inOrder
    ensures o in g && TagOf(g[o]) in groups && o in groups[TagOf(g[o])] && NoDup(groups[TagOf(g[o])])
    ensures TagOf(Renamed(g, kind, groups, o)) == FinalTag(g, kind, groups, o)
  {
    GroupMembers(g, kind, groups, inOrder);
    hide FinalTag;
  }

  lemma FinalTagIs(g: Graph, kind: TagKind, groups: Groups, inOrder: seq<Node>, o: Node)
    requires Indexed(g, kind, groups, inOrder) && o in inOrder
    ensures o in g && IsNewTag(groups, kind, TagOf(g[o]), o, TagOf(Renamed(g, kind, groups, o)))
  {
    hide Indexed, Renamed, NoDup, Fresh, TagOf;
    RenamedTagIs(g, kind, groups, inOrder, o);
    var tag := TagOf(g[o]);
    SeveralOrOne(groups[tag], o);
    if |groups[tag]| >= 2 { FreshIsNew(groups, kind, tag, o); }
  }

  /** `SliceIndex` with the predicate "is t". */
  method SliceIndex(s: seq<Node>, t: Node) returns (k: int)
    ensures k == if t in s then Position(s, t) else -1
  {
    for i := 0 to |s|
      invariant t !in s[..i] && Position(s, t) == i + Position(s[i..], t)
    {
      if s[i] == t {
        return i;
      }
      assert s[i..][1..] == s[i + 1..];
    }
    return -1;
  }

  /** `UniqueStructTag` and its twins. */
  method UniqueTagFor(groups: Groups, kind: TagKind, t: Node) returns (newTag: string)
    ensures newTag == Fresh(groups, kind, TagOf(t.def), t) && newTag !in groups
  {
    newTag := TagOf(t.def);
    ghost var tag, i: nat := newTag, 0;
    SearchEnds(groups, kind, tag, t, 0);
    while newTag in groups
      invariant i <= Steps(groups, kind, tag, t) && newTag == TagCandidate(groups, kind, tag, t, i)
      decreases Measure(groups, newTag)
    {
      var k := SliceIndex(groups[newTag], t);
      if k < 0 {
        k := |groups[newTag]|;
      }
      SearchEnds(groups, kind, tag, t, i);
      MeasureDrops(groups, newTag, NextTag(groups, kind, newTag, t));
      newTag := UniqueTag(newTag, Letter(kind), k);
      i := i + 1;
    }
    SearchEnds(groups, kind, tag, t, i);
  }

  function WithTag(d: Def, tag: string): Def {
    match d
    case Struct(size, _, fs, ms) => Struct(size, tag, fs, ms)
    case Union(size, _, fs) => Union(size, tag, fs)
    case Enum(_, ms) => Enum(tag, ms)
    case _ => d
  }

  /** A type with the tag it ends up with, and everything else as it was. */
  ghost function Renamed(g: Graph, kind: TagKind, groups: Groups, o: Node): Def
    requires o in g
  {
    if TagOf(g[o]) in groups then WithTag(g[o], FinalTag(g, kind, groups, o)) else g[o]
  }

  /** One group of at least two types. */
  method RenameGroup(tag: string, groups: Groups, kind: TagKind, ghost nodes: set<Node>)
    requires tag in groups && |groups[tag]| >= 2 && NoDup(groups[tag])
    requires forall o | o in groups[tag] :: o in nodes && TagOf(o.def) == tag
    modifies nodes
    ensures forall o | o in nodes ::
      o.def == old(if o in groups[tag] then Renamed(Snap(nodes), kind, groups, o) else o.def)
  {
    ghost var g := Snap(nodes);
    var s := groups[tag];
    for i := 0 to |s|
      invariant forall o | o in nodes :: o.def == if o in s[..i] then Renamed(g, kind, groups, o) else g[o]
    {
      var o := s[i];
      assert o in s && o !in s[..i];
      var newTag := UniqueTagFor(groups, kind, o);
      o.def := WithTag(o.def, newTag);
      assert s[..i + 1] == s[..i] + [o];
    }
    assert s[..|s|] == s;
  }

  lemma AloneKeepsTag(g: Graph, kind: TagKind, groups: Groups, o: Node)
    requires o in g && TagOf(g[o]) in groups && |groups[TagOf(g[o])]| < 2
    ensures Renamed(g, kind, groups, o) == g[o]
  {
  }

  /** `makeStructsUnique`, `makeUnionsUnique` and `makeEnumsUnique`: the groups are visited in
      whatever order the map is iterated, and only tags change. */
  method MakeUnique(t: TagIndex, kind: TagKind, ghost nodes: set<Node>)
    requires Indexed(Snap(nodes), kind, t.byTag, t.inOrder)
    modifies nodes
    ensures forall o | o in nodes ::
      o.def == if o in t.inOrder then old(Renamed(Snap(nodes), kind, t.byTag, o)) else old(o.def)
    ensures forall i, j | 0 <= i < j < |t.inOrder| :: TagOf(t.inOrder[i].def) != TagOf(t.inOrder[j].def)
    ensures forall o | o in t.inOrder :: o in nodes && IsNewTag(t.byTag, kind, old(TagOf(o.def)), o, TagOf(o.def))
  {
    hide Renamed, FinalTag, Indexed, NoDup, IsNewTag;
    ghost var g := Snap(nodes);
    var groups := t.byTag;
    var todo := groups.Keys;
    GroupMembers(g, kind, groups, t.inOrder);
    AllInGroups(g, kind, groups, t.inOrder);
    while todo != {}
      invariant todo <= groups.Keys
      invariant forall o | o in nodes ::
        o.def == if o in t.inOrder && TagOf(g[o]) !in todo then Renamed(g, kind, groups, o) else g[o]
    {
      var tag :| tag in todo;
      ghost var before := Snap(nodes);
      assert forall o | o in groups[tag] :: o in t.inOrder && o in nodes && TagOf(g[o]) == tag && before[o] == g[o];
      if |groups[tag]| >= 2 {
        RenameGroup(tag, groups, kind, nodes);
        RenamedFromHere(g, before, kind, groups, groups[tag]);
      } else {
        forall o | o in t.inOrder && TagOf(g[o]) == tag ensures Renamed(g, kind, groups, o) == g[o] {
          AloneKeepsTag(g, kind, groups, o);
        }
      }
      todo := todo - {tag};
    }
    RenamedTagsDiffer(g, kind, groups, t.inOrder);
    forall o | o in t.inOrder ensures o in nodes && IsNewTag(groups, kind, TagOf(g[o]), o, TagOf(o.def)) {
      FinalTagIs(g, kind, groups, t.inOrder, o);
    }
  }

  lemma AllInGroups(g: Graph, kind: TagKind, groups: Groups, inOrder: seq<Node>)
    requires Indexed(g, kind, groups, inOrder)
    ensures forall o | o in inOrder :: o in g && TagOf(g[o]) in groups
  {
  }

  lemma RenamedFromHere(g: Graph, k: Graph, kind: TagKind, groups: Groups, s: seq<Node>)
    requires forall o | o in s :: o in g && o in k && g[o] == k[o]
    ensures forall o | o in s :: Renamed(k, kind, groups, o) == Renamed(g, kind, groups, o)
  {
  }

  lemma ListedApart(g: Graph, kind: TagKind, groups: Groups, inOrder: seq<Node>, i: nat, j: nat)
    requires Indexed(g, kind, groups, inOrder) && i < j < |inOrder|
    ensures inOrder[i] in inOrder && inOrder[j] in inOrder && inOrder[i] != inOrder[j]
  {
  }

  /** All tags of one kind are different afterwards, across all groups. */
  lemma RenamedTagsDiffer(g: Graph, kind: TagKind, groups: Groups, inOrder: seq<Node>)
    requires Indexed(g, kind, groups, inOrder)
    ensures forall i, j | 0 <= i < j < |inOrder| ::
      TagOf(Renamed(g, kind, groups, inOrder[i])) != TagOf(Renamed(g, kind, groups, inOrder[j]))
  {
    AllInGroups(g, kind, groups, inOrder);
    hide Indexed, Renamed, FinalTag, TagOf;
    forall i, j | 0 <= i < j < |inOrder|
      ensures TagOf(Renamed(g, kind, groups, inOrder[i])) != TagOf(Renamed(g, kind, groups, inOrder[j]))
    {
      ListedApart(g, kind, groups, inOrder, i, j);
      RenamedTagIs(g, kind, groups, inOrder, inOrder[i]);
      RenamedTagIs(g, kind, groups, inOrder, inOrder[j]);
      FinalTagsDistinct(g, kind, groups, inOrder, inOrder[i], inOrder[j]);
    }
  }
}

// Comparing two type objects deeply: `reflect.DeepEqual` on pointers into a cyclic graph.

module Comparison {
  import opened CTypes
  import opened TypeGraph
  import opened Lists

  type Pairs = set<(Node, Node)>

  /** Two types that are one, or a pair already taken to be equal. */
  ghost predicate Related(a: Type, b: Type, seen: Pairs) {
    a == b || (a.Ref? && b.Ref? && (a.node, b.node) in seen)
  }

  /** Two objects that agree, provided the pairs seen do. */
  ghost predicate Agree(g: Graph, a: Node, b: Node, seen: Pairs) {
    && a in g && b in g && LabelOf(g[a]) == LabelOf(g[b]) && |Kids(g[a])| == |Kids(g[b])|
    && RelatedTo(Kids(g[a]), Kids(g[b]), |Kids(g[a])|, seen)
  }

  /** The first n types of two lists are related pairwise. */
  ghost predicate RelatedTo(ks: seq<Type>, ls: seq<Type>, n: nat, seen: Pairs)
    requires n <= |ks| == |ls|
  {
    forall i | 0 <= i < n :: Related(ks[i], ls[i], seen)
  }

  lemma RelatedNext(ks: seq<Type>, ls: seq<Type>, n: nat, seen: Pairs, more: Pairs)
    requires n < |ks| == |ls| && RelatedTo(ks, ls, n, seen) && seen <= more && Related(ks[n], ls[n], more)
    ensures RelatedTo(ks, ls, n + 1, more)
  {
    assert forall i | 0 <= i < n :: Related(ks[i], ls[i], seen);
  }

  /** The pairs in `some` agree. */
  ghost predicate AllAgree(g: Graph, some: Pairs, seen: Pairs) {
    forall q | q in some :: Agree(g, q.0, q.1, seen)
  }

  /** Pairs that all agree with one another have equal unfoldings, at every depth. */
  lemma {:induction false} AgreeingUnfoldAlike(g: Graph, seen: Pairs, a: Type, b: Type, n: nat)
    requires AllAgree(g, seen, seen) && Related(a, b, seen)
    ensures Unfold(g, a, n) == Unfold(g, b, n)
    decreases n
  {
    hide LabelOf, Kids;
    if n > 0 && a != b {
      assert Agree(g, (a.node, b.node).0, (a.node, b.node).1, seen);
      var ks, ls := Kids(g[a.node]), Kids(g[b.node]);
      forall i | 0 <= i < |ks| ensures Unfold(g, ks[i], n - 1) == Unfold(g, ls[i], n - 1) {
        AgreeingUnfoldAlike(g, seen, ks[i], ls[i], n - 1);
      }
      assert Unfold(g, a, n).kids == Unfold(g, b, n).kids;
    }
  }

  ghost function AllPairs(nodes: set<Node>): Pairs {
    set a, b | a in nodes && b in nodes :: (a, b)
  }

  lemma MoreSeen(g: Graph, some: Pairs, seen: Pairs, more: Pairs)
    requires AllAgree(g, some, seen) && seen <= more
    ensures AllAgree(g, some, more)
  {
    hide LabelOf, Kids;
    forall q | q in some ensures Agree(g, q.0, q.1, more) {
      assert Agree(g, q.0, q.1, seen);
    }
  }

  lemma KidsIn(g: Graph, o: Node)
    requires Closed(g) && o in g
    ensures forall i | 0 <= i < |Kids(g[o])| :: In(g, Kids(g[o])[i])
  {
    forall i | 0 <= i < |Kids(g[o])| ensures In(g, Kids(g[o])[i]) {
      if i >= |Slots(g[o])| { assert Params(g[o])[i - |Slots(g[o])|] in g; }
    }
  }

  lemma FewerLeft(nodes: set<Node>, seen: Pairs, more: Pairs)
    requires seen <= more
    ensures |AllPairs(nodes) - more| <= |AllPairs(nodes) - seen|
  {
    SubsetSize(AllPairs(nodes) - more, AllPairs(nodes) - seen);
  }

  lemma OneLessLeft(nodes: set<Node>, seen: Pairs, a: Node, b: Node)
    requires a in nodes && b in nodes && (a, b) !in seen
    ensures |AllPairs(nodes) - (seen + {(a, b)})| < |AllPairs(nodes) - seen|
  {
    assert AllPairs(nodes) - (seen + {(a, b)}) == (AllPairs(nodes) - seen) - {(a, b)};
    assert (a, b) in AllPairs(nodes) - seen;
  }

  /** Compares two types; a pair that is being compared already is taken to be equal. */
  method SameTypes(a: Type, b: Type, seen: Pairs, ghost nodes: set<Node>) returns (same: bool, seen': Pairs)
    requires Closed(Snap(nodes)) && In(Snap(nodes), a) && In(Snap(nodes), b)
    ensures DeepEqual(Snap(nodes), a, b) ==> same
    ensures same ==> seen <= seen' && Related(a, b, seen') && AllAgree(Snap(nodes), seen' - seen, seen')
    decreases |AllPairs(nodes) - seen|, 1
  {
    hide DeepEqual, Agree, LabelOf, Kids;
    ghost var g := Snap(nodes);
    if a == b {
      return true, seen;
    }
    if a.Basic? || b.Basic? {
      BasicDiffers(g, a, b);
      return false, seen;
    }
    if (a.node, b.node) in seen {
      return true, seen;
    }
    if LabelOf(a.node.def) != LabelOf(b.node.def) {
      EqualKids(g, a, b);
      return false, seen;
    }
    OneLessLeft(nodes, seen, a.node, b.node);
    same, seen' := SameKids(a.node, b.node, seen + {(a.node, b.node)}, nodes);
    if same {
      AgreeToo(g, a.node, b.node, seen, seen');
    }
  }

  lemma BasicDiffers(g: Graph, a: Type, b: Type)
    requires a != b && (a.Basic? || b.Basic?) && In(g, a) && In(g, b)
    ensures !DeepEqual(g, a, b)
  {
    assert Unfold(g, a, 1) != Unfold(g, b, 1);
  }

  lemma EqualKids(g: Graph, a: Type, b: Type)
    requires a.Ref? && b.Ref? && In(g, a) && In(g, b)
    ensures DeepEqual(g, a, b) ==> (
      && LabelOf(g[a.node]) == LabelOf(g[b.node]) && |Kids(g[a.node])| == |Kids(g[b.node])|
      && forall i | 0 <= i < |Kids(g[a.node])| :: DeepEqual(g, Kids(g[a.node])[i], Kids(g[b.node])[i]))
  {
    if DeepEqual(g, a, b) { SameMeaningKids(g, a, g, b); }
  }

  lemma AgreeToo(g: Graph, a: Node, b: Node, seen: Pairs, seen': Pairs)
    requires seen + {(a, b)} <= seen' && AllAgree(g, seen' - (seen + {(a, b)}), seen') && Agree(g, a, b, seen')
    ensures AllAgree(g, seen' - seen, seen')
  {
    hide Agree;
    assert forall q | q in seen' - seen :: q == (a, b) || q in seen' - (seen + {(a, b)});
  }

  lemma LabelCountsKids(d: Def, e: Def)
    requires LabelOf(d) == LabelOf(e)
    ensures |Kids(d)| == |Kids(e)|
  {
    match d
    case Struct(_, _, fs, ms) =>
      assert |FieldLabels(fs)| == |FieldLabels(e.fields)| && |FieldLabels(ms)| == |FieldLabels(e.methods)|;
    case Union(_, _, fs) => assert |FieldLabels(fs)| == |FieldLabels(e.fields)|;
    case _ =>
  }

  /** Compares what two objects refer to, pair by pair. */
  method SameKids(a: Node, b: Node, seen: Pairs, ghost nodes: set<Node>) returns (same: bool, seen': Pairs)
    requires Closed(Snap(nodes)) && a in nodes && b in nodes && LabelOf(a.def) == LabelOf(b.def)
    ensures DeepEqual(Snap(nodes), Ref(a), Ref(b)) ==> same
    ensures same ==> seen <= seen' && AllAgree(Snap(nodes), seen' - seen, seen') && Agree(Snap(nodes), a, b, seen')
    decreases |AllPairs(nodes) - seen|, 2
  {
    hide DeepEqual, LabelOf, Kids, AllAgree, RelatedTo;
    ghost var g := Snap(nodes);
    LabelCountsKids(a.def, b.def);
    KidsIn(g, a);
    KidsIn(g, b);
    EqualKids(g, Ref(a), Ref(b));
    var ks, ls := Kids(a.def), Kids(b.def);
    seen' := seen;
    NoneAgree(g, ks, ls, seen);
    for i := 0 to |ks|
      invariant seen <= seen' && AllAgree(g, seen' - seen, seen')
      invariant RelatedTo(ks, ls, i, seen')
    {
      FewerLeft(nodes, seen, seen');
      ghost var before := seen';
      var one;
      one, seen' := SameTypes(ks[i], ls[i], seen', nodes);
      if !one {
        return false, seen';
      }
      RelatedNext(ks, ls, i, before, seen');
      MoreSeen(g, before - seen, before, seen');
      AgreeTogether(g, seen, before, seen');
    }
    same := true;
  }

  lemma NoneAgree(g: Graph, ks: seq<Type>, ls: seq<Type>, seen: Pairs)
    requires |ks| == |ls|
    ensures AllAgree(g, seen - seen, seen) && RelatedTo(ks, ls, 0, seen)
  {
  }

  lemma AgreeTogether(g: Graph, seen: Pairs, before: Pairs, after: Pairs)
    requires seen <= before <= after && AllAgree(g, before - seen, after) && AllAgree(g, after - before, after)
    ensures AllAgree(g, after - seen, after)
  {
    hide Agree;
    assert forall q | q in after - seen :: q in before - seen || q in after - before;
  }

  /** Decides deep equality: equal unfoldings at every depth. */
  method DeepEquals(a: Node, b: Node, ghost nodes: set<Node>) returns (same: bool)
    requires Closed(Snap(nodes)) && a in nodes && b in nodes
    ensures same <==> DeepEqual(Snap(nodes), Ref(a), Ref(b))
  {
    ghost var g := Snap(nodes);
    var seen;
    same, seen := SameTypes(Ref(a), Ref(b), {}, nodes);
    if same {
      assert seen - {} == seen;
      forall n: nat ensures Unfold(g, Ref(a), n) == Unfold(g, Ref(b), n) {
        AgreeingUnfoldAlike(g, seen, Ref(a), Ref(b), n);
      }
    }
  }
}

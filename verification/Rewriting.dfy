// What replacing duplicate types does to the type graph.

module Rewriting {
  import opened CTypes
  import opened TypeGraph

  type Remap = map<Type, Type>

  /** The address of one type-holding variable: the k-th type of an object. */
  datatype Slot = Slot(node: Node, index: nat)

  function Apply(remap: Remap, t: Type): Type {
    if t in remap then remap[t] else t
  }

  predicate IsSlot(g: Graph, s: Slot) {
    s.node in g && s.index < |Slots(g[s.node])|
  }

  function SlotType(g: Graph, s: Slot): Type
    requires IsSlot(g, s)
  {
    Slots(g[s.node])[s.index]
  }

  /** A remap built from deeply equal pairs, whose targets are not themselves remapped. */
  ghost predicate Sound(g: Graph, remap: Remap) {
    forall t | t in remap :: In(g, t) && In(g, remap[t]) && remap[t] !in remap && DeepEqual(g, t, remap[t])
  }

  ghost predicate Ready(g: Graph, remap: Remap) {
    Closed(g) && Sound(g, remap)
  }

  /** h is g with exactly the places in `done` remapped. */
  ghost predicate Rewritten(g: Graph, h: Graph, remap: Remap, done: set<Slot>) {
    h.Keys == g.Keys && forall o | o in g :: RewrittenAt(g, h, remap, done, o)
  }

  ghost predicate RewrittenAt(g: Graph, h: Graph, remap: Remap, done: set<Slot>, o: Node)
    requires o in g && o in h
  {
    && LabelOf(h[o]) == LabelOf(g[o]) && Params(h[o]) == Params(g[o]) && |Slots(h[o])| == |Slots(g[o])|
    && forall k | 0 <= k < |Slots(g[o])| ::
         Slots(h[o])[k] == if Slot(o, k) in done then Apply(remap, Slots(g[o])[k]) else Slots(g[o])[k]
  }

  /** Main theorem: remapping any set of places, cyclic graphs included, leaves the unfolding of
      every type unchanged at every depth. */
  lemma {:induction false} RewritingKeepsUnfolding(
    g: Graph, h: Graph, remap: Remap, done: set<Slot>, t: Type, n: nat)
    requires Ready(g, remap) && Rewritten(g, h, remap, done) && In(g, t)
    ensures Unfold(h, t, n) == Unfold(g, t, n)
    decreases n
  {
    hide Ready, Rewritten;
    if n > 0 && t.Ref? {
      RewrittenKids(g, h, remap, done, t.node);
      var ks, ls := Kids(g[t.node]), Kids(h[t.node]);
      forall i | 0 <= i < |ks| ensures Unfold(h, ls[i], n - 1) == Unfold(g, ks[i], n - 1) {
        RemapKeepsUnfolding(g, remap, ks[i], n - 1);
        RewritingKeepsUnfolding(g, h, remap, done, ls[i], n - 1);
      }
      assert Unfold(h, t, n).kids == Unfold(g, t, n).kids;
    }
  }

  /** Every reference leaving an object is kept or remapped, and stays in the graph. */
  lemma RewrittenKids(g: Graph, h: Graph, remap: Remap, done: set<Slot>, o: Node)
    requires Ready(g, remap) && Rewritten(g, h, remap, done) && o in g
    ensures o in h && LabelOf(h[o]) == LabelOf(g[o]) && |Kids(h[o])| == |Kids(g[o])|
    ensures forall i | 0 <= i < |Kids(g[o])| ::
      && In(g, Kids(h[o])[i])
      && (Kids(h[o])[i] == Kids(g[o])[i] || Kids(h[o])[i] == Apply(remap, Kids(g[o])[i]))
  {
    hide DeepEqual, LabelOf;
    assert RewrittenAt(g, h, remap, done, o);
    var ks, ls := Kids(g[o]), Kids(h[o]);
    forall i | 0 <= i < |ks| ensures In(g, ls[i]) && (ls[i] == ks[i] || ls[i] == Apply(remap, ks[i])) {
      if i < |Slots(g[o])| {
        assert ks[i] == Slots(g[o])[i] && ls[i] == Slots(h[o])[i];
      } else {
        assert ks[i] == Ref(Params(g[o])[i - |Slots(g[o])|]);
      }
    }
  }

  lemma RemapKeepsUnfolding(g: Graph, remap: Remap, t: Type, n: nat)
    requires Ready(g, remap)
    ensures Unfold(g, Apply(remap, t), n) == Unfold(g, t, n)
  {
  }

  lemma RewritingKeepsMeaning(g: Graph, h: Graph, remap: Remap, done: set<Slot>)
    requires Ready(g, remap) && Rewritten(g, h, remap, done)
    ensures forall t | In(g, t) :: SameMeaning(h, t, g, t)
    ensures forall a, b | In(g, a) && In(g, b) :: DeepEqual(h, a, b) <==> DeepEqual(g, a, b)
  {
    forall t, n: nat | In(g, t) ensures Unfold(h, t, n) == Unfold(g, t, n) {
      RewritingKeepsUnfolding(g, h, remap, done, t, n);
    }
    forall a, b | In(g, a) && In(g, b) ensures DeepEqual(h, a, b) <==> DeepEqual(g, a, b) {
      assert SameMeaning(h, a, g, a) && SameMeaning(h, b, g, b);
      if DeepEqual(h, a, b) {
        forall n: nat ensures Unfold(g, a, n) == Unfold(g, b, n) {
          assert Unfold(h, a, n) == Unfold(h, b, n);
        }
      }
      if DeepEqual(g, a, b) {
        forall n: nat ensures Unfold(h, a, n) == Unfold(h, b, n) {
          assert Unfold(g, a, n) == Unfold(g, b, n);
        }
      }
    }
  }

  lemma RewritingKeepsReady(g: Graph, h: Graph, remap: Remap, done: set<Slot>)
    requires Ready(g, remap) && Rewritten(g, h, remap, done)
    ensures Ready(h, remap)
  {
    RewritingKeepsMeaning(g, h, remap, done);
  }

  lemma RewritingComposes(g: Graph, h: Graph, k: Graph, remap: Remap, a: set<Slot>, b: set<Slot>)
    requires Sound(g, remap) && Rewritten(g, h, remap, a) && Rewritten(h, k, remap, b)
    ensures Rewritten(g, k, remap, a + b)
  {
  }

  // ----- the places one walk visits -----

  /** The places `replaceUsedSubtypesInType` visits directly at type t, in program order:
      it enters pointers, arrays, functions with their parameters, and unions only. */
  function WalkSlots(g: Graph, t: Type): (ws: seq<Slot>)
  {
    if t.Basic? || t.node !in g then []
    else
      match g[t.node]
      case Pointer(_) => [Slot(t.node, 0)]
      case Array(_, _) => [Slot(t.node, 0)]
      case Func(_, ps, _) => [Slot(t.node, 0)] + seq(|ps|, i requires 0 <= i < |ps| => Slot(ps[i], 0))
      case Union(_, _, fs) => seq(|fs|, i requires 0 <= i < |fs| => Slot(t.node, i))
      case _ => []
  }

  lemma WalkSlotsAreSlots(g: Graph, t: Type)
    requires Closed(g)
    ensures forall i | 0 <= i < |WalkSlots(g, t)| :: IsSlot(g, WalkSlots(g, t)[i])
  {
    if t.Ref? && t.node in g && g[t.node].Func? {
      assert forall p | p in Params(g[t.node]) :: p in g && g[p].Decl?;
    }
  }

  /** The walk that starts at type t returns within call depth h. */
  predicate Walks(g: Graph, t: Type, h: nat)
    decreases h, 1
  {
    var ws := WalkSlots(g, t);
    forall i | 0 <= i < |ws| :: WalksBelow(g, ws[i], h)
  }

  predicate WalksBelow(g: Graph, s: Slot, h: nat)
    decreases h, 0
  {
    IsSlot(g, s) && h > 0 && Walks(g, SlotType(g, s), h - 1)
  }

  /** The places visited from a list of places, each within depth h below its (remapped) type. */
  ghost function ReachFrom(g: Graph, remap: Remap, ws: seq<Slot>, h: nat): set<Slot>
    decreases h, |ws|
  {
    if ws == [] then {}
    else
      {ws[0]}
      + (if IsSlot(g, ws[0]) then ReachType(g, remap, Apply(remap, SlotType(g, ws[0])), h) else {})
      + ReachFrom(g, remap, ws[1..], h)
  }

  ghost function ReachType(g: Graph, remap: Remap, t: Type, h: nat): set<Slot>
    decreases h, 0
  {
    if h == 0 then {} else ReachFrom(g, remap, WalkSlots(g, t), h - 1)
  }

  lemma {:induction false} ReachFromAppend(g: Graph, remap: Remap, a: seq<Slot>, b: seq<Slot>, h: nat)
    ensures ReachFrom(g, remap, a + b, h) == ReachFrom(g, remap, a, h) + ReachFrom(g, remap, b, h)
    decreases |a|
  {
    if a == [] {
      assert a + b == b;
    } else {
      assert (a + b)[0] == a[0] && (a + b)[1..] == a[1..] + b;
      ReachFromAppend(g, remap, a[1..], b, h);
    }
  }

  lemma RewritingKeepsWalkSlots(g: Graph, h: Graph, remap: Remap, done: set<Slot>, t: Type)
    requires Rewritten(g, h, remap, done)
    ensures WalkSlots(h, t) == WalkSlots(g, t)
  {
    if t.Ref? && t.node in g {
      assert RewrittenAt(g, h, remap, done, t.node);
      hide Rewritten;
      SameShapeSameWalk(g, h, t.node);
    }
  }

  lemma SameShapeSameWalk(g: Graph, h: Graph, o: Node)
    requires o in g && o in h
    requires LabelOf(h[o]) == LabelOf(g[o]) && Params(h[o]) == Params(g[o]) && |Slots(h[o])| == |Slots(g[o])|
    ensures WalkSlots(h, Ref(o)) == WalkSlots(g, Ref(o))
  {
    hide FieldLabels;
  }

  lemma RewritingKeepsSlot(g: Graph, k: Graph, remap: Remap, done: set<Slot>, s: Slot)
    requires Sound(g, remap) && Rewritten(g, k, remap, done)
    ensures IsSlot(k, s) <==> IsSlot(g, s)
    ensures IsSlot(g, s) ==> SlotType(k, s) == if s in done then Apply(remap, SlotType(g, s)) else SlotType(g, s)
    ensures IsSlot(g, s) ==> Apply(remap, SlotType(k, s)) == Apply(remap, SlotType(g, s))
  {
    if IsSlot(g, s) {
      assert s == Slot(s.node, s.index) && RewrittenAt(g, k, remap, done, s.node);
    }
  }

  /** Which places a walk visits does not depend on how far the rewriting has got. */
  lemma {:induction false} RewritingKeepsReach(
    g: Graph, k: Graph, remap: Remap, done: set<Slot>, ws: seq<Slot>, h: nat)
    requires Sound(g, remap) && Rewritten(g, k, remap, done)
    ensures ReachFrom(k, remap, ws, h) == ReachFrom(g, remap, ws, h)
    decreases h, |ws|
  {
    if ws != [] {
      var s := ws[0];
      RewritingKeepsSlot(g, k, remap, done, s);
      if IsSlot(g, s) {
        RewritingKeepsReachType(g, k, remap, done, Apply(remap, SlotType(g, s)), h);
      }
      RewritingKeepsReach(g, k, remap, done, ws[1..], h);
    }
  }

  lemma {:induction false} RewritingKeepsReachType(g: Graph, k: Graph, remap: Remap, done: set<Slot>, t: Type, h: nat)
    requires Sound(g, remap) && Rewritten(g, k, remap, done)
    ensures ReachType(k, remap, t, h) == ReachType(g, remap, t, h)
    decreases h, 0
  {
    if h > 0 {
      RewritingKeepsWalkSlots(g, k, remap, done, t);
      RewritingKeepsReach(g, k, remap, done, WalkSlots(g, t), h - 1);
    }
  }

  /** The depth of the walk is a property of the unfolding alone, so replacing a type by a
      deeply equal one, or rewriting the graph, does not change it. */
  lemma {:induction false} WalksFollowsMeaning(g: Graph, a: Type, k: Graph, b: Type, h: nat)
    requires Closed(g) && Closed(k) && In(g, a) && In(k, b) && SameMeaning(g, a, k, b)
    requires Walks(g, a, h)
    ensures Walks(k, b, h)
    decreases h
  {
    var ws, vs := WalkSlots(g, a), WalkSlots(k, b);
    WalkSlotsAreSlots(k, b);
    assert Unfold(g, a, 1) == Unfold(k, b, 1);
    if a.Ref? && b.Ref? {
      SameMeaningKids(g, a, k, b);
      var da, db := g[a.node], k[b.node];
      forall i | 0 <= i < |vs| ensures WalksBelow(k, vs[i], h) {
        assert |ws| == |vs| && WalksBelow(g, ws[i], h);
        WalkedTypesFollowMeaning(g, a, k, b, i);
        WalksFollowsMeaning(g, SlotType(g, ws[i]), k, SlotType(k, vs[i]), h - 1);
      }
    }
  }

  /** Two types of the same meaning are walked through places whose types have the same meaning. */
  lemma WalkedTypesFollowMeaning(g: Graph, a: Type, k: Graph, b: Type, i: nat)
    requires Closed(g) && Closed(k) && a.Ref? && b.Ref? && In(g, a) && In(k, b) && SameMeaning(g, a, k, b)
    requires i < |WalkSlots(g, a)| && i < |WalkSlots(k, b)|
    requires IsSlot(g, WalkSlots(g, a)[i]) && IsSlot(k, WalkSlots(k, b)[i])
    ensures SameMeaning(g, SlotType(g, WalkSlots(g, a)[i]), k, SlotType(k, WalkSlots(k, b)[i]))
    ensures In(g, SlotType(g, WalkSlots(g, a)[i])) && In(k, SlotType(k, WalkSlots(k, b)[i]))
  {
    hide SameMeaning, WalkSlots, Kids, FieldLabels;
    SameMeaningKids(g, a, k, b);
    WalkedKid(g, a, i);
    WalkedKid(k, b, i);
    var da, db := g[a.node], k[b.node];
    if da.Func? && i > 0 {
      SameMeaningKids(g, Ref(da.params[i - 1]), k, Ref(db.params[i - 1]));
    }
  }

  /** The i-th place walked from an object holds its i-th reference, or, for a parameter, the type of
      the declaration that the i-th reference is. */
  lemma WalkedKid(g: Graph, t: Type, i: nat)
    requires Closed(g) && t.Ref? && t.node in g && i < |WalkSlots(g, t)| && IsSlot(g, WalkSlots(g, t)[i])
    ensures i < |Kids(g[t.node])| && In(g, SlotType(g, WalkSlots(g, t)[i]))
    ensures !(g[t.node].Func? && i > 0) ==> SlotType(g, WalkSlots(g, t)[i]) == Kids(g[t.node])[i]
    ensures g[t.node].Func? && i > 0 ==> (
      && Kids(g[t.node])[i] == Ref(g[t.node].params[i - 1]) && g[t.node].params[i - 1] in g
      && SlotType(g, WalkSlots(g, t)[i]) == Kids(g[g[t.node].params[i - 1]])[0])
  {
    var d := g[t.node];
    if d.Func? && i > 0 {
      assert Params(d)[i - 1] == d.params[i - 1];
    }
  }

  lemma RewritingKeepsWalks(g: Graph, k: Graph, remap: Remap, done: set<Slot>, t: Type, h: nat)
    requires Ready(g, remap) && Rewritten(g, k, remap, done) && In(g, t)
    requires Walks(g, t, h)
    ensures Walks(k, t, h)
  {
    RewritingKeepsMeaning(g, k, remap, done);
    RewritingKeepsReady(g, k, remap, done);
    WalksFollowsMeaning(g, t, k, t, h);
  }

  lemma AssigningIsRewriting(g: Graph, remap: Remap, s: Slot)
    requires IsSlot(g, s)
    ensures Rewritten(g, g[s.node := SetSlot(g[s.node], s.index, Apply(remap, SlotType(g, s)))], remap, {s})
  {
  }

  /** Assigning a place and then walking on from its new type visits the reach of that place. */
  lemma AssignThenWalk(g: Graph, g1: Graph, g2: Graph, remap: Remap, s: Slot, h: nat)
    requires Sound(g, remap) && IsSlot(g, s)
    requires Rewritten(g, g1, remap, {s})
    requires Rewritten(g1, g2, remap, ReachType(g1, remap, Apply(remap, SlotType(g, s)), h))
    ensures Rewritten(g, g2, remap, ReachFrom(g, remap, [s], h))
  {
    var t := Apply(remap, SlotType(g, s));
    RewritingKeepsReachType(g, g1, remap, {s}, t, h);
    RewritingComposes(g, g1, g2, remap, {s}, ReachType(g, remap, t, h));
    ReachFromOne(g, remap, s, h);
  }

  lemma ReachFromOne(g: Graph, remap: Remap, s: Slot, h: nat)
    requires IsSlot(g, s)
    ensures ReachFrom(g, remap, [s], h) == {s} + ReachType(g, remap, Apply(remap, SlotType(g, s)), h)
  {
    assert ReachFrom(g, remap, [s][1..], h) == {};
  }

  /** A place that was fit to be walked from still is, whether or not it has been remapped. */
  lemma RewritingKeepsSlotWalks(g: Graph, k: Graph, remap: Remap, done: set<Slot>, s: Slot, h: nat)
    requires Ready(g, remap) && Rewritten(g, k, remap, done)
    requires IsSlot(g, s) && Walks(g, SlotType(g, s), h)
    ensures Ready(k, remap) && IsSlot(k, s) && Walks(k, SlotType(k, s), h)
  {
    RewritingKeepsReady(g, k, remap, done);
    var t := SlotType(g, s);
    assert SlotType(k, s) == t || SlotType(k, s) == Apply(remap, t);
    WalksFollowsMeaning(g, t, g, Apply(remap, t), h);
    RewritingKeepsWalks(g, k, remap, done, t, h);
    RewritingKeepsWalks(g, k, remap, done, Apply(remap, t), h);
  }

  /** Walking from the next place of a list extends what has been rewritten by its reach. */
  lemma RewritingStep(g: Graph, k: Graph, k': Graph, remap: Remap, ws: seq<Slot>, i: nat, h: nat)
    requires Ready(g, remap) && i < |ws|
    requires Rewritten(g, k, remap, ReachFrom(g, remap, ws[..i], h))
    requires Rewritten(k, k', remap, ReachFrom(k, remap, [ws[i]], h))
    ensures Rewritten(g, k', remap, ReachFrom(g, remap, ws[..i + 1], h))
  {
    RewritingKeepsReach(g, k, remap, ReachFrom(g, remap, ws[..i], h), [ws[i]], h);
    RewritingComposes(g, k, k', remap, ReachFrom(g, remap, ws[..i], h), ReachFrom(g, remap, [ws[i]], h));
    assert ws[..i + 1] == ws[..i] + [ws[i]];
    ReachFromAppend(g, remap, ws[..i], [ws[i]], h);
  }

  // ----- closed sets of visited places -----

  /** Whatever is visited directly below a member is a member. */
  ghost predicate WalkClosed(g: Graph, remap: Remap, v: set<Slot>) {
    forall s | s in v :: IsSlot(g, s) && Below(g, Apply(remap, SlotType(g, s)), v)
  }

  ghost predicate Below(g: Graph, t: Type, v: set<Slot>) {
    forall i | 0 <= i < |WalkSlots(g, t)| :: WalkSlots(g, t)[i] in v
  }

  /** k is g after a walk that visited exactly the closed set v. */
  ghost predicate Visited(g: Graph, k: Graph, remap: Remap, v: set<Slot>) {
    Rewritten(g, k, remap, v) && WalkClosed(g, remap, v)
  }

  lemma {:induction false} ReachIsClosed(g: Graph, remap: Remap, ws: seq<Slot>, h: nat)
    requires Ready(g, remap)
    requires forall i | 0 <= i < |ws| :: WalksBelow(g, ws[i], h + 1)
    ensures WalkClosed(g, remap, ReachFrom(g, remap, ws, h))
    ensures forall i | 0 <= i < |ws| :: ws[i] in ReachFrom(g, remap, ws, h)
    decreases h, |ws|
  {
    if ws != [] {
      var s := ws[0];
      assert WalksBelow(g, s, h + 1);
      var t := SlotType(g, s);
      WalksFollowsMeaning(g, t, g, Apply(remap, t), h);
      ReachTypeIsClosed(g, remap, Apply(remap, t), h);
      ReachIsClosed(g, remap, ws[1..], h);
      forall i | 0 < i < |ws| ensures ws[i] in ReachFrom(g, remap, ws, h) {
        assert ws[i] == ws[1..][i - 1];
      }
    }
  }

  lemma {:induction false} ReachTypeIsClosed(g: Graph, remap: Remap, t: Type, h: nat)
    requires Ready(g, remap) && Walks(g, t, h)
    ensures WalkClosed(g, remap, ReachType(g, remap, t, h)) && Below(g, t, ReachType(g, remap, t, h))
    decreases h, 0
  {
    var ws := WalkSlots(g, t);
    assert forall i | 0 <= i < |ws| :: WalksBelow(g, ws[i], h);
    assert ws != [] ==> WalksBelow(g, ws[0], h);
    if h > 0 {
      ReachIsClosed(g, remap, ws, h - 1);
    }
  }

  lemma VisitedCompose(g: Graph, k: Graph, k': Graph, remap: Remap, v: set<Slot>, w: set<Slot>)
    requires Sound(g, remap) && Visited(g, k, remap, v) && Visited(k, k', remap, w)
    ensures Visited(g, k', remap, v + w)
  {
    RewritingComposes(g, k, k', remap, v, w);
    forall s | s in w ensures IsSlot(g, s) && Below(g, Apply(remap, SlotType(g, s)), w) {
      RewritingKeepsSlot(g, k, remap, v, s);
      RewritingKeepsWalkSlots(g, k, remap, v, Apply(remap, SlotType(g, s)));
      assert Below(k, Apply(remap, SlotType(k, s)), w);
    }
    forall s | s in v ensures Below(g, Apply(remap, SlotType(g, s)), v + w) {
      assert Below(g, Apply(remap, SlotType(g, s)), v);
    }
  }
}

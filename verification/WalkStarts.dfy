// Where the program starts its walks, and when they return: a cycle crosses a union, and the fields of every
// union are a start (csym/parse_fixups.go).

module WalkStarts {
  import opened CTypes
  import opened TypeGraph
  import opened TypeTrees
  import opened Rewriting
  import opened WalkTermination

  lemma {:induction false} ReachesTrans(g: Graph, a: Slot, b: Slot, c: Slot, n: nat, m: nat)
    requires Reaches(g, a, b, n) && Reaches(g, b, c, m)
    ensures Reaches(g, a, c, n + m)
    decreases n
  {
    hide Next;
    var w :| w in Next(g, a) && (w == b || Reaches(g, w, b, n - 1));
    if w == b {
      ReachesLater(g, b, c, m, n + m - 1);
    } else {
      ReachesTrans(g, w, b, c, n - 1, m);
    }
  }

  lemma {:induction false} ReachesLater(g: Graph, a: Slot, b: Slot, n: nat, m: nat)
    requires Reaches(g, a, b, n) && n <= m
    ensures Reaches(g, a, b, m)
    decreases n
  {
    hide Next;
    var w :| w in Next(g, a) && (w == b || Reaches(g, w, b, n - 1));
    if w != b { ReachesLater(g, w, b, n - 1, m - 1); }
  }

  lemma LeadsTrans(g: Graph, a: Slot, b: Slot, c: Slot)
    requires Leads(g, a, b) && Leads(g, b, c)
    ensures Leads(g, a, c)
  {
    var n: nat :| Reaches(g, a, b, n);
    var m: nat :| Reaches(g, b, c, m);
    ReachesTrans(g, a, b, c, n, m);
  }

  lemma LeadsNext(g: Graph, a: Slot, w: Slot)
    requires w in Next(g, a)
    ensures Leads(g, a, w)
  {
    assert Reaches(g, a, w, 1);
  }

  predicate IsField(g: Graph, o: Node, i: nat) {
    o in g && g[o].Union? && i < |Slots(g[o])|
  }

  /** The way from a to b crosses a field of some union. */
  ghost predicate Crosses(g: Graph, a: Slot, b: Slot) {
    exists o, i: nat | o in g && IsField(g, o, i) ::
      Leads(g, a, Slot(o, i)) && (Slot(o, i) == b || Leads(g, Slot(o, i), b))
  }

  lemma CrossesFrom(g: Graph, a: Slot, w: Slot, b: Slot)
    requires w in Next(g, a) && Crosses(g, w, b)
    ensures Crosses(g, a, b)
  {
    var o, i: nat :| o in g && IsField(g, o, i) && Leads(g, w, Slot(o, i))
      && (Slot(o, i) == b || Leads(g, Slot(o, i), b));
    LeadsNext(g, a, w);
    LeadsTrans(g, a, w, Slot(o, i));
  }

  /** What is visited next below a modifier's object ends sooner; below a union it is a field. */
  lemma NextEndsSooner(g: Graph, a: Slot, w: Slot, n: nat)
    requires Closed(g) && IsSlot(g, a) && w in Next(g, a) && Ends(g, SlotType(g, a), n)
    ensures IsSlot(g, w)
    ensures IsField(g, w.node, w.index) || (n > 0 && Ends(g, SlotType(g, w), n - 1))
  {
    var t := SlotType(g, a);
    WalkSlotsAreSlots(g, t);
    assert In(g, t);
    if IsDerivedType(g, t) && w.node != t.node {
      assert w.node in Params(g[t.node]) && w.index == 0;
    }
  }

  lemma {:induction false} DownOrAcross(g: Graph, a: Slot, b: Slot, m: nat, n: nat)
    requires Closed(g) && IsSlot(g, a) && Reaches(g, a, b, m) && Ends(g, SlotType(g, a), n)
    ensures IsSlot(g, b) && (Crosses(g, a, b) || (n > 0 && Ends(g, SlotType(g, b), n - 1)))
    decreases m
  {
    hide Ends, Crosses, IsField, Next, Closed, Slots;
    var w :| w in Next(g, a) && (w == b || Reaches(g, w, b, m - 1));
    NextEndsSooner(g, a, w, n);
    if IsField(g, w.node, w.index) {
      FieldCrossed(g, a, w, b, m);
    } else if w != b {
      DownOrAcross(g, w, b, m - 1, n - 1);
      if Crosses(g, w, b) { CrossesFrom(g, a, w, b); } else { EndsLater(g, SlotType(g, b), n - 2, n - 1); }
    }
  }

  lemma FieldCrossed(g: Graph, a: Slot, w: Slot, b: Slot, m: nat)
    requires Closed(g) && IsSlot(g, a) && w in Next(g, a) && IsField(g, w.node, w.index)
      && (w == b || (m > 0 && Reaches(g, w, b, m - 1)))
    ensures IsSlot(g, b) && Crosses(g, a, b)
  {
    LeadsNext(g, a, w);
    assert w == Slot(w.node, w.index);
    if w != b { ReachedIsSlot(g, w, b, m - 1); }
  }

  lemma {:induction false} ReachedIsSlot(g: Graph, a: Slot, b: Slot, m: nat)
    requires Closed(g) && IsSlot(g, a) && Reaches(g, a, b, m)
    ensures IsSlot(g, b)
    decreases m
  {
    var w :| w in Next(g, a) && (w == b || Reaches(g, w, b, m - 1));
    WalkSlotsAreSlots(g, SlotType(g, a));
    if w != b { ReachedIsSlot(g, w, b, m - 1); }
  }

  /** Where modifiers end, a cycle crosses a union. */
  lemma {:induction false} CycleCrosses(g: Graph, s: Slot, m: nat, n: nat)
    requires Closed(g) && IsSlot(g, s) && Reaches(g, s, s, m) && Ends(g, SlotType(g, s), n)
    ensures Crosses(g, s, s)
    decreases n
  {
    DownOrAcross(g, s, s, m, n);
    if !Crosses(g, s, s) { CycleCrosses(g, s, m, n - 1); }
  }

  /** The walk that the program starts at a place returns, at some depth. */
  ghost predicate Returns(g: Graph, s: Slot) {
    exists h: nat :: WalksBelow(g, s, h)
  }

  /** The walks from all fields of these unions return. */
  ghost predicate FieldsReturn(g: Graph, unions: seq<Node>) {
    forall o, i | o in unions && o in g && 0 <= i < |Slots(g[o])| :: Returns(g, Slot(o, i))
  }

  lemma CyclicField(g: Graph) returns (o: Node, i: nat)
    requires Closed(g) && Founded(g) && !Acyclic(g)
    ensures IsField(g, o, i) && Leads(g, Slot(o, i), Slot(o, i))
  {
    var s :| s in AllSlots(g) && Leads(g, s, s);
    SlotsAreFinite(g, s);
    var m: nat :| Reaches(g, s, s, m);
    assert In(g, SlotType(g, s));
    SlotEnds(g, s);
    var n: nat :| Ends(g, SlotType(g, s), n);
    CycleCrosses(g, s, m, n);
    o, i :| o in g && IsField(g, o, i) && Leads(g, s, Slot(o, i)) && (Slot(o, i) == s || Leads(g, Slot(o, i), s));
    if Slot(o, i) != s { LeadsTrans(g, Slot(o, i), s, Slot(o, i)); }
  }

  lemma SlotEnds(g: Graph, s: Slot)
    requires Closed(g) && Founded(g) && IsSlot(g, s)
    ensures EndsSome(g, SlotType(g, s))
  {
    var t := SlotType(g, s);
    assert In(g, t);
    if t.Ref? { assert EndsSome(g, Ref(t.node)); }
    EndsIn(g, t);
  }

  lemma LoopNeverReturns(g: Graph, s: Slot)
    requires Leads(g, s, s)
    ensures !Returns(g, s)
  {
    var n: nat :| Reaches(g, s, s, n);
    forall h: nat ensures !WalksBelow(g, s, h) { CycleNeverReturns(g, s, s, n, h); }
  }

  /** The walks that the program starts at the fields of its unions all return if and only if no place of
      the whole graph is visited again below itself, and so all walks return. */
  lemma FieldsDecide(g: Graph, unions: seq<Node>)
    requires Closed(g) && Founded(g) && forall o | o in g && g[o].Union? :: o in unions
    ensures Acyclic(g) <==> FieldsReturn(g, unions)
  {
    if Acyclic(g) {
      forall o, i | o in unions && o in g && 0 <= i < |Slots(g[o])| ensures Returns(g, Slot(o, i)) {
        AcyclicWalksBelow(g, {}, AllSlots(g), Slot(o, i), |AllSlots(g)|);
      }
    } else {
      var o, i := CyclicField(g);
      LoopNeverReturns(g, Slot(o, i));
    }
  }

  /** The test for it: as many nested calls as there are places are enough, or no number is. */
  predicate WalkEnds(g: Graph, unions: seq<Node>) {
    forall o | o in unions :: o in g ==> forall i | 0 <= i < |Slots(g[o])| :: WalksBelow(g, Slot(o, i), |AllSlots(g)|)
  }

  lemma WalkEndsExactly(g: Graph, unions: seq<Node>)
    requires Closed(g) && Founded(g) && forall o | o in g && g[o].Union? :: o in unions
    ensures WalkEnds(g, unions) <==> FieldsReturn(g, unions)
  {
    FieldsDecide(g, unions);
    if Acyclic(g) {
      forall o, i | o in unions && o in g && 0 <= i < |Slots(g[o])| ensures WalksBelow(g, Slot(o, i), |AllSlots(g)|) {
        AcyclicWalksBelow(g, {}, AllSlots(g), Slot(o, i), |AllSlots(g)|);
      }
    }
    if WalkEnds(g, unions) { WalkEndsReturns(g, unions); }
  }

  lemma WalkEndsReturns(g: Graph, unions: seq<Node>)
    requires WalkEnds(g, unions)
    ensures FieldsReturn(g, unions)
  {
    forall o, i | o in unions && o in g && 0 <= i < |Slots(g[o])| ensures Returns(g, Slot(o, i)) {
      assert WalksBelow(g, Slot(o, i), |AllSlots(g)|);
    }
  }

  /** Wherever the walks have been so far, the same places return, and a walk from a place returns exactly
      if it does with the type found there replaced first. */
  lemma RewritingKeepsReturns(g: Graph, k: Graph, remap: Remap, done: set<Slot>, s: Slot)
    requires Ready(g, remap) && Rewritten(g, k, remap, done) && IsSlot(g, s)
    ensures IsSlot(k, s) && (Returns(k, s) <==> Returns(g, s))
    ensures Returns(g, s) <==> exists h: nat :: Walks(k, Apply(remap, SlotType(g, s)), h)
  {
    var t, u := SlotType(g, s), Apply(remap, SlotType(g, s));
    ClosedAt(g, s.node);
    RewritingKeepsMeaning(g, k, remap, done);
    RewritingKeepsReady(g, k, remap, done);
    assert SameMeaning(k, t, g, t) && SameMeaning(k, u, g, t);
    ReturnsTogether(g, t, k, SlotType(k, s));
    ReturnsTogether(g, t, k, u);
    ReturnsType(g, s);
    ReturnsType(k, s);
  }

  lemma ReturnsType(g: Graph, s: Slot)
    requires IsSlot(g, s)
    ensures Returns(g, s) <==> exists h: nat :: Walks(g, SlotType(g, s), h)
  {
    if Returns(g, s) {
      var h: nat :| WalksBelow(g, s, h);
      assert Walks(g, SlotType(g, s), h - 1);
    }
    if h: nat :| Walks(g, SlotType(g, s), h) { assert WalksBelow(g, s, h + 1); }
  }

  lemma ReturnsTogether(g: Graph, a: Type, k: Graph, b: Type)
    requires Closed(g) && Closed(k) && In(g, a) && In(k, b) && SameMeaning(k, b, g, a)
    ensures (exists h: nat :: Walks(g, a, h)) <==> exists h: nat :: Walks(k, b, h)
  {
    if exists h: nat :: Walks(g, a, h) {
      var h: nat :| Walks(g, a, h);
      WalksFollowsMeaning(g, a, k, b, h);
      assert Walks(k, b, h);
    }
    if exists h: nat :: Walks(k, b, h) {
      var h: nat :| Walks(k, b, h);
      WalksFollowsMeaning(k, b, g, a, h);
      assert Walks(g, a, h);
    }
  }
}

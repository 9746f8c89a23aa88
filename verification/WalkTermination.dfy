// When the rewriting walk returns: exactly when nothing reaches itself without crossing a struct.

module WalkTermination {
  import opened CTypes
  import opened TypeGraph
  import opened Rewriting

  function AllSlots(g: Graph): set<Slot> {
    set o, k | o in g && 0 <= k < |Slots(g[o])| :: Slot(o, k)
  }

  /** The places visited directly below a place; the walk enters no struct. */
  function Next(g: Graph, s: Slot): seq<Slot> {
    if IsSlot(g, s) then WalkSlots(g, SlotType(g, s)) else []
  }

  /** b is visited below a, at most n steps down. */
  ghost predicate Reaches(g: Graph, a: Slot, b: Slot, n: nat)
    decreases n
  {
    n > 0 && exists w | w in Next(g, a) :: w == b || Reaches(g, w, b, n - 1)
  }

  ghost predicate Leads(g: Graph, a: Slot, b: Slot) {
    exists n: nat :: Reaches(g, a, b, n)
  }

  /** No place is visited again below itself: no union contains itself, directly or through
      pointers, arrays, functions and other unions, without a struct in between. */
  ghost predicate Acyclic(g: Graph) {
    forall s | s in AllSlots(g) :: !Leads(g, s, s)
  }

  lemma {:induction false} ReachesExtend(g: Graph, a: Slot, b: Slot, c: Slot, n: nat)
    requires Reaches(g, a, b, n) && c in Next(g, b)
    ensures Reaches(g, a, c, n + 1)
    decreases n
  {
    var w :| w in Next(g, a) && (w == b || Reaches(g, w, b, n - 1));
    if w == b {
      assert Reaches(g, b, c, n);
    } else {
      ReachesExtend(g, w, b, c, n - 1);
    }
  }

  lemma SlotsAreFinite(g: Graph, s: Slot)
    ensures s in AllSlots(g) <==> IsSlot(g, s)
  {
    assert s == Slot(s.node, s.index);
  }

  lemma ReachesOnward(g: Graph, above: set<Slot>, s: Slot, w: Slot)
    requires forall a | a in above :: Leads(g, a, s)
    requires w in Next(g, s)
    ensures forall a | a in above + {s} :: Leads(g, a, w)
  {
    forall a | a in above + {s} ensures Leads(g, a, w) {
      if a == s {
        assert Reaches(g, s, w, 1);
      } else {
        var n: nat :| Reaches(g, a, s, n);
        ReachesExtend(g, a, s, w, n);
      }
    }
  }

  /** The places above s on the current chain are all different, so the chain is no longer than
      the number of places there are. */
  lemma {:induction false} AcyclicWalksBelow(g: Graph, above: set<Slot>, unseen: set<Slot>, s: Slot, h: nat)
    requires Closed(g) && Acyclic(g) && IsSlot(g, s)
    requires above !! unseen && above + unseen == AllSlots(g) && |unseen| <= h
    requires forall a | a in above :: Leads(g, a, s)
    ensures WalksBelow(g, s, h)
    decreases h
  {
    SlotsAreFinite(g, s);
    assert s in unseen;
    var t := SlotType(g, s);
    var ws := WalkSlots(g, t);
    WalkSlotsAreSlots(g, t);
    forall i | 0 <= i < |ws| ensures WalksBelow(g, ws[i], h - 1) {
      assert ws[i] in Next(g, s);
      ReachesOnward(g, above, s, ws[i]);
      AcyclicWalksBelow(g, above + {s}, unseen - {s}, ws[i], h - 1);
    }
    assert Walks(g, t, h - 1);
  }

  /** From a place below which a cycle hangs the walk returns at no depth. */
  lemma {:induction false} CycleNeverReturns(g: Graph, a: Slot, b: Slot, n: nat, h: nat)
    requires Reaches(g, a, b, n) && Leads(g, b, b)
    ensures !WalksBelow(g, a, h)
    decreases h, n
  {
    if WalksBelow(g, a, h) {
      var w :| w in Next(g, a) && (w == b || Reaches(g, w, b, n - 1));
      var ws := WalkSlots(g, SlotType(g, a));
      assert Walks(g, SlotType(g, a), h - 1);
      var i :| 0 <= i < |ws| && ws[i] == w;
      assert WalksBelow(g, ws[i], h - 1);
      if w == b {
        var m: nat :| Reaches(g, b, b, m);
        CycleNeverReturns(g, b, b, m, h - 1);
      } else {
        CycleNeverReturns(g, w, b, n - 1, h - 1);
      }
    }
  }

  /** The walk returns from everything in the graph within call depth h. */
  ghost predicate WalksAll(g: Graph, h: nat) {
    forall o | o in g :: Walks(g, Ref(o), h)
  }

  /** If no place is visited again below itself, every walk returns, within as many nested calls
      as there are places. */
  lemma AcyclicWalksAll(g: Graph)
    requires Closed(g) && Acyclic(g)
    ensures WalksAll(g, |AllSlots(g)|)
  {
    forall o | o in g ensures Walks(g, Ref(o), |AllSlots(g)|) {
      var ws := WalkSlots(g, Ref(o));
      WalkSlotsAreSlots(g, Ref(o));
      forall i | 0 <= i < |ws| ensures WalksBelow(g, ws[i], |AllSlots(g)|) {
        AcyclicWalksBelow(g, {}, AllSlots(g), ws[i], |AllSlots(g)|);
      }
    }
  }

  /** Otherwise some walk returns at no depth. */
  lemma CyclicWalksForever(g: Graph, h: nat)
    requires Closed(g) && !Acyclic(g)
    ensures !WalksAll(g, h)
  {
    var s :| s in AllSlots(g) && Leads(g, s, s);
    var n: nat :| Reaches(g, s, s, n);
    CycleNeverReturns(g, s, s, n, h + 1);
    SlotsAreFinite(g, s);
    var t := SlotType(g, s);
    assert !Walks(g, t, h);
    assert In(g, t);
    assert t.Ref?;
  }

  /** The walk returns from everything if and only if no place is visited again below itself. */
  lemma TerminatesExactlyWhenAcyclic(g: Graph)
    requires Closed(g)
    ensures Acyclic(g) <==> exists h: nat :: WalksAll(g, h)
  {
    if Acyclic(g) { AcyclicWalksAll(g); }
    if h: nat :| WalksAll(g, h) {
      if !Acyclic(g) { CyclicWalksForever(g, h); }
    }
  }

  /** Rewriting neither creates such cycles nor makes a walk deeper. */
  lemma RewritingKeepsWalksAll(g: Graph, k: Graph, remap: Remap, done: set<Slot>, h: nat)
    requires Ready(g, remap) && Rewritten(g, k, remap, done) && WalksAll(g, h)
    ensures WalksAll(k, h)
  {
    forall o | o in k ensures Walks(k, Ref(o), h) {
      RewritingKeepsWalks(g, k, remap, done, Ref(o), h);
    }
  }
}

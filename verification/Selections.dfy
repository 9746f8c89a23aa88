// Lists that pick positions by a property, in order.

module Selections {
  /** These are exactly the positions from i on, below j, that have the property, in order. */
  ghost predicate Selects(ps: seq<nat>, i: nat, j: nat, has: nat -> bool) {
    && (forall m, n | 0 <= m < n < |ps| :: ps[m] < ps[n])
    && (forall k: nat :: k in ps <==> i <= k < j && has(k))
  }

  lemma SelectsNone(i: nat, has: nat -> bool)
    ensures Selects([], i, i, has)
  {
  }

  lemma SelectsFirst(ps: seq<nat>, i: nat, j: nat, has: nat -> bool)
    requires i < j && Selects(ps, i + 1, j, has)
    ensures Selects((if has(i) then [i] else []) + ps, i, j, has)
  {
    var qs := (if has(i) then [i] else []) + ps;
    forall k: nat ensures k in qs <==> i <= k < j && has(k) {
      assert k in qs <==> (k == i && has(i)) || k in ps;
    }
    assert forall m | 0 <= m < |ps| :: ps[m] in ps;
  }

  lemma SelectsLast(ps: seq<nat>, i: nat, j: nat, has: nat -> bool)
    requires i <= j && Selects(ps, i, j, has)
    ensures Selects(ps + (if has(j) then [j] else []), i, j + 1, has)
  {
    var qs := ps + (if has(j) then [j] else []);
    forall k: nat ensures k in qs <==> i <= k < j + 1 && has(k) {
      assert k in qs <==> k in ps || (k == j && has(j));
    }
    assert forall m | 0 <= m < |ps| :: ps[m] in ps;
  }

  /** There is one such list only. */
  lemma {:induction false} SelectsOne(ps: seq<nat>, qs: seq<nat>, i: nat, j: nat, has: nat -> bool)
    requires Selects(ps, i, j, has) && Selects(qs, i, j, has)
    ensures ps == qs
    decreases |ps|
  {
    assert qs != [] ==> qs[0] in qs;
    if ps != [] {
      assert ps[0] in ps && ps[0] in qs;
      assert qs[0] in ps;
      var p := ps[0];
      assert qs[0] == p;
      RestSelects(ps, i, j, has);
      RestSelects(qs, i, j, has);
      SelectsOne(ps[1..], qs[1..], p + 1, j, has);
    }
  }

  lemma RestSelects(ps: seq<nat>, i: nat, j: nat, has: nat -> bool)
    requires ps != [] && Selects(ps, i, j, has)
    ensures Selects(ps[1..], ps[0] + 1, j, has)
  {
    assert ps[0] in ps;
    forall k: nat ensures k in ps[1..] <==> ps[0] + 1 <= k < j && has(k) {
      if k in ps[1..] { assert k in ps; }
      if ps[0] + 1 <= k < j && has(k) {
        assert k in ps;
        assert k != ps[0];
      }
    }
  }
}

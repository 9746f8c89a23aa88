// Order-preserving selection from a list.

module Lists {
  /** The elements of s that are in `keep`, in order. */
  function Keep<T(==)>(s: seq<T>, keep: set<T>): (r: seq<T>)
    ensures |r| <= |s|
  {
    if s == [] then []
    else Keep(s[..|s| - 1], keep) + (if s[|s| - 1] in keep then [s[|s| - 1]] else [])
  }

  ghost predicate NoDup<T>(s: seq<T>) {
    forall i, j | 0 <= i < j < |s| :: s[i] != s[j]
  }

  lemma {:induction false} KeepMembers<T>(s: seq<T>, keep: set<T>)
    ensures forall x | x in Keep(s, keep) :: x in s && x in keep
    ensures forall x | x in s && x in keep :: x in Keep(s, keep)
  {
    if s != [] {
      var n := |s| - 1;
      KeepMembers(s[..n], keep);
      assert s == s[..n] + [s[n]];
    }
  }

  lemma {:induction false} KeepNoDup<T>(s: seq<T>, keep: set<T>)
    requires NoDup(s)
    ensures NoDup(Keep(s, keep))
  {
    if s != [] {
      var n := |s| - 1;
      KeepNoDup(s[..n], keep);
      KeepMembers(s[..n], keep);
      assert s[n] !in s[..n];
    }
  }

  lemma {:induction false} KeepAppend<T>(s: seq<T>, t: seq<T>, keep: set<T>)
    ensures Keep(s + t, keep) == Keep(s, keep) + Keep(t, keep)
  {
    if t == [] {
      assert s + t == s;
    } else {
      var n := |t| - 1;
      assert (s + t)[..|s + t| - 1] == s + t[..n] && (s + t)[|s + t| - 1] == t[n];
      KeepAppend(s, t[..n], keep);
    }
  }

  /** Selecting twice is selecting once by both conditions, so selections commute. */
  lemma {:induction false} KeepKeep<T>(s: seq<T>, a: set<T>, b: set<T>)
    ensures Keep(Keep(s, a), b) == Keep(s, a * b)
  {
    if s != [] {
      var n := |s| - 1;
      KeepKeep(s[..n], a, b);
      KeepAppend(Keep(s[..n], a), if s[n] in a then [s[n]] else [], b);
      assert Keep([s[n]], b) == if s[n] in b then [s[n]] else [];
      assert Keep<T>([], b) == [];
    }
  }

  /** Only the elements that occur matter. */
  lemma {:induction false} KeepSame<T>(s: seq<T>, a: set<T>, b: set<T>)
    requires forall x | x in s :: x in a <==> x in b
    ensures Keep(s, a) == Keep(s, b)
  {
    if s != [] {
      var n := |s| - 1;
      assert forall x | x in s[..n] :: x in s;
      KeepSame(s[..n], a, b);
    }
  }

  lemma {:induction false} KeepAll<T>(s: seq<T>, a: set<T>)
    requires forall x | x in s :: x in a
    ensures Keep(s, a) == s
  {
    if s != [] {
      var n := |s| - 1;
      assert forall x | x in s[..n] :: x in s;
      KeepAll(s[..n], a);
    }
  }

  lemma {:induction false} KeepNone<T>(s: seq<T>)
    ensures Keep(s, {}) == []
  {
    if s != [] { KeepNone(s[..|s| - 1]); }
  }

  // ----- sets -----

  lemma {:induction false} SubsetSize<T>(a: set<T>, b: set<T>)
    requires a <= b
    ensures |a| <= |b|
    decreases a
  {
    if a != {} {
      var x :| x in a;
      SubsetSize(a - {x}, b - {x});
    }
  }
}

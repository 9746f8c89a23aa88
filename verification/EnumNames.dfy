// Enum member names are unique across all enums (csym/parse_types.go), and the order in which the
// members of an enum are printed is canonical (csym/c/type.go).

module EnumNames {
  import opened CTypes
  import opened TypeGraph
  import opened Lists
  import opened TagTables
  import opened Naming
  import opened Spelling
  import opened TypesState
  import opened TagGroups

  lemma CandidateInjective(name: string, i: nat, j: nat)
    requires Candidate(name, i) == Candidate(name, j)
    ensures i == j
  {
    if i > 0 && j > 0 {
      var p := name + "_DUPLICATE_";
      assert Candidate(name, i)[|p|..] == Decimal(i - 1) && Candidate(name, j)[|p|..] == Decimal(j - 1);
      DecimalInjective(i - 1, j - 1);
    } else {
      assert |Candidate(name, i)| == |Candidate(name, j)|;
    }
  }

  /** The i-th candidate: the name itself, or the name with a marker and the numeral for i - 1. */
  lemma CandidateIs(name: string, i: nat)
    ensures Candidate(name, 0) == name
    ensures i > 0 ==>
      var c, n := Candidate(name, i), |name| + 11;
      |c| > n && c[..n] == name + "_DUPLICATE_" && IsNumeral(c[n..], i - 1)
  {
    if i > 0 {
      DecimalIsNumeral(i - 1);
      assert Candidate(name, i) == name + "_DUPLICATE_" + Decimal(i - 1);
      assert Candidate(name, i)[|name| + 11..] == Decimal(i - 1);
    }
  }

  /** The names tried before the i-th. */
  function Tried(name: string, i: nat): set<string> {
    if i == 0 then {} else Tried(name, i - 1) + {Candidate(name, i - 1)}
  }

  lemma {:induction false} WasTried(name: string, i: nat, x: string)
    ensures x in Tried(name, i) <==> exists j | 0 <= j < i :: x == Candidate(name, j)
  {
    hide Candidate;
    if i > 0 {
      WasTried(name, i - 1, x);
      if x == Candidate(name, i - 1) { assert exists j | 0 <= j < i :: x == Candidate(name, j); }
    }
  }

  lemma {:induction false} TriedNames(name: string, i: nat)
    ensures |Tried(name, i)| == i
  {
    hide Candidate;
    if i > 0 {
      TriedNames(name, i - 1);
      WasTried(name, i - 1, Candidate(name, i - 1));
      if Candidate(name, i - 1) in Tried(name, i - 1) {
        var j :| 0 <= j < i - 1 && Candidate(name, i - 1) == Candidate(name, j);
        CandidateInjective(name, i - 1, j);
      }
    }
  }

  /** By the pigeonhole principle: i names in use have been tried, so i is at most the number of names in use. */
  lemma TriesAreBounded(name: string, members: set<string>, i: nat)
    requires forall j | 0 <= j < i :: Candidate(name, j) in members
    ensures i <= |members|
  {
    TriedNames(name, i);
    forall x | x in Tried(name, i) ensures x in members {
      WasTried(name, i, x);
      var j :| 0 <= j < i && x == Candidate(name, j);
    }
    SubsetSize(Tried(name, i), members);
  }

  /** The name issued is the first candidate not in use, found within |members| + 1 tries. */
  predicate IsFirstFree(name: string, members: set<string>, k: nat) {
    k <= |members| && Candidate(name, k) !in members && forall j | 0 <= j < k :: Candidate(name, j) in members
  }

  /** `uniqueEnum` */
  method UniqueEnum(name: string, members: set<string>) returns (newName: string, members': set<string>)
    ensures exists k: nat :: IsFirstFree(name, members, k) && newName == Candidate(name, k)
    ensures newName !in members && members' == members + {newName}
  {
    newName := name;
    var i := 0;
    while newName in members
      invariant newName == Candidate(name, i)
      invariant forall j | 0 <= j < i :: Candidate(name, j) in members
      decreases |members| + 1 - i
    {
      TriesAreBounded(name, members, i + 1);
      newName := name + "_DUPLICATE_" + Decimal(i);
      i := i + 1;
    }
    TriesAreBounded(name, members, i);
    assert IsFirstFree(name, members, i);
    members' := members + {newName};
  }

  // ----- all enums together -----

  function MembersOf(v: State, o: Node): seq<EnumMember> {
    if o in v.g && v.g[o].Enum? then v.g[o].members else []
  }

  /** The k-th member of an enum has this name. */
  predicate HasName(v: State, o: Node, k: nat, name: string) {
    k < |MembersOf(v, o)| && MembersOf(v, o)[k].name == name
  }

  ghost predicate IsIssued(v: State, name: string) {
    exists o, k: nat | o in v.enums.inOrder :: HasName(v, o, k, name)
  }

  /** Every member name of every enum is different from every other, and the names in use are
      exactly the names issued. */
  ghost predicate NamesDistinct(v: State) {
    && (forall o, k: nat, name | o in v.enums.inOrder && HasName(v, o, k, name) :: name in v.names)
    && (forall name | name in v.names :: IsIssued(v, name))
    && (forall o, k: nat, u, l: nat, name | o in v.enums.inOrder && u in v.enums.inOrder
          && HasName(v, o, k, name) && HasName(v, u, l, name) :: o == u && k == l)
  }

  lemma AddsKeepsNamesDistinct(v: State, w: State)
    requires TableOk(v, EnumTag) && Adds(v, w) && NamesDistinct(v)
    ensures NamesDistinct(w)
  {
    hide HasName, Adds, TableOk;
    forall o, k: nat, name | o in w.enums.inOrder
      ensures HasName(w, o, k, name) <==> o in v.enums.inOrder && HasName(v, o, k, name)
    {
      NamesAfterAdds(v, w, o, k, name);
    }
    assert w.names == v.names && v.enums.inOrder <= w.enums.inOrder by { EnumsAfterAdds(v, w); }
    forall name | name in w.names ensures IsIssued(w, name) {
      assert IsIssued(v, name);
      var o, k: nat :| o in v.enums.inOrder && HasName(v, o, k, name);
      assert o in w.enums.inOrder && HasName(w, o, k, name);
    }
  }

  lemma NamesAfterAdds(v: State, w: State, o: Node, k: nat, name: string)
    requires TableOk(v, EnumTag) && Adds(v, w) && o in w.enums.inOrder
    ensures HasName(w, o, k, name) <==> o in v.enums.inOrder && HasName(v, o, k, name)
  {
    assert TableAdds(v, w, EnumTag);
    if o in v.enums.inOrder { assert o in v.g; }
  }

  lemma EnumsAfterAdds(v: State, w: State)
    requires Adds(v, w)
    ensures w.names == v.names && v.enums.inOrder <= w.enums.inOrder
  {
    assert TableAdds(v, w, EnumTag);
  }

  function Append(v: State, t: Node, m: EnumMember): State
    requires t in v.g && v.g[t].Enum?
  {
    SetDef(v, t, v.g[t].(members := v.g[t].members + [m])).(names := v.names + {m.name})
  }

  lemma NamesAfterAppend(v: State, t: Node, m: EnumMember, o: Node, k: nat, name: string)
    requires t in v.g && v.g[t].Enum?
    ensures HasName(Append(v, t, m), o, k, name)
      <==> HasName(v, o, k, name) || (o == t && k == |MembersOf(v, t)| && name == m.name)
  {
  }

  /** Appending a member with a fresh name. */
  lemma AppendKeepsNamesDistinct(v: State, t: Node, m: EnumMember)
    requires NamesDistinct(v) && t in v.enums.inOrder && t in v.g && v.g[t].Enum? && m.name !in v.names
    ensures NamesDistinct(Append(v, t, m))
  {
    hide HasName;
    var w := Append(v, t, m);
    forall o, k: nat, name
      ensures HasName(w, o, k, name) <==> HasName(v, o, k, name) || (o == t && k == |MembersOf(v, t)| && name == m.name)
    {
      NamesAfterAppend(v, t, m, o, k, name);
    }
    forall name | name in w.names ensures IsIssued(w, name) {
      if name == m.name {
        assert HasName(w, t, |MembersOf(v, t)|, name);
      } else {
        assert IsIssued(v, name);
        var o, k: nat :| o in v.enums.inOrder && HasName(v, o, k, name);
        assert HasName(w, o, k, name);
      }
    }
  }

  // ----- the printed order of the members -----

  /** Go compares strings by their bytes: lexicographically. */
  predicate StringLess(a: string, b: string) {
    if b == "" then false
    else if a == "" then true
    else if a[0] != b[0] then a[0] < b[0]
    else StringLess(a[1..], b[1..])
  }

  /** The comparison `EnumType.Def` sorts by. */
  predicate Less(a: EnumMember, b: EnumMember) {
    if a.value == b.value then StringLess(a.name, b.name) else a.value < b.value
  }

  /** The texts agree up to k, where a ends, or has the smaller character. */
  predicate LessAt(a: string, b: string, k: nat) {
    && k <= |a| && k < |b| && a[..k] == b[..k]
    && (k == |a| || a[k] as int < b[k] as int)
  }

  lemma {:induction false} StringLessIs(a: string, b: string)
    ensures StringLess(a, b) <==> exists k: nat :: LessAt(a, b, k)
  {
    if a == "" && b != "" { assert LessAt(a, b, 0); }
    if a != "" && b != "" {
      if a[0] != b[0] {
        assert LessAt(a, b, 0) <==> StringLess(a, b);
        forall k: nat ensures k > 0 ==> !LessAt(a, b, k) {
          if k > 0 && k <= |a| && k < |b| { assert a[..k][0] == a[0] && b[..k][0] == b[0]; }
        }
      } else {
        StringLessIs(a[1..], b[1..]);
        forall k: nat ensures LessAt(a, b, k + 1) <==> LessAt(a[1..], b[1..], k) { LessAtNext(a, b, k); }
        if StringLess(a, b) {
          var k: nat :| LessAt(a[1..], b[1..], k);
          assert LessAt(a, b, k + 1);
        }
        if k: nat :| LessAt(a, b, k) { assert k > 0 && LessAt(a[1..], b[1..], k - 1); }
      }
    }
  }

  lemma LessAtNext(a: string, b: string, k: nat)
    requires a != "" && b != "" && a[0] == b[0]
    ensures LessAt(a, b, k + 1) <==> LessAt(a[1..], b[1..], k)
  {
    if k + 1 <= |a| && k + 1 < |b| {
      assert a[..k + 1] == [a[0]] + a[1..][..k] && b[..k + 1] == [b[0]] + b[1..][..k];
      if a[..k + 1] == b[..k + 1] { assert a[..k + 1][1..] == b[..k + 1][1..]; }
    }
  }

  /** Sorted members have ascending values, and among those with one value no name comes before one that is
      less. */
  lemma SortedIs(s: seq<EnumMember>)
    ensures Sorted(s) <==> forall i, j | 0 <= i < j < |s| ::
      s[i].value < s[j].value || (s[i].value == s[j].value && !exists k: nat :: LessAt(s[j].name, s[i].name, k))
  {
    hide StringLess, LessAt;
    forall i, j | 0 <= i < j < |s|
      ensures !Less(s[j], s[i])
        <==> s[i].value < s[j].value
             || (s[i].value == s[j].value && !exists k: nat :: LessAt(s[j].name, s[i].name, k))
    {
      StringLessIs(s[j].name, s[i].name);
    }
  }

  lemma {:induction false} StringLessTotal(a: string, b: string)
    ensures StringLess(a, b) || StringLess(b, a) || a == b
    ensures !(StringLess(a, b) && StringLess(b, a)) && !StringLess(a, a)
  {
    if a != "" && b != "" && a[0] == b[0] {
      StringLessTotal(a[1..], b[1..]);
      assert a == [a[0]] + a[1..] && b == [b[0]] + b[1..];
    }
    if a != "" { StringLessTotal(a[1..], a[1..]); }
  }

  lemma {:induction false} StringLessTransitive(a: string, b: string, c: string)
    requires StringLess(a, b) && StringLess(b, c)
    ensures StringLess(a, c)
  {
    if a != "" && a[0] == b[0] && b[0] == c[0] { StringLessTransitive(a[1..], b[1..], c[1..]); }
  }

  /** What any sorting procedure with this comparison may return: no member before a smaller one. */
  ghost predicate Sorted(s: seq<EnumMember>) {
    forall i, j | 0 <= i < j < |s| :: !Less(s[j], s[i])
  }

  lemma LessIsStrictOrder(a: EnumMember, b: EnumMember, c: EnumMember)
    ensures Less(a, b) || Less(b, a) || a == b
    ensures !(Less(a, b) && Less(b, a))
    ensures Less(a, b) && Less(b, c) ==> Less(a, c)
  {
    StringLessTotal(a.name, b.name);
    if StringLess(a.name, b.name) && StringLess(b.name, c.name) { StringLessTransitive(a.name, b.name, c.name); }
  }

  lemma RestSorted(s: seq<EnumMember>)
    requires Sorted(s) && s != []
    ensures Sorted(s[1..])
  {
  }

  /** The printed order is canonical: sorting any permutation of the members, by any procedure, gives
      one and the same list. */
  lemma {:induction false} PrintedOrderIsCanonical(s: seq<EnumMember>, t: seq<EnumMember>)
    requires Sorted(s) && Sorted(t) && multiset(s) == multiset(t)
    ensures s == t
    decreases |s|
  {
    hide Less, Sorted;
    assert |s| == |multiset(s)| == |multiset(t)| == |t|;
    if s != [] {
      var a, b := s[0], t[0];
      assert s == [a] + s[1..] && t == [b] + t[1..];
      assert a in multiset(t) && b in multiset(s);
      FirstIsLeast(s, b);
      FirstIsLeast(t, a);
      LessIsStrictOrder(a, b, a);
      assert multiset(s[1..]) == multiset(s) - multiset{a};
      assert multiset(t[1..]) == multiset(t) - multiset{b};
      RestSorted(s);
      RestSorted(t);
      PrintedOrderIsCanonical(s[1..], t[1..]);
    }
  }

  lemma FirstIsLeast(s: seq<EnumMember>, x: EnumMember)
    requires Sorted(s) && s != [] && x in multiset(s)
    ensures !Less(x, s[0])
  {
    assert x in s;
    var i :| 0 <= i < |s| && s[i] == x;
    LessIsStrictOrder(x, x, x);
  }
}

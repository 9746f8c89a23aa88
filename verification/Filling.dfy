// Filling a scaffold member by member, while new types appear around it (csym/parse_types.go).

module Filling {
  import opened Ints
  import opened Records
  import C = CTypes
  import opened TypeGraph
  import opened TypeTrees
  import opened TagTables
  import opened TypeWord
  import opened TypesState
  import opened Scaffolds
  import opened TagGroups
  import opened Ledgers
  import opened EnumNames

  /** State v is state u0 with types added around it and with scaffold t filled with these member
      records and these method records; u is the state it would be had t been left alone. */
  ghost predicate Filled(u0: State, u: State, v: State, t: C.Node, kind: TagKind, syms: seq<Symbol>, ms: seq<nat>,
    qs: seq<nat>) {
    && Ok(u0) && Ok(u) && Adds(u0, u) && Ok(v)
    && t in u0.g && OfKind(u0.g[t], kind) && kind != EnumTag && FieldsOf(u0.g[t]) == []
    && t in v.g && Kept(u0.g[t], v.g[t]) && v == SetDef(u, t, v.g[t])
    && FieldsMatch(v, FieldsOf(v.g[t]), syms, ms) && MethodsGrow(v, u0.g[t], v.g[t], syms, qs)
  }

  lemma NothingFilled(u: State, t: C.Node, kind: TagKind, syms: seq<Symbol>)
    requires Ok(u) && t in u.g && OfKind(u.g[t], kind) && kind != EnumTag && FieldsOf(u.g[t]) == []
    ensures Filled(u, u, u, t, kind, syms, [], [])
  {
    hide Ok;
    AddsRefl(u);
    assert u == SetDef(u, t, u.g[t]);
  }

  /** Types added meanwhile are added beneath. */
  lemma FilledAdds(u0: State, u: State, v: State, w: State, t: C.Node, kind: TagKind, syms: seq<Symbol>, ms: seq<nat>,
    qs: seq<nat>)
    requires Filled(u0, u, v, t, kind, syms, ms, qs) && Adds(v, w) && Ok(w)
    ensures Filled(u0, SetDef(w, t, u0.g[t]), w, t, kind, syms, ms, qs) && w.g[t] == v.g[t]
  {
    hide Ok, FieldsMatch;
    assert t in u.g && u.g[t] == u0.g[t] && w.g[t] == v.g[t] by {
      hide *;
      StaysInAdds(u0, u, t);
      FilledStays(u0, u, v, w, t, kind, syms, ms, qs);
    }
    FilledSlots(u0.g[t], v.g[t]);
    AddsBeneath(u, t, v.g[t], w, |FieldsOf(v.g[t])|);
    AddsTrans(u0, u, SetDef(w, t, u0.g[t]));
    AddsGrows(v, w);
    FieldsMatchStays(v, w, FieldsOf(v.g[t]), syms, ms);
    FieldsMatchStays(v, w, MethodsOf(v.g[t])[|MethodsOf(u0.g[t])|..], syms, qs);
  }

  /** What was there before the fields comes behind them. */
  lemma FilledSlots(d: C.Def, e: C.Def)
    requires (d.Struct? || d.Union?) && (e.Struct? || e.Union?) && FieldsOf(d) == []
    requires |MethodsOf(d)| <= |MethodsOf(e)| && MethodsOf(e)[..|MethodsOf(d)|] == MethodsOf(d)
    ensures SlotsFrom(d, e, |FieldsOf(e)|)
  {
    SlotsByKind(d);
    SlotsByKind(e);
    hide Slots, FieldsOf, MethodsOf;
    forall i | 0 <= i < |Slots(d)| ensures Slots(d)[i] == Slots(e)[|FieldsOf(e)| + i] {
      assert MethodsOf(e)[i] == MethodsOf(e)[..|MethodsOf(d)|][i];
    }
  }

  lemma SlotsByKind(d: C.Def)
    requires d.Struct? || d.Union?
    ensures Slots(d) == FieldTypes(FieldsOf(d)) + FieldTypes(MethodsOf(d))
  {
  }

  lemma StaysInAdds(u0: State, u: State, t: C.Node)
    requires Adds(u0, u) && t in u0.g
    ensures t in u.g && u.g[t] == u0.g[t]
  {
  }

  lemma FilledStays(u0: State, u: State, v: State, w: State, t: C.Node, kind: TagKind, syms: seq<Symbol>, ms: seq<nat>,
    qs: seq<nat>)
    requires Filled(u0, u, v, t, kind, syms, ms, qs) && Adds(v, w)
    ensures t in w.g && w.g[t] == v.g[t] && t in u0.g && Adds(u0, u)
  {
    hide Ok, FieldsMatch;
  }

  /** The definition with one more field, or one more method. */
  function WithField(d: C.Def, f: C.Field): C.Def
    requires d.Struct? || d.Union?
  {
    match d
    case Struct(size, tag, fields, methods) => C.Struct(size, tag, fields + [f], methods)
    case Union(size, tag, fields) => C.Union(size, tag, fields + [f])
  }

  function WithMethod(d: C.Def, f: C.Field): C.Def
    requires d.Struct?
  {
    d.(methods := d.methods + [f])
  }

  lemma AppendedSlots(d: C.Def, e: C.Def, f: C.Field, g: Graph)
    requires ((d.Struct? || d.Union?) && e == WithField(d, f)) || (d.Struct? && e == WithMethod(d, f))
    requires In(g, f.v.typ) && forall i | 0 <= i < |Slots(d)| :: In(g, Slots(d)[i])
    ensures Kept(d, e) && Params(e) == [] && forall i | 0 <= i < |Slots(e)| :: In(g, Slots(e)[i])
  {
    var fs, ms := d.fields, if d.Struct? then d.methods else [];
    forall i | 0 <= i < |Slots(e)| ensures In(g, Slots(e)[i]) {
      if i < |fs| {
        assert Slots(e)[i] == fs[i].v.typ == Slots(d)[i];
      } else if e.fields == fs {
        var j := i - |fs|;
        assert Slots(e)[i] == e.methods[j].v.typ;
        if j < |ms| { assert Slots(d)[i] == ms[j].v.typ; }
      } else if i > |fs| {
        assert Slots(e)[i] == ms[i - |fs| - 1].v.typ == Slots(d)[i - 1];
      }
    }
  }

  /** Where the new place of an object with one more field or method is. */
  function NewPlace(d: C.Def, e: C.Def): nat {
    if FieldsOf(e) == FieldsOf(d) then |Slots(d)| else |FieldsOf(d)|
  }

  lemma FieldSlots(d: C.Def, f: C.Field)
    requires d.Struct? || d.Union?
    ensures var k, s, r := |FieldsOf(d)|, Slots(d), Slots(WithField(d, f));
      k <= |s| && r == s[..k] + [f.v.typ] + s[k..] && NewPlace(d, WithField(d, f)) == k
  {
    var k, s, r := |FieldsOf(d)|, Slots(d), Slots(WithField(d, f));
    assert FieldTypes(d.fields + [f]) == FieldTypes(d.fields) + [f.v.typ];
    assert s[..k] == FieldTypes(d.fields);
  }

  lemma MethodSlots(d: C.Def, f: C.Field)
    requires d.Struct?
    ensures Slots(WithMethod(d, f)) == Slots(d) + [f.v.typ] && NewPlace(d, WithMethod(d, f)) == |Slots(d)|
  {
    assert FieldTypes(d.methods + [f]) == FieldTypes(d.methods) + [f.v.typ];
  }

  lemma AppendedTrees(g: Graph, t: C.Node, e: C.Def, f: C.Field)
    requires Closed(g) && Trees(g) && t in g && (g[t].Struct? || g[t].Union?) && Loose(g, f.v.typ)
    requires e == WithField(g[t], f) || (g[t].Struct? && e == WithMethod(g[t], f))
    ensures Trees(g[t := e])
  {
    var d := g[t];
    var k := NewPlace(d, e);
    assert IsFixed(d) && IsFixed(e);
    hide Slots, Trees, Closed, Loose, NewPlace, IsFixed;
    if e == WithField(d, f) { FieldSlots(d, f); } else { MethodSlots(d, f); }
    hide WithField, WithMethod;
    MoreKeepTrees(g, t, e, k);
  }

  lemma SlotsIn(v: State, t: C.Node)
    requires Ok(v) && t in v.g
    ensures forall i | 0 <= i < |Slots(v.g[t])| :: In(v.g, Slots(v.g[t])[i])
  {
  }

  lemma FilledChanges(u0: State, u: State, v: State, t: C.Node, kind: TagKind, syms: seq<Symbol>, ms: seq<nat>,
    qs: seq<nat>, e: C.Def, f: C.Field)
    requires Filled(u0, u, v, t, kind, syms, ms, qs) && In(v.g, f.v.typ) && Loose(v.g, f.v.typ)
    requires ((v.g[t].Struct? || v.g[t].Union?) && e == WithField(v.g[t], f))
      || (v.g[t].Struct? && e == WithMethod(v.g[t], f))
    ensures Ok(SetDef(v, t, e)) && Kept(u0.g[t], e) && SetDef(v, t, e) == SetDef(u, t, e) && Grows(v, SetDef(v, t, e))
  {
    hide Ok, FieldsMatch, Slots, WithField, WithMethod, Trees, Loose;
    SlotsIn(v, t);
    OkClosed(v);
    AppendedSlots(v.g[t], e, f, v.g);
    AppendedTrees(v.g, t, e, f);
    SetDefKeepsOk(v, t, e);
    SetDefGrows(v, t, e);
  }

  lemma FilledField(u0: State, u: State, v: State, t: C.Node, kind: TagKind, syms: seq<Symbol>, ms: seq<nat>,
    qs: seq<nat>, m: nat, f: C.Field)
    requires Filled(u0, u, v, t, kind, syms, ms, qs) && In(v.g, f.v.typ) && Loose(v.g, f.v.typ)
    requires m < |syms| && FieldMatches(v, f, syms[m])
    ensures v.g[t].Struct? || v.g[t].Union?
    ensures Filled(u0, u, SetDef(v, t, WithField(v.g[t], f)), t, kind, syms, ms + [m], qs)
  {
    var e := WithField(v.g[t], f);
    var w := SetDef(v, t, e);
    FilledChanges(u0, u, v, t, kind, syms, ms, qs, e, f);
    hide Ok, Adds, Grows, TypeMatches, FieldsMatch, ModsFrom, Loose;
    MatchesOneMore(v, w, FieldsOf(v.g[t]), syms, ms, m, f);
    hide MethodsGrow;
    WithFieldKeepsMethods(v.g[t], f);
    MethodsGrowStays(v, w, u0.g[t], v.g[t], e, syms, qs);
  }

  lemma WithFieldKeepsMethods(d: C.Def, f: C.Field)
    requires d.Struct? || d.Union?
    ensures MethodsOf(WithField(d, f)) == MethodsOf(d) && FieldsOf(WithField(d, f)) == FieldsOf(d) + [f]
  {
  }

  lemma MethodsGrowStays(v: State, w: State, c: C.Def, d: C.Def, e: C.Def, syms: seq<Symbol>, qs: seq<nat>)
    requires MethodsGrow(v, c, d, syms, qs) && Grows(v, w) && MethodsOf(e) == MethodsOf(d)
    ensures MethodsGrow(w, c, e, syms, qs)
  {
    hide Grows, FieldsMatch, MethodsOf;
    FieldsMatchStays(v, w, MethodsOf(d)[|MethodsOf(c)|..], syms, qs);
  }

  lemma MethodsOneMore(v: State, w: State, c: C.Def, d: C.Def, e: C.Def, syms: seq<Symbol>, qs: seq<nat>, m: nat,
    f: C.Field)
    requires MethodsGrow(v, c, d, syms, qs) && Grows(v, w) && MethodsOf(e) == MethodsOf(d) + [f]
    requires m < |syms| && FieldMatches(v, f, syms[m])
    ensures MethodsGrow(w, c, e, syms, qs + [m])
  {
    hide Grows, FieldMatches, FieldsMatch, MethodsOf;
    var n, fs := |MethodsOf(c)|, MethodsOf(d);
    MatchesOneMore(v, w, fs[n..], syms, qs, m, f);
    assert (fs + [f])[n..] == fs[n..] + [f] && (fs + [f])[..n] == fs[..n];
    assert |qs + [m]| == |qs| + 1;
  }

  lemma MatchesOneMore(v: State, w: State, fs: seq<C.Field>, syms: seq<Symbol>, ms: seq<nat>, m: nat, f: C.Field)
    requires Grows(v, w) && FieldsMatch(v, fs, syms, ms) && m < |syms| && FieldMatches(v, f, syms[m])
    ensures FieldsMatch(w, fs + [f], syms, ms + [m])
  {
    hide Grows, TypeMatches;
    FieldsMatchStays(v, w, fs, syms, ms);
    TypeMatchesStays(v, w, f.v.typ, syms[m].body.typ, DimsOf(syms[m]), TagTextOf(syms[m]));
  }

  lemma FilledMethod(u0: State, u: State, v: State, t: C.Node, syms: seq<Symbol>, ms: seq<nat>, qs: seq<nat>, m: nat,
    f: C.Field)
    requires Filled(u0, u, v, t, StructTag, syms, ms, qs) && In(v.g, f.v.typ) && Loose(v.g, f.v.typ)
    requires m < |syms| && FieldMatches(v, f, syms[m])
    ensures v.g[t].Struct? && Filled(u0, u, SetDef(v, t, WithMethod(v.g[t], f)), t, StructTag, syms, ms, qs + [m])
  {
    var e := WithMethod(v.g[t], f);
    var w := SetDef(v, t, e);
    FilledChanges(u0, u, v, t, StructTag, syms, ms, qs, e, f);
    hide Ok, Adds, Grows, TypeMatches, FieldsMatch, ModsFrom, Loose;
    FieldsMatchStays(v, w, FieldsOf(v.g[t]), syms, ms);
    hide MethodsGrow;
    MethodsOneMore(v, w, u0.g[t], v.g[t], e, syms, qs, m, f);
  }

  // ----- what a filled group leaves behind -----

  lemma AddsKeepsLastScaffold(u0: State, u: State, kind: TagKind, tag: string, size: uint32, t: C.Node)
    requires TableOk(u0, kind) && Adds(u0, u) && LastScaffold(u0.g, GroupOf(TableOf(u0, kind), tag), kind, size, t)
    ensures LastScaffold(u.g, GroupOf(TableOf(u, kind), tag), kind, size, t)
  {
    hide LastScaffold;
    var s := GroupOf(TableOf(u0, kind), tag);
    LastScaffoldListed(u0.g, s, kind, size, t);
    assert TableAdds(u0, u, kind);
    assert s == GroupOf(TableOf(u, kind), tag);
    LastScaffoldStays(u0.g, u.g, s, kind, size, t);
  }

  lemma LastScaffoldListed(g: Graph, s: seq<C.Node>, kind: TagKind, size: uint32, t: C.Node)
    requires LastScaffold(g, s, kind, size, t)
    ensures t in s && t in g && IsScaffold(g[t], kind, size)
  {
  }

  lemma LastScaffoldStays(g: Graph, h: Graph, s: seq<C.Node>, kind: TagKind, size: uint32, t: C.Node)
    requires LastScaffold(g, s, kind, size, t) && forall o | o in g :: o in h && h[o] == g[o]
    ensures LastScaffold(h, s, kind, size, t)
  {
    hide IsScaffold;
    var i :| 0 <= i < |s| && s[i] == t && t in g && IsScaffold(g[t], kind, size)
      && forall j | i < j < |s| :: s[j] in g && !IsScaffold(g[s[j]], kind, size);
    assert s[i] == t && t in h && IsScaffold(h[t], kind, size)
      && forall j | i < j < |s| :: s[j] in h && !IsScaffold(h[s[j]], kind, size);
  }

  lemma FillingKeepsNamesDistinct(v: State, t: C.Node, d: C.Def)
    requires NamesDistinct(v) && t in v.g && !v.g[t].Enum? && !d.Enum?
    ensures NamesDistinct(SetDef(v, t, d))
  {
    hide HasName;
    var w := SetDef(v, t, d);
    forall o, k: nat, name ensures HasName(w, o, k, name) <==> HasName(v, o, k, name) {
      SameMembersSameNames(v, w, o, k, name);
    }
    forall name | name in w.names ensures IsIssued(w, name) {
      assert IsIssued(v, name);
      var o, k: nat :| o in v.enums.inOrder && HasName(v, o, k, name);
      assert o in w.enums.inOrder && HasName(w, o, k, name);
    }
  }

  lemma SameMembersSameNames(v: State, w: State, o: C.Node, k: nat, name: string)
    requires MembersOf(v, o) == MembersOf(w, o)
    ensures HasName(w, o, k, name) <==> HasName(v, o, k, name)
  {
  }

  /** No function type has parameters; only function bodies give them. */
  ghost predicate NoParams(g: Graph) {
    forall o | o in g :: Params(g[o]) == []
  }

  /** The state invariant of the main loop at record i. */
  ghost predicate OnTrack(v: State, syms: seq<Symbol>, i: nat, book: Book) {
    i <= |syms| && Ok(v) && NoParams(v.g) && Enough(v, syms, i) && Ledger(v, syms, i, book) && NamesDistinct(v)
  }

  lemma AddsKeepsNoParams(v: State, w: State)
    requires NoParams(v.g) && Adds(v, w)
    ensures NoParams(w.g)
  {
    hide TableAdds;
    forall o | o in w.g ensures Params(w.g[o]) == [] {
      if o in v.g { assert w.g[o] == v.g[o]; }
    }
  }

  lemma AddsKeepsOnTrack(v: State, w: State, syms: seq<Symbol>, i: nat, book: Book)
    requires OnTrack(v, syms, i, book) && Adds(v, w) && Ok(w)
    ensures OnTrack(w, syms, i, book)
  {
    hide Enough, Ledger, NamesDistinct, Adds, TableOk, Closed, NamesOk;
    AddsKeepsNoParams(v, w);
    AddsKeepsEnough(v, w, syms, i);
    AddsKeepsLedger(v, w, syms, i, book);
    AddsKeepsNamesDistinct(v, w);
  }

  /** Main step: a struct or union group has been read into the last scaffold of its tag and size. */
  lemma GroupFilled(u0: State, u: State, v: State, t: C.Node, kind: TagKind,
    syms: seq<Symbol>, i: nat, next: nat, book: Book)
    requires OnTrack(u0, syms, i, book) && i < next <= |syms|
    requires Filled(u0, u, v, t, kind, syms, Members(syms, i + 1, kind), Methods(syms, i + 1, kind))
    requires OpensGroup(syms[i], kind, TagOf(u0.g[t]), SizeOf(u0.g[t]))
    requires LastScaffold(u0.g, GroupOf(TableOf(u0, kind), TagOf(u0.g[t])), kind, SizeOf(u0.g[t]), t)
    requires forall k | i < k < next :: !OpensAnyGroup(syms[k])
    ensures t in v.g
    ensures OnTrack(v, syms, next, Picked(book, t, i))
    ensures Grows(u0, v)
  {
    hide Enough, Ledger, NamesDistinct, TableOk, Closed, NamesOk, LastScaffold, FieldsMatch, OpensGroup, OpensAnyGroup,
      Members, Methods, TableAdds, Trees;
    OkTables(u);
    AddsKeepsOnTrack(u0, u, syms, i, book);
    assert TableOk(u0, kind) by { OneTableOk(u0, kind); }
    AddsKeepsLastScaffold(u0, u, kind, TagOf(u0.g[t]), SizeOf(u0.g[t]), t);
    FillingKeepsEnough(u, v, syms, i, kind, t);
    SkippingKeepsEnough(v, syms, i + 1, next);
    FillingKeepsLedger(u, v, syms, i, next, book, kind, t, v.g[t]);
    FillingKeepsNamesDistinct(u, t, v.g[t]);
    AddsGrows(u0, u);
    SetDefGrows(u, t, v.g[t]);
    GrowsTrans(u0, u, v);
  }

  // ----- enums -----

  /** State v is state u0 with these member records appended to the empty enum t. */
  ghost predicate EnumFilled(u0: State, v: State, t: C.Node, syms: seq<Symbol>, ms: seq<nat>) {
    && Ok(u0) && Ok(v) && NamesDistinct(v)
    && t in u0.g && u0.g[t].Enum? && t in v.g && Kept(u0.g[t], v.g[t])
    && v == SetDef(u0, t, v.g[t]).(names := v.names)
    && MembersMatch(v.g[t].members, syms, ms)
  }

  lemma NoEnumFilled(u: State, t: C.Node, syms: seq<Symbol>)
    requires Ok(u) && NamesDistinct(u) && t in u.g && u.g[t].Enum? && u.g[t].members == []
    ensures EnumFilled(u, u, t, syms, [])
  {
    hide Ok, NamesDistinct;
    assert u == SetDef(u, t, u.g[t]).(names := u.names);
  }

  lemma AppendKeepsOk(v: State, t: C.Node, m: C.EnumMember)
    requires Ok(v) && t in v.g && v.g[t].Enum?
    ensures Ok(Append(v, t, m)) && t in v.enums.inOrder
  {
    hide Closed, Trees;
    EnumTrees(v.g, t, v.g[t].(members := v.g[t].members + [m]));
    SetDefKeepsOk(v, t, v.g[t].(members := v.g[t].members + [m]));
    assert TableOk(v, EnumTag);
  }

  lemma EnumTrees(g: Graph, t: C.Node, e: C.Def)
    requires Closed(g) && Trees(g) && t in g && g[t].Enum? && e.Enum?
    ensures Trees(g[t := e])
  {
    hide Trees, Closed;
    FewerKeepTrees(g, t, e, 0);
  }

  lemma EnumTakes(u0: State, v: State, t: C.Node, syms: seq<Symbol>, ms: seq<nat>, j: nat, m: C.EnumMember)
    requires EnumFilled(u0, v, t, syms, ms) && j < |syms| && MemberMatches(m, syms[j]) && m.name !in v.names
    ensures v.g[t].Enum? && EnumFilled(u0, Append(v, t, m), t, syms, ms + [j])
  {
    hide Ok, NamesDistinct, MemberMatches;
    AppendKeepsOk(v, t, m);
    AppendKeepsNamesDistinct(v, t, m);
  }

  // ----- steps that fill nothing -----

  lemma QuietKeepsEntries(v: State, w: State, syms: seq<Symbol>, book: Book, kind: TagKind)
    requires Grows(v, w) && (forall o | o in v.g :: w.g[o] == v.g[o])
    requires TableOf(w, kind) == TableOf(v, kind) && TableOk(v, kind)
    requires Entries(v, syms, book, kind) && InLatestOrder(v, book, kind)
    ensures Entries(w, syms, book, kind) && InLatestOrder(w, book, kind)
  {
    hide Entry, Grows;
    forall o | o in TableOf(w, kind).inOrder ensures Entry(w, syms, book, kind, o) {
      assert o in w.g by { hide *; InTable(v, kind, o); GrowsIn(v, w, o); }
      EntryStays(v, w, syms, book, kind, o);
    }
    forall tag | tag in TableOf(w, kind).groups ensures LatestFirst(w, book, kind, tag) {
      assert LatestFirst(v, book, kind, tag);
      GroupInGraph(v, kind, tag);
    }
  }

  lemma InTable(v: State, kind: TagKind, o: C.Node)
    requires TableOk(v, kind) && o in TableOf(v, kind).inOrder
    ensures o in v.g
  {
  }

  lemma GrowsIn(v: State, w: State, o: C.Node)
    requires Grows(v, w) && o in v.g
    ensures o in w.g
  {
  }

  lemma QuietKeepsLedger(v: State, w: State, syms: seq<Symbol>, i: nat, j: nat, book: Book)
    requires TablesOk(v) && Ledger(v, syms, i, book) && i <= j <= |syms|
    requires Grows(v, w) && (forall o | o in v.g :: w.g[o] == v.g[o])
    requires w.structs == v.structs && w.unions == v.unions && w.enums == v.enums
    requires forall k | i <= k < j :: !OpensAnyGroup(syms[k])
    ensures Ledger(w, syms, j, book)
  {
    hide Entries, InLatestOrder, Closed, TableOk, AllAccounted;
    assert BookOk(w, j, book);
    forall kind: TagKind ensures KindLedger(w, syms, j, book, kind) {
      assert KindLedger(v, syms, i, book, kind);
      OneTableOk(v, kind);
      SameTableOf(v, w, kind);
      QuietKeepsEntries(v, w, syms, book, kind);
      QuietKeepsAccounts(syms, i, j, book, kind);
    }
  }

  lemma SameTableOf(v: State, w: State, kind: TagKind)
    requires w.structs == v.structs && w.unions == v.unions && w.enums == v.enums
    ensures TableOf(w, kind) == TableOf(v, kind)
  {
  }

  lemma QuietKeepsAccounts(syms: seq<Symbol>, i: nat, j: nat, book: Book, kind: TagKind)
    requires AllAccounted(syms, i, book, kind) && i <= j <= |syms|
    requires forall k | i <= k < j :: !OpensAnyGroup(syms[k])
    ensures AllAccounted(syms, j, book, kind)
  {
    forall k | 0 <= k < j ensures Accounted(syms, k, book, kind) {
      if k >= i { assert !OpensKind(syms, k, kind); }
    }
  }

  lemma {:induction false} EnumsHaveNoMethods(syms: seq<Symbol>, j: nat, kind: TagKind)
    requires kind != StructTag
    ensures Methods(syms, j, kind) == []
    decreases |syms| - j
  {
    if j < |syms| { EnumsHaveNoMethods(syms, j + 1, kind); }
  }

  /** Main step for enums. */
  lemma EnumGroupFilled(u: State, v: State, t: C.Node, syms: seq<Symbol>, i: nat, next: nat, book: Book)
    requires OnTrack(u, syms, i, book) && i < next <= |syms|
    requires EnumFilled(u, v, t, syms, Members(syms, i + 1, EnumTag))
    requires OpensGroup(syms[i], EnumTag, TagOf(u.g[t]), SizeOf(u.g[t]))
    requires LastScaffold(u.g, GroupOf(TableOf(u, EnumTag), TagOf(u.g[t])), EnumTag, SizeOf(u.g[t]), t)
    requires forall k | i < k < next :: !OpensAnyGroup(syms[k])
    ensures t in v.g
    ensures OnTrack(v, syms, next, Picked(book, t, i))
    ensures Grows(u, v)
  {
    hide Enough, Ledger, NamesDistinct, TableOk, Closed, NamesOk, LastScaffold, MembersMatch, OpensGroup, OpensAnyGroup,
      Members, Methods, GraphGrows, TablesGrow, Trees;
    var w := SetDef(u, t, v.g[t]);
    FillingKeepsEnough(u, v, syms, i, EnumTag, t);
    SkippingKeepsEnough(v, syms, i + 1, next);
    EnumsHaveNoMethods(syms, i + 1, EnumTag);
    OkTables(u);
    FillingKeepsLedger(u, w, syms, i, next, book, EnumTag, t, v.g[t]);
    SetDefGrows(u, t, v.g[t]);
    NamesAside(w, v);
    QuietKeepsLedger(w, v, syms, next, next, Picked(book, t, i));
    GrowsTrans(u, w, v);
  }

  /** The names in use do not matter to the graph and the tables. */
  lemma NamesAside(w: State, v: State)
    requires v == w.(names := v.names) && Ok(v)
    ensures Grows(w, v) && TablesOk(w)
  {
    hide Indexed, Closed;
    NamesAsideTable(w, v, StructTag);
    NamesAsideTable(w, v, UnionTag);
    NamesAsideTable(w, v, EnumTag);
  }

  lemma NamesAsideTable(w: State, v: State, kind: TagKind)
    requires v == w.(names := v.names) && TableOk(v, kind)
    ensures TableOk(w, kind)
  {
    assert TableOf(w, kind) == TableOf(v, kind);
  }
}

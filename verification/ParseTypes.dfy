// Parsing the records into types: scaffolds first, then the tag groups that fill them
// (csym/parse_types.go).

module ParseTypes {
  import opened Ints
  import opened Records
  import C = CTypes
  import opened TypeGraph
  import opened TypeTrees
  import opened TagTables
  import opened TypeWord
  import opened Naming
  import opened Csym
  import opened TypesState
  import opened Scaffolds
  import opened TagGroups
  import opened Ledgers
  import opened GroupScan
  import opened EnumNames
  import opened ResolveTypes
  import opened Filling
  import opened Typedefs
  import opened Initial

  /** The last type of the group that has no members yet and, but for enums, the right size. */
  method FindEmpty(p: Parser, kind: TagKind, tag: string, size: uint32) returns (r: Outcome<C.Node>)
    requires Ok(View(p))
    ensures r.Good? ==> LastScaffold(View(p).g, GroupOf(TableOf(View(p), kind), tag), kind, size, r.value)
    ensures r.Panicked? ==> r.why == NoScaffold
    ensures r.Panicked? ==>
      forall o | o in GroupOf(TableOf(View(p), kind), tag) :: o in p.nodes && !IsScaffold(o.def, kind, size)
  {
    hide Ok;
    ghost var v := View(p);
    GroupNodes(v, kind, tag);
    var found: C.Node? := null;
    var groups := IndexOf(p, kind).byTag;
    assert groups == TableOf(v, kind).groups;
    if tag in groups {
      var s := groups[tag];
      assert s == GroupOf(TableOf(v, kind), tag);
      for i := 0 to |s|
        invariant found == null ==> forall j | 0 <= j < i :: !IsScaffold(s[j].def, kind, size)
        invariant found != null ==> exists k | 0 <= k < i ::
          && s[k] == found && found in v.g && IsScaffold(found.def, kind, size)
          && forall j | k < j < i :: !IsScaffold(s[j].def, kind, size)
      {
        if IsScaffold(s[i].def, kind, size) {
          found := s[i];
        }
      }
    }
    if found == null {
      return Panicked(NoScaffold);
    }
    return Good(found);
  }

  lemma GroupNodes(v: State, kind: TagKind, tag: string)
    requires Ok(v)
    ensures forall o | o in GroupOf(TableOf(v, kind), tag) :: o in v.g && OfKind(v.g[o], kind) && TagOf(v.g[o]) == tag
  {
    OneTableOk(v, kind);
    GroupInGraph(v, kind, tag);
  }

  /** The field a member record describes. */
  method ParseField(p: Parser, s: Symbol) returns (r: Outcome<C.Field>)
    requires Separate(p) && Ok(View(p)) && (s.body.Def? || s.body.Def2?)
    modifies p`nodes, p.structs, p.unions, p.enums
    ensures Ok(View(p)) && Adds(old(View(p)), View(p)) && NodesAdded(p)
    ensures r.Good? == RecordType(s).Good? && (r.Panicked? ==> r.why == RecordType(s).why)
    ensures r.Good? ==> In(View(p).g, r.value.v.typ) && FieldMatches(View(p), r.value, s)
    ensures r.Good? ==> Loose(View(p).g, r.value.v.typ)
  {
    hide Ok, Adds, TypeMatches, Loose;
    var t := ParseType(p, s.body.typ, DimsOf(s), TagTextOf(s));
    if t.Panicked? {
      return Panicked(t.why);
    }
    return Good(C.Field(s.hdr.value, s.body.size, C.Var(t.value, ValidName(s.body.name))));
  }

  method Assign(p: Parser, t: C.Node, d: C.Def)
    requires t in p.nodes
    modifies t
    ensures View(p) == SetDef(old(View(p)), t, d)
  {
    t.def := d;
    assert Snap(p.nodes) == old(Snap(p.nodes))[t := d];
  }

  lemma IsOneOf(s: Symbol, kind: TagKind)
    requires IsMember(s, kind) || IsMethod(s, kind)
    ensures s.body.Def? || s.body.Def2?
    ensures IsMethod(s, kind) ==> kind == StructTag && !IsMember(s, kind)
  {
  }

  /** Appends the field or method of one record of a group to type t. */
  method TakeMember(p: Parser, t: C.Node, kind: TagKind, syms: seq<Symbol>, j: nat,
    ghost u0: State, ghost u: State, ghost ms: seq<nat>, ghost qs: seq<nat>)
    returns (r: Outcome<Done>, ghost u': State)
    requires Separate(p) && t in p.nodes && kind != EnumTag
    requires j < |syms| && (IsMember(syms[j], kind) || IsMethod(syms[j], kind))
    requires Filled(u0, u, View(p), t, kind, syms, ms, qs)
    modifies p`nodes, p.structs, p.unions, p.enums, t
    ensures r == RecordType(syms[j]) && NodesAdded(p)
    ensures r.Good? ==> Filled(u0, u', View(p), t, kind, syms,
      if IsMember(syms[j], kind) then ms + [j] else ms, if IsMember(syms[j], kind) then qs else qs + [j])
  {
    hide Ok, Adds, FieldMatches, Filled, RecordType, WithField, WithMethod, IsMember, IsMethod, Loose;
    IsOneOf(syms[j], kind);
    FilledIsOk(u0, u, View(p), t, kind, syms, ms, qs);
    ghost var v := View(p);
    var f := ParseField(p, syms[j]);
    u' := u;
    if f.Panicked? {
      assert RecordType(syms[j]) == Panicked(f.why);
      return Panicked(f.why), u';
    }
    assert RecordType(syms[j]) == Good(Done) by { assert RecordType(syms[j]).value.Done?; }
    ghost var w := View(p);
    FilledAdds(u0, u, v, w, t, kind, syms, ms, qs);
    u' := SetDef(w, t, u0.g[t]);
    if IsMember(syms[j], kind) {
      FilledField(u0, u', w, t, kind, syms, ms, qs, j, f.value);
      Assign(p, t, WithField(t.def, f.value));
    } else {
      FilledMethod(u0, u', w, t, syms, ms, qs, j, f.value);
      Assign(p, t, WithMethod(t.def, f.value));
    }
    r := Good(Done);
  }

  lemma FilledIsOk(u0: State, u: State, v: State, t: C.Node, kind: TagKind, syms: seq<Symbol>, ms: seq<nat>,
    qs: seq<nat>)
    requires Filled(u0, u, v, t, kind, syms, ms, qs)
    ensures Ok(v) && t in u0.g && t in v.g
  {
  }

  lemma NextInGroup(syms: seq<Symbol>, j: nat, kind: TagKind)
    requires j < |syms|
    ensures GroupEnd(syms, j, kind) ==
      match StepOf(syms[j], kind)
      case End => Good(j + 1)
      case Fail(why) => Panicked(why)
      case _ => GroupEnd(syms, j + 1, kind)
    ensures Members(syms, j, kind) ==
      if IsEos(syms[j]) then [] else (if IsMember(syms[j], kind) then [j] else []) + Members(syms, j + 1, kind)
    ensures Methods(syms, j, kind) ==
      if IsEos(syms[j]) then [] else (if IsMethod(syms[j], kind) then [j] else []) + Methods(syms, j + 1, kind)
    ensures IsMember(syms[j], kind) || IsMethod(syms[j], kind) ==> syms[j].body.Def? || syms[j].body.Def2?
    ensures IsMethod(syms[j], kind) ==> !IsMember(syms[j], kind)
  {
  }

  /** The records from `first` to j have been read: these members and methods, and nothing decided yet. */
  ghost predicate ReadSoFar(syms: seq<Symbol>, first: nat, j: nat, kind: TagKind, ms: seq<nat>, qs: seq<nat>) {
    && Members(syms, first, kind) == ms + Members(syms, j, kind)
    && Methods(syms, first, kind) == qs + Methods(syms, j, kind)
    && GroupEnd(syms, first, kind) == GroupEnd(syms, j, kind)
  }

  lemma NothingRead(syms: seq<Symbol>, first: nat, kind: TagKind)
    ensures ReadSoFar(syms, first, first, kind, [], [])
  {
    assert [] + Members(syms, first, kind) == Members(syms, first, kind);
    assert [] + Methods(syms, first, kind) == Methods(syms, first, kind);
  }

  /** The end marker decides; any other record goes to the members, to the methods, or to neither. */
  lemma EndReads(syms: seq<Symbol>, first: nat, j: nat, kind: TagKind, ms: seq<nat>, qs: seq<nat>)
    requires ReadSoFar(syms, first, j, kind, ms, qs) && j < |syms| && IsEos(syms[j])
    ensures GroupEnd(syms, first, kind) == Good(j + 1) && Members(syms, first, kind) == ms
      && Methods(syms, first, kind) == qs
  {
    hide RecordType;
    NextInGroup(syms, j, kind);
    assert ms + [] == ms && qs + [] == qs;
  }

  lemma MoreReads(syms: seq<Symbol>, first: nat, j: nat, kind: TagKind, ms: seq<nat>, qs: seq<nat>)
    requires ReadSoFar(syms, first, j, kind, ms, qs) && j < |syms| && !IsEos(syms[j]) && !StepOf(syms[j], kind).Fail?
    ensures ReadSoFar(syms, first, j + 1, kind,
      if IsMember(syms[j], kind) then ms + [j] else ms, if IsMethod(syms[j], kind) then qs + [j] else qs)
  {
    hide GroupEnd, Members, Methods, IsMember, IsMethod, IsEos, RecordType;
    NextInGroup(syms, j, kind);
    Joined(ms, IsMember(syms[j], kind), j, Members(syms, j + 1, kind));
    Joined(qs, IsMethod(syms[j], kind), j, Methods(syms, j + 1, kind));
  }

  lemma Joined(a: seq<nat>, more: bool, j: nat, rest: seq<nat>)
    ensures a + ((if more then [j] else []) + rest) == (if more then a + [j] else a) + rest
  {
  }

  /** What one more record makes of it. */
  lemma ReadsOneMore(syms: seq<Symbol>, first: nat, j: nat, kind: TagKind, ms: seq<nat>, qs: seq<nat>)
    requires ReadSoFar(syms, first, j, kind, ms, qs) && j < |syms|
    ensures match StepOf(syms[j], kind)
      case End => GroupEnd(syms, first, kind) == Good(j + 1) && Members(syms, first, kind) == ms
        && Methods(syms, first, kind) == qs
      case Fail(why) => GroupEnd(syms, first, kind) == Panicked(why)
      case Skip => ReadSoFar(syms, first, j + 1, kind, ms, qs)
      case Take => ReadSoFar(syms, first, j + 1, kind,
        if IsMember(syms[j], kind) then ms + [j] else ms, if IsMember(syms[j], kind) then qs else qs + [j])
    ensures StepOf(syms[j], kind).Take? ==> IsMember(syms[j], kind) || IsMethod(syms[j], kind)
  {
    StepKinds(syms[j], kind);
    if IsEos(syms[j]) {
      EndReads(syms, first, j, kind, ms, qs);
    } else if StepOf(syms[j], kind).Fail? {
      NextInGroup(syms, j, kind);
    } else {
      hide StepOf, IsMember, IsMethod, IsEos, ReadSoFar;
      MoreReads(syms, first, j, kind, ms, qs);
    }
  }

  lemma StepKinds(s: Symbol, kind: TagKind)
    ensures IsEos(s) <==> StepOf(s, kind).End?
    ensures StepOf(s, kind).Skip? ==> !IsMember(s, kind) && !IsMethod(s, kind)
    ensures StepOf(s, kind).Take? ==> IsMember(s, kind) || IsMethod(s, kind)
    ensures IsMethod(s, kind) ==> !IsMember(s, kind)
  {
    hide RecordType;
  }

  lemma GroupStops(syms: seq<Symbol>, first: nat, kind: TagKind, ms: seq<nat>, qs: seq<nat>)
    requires ReadSoFar(syms, first, |syms|, kind, ms, qs)
    ensures GroupEnd(syms, first, kind) == Panicked(EndOfRecords)
  {
  }

  /** The loop of `parseStructTag` and `parseUnionTag`: takes the members of the group into type t. */
  method TakeMembers(p: Parser, t: C.Node, kind: TagKind, syms: seq<Symbol>, first: nat)
    returns (r: Outcome<nat>, ghost u: State)
    requires Separate(p) && kind != EnumTag && first <= |syms|
    requires Ok(View(p)) && t in p.nodes && OfKind(t.def, kind) && FieldsOf(t.def) == []
    modifies p`nodes, p.structs, p.unions, p.enums, t
    ensures r == GroupEnd(syms, first, kind) && NodesAdded(p)
    ensures r.Good? ==> Filled(old(View(p)), u, View(p), t, kind, syms, Members(syms, first, kind),
      Methods(syms, first, kind))
  {
    hide Filled, Ok, GroupEnd, Members, Methods, RecordType, IsMember, IsMethod, ReadSoFar;
    ghost var u0 := View(p);
    u := u0;
    ghost var ms: seq<nat>, qs: seq<nat> := [], [];
    NothingFilled(u0, t, kind, syms);
    NothingRead(syms, first, kind);
    for j := first to |syms|
      invariant Filled(u0, u, View(p), t, kind, syms, ms, qs) && NodesAdded(p)
      invariant ReadSoFar(syms, first, j, kind, ms, qs)
    {
      ReadsOneMore(syms, first, j, kind, ms, qs);
      var s := syms[j];
      if IsEos(s) {
        return Good(j + 1), u;
      } else if s.body.Def? || s.body.Def2? {
        if !IsMember(s, kind) && !IsMethod(s, kind) {
          return Panicked(UnsupportedClass), u;
        }
        var taken;
        taken, u := TakeMember(p, t, kind, syms, j, u0, u, ms, qs);
        if taken.Panicked? {
          return Panicked(taken.why), u;
        }
        if IsMember(s, kind) { ms := ms + [j]; } else { qs := qs + [j]; }
      }
    }
    GroupStops(syms, first, kind, ms, qs);
    return Panicked(EndOfRecords), u;
  }

  /** A type of this kind without fields, or without members, that has the size the record says, which does
      not matter for an enum. */
  predicate IsFree(v: State, kind: TagKind, s: Symbol, o: C.Node)
    requires s.body.Def?
  {
    o in v.g &&
    match kind
    case StructTag => v.g[o].Struct? && v.g[o].fields == [] && v.g[o].size == s.body.size
    case UnionTag => v.g[o].Union? && v.g[o].fields == [] && v.g[o].size == s.body.size
    case EnumTag => v.g[o].Enum? && v.g[o].members == []
  }

  /** The type that a group picks: the last free one with the tag that its first record says. */
  ghost predicate IsPick(v: State, kind: TagKind, s: Symbol, t: C.Node)
    requires s.body.Def?
  {
    var ns := GroupOf(TableOf(v, kind), ValidName(s.body.name));
    exists q | 0 <= q < |ns| ::
      ns[q] == t && IsFree(v, kind, s, t) && forall l | q < l < |ns| :: !IsFree(v, kind, s, ns[l])
  }

  /** The group at i picks t. */
  ghost predicate GroupPicks(v: State, kind: TagKind, syms: seq<Symbol>, i: nat, book: Book, book': Book, t: C.Node)
    requires OpensKind(syms, i, kind)
  {
    IsPick(v, kind, syms[i], t) && book' == book[t := (if t in book then book[t] else []) + [i]]
  }

  lemma LastIsPick(v: State, kind: TagKind, syms: seq<Symbol>, i: nat, book: Book, t: C.Node)
    requires OpensKind(syms, i, kind)
    requires LastScaffold(v.g, GroupOf(TableOf(v, kind), ValidName(syms[i].body.name)), kind, syms[i].body.size, t)
    ensures GroupPicks(v, kind, syms, i, book, Picked(book, t, i), t)
  {
  }

  /** `parseStructTag` and `parseUnionTag`: the group that opens at position i fills the last scaffold
      of its tag and size with its members. */
  method ParseFieldGroup(p: Parser, kind: TagKind, syms: seq<Symbol>, i: nat, ghost book: Book)
    returns (r: Outcome<nat>, ghost book': Book)
    requires Separate(p) && kind != EnumTag && OpensKind(syms, i, kind) && OnTrack(View(p), syms, i, book)
    modifies p`nodes, p.structs, p.unions, p.enums, p.nodes
    ensures r == GroupOutcome(syms, i, kind) && NodesAdded(p)
    ensures r.Good? ==> OnTrack(View(p), syms, r.value, book') && Grows(old(View(p)), View(p))
    ensures r.Good? ==> View(p).types == old(p.types) && View(p).typedefs == old(p.typedefs)
    ensures r.Good? ==> exists t :: GroupPicks(old(View(p)), kind, syms, i, book, book', t)
  {
    hide OnTrack, Filled, LastScaffold, Ok, Grows, GroupEnd, OpensGroup, IsScaffold, OpensAnyGroup, GroupPicks;
    book' := book;
    var body := syms[i].body;
    if BaseBits(body.typ) != TagBase(kind) {
      return Panicked(WrongBase), book';
    }
    ghost var u0 := View(p);
    OnTrackIsOk(u0, syms, i, book);
    var found := FindEmpty(p, kind, ValidName(body.name), body.size);
    if found.Panicked? {
      ScaffoldLeft(u0, syms, i, book, kind);
      assert false;
    }
    var t := found.value;
    ScaffoldFound(u0, syms, i, book, kind, t);
    LastIsPick(u0, kind, syms, i, book, t);
    ghost var u;
    r, u := TakeMembers(p, t, kind, syms, i + 1);
    if r.Good? {
      GroupsDoNotNest(syms, i + 1, kind);
      GroupFilled(u0, u, View(p), t, kind, syms, i, r.value, book);
      book' := Picked(book, t, i);
    }
  }

  lemma OnTrackIsOk(v: State, syms: seq<Symbol>, i: nat, book: Book)
    requires OnTrack(v, syms, i, book)
    ensures Ok(v)
  {
  }

  /** The counting invariant leaves a scaffold for the group that opens here. */
  lemma ScaffoldLeft(v: State, syms: seq<Symbol>, i: nat, book: Book, kind: TagKind)
    requires OnTrack(v, syms, i, book) && OpensKind(syms, i, kind)
    ensures exists o | o in GroupOf(TableOf(v, kind), ValidName(syms[i].body.name)) ::
      o in v.g && IsScaffold(v.g[o], kind, syms[i].body.size)
  {
    EnoughFindsOne(v, syms, i, kind, ValidName(syms[i].body.name), syms[i].body.size);
  }

  lemma ScaffoldFound(v: State, syms: seq<Symbol>, i: nat, book: Book, kind: TagKind, t: C.Node)
    requires OnTrack(v, syms, i, book) && OpensKind(syms, i, kind) && kind != EnumTag
    requires LastScaffold(v.g, GroupOf(TableOf(v, kind), ValidName(syms[i].body.name)), kind, syms[i].body.size, t)
    ensures t in v.g && OfKind(v.g[t], kind) && FieldsOf(v.g[t]) == []
    ensures TagOf(v.g[t]) == ValidName(syms[i].body.name) && SizeOf(v.g[t]) == syms[i].body.size
    ensures OpensGroup(syms[i], kind, TagOf(v.g[t]), SizeOf(v.g[t]))
  {
    GroupNodes(v, kind, ValidName(syms[i].body.name));
  }

  // ----- enums -----

  method IssueMember(p: Parser, t: C.Node, syms: seq<Symbol>, j: nat, ghost u0: State, ghost ms: seq<nat>)
    requires t in p.nodes && j < |syms| && syms[j].body.Def? && EnumFilled(u0, View(p), t, syms, ms)
    modifies p`enumMembers, t
    ensures EnumFilled(u0, View(p), t, syms, ms + [j])
  {
    hide Ok, NamesDistinct;
    ghost var v := View(p);
    var name, names := UniqueEnum(ValidName(syms[j].body.name), p.enumMembers);
    var m := C.EnumMember(syms[j].hdr.value, name);
    assert t.def == v.g[t];
    assert MemberMatches(m, syms[j]);
    EnumTakes(u0, v, t, syms, ms, j, m);
    p.enumMembers := names;
    Assign(p, t, t.def.(members := t.def.members + [m]));
    assert View(p) == Append(v, t, m);
  }

  method TakeEnumMembers(p: Parser, t: C.Node, syms: seq<Symbol>, first: nat) returns (r: Outcome<nat>)
    requires first <= |syms| && t in p.nodes && t.def.Enum? && t.def.members == []
    requires Ok(View(p)) && NamesDistinct(View(p))
    modifies p`enumMembers, t
    ensures r == GroupEnd(syms, first, EnumTag)
    ensures r.Good? ==> EnumFilled(old(View(p)), View(p), t, syms, Members(syms, first, EnumTag))
  {
    hide EnumFilled, Ok, NamesDistinct, GroupEnd, Members, IsMember, ReadSoFar;
    ghost var u0 := View(p);
    ghost var ms: seq<nat> := [];
    NoEnumFilled(u0, t, syms);
    NothingRead(syms, first, EnumTag);
    for j := first to |syms|
      invariant EnumFilled(u0, View(p), t, syms, ms)
      invariant ReadSoFar(syms, first, j, EnumTag, ms, [])
    {
      ReadsOneMore(syms, first, j, EnumTag, ms, []);
      EnumMembersAreShort(syms[j]);
      var s := syms[j];
      if IsEos(s) {
        return Good(j + 1);
      } else if s.body.Def? || s.body.Def2? {
        if !IsMember(s, EnumTag) {
          return Panicked(UnsupportedClass);
        }
        IssueMember(p, t, syms, j, u0, ms);
        ms := ms + [j];
      }
    }
    GroupStops(syms, first, EnumTag, ms, []);
    return Panicked(EndOfRecords);
  }

  lemma EnumMembersAreShort(s: Symbol)
    ensures IsMember(s, EnumTag) ==> s.body.Def?
  {
  }

  /** `parseEnumTag` */
  method ParseEnumGroup(p: Parser, syms: seq<Symbol>, i: nat, ghost book: Book)
    returns (r: Outcome<nat>, ghost book': Book)
    requires OpensKind(syms, i, EnumTag) && OnTrack(View(p), syms, i, book)
    modifies p`enumMembers, p.nodes
    ensures r == GroupOutcome(syms, i, EnumTag)
    ensures r.Good? ==> OnTrack(View(p), syms, r.value, book') && Grows(old(View(p)), View(p))
    ensures r.Good? ==> exists t :: GroupPicks(old(View(p)), EnumTag, syms, i, book, book', t)
  {
    hide OnTrack, EnumFilled, LastScaffold, Ok, NamesDistinct, Grows, GroupEnd, OpensGroup, IsScaffold, OpensAnyGroup,
      GroupPicks;
    book' := book;
    var body := syms[i].body;
    if BaseBits(body.typ) != BASE_ENUM {
      return Panicked(WrongBase), book';
    }
    ghost var u0 := View(p);
    OnTrackIsOk(u0, syms, i, book);
    var found := FindEmpty(p, EnumTag, ValidName(body.name), body.size);
    if found.Panicked? {
      ScaffoldLeft(u0, syms, i, book, EnumTag);
      assert false;
    }
    var t := found.value;
    EnumScaffoldFound(u0, syms, i, book, t);
    LastIsPick(u0, EnumTag, syms, i, book, t);
    r := TakeEnumMembers(p, t, syms, i + 1);
    if r.Good? {
      GroupsDoNotNest(syms, i + 1, EnumTag);
      EnumGroupFilled(u0, View(p), t, syms, i, r.value, book);
      book' := Picked(book, t, i);
    }
  }

  lemma EnumScaffoldFound(v: State, syms: seq<Symbol>, i: nat, book: Book, t: C.Node)
    requires OnTrack(v, syms, i, book) && OpensKind(syms, i, EnumTag)
    requires LastScaffold(v.g, GroupOf(TableOf(v, EnumTag), ValidName(syms[i].body.name)), EnumTag, syms[i].body.size,
      t)
    ensures NamesDistinct(v)
    ensures t in v.g && v.g[t].Enum? && v.g[t].members == [] && TagOf(v.g[t]) == ValidName(syms[i].body.name)
    ensures LastScaffold(v.g, GroupOf(TableOf(v, EnumTag), TagOf(v.g[t])), EnumTag, SizeOf(v.g[t]), t)
    ensures OpensGroup(syms[i], EnumTag, TagOf(v.g[t]), SizeOf(v.g[t]))
  {
    GroupNodes(v, EnumTag, ValidName(syms[i].body.name));
  }

  // ----- scaffolding -----

  method AddBool(p: Parser)
    requires View(p) == NOTHING
    modifies p`nodes, p`types
    ensures NodesAdded(p) && View(p).types.Keys == {"bool"} && View(p).types["bool"].Ref?
    ensures View(p) == WithBool(View(p).types["bool"].node)
  {
    var n := new C.Node(BOOL_DECL);
    p.types := p.types["bool" := C.Ref(n)];
    p.nodes := p.nodes + {n};
    assert View(p) == WithBool(n) by { assert Snap(p.nodes) == map[n := BOOL_DECL]; }
  }

  /** `initTaggedTypes` */
  method InitTaggedTypes(p: Parser, syms: seq<Symbol>)
    requires Separate(p) && View(p) == NOTHING
    modifies p`nodes, p`types, p.structs, p.unions, p.enums
    ensures OnTrack(View(p), syms, 0, map[]) && TypedefsMatch(View(p), syms, 0) && FromRecords(View(p), syms)
      && NodesAdded(p)
    ensures AllListed(View(p), syms, |syms|)
  {
    hide AllListed, OnTrack, TypedefsMatch, FromRecords, Ok, Scaffolded, OpensGroup, OpensAnyGroup, OpensKind;
    AddBool(p);
    ghost var v := View(p);
    BoolAlone(v.types["bool"].node, syms);
    var n := AddTaggedType(p, StructTag, EmptyType(StructTag, "__vtbl_ptr_type", 0));
    AddingScaffold(v, n, StructTag, "__vtbl_ptr_type", 0, syms, 0);
    NothingListed(v.types["bool"].node, n, syms);
    for i := 0 to |syms|
      invariant Scaffolded(View(p), syms, i) && AllListed(View(p), syms, i) && NodesAdded(p)
    {
      v := View(p);
      if IsGroup(syms, i) {
        AddScaffold(p, KindAt(syms, i), syms, i);
      } else {
        OpensNone(syms, i);
        NoScaffoldNeeded(v, syms, i);
        ListedNoMore(v, syms, i);
      }
    }
    ReadyToFill(View(p), syms);
  }

  predicate IsGroup(syms: seq<Symbol>, i: nat) {
    OpensKind(syms, i, StructTag) || OpensKind(syms, i, UnionTag) || OpensKind(syms, i, EnumTag)
  }

  function KindAt(syms: seq<Symbol>, i: nat): (kind: TagKind)
    requires IsGroup(syms, i)
    ensures OpensKind(syms, i, kind)
  {
    if OpensKind(syms, i, StructTag) then StructTag else if OpensKind(syms, i, UnionTag) then UnionTag else EnumTag
  }

  lemma OpensNone(syms: seq<Symbol>, i: nat)
    requires i < |syms|
    ensures OpensAnyGroup(syms[i]) <==> IsGroup(syms, i)
  {
  }

  /** `emptyStruct` and its twins, for the group that opens at position i. */
  method AddScaffold(p: Parser, kind: TagKind, syms: seq<Symbol>, i: nat)
    requires Separate(p) && OpensKind(syms, i, kind) && Scaffolded(View(p), syms, i) && AllListed(View(p), syms, i)
    modifies p`nodes, IndexOf(p, kind)
    ensures Scaffolded(View(p), syms, i + 1) && AllListed(View(p), syms, i + 1) && NodesAdded(p)
  {
    hide Scaffolded, AllListed;
    ghost var v := View(p);
    var tag := ValidName(syms[i].body.name);
    var n := AddTaggedType(p, kind, EmptyType(kind, tag, syms[i].body.size));
    GroupCallsFor(syms, i, kind, tag, syms[i].body.size);
    AddingScaffold(v, n, kind, tag, syms[i].body.size, syms, i);
    ListedOneMore(v, n, kind, syms, i);
  }

  // ----- the main loop -----

  /** `parseTypedef` */
  method ParseTypedef(p: Parser, syms: seq<Symbol>, i: nat, ghost book: Book) returns (r: Outcome<Done>)
    requires Separate(p) && i < |syms| && IsTypedefRecord(syms[i])
    requires OnTrack(View(p), syms, i, book) && TypedefsMatch(View(p), syms, i)
    modifies p`nodes, p`types, p`typedefs, p.structs, p.unions, p.enums
    ensures r == RecordType(syms[i]) && NodesAdded(p)
    ensures r.Good? ==> OnTrack(View(p), syms, i + 1, book) && TypedefsMatch(View(p), syms, i + 1)
    ensures r.Good? ==> Grows(old(View(p)), View(p))
  {
    hide OnTrack, TypedefsMatch, Ok, Adds, TypeMatches, OpensAnyGroup, Grows, Loose;
    var s := syms[i];
    ghost var u := View(p);
    OnTrackIsOk(u, syms, i, book);
    var t := ParseType(p, s.body.typ, DimsOf(s), TagTextOf(s));
    if t.Panicked? {
      assert RecordType(s) == Panicked(t.why);
      return Panicked(t.why);
    }
    assert RecordType(s) == Good(Done) by { assert RecordType(s).value.Done?; }
    ghost var v := View(p);
    AddsKeepsOnTrack(u, v, syms, i, book);
    AddsKeepsTypedefs(u, v, syms, i);
    var d := C.Decl(0, 0, C.Typedef, C.Var(t.value, ValidName(s.body.name)));
    var n := AddTypedef(p, d);
    TypedefOpensNothing(s);
    DefiningKeepsOnTrack(v, n, d, syms, i, book);
    DefinedMatches(v, n, d, s);
    DefiningKeepsTypedefs(v, n, d, syms, i);
    AddsThenGrows(u, v, View(p));
    r := Good(Done);
  }

  method AddTypedef(p: Parser, d: C.Def) returns (n: C.Node)
    requires d.Decl?
    modifies p`nodes, p`types, p`typedefs
    ensures fresh(n) && p.nodes == old(p.nodes) + {n} && n !in old(View(p)).g
    ensures View(p) == Define(old(View(p)), n, d)
  {
    n := AllocType(p, d);
    p.typedefs := p.typedefs + [n];
    p.types := p.types[d.v.name := C.Ref(n)];
  }

  lemma TypedefOpensNothing(s: Symbol)
    requires IsTypedefRecord(s)
    ensures !OpensAnyGroup(s)
  {
  }

  lemma AddsThenGrows(u: State, v: State, w: State)
    requires Adds(u, v) && Grows(v, w)
    ensures Grows(u, w)
  {
    AddsGrows(u, v);
    GrowsTrans(u, v, w);
  }

  lemma AddsKeepsTypedefs(u: State, v: State, syms: seq<Symbol>, i: nat)
    requires i <= |syms| && TypedefsMatch(u, syms, i) && Adds(u, v)
    ensures TypedefsMatch(v, syms, i)
  {
    AddsGrows(u, v);
    GrowingKeepsTypedefs(u, v, syms, i, i);
  }

  lemma DefinedMatches(v: State, n: C.Node, d: C.Def, s: Symbol)
    requires n !in v.g && IsTypedefRecord(s) && d.Decl?
    requires d == C.Decl(0, 0, C.Typedef, C.Var(d.v.typ, ValidName(s.body.name)))
    requires TypeMatches(v, d.v.typ, s.body.typ, DimsOf(s), TagTextOf(s)) && Grows(v, Define(v, n, d))
    ensures TypedefMatches(Define(v, n, d), n, s)
  {
    TypeMatchesStays(v, Define(v, n, d), d.v.typ, s.body.typ, DimsOf(s), TagTextOf(s));
  }

  /** One turn of the main loop. */
  method ParseTurn(p: Parser, syms: seq<Symbol>, i: nat, ghost book: Book)
    returns (r: Outcome<nat>, ghost book': Book)
    requires Separate(p) && i < |syms| && OnTrack(View(p), syms, i, book) && TypedefsMatch(View(p), syms, i)
    modifies p`nodes, p`types, p`typedefs, p`enumMembers, p.structs, p.unions, p.enums, p.nodes
    ensures r == TurnOutcome(syms, i) && NodesAdded(p)
    ensures r.Good? ==> OnTrack(View(p), syms, r.value, book') && TypedefsMatch(View(p), syms, r.value)
    ensures r.Good? ==> Grows(old(View(p)), View(p))
  {
    hide OnTrack, TypedefsMatch, Grows, GroupOutcome, RecordType, OpensAnyGroup;
    ghost var u := View(p);
    book' := book;
    if OpensKind(syms, i, StructTag) {
      r, book' := ParseFieldGroup(p, StructTag, syms, i, book);
    } else if OpensKind(syms, i, UnionTag) {
      r, book' := ParseFieldGroup(p, UnionTag, syms, i, book);
    } else if OpensKind(syms, i, EnumTag) {
      r, book' := ParseEnumGroup(p, syms, i, book);
    } else if IsTypedefRecord(syms[i]) {
      var defined := ParseTypedef(p, syms, i, book);
      r := if defined.Panicked? then Panicked(defined.why) else Good(i + 1);
      return;
    } else {
      OpensNone(syms, i);
      SkippingKeepsOnTrack(u, syms, i, book);
      GrowsRefl(u);
      r := Good(i + 1);
    }
    if r.Good? {
      if IsGroup(syms, i) { GroupHasNoTypedefs(syms, i, r.value); }
      GrowingKeepsTypedefs(u, View(p), syms, i, r.value);
    }
  }

  lemma GroupHasNoTypedefs(syms: seq<Symbol>, i: nat, next: nat)
    requires IsGroup(syms, i) && TurnOutcome(syms, i) == Good(next)
    ensures i < next && forall k | i <= k < next :: !IsTypedefRecord(syms[k])
  {
    GroupsDoNotNest(syms, i + 1, KindAt(syms, i));
  }

  /** `ParseTypes` on a new parser.  It panics exactly where the records say so, never for want of a
      scaffold; otherwise every type holds the members of one group, every group with members fills
      one type, later-created types first, enum member names are distinct, and the type definitions
      are those of the file. */
  method ParseTypes(p: Parser, syms: seq<Symbol>) returns (r: Outcome<Done>, ghost start: State, ghost book: Book)
    requires Separate(p) && View(p) == NOTHING
    modifies p`nodes, p`types, p`typedefs, p`enumMembers, p.structs, p.unions, p.enums, p.nodes
    ensures r == TypesOutcome(syms, 0) && r != Panicked(NoScaffold) && NodesAdded(p)
    ensures r.Good? ==> OnTrack(View(p), syms, |syms|, book) && TypedefsMatch(View(p), syms, |syms|)
    ensures r.Good? ==> OnTrack(start, syms, 0, map[]) && FromRecords(start, syms) && Grows(start, View(p))
    ensures r.Good? ==> AllListed(start, syms, |syms|)
  {
    hide AllListed, OnTrack, TypedefsMatch, Grows, TurnOutcome, GroupEnd, FromRecords;
    NeverWithoutScaffold(syms, 0);
    InitTaggedTypes(p, syms);
    start := View(p);
    book := map[];
    GrowsRefl(start);
    var i := 0;
    while i < |syms|
      invariant i <= |syms| && TypesOutcome(syms, 0) == TypesOutcome(syms, i)
      invariant OnTrack(View(p), syms, i, book) && TypedefsMatch(View(p), syms, i) && Grows(start, View(p))
      invariant NodesAdded(p)
      decreases |syms| - i
    {
      ghost var v := View(p);
      var turn;
      turn, book := ParseTurn(p, syms, i, book);
      if turn.Panicked? {
        return Panicked(turn.why), start, book;
      }
      GrowsTrans(start, v, View(p));
      i := turn.value;
    }
    r := Good(Done);
  }
}

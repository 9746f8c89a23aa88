// From type words to type objects: base types, scaffolds on demand, modifiers (csym/parse_types.go).

module ResolveTypes {
  import opened Ints
  import opened Records
  import C = CTypes
  import opened TypeGraph
  import opened TypeTrees
  import opened TagTables
  import opened TypeWord
  import opened Naming
  import opened Csym
  import opened TypesState
  import opened Scaffolds
  import opened TagGroups
  import opened GroupScan
  import opened Initial

  /** The part of the parser state that type parsing is about. */
  ghost function View(p: Parser): State
    reads p`nodes, p`types, p`typedefs, p`enumMembers, p.structs, p.unions, p.enums, p.nodes
  {
    State(Snap(p.nodes),
      Table(p.structs.byTag, p.structs.inOrder), Table(p.unions.byTag, p.unions.inOrder),
      Table(p.enums.byTag, p.enums.inOrder),
      p.types, p.typedefs, p.enumMembers)
  }

  ghost predicate Separate(p: Parser) {
    p.structs != p.unions && p.structs != p.enums && p.unions != p.enums
  }

  function IndexOf(p: Parser, kind: TagKind): TagIndex {
    match kind
    case StructTag => p.structs
    case UnionTag => p.unions
    case EnumTag => p.enums
  }

  /** Only new objects have been added. */
  twostate predicate NodesAdded(p: Parser)
    reads p
  {
    old(p.nodes) <= p.nodes && fresh(p.nodes - old(p.nodes))
  }

  /** `AddStruct` and its twins, on a newly allocated type. */
  method AddTaggedType(p: Parser, kind: TagKind, d: C.Def) returns (n: C.Node)
    requires Separate(p) && OfKind(d, kind)
    modifies p`nodes, IndexOf(p, kind)
    ensures fresh(n) && p.nodes == old(p.nodes) + {n}
    ensures View(p) == AddTagged(old(View(p)), kind, n, d)
  {
    n := new C.Node(d);
    var t := IndexOf(p, kind);
    var tag := TagOf(d);
    t.inOrder := t.inOrder + [n];
    t.byTag := t.byTag[tag := (if tag in t.byTag then t.byTag[tag] else []) + [n]];
    p.nodes := p.nodes + {n};
    assert Snap(p.nodes) == old(Snap(p.nodes))[n := d];
  }

  lemma GroupsInUse(v: State, kind: TagKind)
    requires Ok(v)
    ensures forall tag | tag in TableOf(v, kind).groups :: TableOf(v, kind).groups[tag] != []
  {
    assert TableOk(v, kind);
  }

  lemma NewTypeAdds(v: State, kind: TagKind, n: C.Node, tag: string)
    requires Ok(v) && n !in v.g && tag !in TableOf(v, kind).groups
    ensures var w := AddTagged(v, kind, n, EmptyType(kind, tag, 0));
      Ok(w) && Adds(v, w) && GroupOf(TableOf(w, kind), tag) == [n]
  {
    AddingKeepsOk(v, kind, n, EmptyType(kind, tag, 0));
    AddTaggedAdds(v, kind, n, EmptyType(kind, tag, 0));
  }

  /** A type of size 0 with nothing in it. */
  function NoMembers(kind: TagKind, tag: string): C.Def {
    match kind
    case StructTag => C.Struct(0, tag, [], [])
    case UnionTag => C.Union(0, tag, [])
    case EnumTag => C.Enum(tag, [])
  }

  /** `findStruct`, `findUnion` and `findEnum` as `parseBase` calls them, without matching sizes: the
      last type of the group; where there is no group, a new empty type.  The branch that would
      rename the new type is not reached, because then no type has the tag. */
  method FindTagged(p: Parser, kind: TagKind, tag: string) returns (t: C.Node)
    requires Separate(p) && Ok(View(p))
    modifies p`nodes, IndexOf(p, kind)
    ensures Ok(View(p)) && Adds(old(View(p)), View(p)) && NodesAdded(p)
    ensures NewOnly(old(View(p)).g, View(p).g)
    ensures var s := GroupOf(TableOf(View(p), kind), tag); s != [] && s[|s| - 1] == t
    ensures var u := old(View(p));
      if tag in TableOf(u, kind).groups then View(p) == u
      else t !in u.g && View(p) == AddTagged(u, kind, t, NoMembers(kind, tag))
  {
    hide Ok, Adds, NewOnly;
    ghost var v := View(p);
    var found: C.Node? := null;
    var nameExists := false;
    var groups := IndexOf(p, kind).byTag;
    assert groups == TableOf(v, kind).groups;
    GroupsInUse(v, kind);
    if tag in groups {
      var s := groups[tag];
      nameExists := |s| > 0;
      for i := 0 to |s|
        invariant i > 0 ==> found == s[i - 1]
        invariant i == 0 ==> found == null
      {
        found := s[i];
      }
    }
    if found == null {
      assert !nameExists && tag !in groups;
      t := AddTaggedType(p, kind, EmptyType(kind, tag, 0));
      NewTypeAdds(v, kind, t, tag);
      EmptyUsesNone(v.g, t, EmptyType(kind, tag, 0));
    } else {
      t := found;
      AddsRefl(v);
      NewOnlyRefl(v.g);
    }
  }

  lemma BoolIsTypedef(v: State)
    requires Ok(v)
    ensures "bool" in v.types && IsTypedef(v.g, v.types["bool"], "bool")
  {
  }

  lemma ResolvedIn(v: State, base: nat, tag: string, t: C.Type)
    requires Ok(v) && Resolves(v, base, tag, t)
    ensures In(v.g, t) && !IsDerivedType(v.g, t)
  {
    if TagBits(base) {
      GroupInGraph(v, KindOfBits(base), ValidName(tag));
    }
  }

  /** `parseBase` */
  method ParseBase(p: Parser, base: nat, tag: string) returns (r: Outcome<C.Type>)
    requires Separate(p) && Ok(View(p))
    modifies p`nodes, p.structs, p.unions, p.enums
    ensures Ok(View(p)) && Adds(old(View(p)), View(p)) && NodesAdded(p)
    ensures NewOnly(old(View(p)).g, View(p).g)
    ensures r.Good? ==> !IsDerivedType(View(p).g, r.value)
    ensures !TagBits(base) ==> View(p) == old(View(p))
    ensures if Supported(base) then r.Good? && Resolves(View(p), base, tag, r.value) && In(View(p).g, r.value)
      else r == Panicked(UnsupportedBase)
  {
    hide Ok, Adds, NewOnly;
    AddsRefl(View(p));
    NewOnlyRefl(View(p).g);
    if base == BASE_NULL {
      BoolIsTypedef(View(p));
      return Good(p.types["bool"]);
    }
    if PlainBits(base) {
      return Good(PlainBase(base));
    }
    if TagBits(base) {
      var t := FindTagged(p, KindOfBits(base), ValidName(tag));
      ResolvedIn(View(p), base, tag, C.Ref(t));
      return Good(C.Ref(t));
    }
    return Panicked(UnsupportedBase);
  }

  /** The object one modifier puts around a type. */
  function Wrapped(m: Mod, t: C.Type, len: nat): C.Def {
    match m
    case PointerMod => C.Pointer(t)
    case FunctionMod => C.Func(t, [], false)
    case ArrayMod => C.Array(t, len)
  }

  method AllocType(p: Parser, d: C.Def) returns (n: C.Node)
    modifies p`nodes
    ensures fresh(n) && p.nodes == old(p.nodes) + {n} && NodesAdded(p)
    ensures n !in old(View(p)).g && View(p) == Alloc(old(View(p)), n, d)
  {
    n := new C.Node(d);
    p.nodes := p.nodes + {n};
    assert Snap(p.nodes) == old(Snap(p.nodes))[n := d];
  }

  lemma WrapKeeps(v: State, n: C.Node, d: C.Def, t: C.Type)
    requires Ok(v) && n !in v.g && In(v.g, t) && Loose(v.g, t) && exists m, len :: d == Wrapped(m, t, len)
    ensures Ok(Alloc(v, n, d)) && Adds(v, Alloc(v, n, d)) && Loose(Alloc(v, n, d).g, C.Ref(n))
  {
    var m, len :| d == Wrapped(m, t, len);
    assert Slots(d) == [t] && Params(d) == [];
    hide Trees, Loose, TableOk, Slots;
    AllocKeepsOk(v, n, d);
    AllocAdds(v, n, d);
    hide Closed, Unheld;
    OkClosed(v);
    NewIsLoose(v.g, n, d);
  }

  lemma NewIsLoose(g: Graph, n: C.Node, d: C.Def)
    requires Closed(g) && n !in g && forall i | 0 <= i < |Slots(d)| :: In(g, Slots(d)[i])
    ensures Loose(g[n := d], C.Ref(n))
  {
    NewIsUnheld(g, n, d);
  }

  /** New objects hold no modifier's object from before. */
  ghost predicate NewOnly(g: Graph, h: Graph) {
    UsesOnly(g, h, {})
  }

  /** Of the modifiers' objects from before, new objects hold these only. */
  ghost predicate UsesOnly(g: Graph, h: Graph, ts: set<C.Type>) {
    forall o, i | o in h && o !in g && 0 <= i < |Slots(h[o])| && IsDerivedType(g, Slots(h[o])[i]) ::
      Slots(h[o])[i] in ts
  }

  lemma NewOnlyRefl(g: Graph)
    ensures NewOnly(g, g)
  {
  }

  /** One more object, which holds a new one or none that modifiers made. */
  lemma WrapsNew(g: Graph, h: Graph, n: C.Node, d: C.Def, t: C.Type)
    requires NewOnly(g, h) && Slots(d) == [t] && !IsDerivedType(g, t)
    ensures NewOnly(g, h[n := d])
  {
  }

  lemma NewOnlyTrans(u: State, v: State, w: State)
    requires Adds(u, v) && Adds(v, w) && NewOnly(u.g, v.g) && NewOnly(v.g, w.g)
    ensures NewOnly(u.g, w.g)
  {
    hide TableAdds;
    forall o, i | o in w.g && o !in u.g && 0 <= i < |Slots(w.g[o])| ensures !IsDerivedType(u.g, Slots(w.g[o])[i]) {
      if o in v.g { assert w.g[o] == v.g[o]; }
    }
  }

  lemma EmptyUsesNone(g: Graph, n: C.Node, d: C.Def)
    requires EmptyDef(d)
    ensures NewOnly(g, g[n := d])
  {
  }

  lemma WrappedSlots(m: Mod, t: C.Type, len: nat)
    ensures Slots(Wrapped(m, t, len)) == [t]
  {
  }

  lemma WrapRepresents(g: Graph, n: C.Node, t: C.Type, u: C.Type, mods: seq<Mod>, i: nat, dims: seq<nat>, len: nat)
    requires n !in g && i < |mods| && Arrays(mods[i..]) <= |dims|
    requires Arrays(mods[i + 1..]) <= |dims| && Represents(g, t, Build(u, mods[i + 1..], dims))
    requires mods[i] == ArrayMod ==> Arrays(mods[i + 1..]) < |dims| && len == dims[Arrays(mods[i + 1..])]
    ensures Represents(g[n := Wrapped(mods[i], t, len)], C.Ref(n), Build(u, mods[i..], dims))
  {
    assert mods[i..][0] == mods[i] && mods[i..][1..] == mods[i + 1..];
    RepresentsStays(g, g[n := Wrapped(mods[i], t, len)], t, Build(u, mods[i + 1..], dims));
  }

  lemma ArraysFrom(mods: seq<Mod>, i: nat)
    requires i < |mods|
    ensures Arrays(mods[i..]) == (if mods[i] == ArrayMod then 1 else 0) + Arrays(mods[i + 1..])
  {
    assert mods[i..][0] == mods[i] && mods[i..][1..] == mods[i + 1..];
  }

  lemma {:induction false} ArraysBelow(mods: seq<Mod>, i: nat)
    requires i <= |mods|
    ensures Arrays(mods[i..]) <= Arrays(mods)
    decreases i
  {
    if i > 0 {
      ArraysFrom(mods, i - 1);
      ArraysBelow(mods, i - 1);
    } else {
      assert mods[0..] == mods;
    }
  }

  lemma NoArrays()
    ensures Arrays([]) == 0
  {
  }

  /** `parseMods`: from the last modifier to the first; array lengths are taken from the front. */
  method ParseMods(p: Parser, base: C.Type, mods: seq<Mod>, dims: seq<nat>) returns (r: Outcome<C.Type>)
    requires Ok(View(p)) && In(View(p).g, base) && !IsDerivedType(View(p).g, base)
    modifies p`nodes
    ensures Ok(View(p)) && Adds(old(View(p)), View(p)) && NodesAdded(p)
    ensures NewOnly(old(View(p)).g, View(p).g) && (r.Good? ==> Loose(View(p).g, r.value))
    ensures if Arrays(mods) <= |dims|
      then r.Good? && In(View(p).g, r.value) && Represents(View(p).g, r.value, Build(base, mods, dims))
      else r == Panicked(MissingLength)
    ensures r.Good? && mods != [] ==> r.value.Ref? && fresh(r.value.node)
    ensures r.Good? && mods == [] ==> r.value == base
  {
    hide Ok, Adds, Represents, Build, Arrays, Wrapped, NewOnly, Unheld;
    NewOnlyRefl(View(p).g);
    ghost var v := View(p);
    AddsRefl(v);
    var t := base;
    var j := 0;
    var i := |mods|;
    assert mods[i..] == [];
    assert Arrays([]) == 0 by { NoArrays(); }
    NothingBuilt(v.g, t, dims);
    while i > 0
      invariant 0 <= i <= |mods| && j == Arrays(mods[i..]) <= |dims|
      invariant Ok(View(p)) && Adds(v, View(p)) && NodesAdded(p)
      invariant NewOnly(v.g, View(p).g) && Loose(View(p).g, t) && !IsDerivedType(v.g, t)
      invariant In(View(p).g, t) && Represents(View(p).g, t, Build(base, mods[i..], dims))
      invariant i < |mods| ==> t.Ref? && fresh(t.node)
      invariant i == |mods| ==> t == base
    {
      i := i - 1;
      ArraysFrom(mods, i);
      ArraysBelow(mods, i);
      ghost var u := View(p);
      var len := 0;
      if mods[i] == ArrayMod {
        if j >= |dims| {
          return Panicked(MissingLength);
        }
        len := dims[j];
        j := j + 1;
      }
      var n := AllocType(p, Wrapped(mods[i], t, len));
      WrapKeeps(u, n, Wrapped(mods[i], t, len), t);
      WrappedSlots(mods[i], t, len);
      WrapsNew(v.g, u.g, n, Wrapped(mods[i], t, len), t);
      AddsTrans(v, u, View(p));
      WrapRepresents(u.g, n, t, base, mods, i, dims, len);
      t := C.Ref(n);
    }
    assert mods[0..] == mods;
    r := Good(t);
  }

  lemma NothingBuilt(g: Graph, t: C.Type, dims: seq<nat>)
    ensures Represents(g, t, Build(t, [], dims))
  {
  }

  /** `parseType` */
  method ParseType(p: Parser, word: uint16, dims: seq<nat>, tag: string) returns (r: Outcome<C.Type>)
    requires Separate(p) && Ok(View(p))
    modifies p`nodes, p.structs, p.unions, p.enums
    ensures Ok(View(p)) && Adds(old(View(p)), View(p)) && NodesAdded(p)
    ensures r.Good? == TypeOutcome(word, dims).Good? && (r.Panicked? ==> r.why == TypeOutcome(word, dims).why)
    ensures NewOnly(old(View(p)).g, View(p).g) && (r.Good? ==> Loose(View(p).g, r.value))
    ensures r.Good? ==> In(View(p).g, r.value) && TypeMatches(View(p), r.value, word, dims, tag)
    ensures r.Good? && ModsOf(word) != [] ==> r.value.Ref? && fresh(r.value.node)
    ensures r.Good? && ModsOf(word) == [] ==> Resolves(View(p), BaseBits(word), tag, r.value)
  {
    hide Ok, Adds, Represents, Build, ModsFrom, NewOnly, Loose, IsDerivedType;
    ghost var v := View(p);
    var base := ParseBase(p, BaseBits(word), tag);
    if base.Panicked? {
      return Panicked(base.why);
    }
    ghost var u := View(p);
    label resolved:
    var mods := Mods(word);
    r := ParseMods(p, base.value, mods, dims);
    AddsTrans(v, u, View(p));
    NewOnlyTrans(v, u, View(p));
    if r.Good? {
      BuiltTypeMatches(u, View(p), r.value, base.value, word, dims, tag);
    }
  }

  lemma BuiltTypeMatches(u: State, w: State, t: C.Type, base: C.Type, word: uint16, dims: seq<nat>, tag: string)
    requires Adds(u, w) && Resolves(u, BaseBits(word), tag, base)
    requires Arrays(ModsOf(word)) <= |dims| && Represents(w.g, t, Build(base, ModsOf(word), dims))
    ensures TypeMatches(w, t, word, dims, tag) && Resolves(w, BaseBits(word), tag, base)
  {
    hide ModsFrom;
    AddsGrows(u, w);
    ResolutionIsStable(u, w, BaseBits(word), tag, base);
    StripBuilt(w.g, t, base, ModsOf(word), dims);
  }
}

// The graph formed by type objects, its unfoldings, and deep equality.

/** A snapshot of the type objects, and the places in them that hold a type. */
module TypeGraph {
  import opened Ints
  import opened CTypes

  type Graph = map<Node, Def>

  function Snap(nodes: set<Node>): (g: Graph)
    reads nodes
    ensures g.Keys == nodes
  {
    map o | o in nodes :: o.def
  }

  // ----- type-holding places of one object -----

  function FieldTypes(fs: seq<Field>): (ts: seq<Type>)
    ensures |ts| == |fs|
  {
    seq(|fs|, i requires 0 <= i < |fs| => fs[i].v.typ)
  }

  /** The types an object holds directly, in the order the program visits them. */
  function Slots(d: Def): seq<Type> {
    match d
    case Pointer(e) => [e]
    case Array(e, _) => [e]
    case Func(r, _, _) => [r]
    case Struct(_, _, fs, ms) => FieldTypes(fs) + FieldTypes(ms)
    case Union(_, _, fs) => FieldTypes(fs)
    case Enum(_, _) => []
    case Decl(_, _, _, v) => [v.typ]
  }

  function Params(d: Def): seq<Node> {
    if d.Func? then d.params else []
  }

  datatype FieldLabel = FieldLabel(offset: uint32, size: uint32, name: string)

  /** Everything in an object that is not a reference to another object. */
  datatype Label =
    | PointerL
    | ArrayL(len: int)
    | FuncL(arity: nat, variadic: bool)
    | StructL(size: uint32, tag: string, fields: seq<FieldLabel>, methods: seq<FieldLabel>)
    | UnionL(size: uint32, tag: string, fields: seq<FieldLabel>)
    | EnumL(tag: string, members: seq<EnumMember>)
    | DeclL(addr: uint32, size: uint32, class_: StorageClass, name: string)

  function FieldLabels(fs: seq<Field>): (ls: seq<FieldLabel>)
    ensures |ls| == |fs|
  {
    seq(|fs|, i requires 0 <= i < |fs| => FieldLabel(fs[i].offset, fs[i].size, fs[i].v.name))
  }

  function LabelOf(d: Def): Label {
    match d
    case Pointer(_) => PointerL
    case Array(_, n) => ArrayL(n)
    case Func(_, ps, va) => FuncL(|ps|, va)
    case Struct(size, tag, fs, ms) => StructL(size, tag, FieldLabels(fs), FieldLabels(ms))
    case Union(size, tag, fs) => UnionL(size, tag, FieldLabels(fs))
    case Enum(tag, ms) => EnumL(tag, ms)
    case Decl(addr, size, c, v) => DeclL(addr, size, c, v.name)
  }

  /** Assigning one type-holding place of an object. */
  function SetSlot(d: Def, k: nat, t: Type): (r: Def)
    requires k < |Slots(d)|
    ensures Slots(r) == Slots(d)[k := t]
    ensures LabelOf(r) == LabelOf(d) && Params(r) == Params(d)
  {
    match d
    case Pointer(_) => Pointer(t)
    case Array(_, n) => Array(t, n)
    case Func(_, ps, va) => Func(t, ps, va)
    case Struct(size, tag, fs, ms) =>
      if k < |fs| then
        var fs' := fs[k := fs[k].(v := fs[k].v.(typ := t))];
        assert FieldTypes(fs') == FieldTypes(fs)[k := t];
        assert FieldLabels(fs') == FieldLabels(fs);
        Struct(size, tag, fs', ms)
      else
        var j := k - |fs|;
        var ms' := ms[j := ms[j].(v := ms[j].v.(typ := t))];
        assert FieldTypes(ms') == FieldTypes(ms)[j := t];
        assert FieldLabels(ms') == FieldLabels(ms);
        Struct(size, tag, fs, ms')
    case Union(size, tag, fs) =>
      var fs' := fs[k := fs[k].(v := fs[k].v.(typ := t))];
      assert FieldTypes(fs') == FieldTypes(fs)[k := t];
      assert FieldLabels(fs') == FieldLabels(fs);
      Union(size, tag, fs')
    case Decl(addr, size, c, v) => Decl(addr, size, c, v.(typ := t))
  }

  /** Label, type-holding places and parameters determine an object. */
  lemma DefExtensional(d: Def, e: Def)
    requires LabelOf(d) == LabelOf(e) && Slots(d) == Slots(e) && Params(d) == Params(e)
    ensures d == e
  {
    match d
    case Struct(_, _, fs, ms) =>
      assert Slots(d)[..|fs|] == FieldTypes(fs) && Slots(e)[..|fs|] == FieldTypes(e.fields);
      assert Slots(d)[|fs|..] == FieldTypes(ms) && Slots(e)[|fs|..] == FieldTypes(e.methods);
      FieldsExtensional(fs, e.fields);
      FieldsExtensional(ms, e.methods);
    case Union(_, _, fs) => FieldsExtensional(fs, e.fields);
    case _ =>
  }

  lemma FieldsExtensional(fs: seq<Field>, gs: seq<Field>)
    requires FieldLabels(fs) == FieldLabels(gs) && FieldTypes(fs) == FieldTypes(gs)
    ensures fs == gs
  {
    assert |fs| == |FieldLabels(fs)| == |gs|;
    forall i | 0 <= i < |fs| ensures fs[i] == gs[i] {
      assert FieldLabels(fs)[i] == FieldLabels(gs)[i];
      assert FieldTypes(fs)[i] == FieldTypes(gs)[i];
    }
  }

  // ----- unfoldings -----

  /** All references leaving an object: the types it holds, then its parameter declarations. */
  function Kids(d: Def): (ts: seq<Type>)
    ensures |ts| == |Slots(d)| + |Params(d)|
  {
    Slots(d) + seq(|Params(d)|, i requires 0 <= i < |Params(d)| => Ref(Params(d)[i]))
  }

  predicate In(g: Graph, t: Type) {
    t.Ref? ==> t.node in g
  }

  /** No reference leaves the graph, and parameters are variable declarations. */
  ghost predicate Closed(g: Graph) {
    forall o | o in g ::
      && (forall i | 0 <= i < |Slots(g[o])| :: In(g, Slots(g[o])[i]))
      && (forall i | 0 <= i < |Params(g[o])| :: Params(g[o])[i] in g && g[Params(g[o])[i]].Decl?)
  }

  datatype Tree = Cut | Leaf(base: BaseType) | Branch(top: Label, kids: seq<Tree>)

  /** What a type says down to depth n: tags, sizes, offsets, names, lengths and element types. */
  ghost function Unfold(g: Graph, t: Type, n: nat): Tree
    decreases n
  {
    if n == 0 then Cut
    else if t.Basic? then Leaf(t.base)
    else if t.node !in g then Cut
    else
      var ks := Kids(g[t.node]);
      Branch(LabelOf(g[t.node]), seq(|ks|, i requires 0 <= i < |ks| => Unfold(g, ks[i], n - 1)))
  }

  /** Same unfolding at every depth, possibly in two different snapshots. */
  ghost predicate SameMeaning(g: Graph, a: Type, h: Graph, b: Type) {
    forall n: nat :: Unfold(g, a, n) == Unfold(h, b, n)
  }

  /** `reflect.DeepEqual` on two types: equal unfoldings at every depth. */
  ghost predicate DeepEqual(g: Graph, a: Type, b: Type) {
    SameMeaning(g, a, g, b)
  }

  /** Equal unfoldings are hereditary: same label, and pairwise equal unfoldings below. */
  lemma SameMeaningKids(g: Graph, a: Type, h: Graph, b: Type)
    requires SameMeaning(g, a, h, b)
    requires a.Ref? && a.node in g && In(h, b)
    ensures b.Ref? && LabelOf(g[a.node]) == LabelOf(h[b.node])
    ensures |Kids(g[a.node])| == |Kids(h[b.node])|
    ensures forall i | 0 <= i < |Kids(g[a.node])| :: SameMeaning(g, Kids(g[a.node])[i], h, Kids(h[b.node])[i])
  {
    assert Unfold(g, a, 1) == Unfold(h, b, 1);
    assert |Unfold(g, a, 1).kids| == |Unfold(h, b, 1).kids|;
    var ks, ls := Kids(g[a.node]), Kids(h[b.node]);
    forall i, n: nat | 0 <= i < |ks| ensures Unfold(g, ks[i], n) == Unfold(h, ls[i], n) {
      assert Unfold(g, a, n + 1).kids[i] == Unfold(h, b, n + 1).kids[i];
    }
  }
}

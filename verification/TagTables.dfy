// The tables of tagged types: a list in order of creation, and the same types grouped by tag.

module TagTables {
  import opened CTypes
  import opened TypeGraph
  import opened Lists

  datatype TagKind = StructTag | UnionTag | EnumTag

  predicate OfKind(d: Def, kind: TagKind) {
    match kind
    case StructTag => d.Struct?
    case UnionTag => d.Union?
    case EnumTag => d.Enum?
  }

  function TagOf(d: Def): string {
    if d.Struct? || d.Union? || d.Enum? then d.tag else ""
  }

  ghost function Tagged(g: Graph, tag: string): set<Node> {
    set o | o in g && TagOf(g[o]) == tag
  }

  type Groups = map<string, seq<Node>>

  /** Each type is stored once; the group of a tag lists, in order of creation, exactly the types
      with that tag; no group is empty. */
  ghost predicate Indexed(g: Graph, kind: TagKind, groups: Groups, inOrder: seq<Node>) {
    && NoDup(inOrder)
    && (forall o | o in inOrder :: o in g && OfKind(g[o], kind) && TagOf(g[o]) in groups)
    && (forall tag | tag in groups :: groups[tag] == Keep(inOrder, Tagged(g, tag)) && groups[tag] != [])
  }

  lemma GroupMembers(g: Graph, kind: TagKind, groups: Groups, inOrder: seq<Node>)
    requires Indexed(g, kind, groups, inOrder)
    ensures forall tag | tag in groups ::
      NoDup(groups[tag]) && forall o :: o in groups[tag] <==> o in inOrder && TagOf(g[o]) == tag
  {
    forall tag | tag in groups
      ensures NoDup(groups[tag]) && forall o :: o in groups[tag] <==> o in inOrder && TagOf(g[o]) == tag
    {
      KeepMembers(inOrder, Tagged(g, tag));
      KeepNoDup(inOrder, Tagged(g, tag));
    }
  }
}

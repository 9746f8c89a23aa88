// The parser state (csym/parse.go).

module Csym {
  import opened Ints
  import opened CTypes

  /** A symbol name with its address. */
  datatype NameAt = NameAt(addr: uint32, name: string)

  datatype Line = Line(addr: uint32, path: string, line: uint32)

  /** The types of one kind (structs, unions or enums): by tag, and in order of creation. */
  class TagIndex {
    var byTag: map<string, seq<Node>>
    var inOrder: seq<Node>

    constructor ()
      ensures byTag == map[] && inOrder == []
    {
      byTag, inOrder := map[], [];
    }
  }

  /** An overlay appended to the end of the executable. */
  class Overlay {
    const addr: uint32
    const id: uint32
    const length: uint32
    var vars: seq<Node>
    var funcs: seq<FuncDecl>
    var varNames: map<string, seq<Node>>
    var funcNames: map<string, seq<FuncDecl>>
    var symbols: seq<NameAt>
    var lines: seq<Line>
    /** The name each variable and function was registered under; renaming does not change it. */
    ghost var varKeys: seq<string>
    ghost var funcKeys: seq<string>

    constructor (addr: uint32, id: uint32, length: uint32)
      ensures this.addr == addr && this.id == id && this.length == length
      ensures vars == [] && funcs == [] && varNames == map[] && funcNames == map[]
      ensures symbols == [] && lines == [] && funcKeys == [] && varKeys == []
    {
      this.addr, this.id, this.length := addr, id, length;
      vars, funcs, varNames, funcNames := [], [], map[], map[];
      symbols, lines, funcKeys, varKeys := [], [], [], [];
    }
  }

  class Parser {
    const structs: TagIndex
    const unions: TagIndex
    const enums: TagIndex
    /** Type name to type definition. */
    var types: map<string, Type>
    /** Type definitions in order of occurrence. */
    var typedefs: seq<Node>
    /** Enum member names issued so far. */
    var enumMembers: set<string>
    /** The default binary. */
    const overlay: Overlay
    var overlays: seq<Overlay>
    var overlayIDs: map<uint32, Overlay>
    var curOverlay: Overlay
    /** Every type object allocated so far: the part of the heap that the walks over types are in. */
    var nodes: set<Node>
    /** Every function and block allocated so far. */
    ghost var funcs: set<FuncDecl>
    ghost var blocks: set<Block>
    /** The type objects there were when the parsing of declarations began. */
    ghost var early: set<Node>

    constructor ()
      ensures structs.byTag == map[] && structs.inOrder == []
      ensures unions.byTag == map[] && unions.inOrder == []
      ensures enums.byTag == map[] && enums.inOrder == []
      ensures structs != unions && structs != enums && unions != enums
      ensures fresh(structs) && fresh(unions) && fresh(enums) && fresh(overlay)
      ensures types == map[] && typedefs == [] && enumMembers == {}
      ensures overlays == [] && overlayIDs == map[] && curOverlay == overlay
      ensures overlay.addr == 0 && overlay.id == 0 && overlay.length == 0
      ensures overlay.vars == [] && overlay.funcs == [] && overlay.funcKeys == [] && overlay.varKeys == []
      ensures overlay.varNames == map[] && overlay.funcNames == map[]
      ensures overlay.symbols == [] && overlay.lines == []
      ensures nodes == {} && funcs == {} && blocks == {} && early == {}
    {
      var o := new Overlay(0, 0, 0);
      structs := new TagIndex();
      unions := new TagIndex();
      enums := new TagIndex();
      types, typedefs, enumMembers := map[], [], {};
      overlay, overlays, overlayIDs, curOverlay := o, [], map[], o;
      nodes, funcs, blocks, early := {}, {}, {}, {};
    }

    /** The type objects made since then. */
    ghost function Late(): set<Node>
      reads this`nodes, this`early
    {
      nodes - early
    }

    function AllOverlays(): seq<Overlay>
      reads this`overlays
    {
      [overlay] + overlays
    }
  }
}

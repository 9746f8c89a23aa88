// The C types and declarations the parser builds (csym/c/type.go, csym/c/c.go).

/** Fixed-width integers of the symbol file; every arithmetic step on them is reduced explicitly. */
module Ints {
  const TWO16 := 0x1_0000
  const TWO32 := 0x1_0000_0000

  type uint8 = x: int | 0 <= x < 0x100
  type uint16 = x: int | 0 <= x < TWO16
  type uint32 = x: int | 0 <= x < TWO32
  type int32 = x: int | -0x8000_0000 <= x < 0x8000_0000
}

/** The heap objects behind the `Type` interface.  One `Node` is one allocated type object;
    its `def` says which concrete type it has and is what the program overwrites in place. */
module CTypes {
  import opened Ints

  datatype BaseType = Void | Char | Short | Int | Long | UChar | UShort | UInt | ULong

  datatype StorageClass = NoClass | Auto | Extern | Static | Register | Typedef

  class Node {
    var def: Def

    constructor (d: Def)
      ensures def == d
    {
      def := d;
    }
  }

  /** A value of the `Type` interface: a base type, or a pointer to a type object.
      Equality on references is pointer identity, as for the keys of a remap. */
  datatype Type = Basic(base: BaseType) | Ref(node: Node)

  datatype Var = Var(typ: Type, name: string)

  datatype Field = Field(offset: uint32, size: uint32, v: Var)

  datatype EnumMember = EnumMember(value: uint32, name: string)

  datatype Def =
    | Pointer(elem: Type)
    | Array(elem: Type, len: int)
    | Func(ret: Type, params: seq<Node>, variadic: bool)
    | Struct(size: uint32, tag: string, fields: seq<Field>, methods: seq<Field>)
    | Union(size: uint32, tag: string, fields: seq<Field>)
    | Enum(tag: string, members: seq<EnumMember>)
    | Decl(addr: uint32, size: uint32, class_: StorageClass, v: Var)

  /** A scope block of a function. */
  class Block {
    var lineStart: uint32
    var lineEnd: uint32
    var locals: seq<Node>

    constructor (line: uint32)
      ensures lineStart == line && lineEnd == 0 && locals == []
    {
      lineStart, lineEnd, locals := line, 0, [];
    }
  }

  /** A function declaration. */
  class FuncDecl {
    const addr: uint32
    const size: uint32
    var path: string
    var lineStart: uint32
    var lineEnd: uint32
    var v: Var
    var blocks: seq<Block>

    constructor (addr: uint32, size: uint32, v: Var)
      ensures this.addr == addr && this.size == size && this.v == v
      ensures path == "" && lineStart == 0 && lineEnd == 0 && blocks == []
    {
      this.addr, this.size, this.v := addr, size, v;
      path, lineStart, lineEnd, blocks := "", 0, 0, [];
    }
  }
}

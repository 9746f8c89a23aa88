// The records of a symbol file, and their little-endian layout (symbol.go).

/** Reading and writing little-endian fields.  Writers put a field in front of what follows it. */
module Fields {
  import opened Ints

  type bytes = seq<uint8>

  /** A text field: at most 255 characters of one byte each. */
  type text = s: string | |s| < 256 && forall i | 0 <= i < |s| :: s[i] as int < 256

  type dimensions = s: seq<uint32> | |s| < TWO16

  datatype Take<+T> = Short | Got(value: T, rest: bytes) {
    predicate IsFailure() { Short? }
    function PropagateFailure<U>(): Take<U> requires Short? { Short }
    function Extract(): (T, bytes) requires Got? { (value, rest) }
  }

  function PutU8(x: uint8, tail: bytes): (b: bytes)
    ensures |b| == 1 + |tail|
  {
    [x] + tail
  }

  function GetU8(b: bytes): (r: Take<uint8>)
    ensures r.Got? ==> b == PutU8(r.value, r.rest)
  {
    if |b| < 1 then Short else Got(b[0], b[1..])
  }

  function PutU16(x: uint16, tail: bytes): (b: bytes)
    ensures |b| == 2 + |tail| && GetU16(b) == Got(x, tail)
  {
    [x % 256, x / 256] + tail
  }

  function GetU16(b: bytes): (r: Take<uint16>) {
    if |b| < 2 then Short
    else
      var x: uint16 := b[0] as int + 256 * (b[1] as int);
      Got(x, b[2..])
  }

  lemma GotU16(b: bytes)
    ensures GetU16(b).Got? ==> b == PutU16(GetU16(b).value, GetU16(b).rest)
  {
  }

  function PutU32(x: uint32, tail: bytes): (b: bytes)
    ensures |b| == 4 + |tail|
  {
    PutU16(x % TWO16, PutU16(x / TWO16, tail))
  }

  function GetU32(b: bytes): (r: Take<uint32>) {
    var (lo, b1) :- GetU16(b);
    var (hi, b2) :- GetU16(b1);
    Got(lo + TWO16 * hi, b2)
  }

  lemma U32RoundTrip(x: uint32, tail: bytes, b: bytes)
    ensures GetU32(PutU32(x, tail)) == Got(x, tail)
    ensures GetU32(b).Got? ==> b == PutU32(GetU32(b).value, GetU32(b).rest)
  {
    hide GetU16, PutU16;
    GotU16(b);
    if GetU16(b).Got? { GotU16(GetU16(b).rest); }
  }

  /** A signed word is stored in two's complement. */
  function PutI32(x: int32, tail: bytes): bytes {
    PutU32(if x < 0 then x + TWO32 else x, tail)
  }

  function GetI32(b: bytes): Take<int32> {
    var (x, b1) :- GetU32(b);
    Got(if x >= 0x8000_0000 then x - TWO32 else x, b1)
  }

  function TextBytes(s: text): (b: bytes)
    ensures |b| == |s|
  {
    seq(|s|, i requires 0 <= i < |s| => s[i] as int)
  }

  function TextOf(b: bytes): (s: text)
    requires |b| < 256
    ensures |s| == |b|
  {
    seq(|b|, i requires 0 <= i < |b| => b[i] as char)
  }

  /** A text is preceded by its length. */
  function PutText(s: text, tail: bytes): (b: bytes)
    ensures |b| == 1 + |s| + |tail|
  {
    PutU8(|s|, TextBytes(s) + tail)
  }

  function GetText(b: bytes): Take<text> {
    var (n, b1) :- GetU8(b);
    if |b1| < n then Short else Got(TextOf(b1[..n]), b1[n..])
  }

  lemma TextRoundTrip(s: text, tail: bytes, b: bytes)
    ensures GetText(PutText(s, tail)) == Got(s, tail)
    ensures GetText(b).Got? ==> b == PutText(GetText(b).value, GetText(b).rest)
  {
    var c := PutText(s, tail);
    assert c[1..] == TextBytes(s) + tail;
    assert c[1..][..|s|] == TextBytes(s) && c[1..][|s|..] == tail;
    assert TextOf(TextBytes(s)) == s;
    if GetText(b).Got? {
      var b1 := b[1..];
      assert TextBytes(TextOf(b1[..b[0]])) == b1[..b[0]];
      assert b1 == b1[..b[0]] + b1[b[0]..];
    }
  }

  function PutWords(ws: seq<uint32>, tail: bytes): (b: bytes)
    ensures |b| == 4 * |ws| + |tail|
  {
    if ws == [] then tail else PutU32(ws[0], PutWords(ws[1..], tail))
  }

  function GetWords(b: bytes, n: nat): (r: Take<seq<uint32>>)
    ensures r.Got? ==> |r.value| == n
  {
    if n == 0 then Got([], b)
    else
      var (w, b1) :- GetU32(b);
      var (ws, b2) :- GetWords(b1, n - 1);
      Got([w] + ws, b2)
  }

  lemma {:induction false} WordsWriteRead(ws: seq<uint32>, tail: bytes)
    ensures GetWords(PutWords(ws, tail), |ws|) == Got(ws, tail)
  {
    if ws != [] {
      U32RoundTrip(ws[0], PutWords(ws[1..], tail), []);
      WordsWriteRead(ws[1..], tail);
      assert ws == [ws[0]] + ws[1..];
    }
  }

  lemma {:induction false} WordsReadWrite(b: bytes, n: nat)
    ensures GetWords(b, n).Got? ==> b == PutWords(GetWords(b, n).value, GetWords(b, n).rest)
    decreases n
  {
    if n > 0 && GetWords(b, n).Got? {
      U32RoundTrip(0, [], b);
      var b1 := GetU32(b).rest;
      WordsReadWrite(b1, n - 1);
      assert GetWords(b, n).value[1..] == GetWords(b1, n - 1).value;
    }
  }

  /** The array lengths of a definition, preceded by their number. */
  function PutDims(ds: dimensions, tail: bytes): (b: bytes)
    ensures |b| == 2 + 4 * |ds| + |tail|
  {
    PutU16(|ds|, PutWords(ds, tail))
  }

  function GetDims(b: bytes): Take<dimensions> {
    var (n, b1) :- GetU16(b);
    GetWords(b1, n)
  }

  lemma DimsRoundTrip(ds: dimensions, tail: bytes, b: bytes)
    ensures GetDims(PutDims(ds, tail)) == Got(ds, tail)
    ensures GetDims(b).Got? ==> b == PutDims(GetDims(b).value, GetDims(b).rest)
  {
    WordsWriteRead(ds, tail);
    GotU16(b);
    if GetU16(b).Got? { WordsReadWrite(GetU16(b).rest, GetU16(b).value); }
  }
}

/** The records themselves. */
module Records {
  import opened Ints
  import opened Fields

  datatype Header = Header(value: uint32, kind: uint8)

  datatype Body =
    | Name1(name: text)
    | Name2(name: text)
    | IncSLD
    | IncSLDByte(inc8: uint8)
    | IncSLDWord(inc16: uint16)
    | SetSLD(line: uint32)
    | SetSLD2(line: uint32, path: text)
    | EndSLD
    | FuncStart(fp: uint16, fsize: uint32, retReg: uint16, mask: uint32, maskOffset: int32,
                line: uint32, path: text, name: text)
    | FuncEnd(line: uint32)
    | BlockStart(line: uint32)
    | BlockEnd(line: uint32)
    | Def(class_: uint16, typ: uint16, size: uint32, name: text)
    | Def2(class_: uint16, typ: uint16, size: uint32, dims: dimensions, tag: text, name: text)
    | Overlay(length: uint32, id: uint32)
    | SetOverlay

  datatype Symbol = Symbol(hdr: Header, body: Body)

  // Kinds (kind.go).
  const KIND_NAME1: uint8 := 0x01
  const KIND_NAME2: uint8 := 0x02
  const KIND_NAME5: uint8 := 0x05
  const KIND_NAME6: uint8 := 0x06
  const KIND_INC_SLD: uint8 := 0x80
  const KIND_INC_SLD_BYTE: uint8 := 0x82
  const KIND_INC_SLD_WORD: uint8 := 0x84
  const KIND_SET_SLD: uint8 := 0x86
  const KIND_SET_SLD2: uint8 := 0x88
  const KIND_END_SLD: uint8 := 0x8A
  const KIND_FUNC_START: uint8 := 0x8C
  const KIND_FUNC_END: uint8 := 0x8E
  const KIND_BLOCK_START: uint8 := 0x90
  const KIND_BLOCK_END: uint8 := 0x92
  const KIND_DEF: uint8 := 0x94
  const KIND_DEF2: uint8 := 0x96
  const KIND_OVERLAY: uint8 := 0x98
  const KIND_SET_OVERLAY: uint8 := 0x9A

  /** The kinds the parser accepts, with the body each announces. */
  predicate KindOf(kind: uint8, body: Body) {
    match body
    case Name1(_) => kind == KIND_NAME1
    case Name2(_) => kind == KIND_NAME2 || kind == KIND_NAME5 || kind == KIND_NAME6
    case IncSLD => kind == KIND_INC_SLD
    case IncSLDByte(_) => kind == KIND_INC_SLD_BYTE
    case IncSLDWord(_) => kind == KIND_INC_SLD_WORD
    case SetSLD(_) => kind == KIND_SET_SLD
    case SetSLD2(_, _) => kind == KIND_SET_SLD2
    case EndSLD => kind == KIND_END_SLD
    case FuncStart(_, _, _, _, _, _, _, _) => kind == KIND_FUNC_START
    case FuncEnd(_) => kind == KIND_FUNC_END
    case BlockStart(_) => kind == KIND_BLOCK_START
    case BlockEnd(_) => kind == KIND_BLOCK_END
    case Def(_, _, _, _) => kind == KIND_DEF
    case Def2(_, _, _, _, _, _) => kind == KIND_DEF2
    case Overlay(_, _) => kind == KIND_OVERLAY
    case SetOverlay => kind == KIND_SET_OVERLAY
  }

  predicate WellFormed(s: Symbol) {
    KindOf(s.hdr.kind, s.body)
  }

  // ----- layout -----

  function PutBody(body: Body, tail: bytes): bytes {
    match body
    case Name1(name) => PutText(name, tail)
    case Name2(name) => PutText(name, tail)
    case IncSLD => tail
    case IncSLDByte(inc) => PutU8(inc, tail)
    case IncSLDWord(inc) => PutU16(inc, tail)
    case SetSLD(line) => PutU32(line, tail)
    case SetSLD2(line, path) => PutU32(line, PutText(path, tail))
    case EndSLD => tail
    case FuncStart(fp, fsize, retReg, mask, off, line, path, name) =>
      PutU16(fp, PutU32(fsize, PutU16(retReg,
        PutU32(mask, PutI32(off, PutU32(line, PutText(path, PutText(name, tail))))))))
    case FuncEnd(line) => PutU32(line, tail)
    case BlockStart(line) => PutU32(line, tail)
    case BlockEnd(line) => PutU32(line, tail)
    case Def(c, t, size, name) => PutU16(c, PutU16(t, PutU32(size, PutText(name, tail))))
    case Def2(c, t, size, dims, tag, name) =>
      PutU16(c, PutU16(t, PutU32(size, PutDims(dims, PutText(tag, PutText(name, tail))))))
    case Overlay(length, id) => PutU32(length, PutU32(id, tail))
    case SetOverlay => tail
  }

  function PutSymbol(s: Symbol, tail: bytes): bytes {
    PutU32(s.hdr.value, PutU8(s.hdr.kind, PutBody(s.body, tail)))
  }

  /** The result of reading one record. */
  datatype Record = NoInput | Truncated | BadKind(kind: uint8) | Parsed(symbol: Symbol, rest: bytes)

  function KnownKind(kind: uint8): bool {
    kind in {KIND_NAME1, KIND_NAME2, KIND_NAME5, KIND_NAME6, KIND_INC_SLD, KIND_INC_SLD_BYTE, KIND_INC_SLD_WORD,
             KIND_SET_SLD, KIND_SET_SLD2, KIND_END_SLD, KIND_FUNC_START, KIND_FUNC_END, KIND_BLOCK_START,
             KIND_BLOCK_END, KIND_DEF, KIND_DEF2, KIND_OVERLAY, KIND_SET_OVERLAY}
  }

  function GetFuncStart(b: bytes): Take<Body> {
    var (fp, b1) :- GetU16(b);
    var (fsize, b2) :- GetU32(b1);
    var (retReg, b3) :- GetU16(b2);
    var (mask, b4) :- GetU32(b3);
    var (off, b5) :- GetI32(b4);
    var (line, b6) :- GetU32(b5);
    var (path, b7) :- GetText(b6);
    var (name, b8) :- GetText(b7);
    Got(FuncStart(fp, fsize, retReg, mask, off, line, path, name), b8)
  }

  function GetDef(b: bytes): Take<Body> {
    var (c, b1) :- GetU16(b);
    var (t, b2) :- GetU16(b1);
    var (size, b3) :- GetU32(b2);
    var (name, b4) :- GetText(b3);
    Got(Def(c, t, size, name), b4)
  }

  function GetDef2(b: bytes): Take<Body> {
    var (c, b1) :- GetU16(b);
    var (t, b2) :- GetU16(b1);
    var (size, b3) :- GetU32(b2);
    var (dims, b4) :- GetDims(b3);
    var (tag, b5) :- GetText(b4);
    var (name, b6) :- GetText(b5);
    Got(Def2(c, t, size, dims, tag, name), b6)
  }

  function GetOverlay(b: bytes): Take<Body> {
    var (length, b1) :- GetU32(b);
    var (id, b2) :- GetU32(b1);
    Got(Overlay(length, id), b2)
  }

  function GetSetSLD2(b: bytes): Take<Body> {
    var (line, b1) :- GetU32(b);
    var (path, b2) :- GetText(b1);
    Got(SetSLD2(line, path), b2)
  }

  function GetWord(b: bytes, make: uint32 -> Body): Take<Body> {
    var (x, b1) :- GetU32(b);
    Got(make(x), b1)
  }

  function GetName(b: bytes, make: text -> Body): Take<Body> {
    var (x, b1) :- GetText(b);
    Got(make(x), b1)
  }

  /** `parseSymbolBody`, for a known kind. */
  function GetBody(kind: uint8, b: bytes): Take<Body>
    requires KnownKind(kind)
  {
    if kind == KIND_NAME1 then GetName(b, (x: text) => Name1(x))
    else if kind == KIND_NAME2 || kind == KIND_NAME5 || kind == KIND_NAME6 then GetName(b, (x: text) => Name2(x))
    else if kind == KIND_INC_SLD then Got(IncSLD, b)
    else if kind == KIND_INC_SLD_BYTE then (var (x, b1) :- GetU8(b); Got(IncSLDByte(x), b1))
    else if kind == KIND_INC_SLD_WORD then (var (x, b1) :- GetU16(b); Got(IncSLDWord(x), b1))
    else if kind == KIND_SET_SLD then GetWord(b, (x: uint32) => SetSLD(x))
    else if kind == KIND_SET_SLD2 then GetSetSLD2(b)
    else if kind == KIND_END_SLD then Got(EndSLD, b)
    else if kind == KIND_FUNC_START then GetFuncStart(b)
    else if kind == KIND_FUNC_END then GetWord(b, (x: uint32) => FuncEnd(x))
    else if kind == KIND_BLOCK_START then GetWord(b, (x: uint32) => BlockStart(x))
    else if kind == KIND_BLOCK_END then GetWord(b, (x: uint32) => BlockEnd(x))
    else if kind == KIND_DEF then GetDef(b)
    else if kind == KIND_DEF2 then GetDef2(b)
    else if kind == KIND_OVERLAY then GetOverlay(b)
    else Got(SetOverlay, b)
  }

  /** `parseSymbol`: header, then body. */
  function GetSymbol(b: bytes): Record {
    if b == [] then NoInput
    else
      match GetU32(b)
      case Short => Truncated
      case Got(value, b1) =>
        match GetU8(b1)
        case Short => Truncated
        case Got(kind, b2) =>
          if !KnownKind(kind) then BadKind(kind)
          else
            match GetBody(kind, b2)
            case Short => Truncated
            case Got(body, rest) => Parsed(Symbol(Header(value, kind), body), rest)
  }

  // ----- reading what was written, writing what was read -----

  lemma I32RoundTrip(x: int32, tail: bytes, b: bytes)
    ensures GetI32(PutI32(x, tail)) == Got(x, tail)
    ensures GetI32(b).Got? ==> b == PutI32(GetI32(b).value, GetI32(b).rest)
  {
    U32RoundTrip(if x < 0 then x + TWO32 else x, tail, b);
  }

  lemma FuncStartWriteRead(body: Body, tail: bytes)
    requires body.FuncStart?
    ensures GetFuncStart(PutBody(body, tail)) == Got(body, tail)
  {
    hide GetText, PutText, GetDims, PutDims, PutU32, GetU32, PutI32, GetI32;
    var FuncStart(fp, fsize, retReg, mask, off, line, path, name) := body;
    var t8 := PutText(name, tail);
    var t7 := PutText(path, t8);
    var t6 := PutU32(line, t7);
    var t5 := PutI32(off, t6);
    var t4 := PutU32(mask, t5);
    var t3 := PutU16(retReg, t4);
    var t2 := PutU32(fsize, t3);
    TextRoundTrip(name, tail, []);
    TextRoundTrip(path, t8, []);
    U32RoundTrip(line, t7, []);
    I32RoundTrip(off, t6, []);
    U32RoundTrip(mask, t5, []);
    U32RoundTrip(fsize, t3, []);
  }

  lemma FuncStartReadWrite(b: bytes)
    ensures var r := GetFuncStart(b); r.Got? ==> r.value.FuncStart? && b == PutBody(r.value, r.rest)
  {
    hide GetText, PutText, GetDims, PutDims, PutU32, GetU32, PutI32, GetI32;
    if GetFuncStart(b).Got? {
      GotU16(b);
      var b1 := GetU16(b).rest;
      U32RoundTrip(0, [], b1);
      var b2 := GetU32(b1).rest;
      GotU16(b2);
      var b3 := GetU16(b2).rest;
      U32RoundTrip(0, [], b3);
      var b4 := GetU32(b3).rest;
      I32RoundTrip(0, [], b4);
      var b5 := GetI32(b4).rest;
      U32RoundTrip(0, [], b5);
      var b6 := GetU32(b5).rest;
      TextRoundTrip("", [], b6);
      TextRoundTrip("", [], GetText(b6).rest);
    }
  }

  lemma DefWriteRead(body: Body, tail: bytes)
    requires body.Def?
    ensures GetDef(PutBody(body, tail)) == Got(body, tail)
  {
    hide GetText, PutText, GetDims, PutDims, PutU32, GetU32, PutI32, GetI32;
    TextRoundTrip(body.name, tail, []);
    U32RoundTrip(body.size, PutText(body.name, tail), []);
  }

  lemma Def2WriteRead(body: Body, tail: bytes)
    requires body.Def2?
    ensures GetDef2(PutBody(body, tail)) == Got(body, tail)
  {
    hide GetText, PutText, GetDims, PutDims, PutU32, GetU32, PutI32, GetI32;
    var t5 := PutText(body.name, tail);
    var t4 := PutText(body.tag, t5);
    var t3 := PutDims(body.dims, t4);
    TextRoundTrip(body.name, tail, []);
    TextRoundTrip(body.tag, t5, []);
    DimsRoundTrip(body.dims, t4, []);
    U32RoundTrip(body.size, t3, []);
  }

  lemma DefReadWrite(b: bytes)
    ensures var r := GetDef(b); r.Got? ==> r.value.Def? && b == PutBody(r.value, r.rest)
  {
    hide GetText, PutText, GetDims, PutDims, PutU32, GetU32, PutI32, GetI32;
    if GetDef(b).Got? {
      GotU16(b);
      var b1 := GetU16(b).rest;
      GotU16(b1);
      var b2 := GetU16(b1).rest;
      U32RoundTrip(0, [], b2);
      TextRoundTrip("", [], GetU32(b2).rest);
    }
  }

  lemma Def2ReadWrite(b: bytes)
    ensures var r := GetDef2(b); r.Got? ==> r.value.Def2? && b == PutBody(r.value, r.rest)
  {
    hide GetText, PutText, GetDims, PutDims, PutU32, GetU32, PutI32, GetI32;
    if GetDef2(b).Got? {
      GotU16(b);
      var b1 := GetU16(b).rest;
      GotU16(b1);
      var b2 := GetU16(b1).rest;
      U32RoundTrip(0, [], b2);
      var b3 := GetU32(b2).rest;
      DimsRoundTrip([], [], b3);
      var b4 := GetDims(b3).rest;
      TextRoundTrip("", [], b4);
      TextRoundTrip("", [], GetText(b4).rest);
    }
  }

  lemma BodyWriteRead(kind: uint8, body: Body, tail: bytes)
    requires KindOf(kind, body)
    ensures KnownKind(kind) && GetBody(kind, PutBody(body, tail)) == Got(body, tail)
  {
    match body
    case Name1(name) => TextRoundTrip(name, tail, []);
    case Name2(name) => TextRoundTrip(name, tail, []);
    case SetSLD2(line, path) =>
      TextRoundTrip(path, tail, []);
      U32RoundTrip(line, PutText(path, tail), []);
    case FuncStart(_, _, _, _, _, _, _, _) => FuncStartWriteRead(body, tail);
    case Def(_, _, _, _) => DefWriteRead(body, tail);
    case Def2(_, _, _, _, _, _) => Def2WriteRead(body, tail);
    case Overlay(length, id) =>
      U32RoundTrip(id, tail, []);
      U32RoundTrip(length, PutU32(id, tail), []);
    case SetSLD(line) => U32RoundTrip(line, tail, []);
    case FuncEnd(line) => U32RoundTrip(line, tail, []);
    case BlockStart(line) => U32RoundTrip(line, tail, []);
    case BlockEnd(line) => U32RoundTrip(line, tail, []);
    case _ =>
  }

  lemma BodyReadWrite(kind: uint8, b: bytes)
    requires KnownKind(kind)
    ensures var r := GetBody(kind, b); r.Got? ==> KindOf(kind, r.value) && b == PutBody(r.value, r.rest)
  {
    hide GetText, PutText, PutU32, GetU32, GetFuncStart, GetDef, GetDef2;
    if kind == KIND_FUNC_START { FuncStartReadWrite(b); }
    else if kind == KIND_DEF { DefReadWrite(b); }
    else if kind == KIND_DEF2 { Def2ReadWrite(b); }
    else { SimpleBodyReadWrite(kind, b); }
  }

  lemma SimpleBodyReadWrite(kind: uint8, b: bytes)
    requires KnownKind(kind) && kind != KIND_FUNC_START && kind != KIND_DEF && kind != KIND_DEF2
    ensures var r := GetBody(kind, b); r.Got? ==> KindOf(kind, r.value) && b == PutBody(r.value, r.rest)
  {
    hide GetText, PutText, PutU32, GetU32, GetU16, PutU16, GetFuncStart, GetDef, GetDef2;
    TextRoundTrip("", [], b);
    U32RoundTrip(0, [], b);
    GotU16(b);
    if GetU32(b).Got? {
      U32RoundTrip(0, [], GetU32(b).rest);
      TextRoundTrip("", [], GetU32(b).rest);
    }
  }

  /** A written record reads back as itself, whatever follows it. */
  lemma SymbolWriteRead(s: Symbol, tail: bytes)
    requires WellFormed(s)
    ensures GetSymbol(PutSymbol(s, tail)) == Parsed(s, tail)
  {
    BodyWriteRead(s.hdr.kind, s.body, tail);
    var b := PutBody(s.body, tail);
    U32RoundTrip(s.hdr.value, PutU8(s.hdr.kind, b), []);
  }

  /** A record that was read is well formed, and writing it gives the bytes it was read from. */
  lemma SymbolReadWrite(b: bytes)
    ensures var r := GetSymbol(b); r.Parsed? ==> WellFormed(r.symbol) && b == PutSymbol(r.symbol, r.rest)
  {
    U32RoundTrip(0, [], b);
    if GetSymbol(b).Parsed? {
      var b2 := GetU8(GetU32(b).rest);
      BodyReadWrite(b2.value, b2.rest);
    }
  }

  // ----- sizes -----

  /** `BodySize`: computed from the record, not from the reader.  The array lengths of a `Def2` are
      counted in 16 bits, so their size wraps. */
  function BodySize(body: Body): nat {
    match body
    case Name1(name) => 1 + |name|
    case Name2(name) => 1 + |name|
    case IncSLD => 0
    case IncSLDByte(_) => 1
    case IncSLDWord(_) => 2
    case SetSLD(_) => 4
    case SetSLD2(_, path) => 4 + 1 + |path|
    case EndSLD => 0
    case FuncStart(_, _, _, _, _, _, path, name) => 2 + 4 + 2 + 4 + 4 + 4 + 1 + |path| + 1 + |name|
    case FuncEnd(_) => 4
    case BlockStart(_) => 4
    case BlockEnd(_) => 4
    case Def(_, _, _, name) => 2 + 2 + 4 + 1 + |name|
    case Def2(_, _, _, dims, tag, name) => 2 + 2 + 4 + 2 + (4 * |dims|) % TWO16 + 1 + |tag| + 1 + |name|
    case Overlay(_, _) => 4 + 4
    case SetOverlay => 0
  }

  /** `Symbol.Size`: a header takes five bytes. */
  function Size(s: Symbol): nat {
    5 + BodySize(s.body)
  }

  /** How often the 16-bit count of a record wraps. */
  function Wraps(s: Symbol): nat {
    if s.body.Def2? then |s.body.dims| / 16384 else 0
  }

  /** The computed size falls short of the real one by 65536 bytes for every wrap. */
  lemma SizeOfSymbol(s: Symbol, tail: bytes)
    ensures |PutSymbol(s, tail)| == Size(s) + TWO16 * Wraps(s) + |tail|
  {
    hide PutText, PutU32, PutU16, PutI32, PutDims, PutBody, BodySize;
    SizeOfBody(s.body, tail);
  }

  lemma SizeOfBody(body: Body, tail: bytes)
    ensures |PutBody(body, tail)| == BodySize(body) + (if body.Def2? then TWO16 * (|body.dims| / 16384) else 0) + |tail|
  {
    hide PutText, PutU32, PutU16, PutDims, PutU8;
    if body.Def2? { WrappedSize(|body.dims|); }
  }

  lemma WrappedSize(n: nat)
    ensures 4 * n == TWO16 * (n / 16384) + (4 * n) % TWO16
  {
    assert 4 * n == TWO16 * (n / 16384) + 4 * (n % 16384);
  }
}

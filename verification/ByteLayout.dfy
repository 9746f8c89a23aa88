// Where every field of a symbol file stands in its bytes (symbol.go, kind.go, file.go).

module ByteLayout {
  import opened Ints
  import opened Fields
  import opened Records
  import opened SymFile

  // ----- numbers and texts in the bytes -----

  /** The 16 bits at a position, lowest byte first. */
  function Word16(b: bytes, at: nat): nat
    requires at + 2 <= |b|
  {
    b[at] as int + 256 * (b[at + 1] as int)
  }

  /** The 32 bits at a position, lowest byte first. */
  function Word32(b: bytes, at: nat): nat
    requires at + 4 <= |b|
  {
    b[at] as int + 256 * (b[at + 1] as int) + 65536 * (b[at + 2] as int) + 16777216 * (b[at + 3] as int)
  }

  /** A text stands here: a byte that counts its characters, and one byte for each. */
  predicate IsText(b: bytes, at: nat, s: string) {
    && at + 1 + |s| <= |b| && b[at] == |s|
    && forall i | 0 <= i < |s| :: s[i] as int == b[at + 1 + i]
  }

  /** Array lengths stand here: their number in 16 bits, and 32 bits for each. */
  predicate IsLengths(b: bytes, at: nat, ds: seq<uint32>) {
    && at + 2 + 4 * |ds| <= |b| && Word16(b, at) == |ds|
    && forall i | 0 <= i < |ds| :: ds[i] == Word32(b, at + 2 + 4 * i)
  }

  lemma ReadsU16(b: bytes, at: nat)
    requires at <= |b|
    ensures GetU16(b[at..]).Got? <==> at + 2 <= |b|
    ensures at + 2 <= |b| ==> GetU16(b[at..]) == Got(Word16(b, at), b[at + 2..])
  {
    if at + 2 <= |b| { assert b[at..][2..] == b[at + 2..]; }
  }

  lemma ReadsU32(b: bytes, at: nat)
    requires at <= |b|
    ensures GetU32(b[at..]).Got? <==> at + 4 <= |b|
    ensures at + 4 <= |b| ==> GetU32(b[at..]) == Got(Word32(b, at), b[at + 4..])
  {
    ReadsU16(b, at);
    if at + 2 <= |b| { ReadsU16(b, at + 2); }
    hide GetU16;
  }

  lemma ReadsText(b: bytes, at: nat, s: text)
    requires at <= |b|
    ensures GetText(b[at..]).Got? <==> at < |b| && at + 1 + b[at] <= |b|
    ensures GetText(b[at..]).Got? ==> IsText(b, at, GetText(b[at..]).value)
    ensures IsText(b, at, s) ==> GetText(b[at..]) == Got(s, b[at + 1 + |s|..])
  {
    if at < |b| && at + 1 + b[at] <= |b| {
      var n := b[at];
      var c := b[at..][1..];
      assert c == b[at + 1..] && c[..n] == b[at + 1..at + 1 + n] && c[n..] == b[at + 1 + n..];
      var r := GetText(b[at..]);
      assert r == Got(TextOf(c[..n]), b[at + 1 + n..]);
      if IsText(b, at, s) { assert r.value == s; }
    }
  }

  lemma {:induction false} ReadsWords(b: bytes, at: nat, n: nat)
    requires at <= |b|
    ensures GetWords(b[at..], n).Got? <==> at + 4 * n <= |b|
    ensures at + 4 * n <= |b| ==>
      var r := GetWords(b[at..], n);
      r.rest == b[at + 4 * n..] && forall i | 0 <= i < n :: r.value[i] == Word32(b, at + 4 * i)
    decreases n
  {
    hide GetU32, Word32;
    if n > 0 {
      ReadsU32(b, at);
      if at + 4 <= |b| {
        ReadsWords(b, at + 4, n - 1);
        if at + 4 * n <= |b| {
          var r, rest := GetWords(b[at..], n), GetWords(b[at + 4..], n - 1);
          forall i | 0 <= i < n ensures r.value[i] == Word32(b, at + 4 * i) {
            if i > 0 { assert r.value[i] == rest.value[i - 1] && at + 4 + 4 * (i - 1) == at + 4 * i; }
          }
        }
      }
    }
  }

  lemma ReadsLengths(b: bytes, at: nat, ds: dimensions)
    requires at <= |b|
    ensures GetDims(b[at..]).Got? <==> at + 2 <= |b| && at + 2 + 4 * Word16(b, at) <= |b|
    ensures GetDims(b[at..]).Got? ==> IsLengths(b, at, GetDims(b[at..]).value)
    ensures IsLengths(b, at, ds) ==> GetDims(b[at..]) == Got(ds, b[at + 2 + 4 * |ds|..])
  {
    hide GetWords, GetU16, Word16, Word32;
    ReadsU16(b, at);
    if at + 2 <= |b| {
      ReadsWords(b, at + 2, Word16(b, at));
      if IsLengths(b, at, ds) {
        var r := GetWords(b[at + 2..], |ds|);
        assert r.value == ds;
      }
    }
  }

  // ----- records -----

  /** The kind numbers, and the body each announces. */
  predicate Announces(kind: int, body: Body) {
    match body
    case Name1(_) => kind == 0x01
    case Name2(_) => kind == 0x02 || kind == 0x05 || kind == 0x06
    case IncSLD => kind == 0x80
    case IncSLDByte(_) => kind == 0x82
    case IncSLDWord(_) => kind == 0x84
    case SetSLD(_) => kind == 0x86
    case SetSLD2(_, _) => kind == 0x88
    case EndSLD => kind == 0x8A
    case FuncStart(_, _, _, _, _, _, _, _) => kind == 0x8C
    case FuncEnd(_) => kind == 0x8E
    case BlockStart(_) => kind == 0x90
    case BlockEnd(_) => kind == 0x92
    case Def(_, _, _, _) => kind == 0x94
    case Def2(_, _, _, _, _, _) => kind == 0x96
    case Overlay(_, _) => kind == 0x98
    case SetOverlay => kind == 0x9A
  }

  predicate IsKindNumber(kind: int) {
    kind in {1, 2, 5, 6} || (0x80 <= kind <= 0x9A && kind % 2 == 0)
  }

  /** How many bytes a body takes. */
  function Width(body: Body): nat {
    match body
    case Name1(name) => 1 + |name|
    case Name2(name) => 1 + |name|
    case IncSLDByte(_) => 1
    case IncSLDWord(_) => 2
    case SetSLD2(_, path) => 5 + |path|
    case FuncStart(_, _, _, _, _, _, path, name) => 22 + |path| + |name|
    case Def(_, _, _, name) => 9 + |name|
    case Def2(_, _, _, dims, tag, name) => 12 + 4 * |dims| + |tag| + |name|
    case Overlay(_, _) => 8
    case SetSLD(_) => 4
    case FuncEnd(_) => 4
    case BlockStart(_) => 4
    case BlockEnd(_) => 4
    case _ => 0
  }

  /** Every field of the body stands where it has to, if the body starts at this position. */
  predicate Stands(b: bytes, at: nat, body: Body) {
    at + Width(body) <= |b| &&
    match body
    case Name1(name) => IsText(b, at, name)
    case Name2(name) => IsText(b, at, name)
    case IncSLDByte(inc) => inc == b[at]
    case IncSLDWord(inc) => inc == Word16(b, at)
    case SetSLD(line) => line == Word32(b, at)
    case SetSLD2(line, path) => line == Word32(b, at) && IsText(b, at + 4, path)
    case FuncStart(fp, fsize, retReg, mask, offset, line, path, name) =>
      && fp == Word16(b, at) && fsize == Word32(b, at + 2) && retReg == Word16(b, at + 6) && mask == Word32(b, at + 8)
      && offset == (if b[at + 15] < 128 then Word32(b, at + 12) else Word32(b, at + 12) - 0x1_0000_0000)
      && line == Word32(b, at + 16) && IsText(b, at + 20, path) && IsText(b, at + 21 + |path|, name)
    case FuncEnd(line) => line == Word32(b, at)
    case BlockStart(line) => line == Word32(b, at)
    case BlockEnd(line) => line == Word32(b, at)
    case Def(class_, typ, size, name) =>
      && class_ == Word16(b, at) && typ == Word16(b, at + 2) && size == Word32(b, at + 4) && IsText(b, at + 8, name)
    case Def2(class_, typ, size, dims, tag, name) =>
      && class_ == Word16(b, at) && typ == Word16(b, at + 2) && size == Word32(b, at + 4)
      && IsLengths(b, at + 8, dims) && IsText(b, at + 10 + 4 * |dims|, tag)
      && IsText(b, at + 11 + 4 * |dims| + |tag|, name)
    case Overlay(length, id) => length == Word32(b, at) && id == Word32(b, at + 4)
    case _ => true
  }

  /** Reading yields this body exactly if it stands here, and goes on behind it. */
  ghost predicate YieldsExactly(r: Take<Body>, b: bytes, at: nat, body: Body) {
    && (r.Got? && r.value == body <==> Stands(b, at, body))
    && (r.Got? && r.value == body ==> r.rest == b[at + Width(body)..])
  }

  lemma ReadsI32(b: bytes, at: nat)
    requires at <= |b|
    ensures GetI32(b[at..]).Got? <==> at + 4 <= |b|
    ensures at + 4 <= |b| ==>
      GetI32(b[at..])
      == Got(if b[at + 3] < 128 then Word32(b, at) else Word32(b, at) - 0x1_0000_0000, b[at + 4..])
  {
    hide GetU32;
    ReadsU32(b, at);
  }

  lemma FuncStartStands(b: bytes, at: nat, body: Body)
    requires at <= |b| && body.FuncStart?
    ensures YieldsExactly(GetFuncStart(b[at..]), b, at, body)
  {
    hide GetU16, GetU32, GetI32, GetText, Word32, Word16, IsText;
    ReadsU16(b, at);
    if at + 2 <= |b| { ReadsU32(b, at + 2); }
    if at + 6 <= |b| { ReadsU16(b, at + 6); }
    if at + 8 <= |b| { ReadsU32(b, at + 8); }
    if at + 12 <= |b| { ReadsI32(b, at + 12); }
    if at + 16 <= |b| { ReadsU32(b, at + 16); }
    if at + 20 <= |b| { ReadsText(b, at + 20, body.path); }
    if at + 21 + |body.path| <= |b| { ReadsText(b, at + 21 + |body.path|, body.name); }
  }

  lemma DefStands(b: bytes, at: nat, body: Body)
    requires at <= |b| && body.Def?
    ensures YieldsExactly(GetDef(b[at..]), b, at, body)
  {
    hide GetU16, GetU32, GetText, Word32, Word16, IsText;
    ReadsU16(b, at);
    if at + 2 <= |b| { ReadsU16(b, at + 2); }
    if at + 4 <= |b| { ReadsU32(b, at + 4); }
    if at + 8 <= |b| { ReadsText(b, at + 8, body.name); }
  }

  lemma Def2Stands(b: bytes, at: nat, body: Body)
    requires at <= |b| && body.Def2?
    ensures YieldsExactly(GetDef2(b[at..]), b, at, body)
  {
    hide GetU16, GetU32, GetDims, GetText, Word32, Word16, IsText;
    var n, m := |body.dims|, |body.tag|;
    ReadsU16(b, at);
    if at + 2 <= |b| { ReadsU16(b, at + 2); }
    if at + 4 <= |b| { ReadsU32(b, at + 4); }
    if at + 8 <= |b| { ReadsLengths(b, at + 8, body.dims); }
    if at + 10 + 4 * n <= |b| { ReadsText(b, at + 10 + 4 * n, body.tag); }
    if at + 11 + 4 * n + m <= |b| { ReadsText(b, at + 11 + 4 * n + m, body.name); }
  }

  lemma NameStands(b: bytes, at: nat, kind: uint8, body: Body)
    requires at <= |b| && Announces(kind, body) && (body.Name1? || body.Name2?)
    ensures KnownKind(kind) && YieldsExactly(GetBody(kind, b[at..]), b, at, body)
  {
    hide GetU16, GetU32, GetText;
    ReadsText(b, at, body.name);
  }

  lemma LineStands(b: bytes, at: nat, kind: uint8, body: Body)
    requires at <= |b| && Announces(kind, body)
    requires body.SetSLD? || body.FuncEnd? || body.BlockStart? || body.BlockEnd?
    ensures KnownKind(kind) && YieldsExactly(GetBody(kind, b[at..]), b, at, body)
  {
    hide GetU16, GetU32, GetText, Word32;
    ReadsU32(b, at);
  }

  lemma PairStands(b: bytes, at: nat, kind: uint8, body: Body)
    requires at <= |b| && Announces(kind, body) && (body.SetSLD2? || body.Overlay?)
    ensures KnownKind(kind) && YieldsExactly(GetBody(kind, b[at..]), b, at, body)
  {
    hide GetU16, GetU32, GetText, Word32, IsText;
    ReadsU32(b, at);
    if at + 4 <= |b| {
      ReadsU32(b, at + 4);
      if body.SetSLD2? { ReadsText(b, at + 4, body.path); }
    }
  }

  lemma IncStands(b: bytes, at: nat, kind: uint8, body: Body)
    requires at <= |b| && Announces(kind, body)
    requires body.IncSLD? || body.IncSLDByte? || body.IncSLDWord? || body.EndSLD? || body.SetOverlay?
    ensures KnownKind(kind) && YieldsExactly(GetBody(kind, b[at..]), b, at, body)
  {
    hide GetU16, GetU32, GetText, Word16;
    if at < |b| { assert b[at..][1..] == b[at + 1..]; }
    ReadsU16(b, at);
  }

  lemma BodyStands(b: bytes, at: nat, kind: uint8, body: Body)
    requires at <= |b| && Announces(kind, body)
    ensures KnownKind(kind) && YieldsExactly(GetBody(kind, b[at..]), b, at, body)
  {
    hide YieldsExactly, GetFuncStart, GetDef, GetDef2;
    match body
    case FuncStart(_, _, _, _, _, _, _, _) => FuncStartStands(b, at, body);
    case Def(_, _, _, _) => DefStands(b, at, body);
    case Def2(_, _, _, _, _, _) => Def2Stands(b, at, body);
    case Name1(_) => NameStands(b, at, kind, body);
    case Name2(_) => NameStands(b, at, kind, body);
    case SetSLD2(_, _) => PairStands(b, at, kind, body);
    case Overlay(_, _) => PairStands(b, at, kind, body);
    case SetSLD(_) => LineStands(b, at, kind, body);
    case FuncEnd(_) => LineStands(b, at, kind, body);
    case BlockStart(_) => LineStands(b, at, kind, body);
    case BlockEnd(_) => LineStands(b, at, kind, body);
    case _ => IncStands(b, at, kind, body);
  }

  /** Record s stands at this position: value, kind number, and every field of the body the kind announces. */
  predicate IsRecord(b: bytes, at: nat, s: Symbol) {
    && at + 5 + Width(s.body) <= |b|
    && s.hdr.value == Word32(b, at) && s.hdr.kind == b[at + 4] && Announces(b[at + 4], s.body)
    && Stands(b, at + 5, s.body)
  }

  lemma KindAnnounces(kind: uint8, b: bytes)
    ensures KnownKind(kind) <==> IsKindNumber(kind)
    ensures KnownKind(kind) && GetBody(kind, b).Got? ==> Announces(kind, GetBody(kind, b).value)
  {
    hide GetBody, PutBody;
    if KnownKind(kind) { BodyReadWrite(kind, b); }
  }

  lemma HeaderRead(b: bytes, at: nat)
    requires at <= |b|
    ensures var r := GetSymbol(b[at..]);
      && (r.NoInput? <==> at == |b|)
      && (r.BadKind? <==> at + 5 <= |b| && !KnownKind(b[at + 4]))
      && (r.BadKind? ==> r.kind == b[at + 4])
      && (r.Parsed? <==> at + 5 <= |b| && KnownKind(b[at + 4]) && GetBody(b[at + 4], b[at + 5..]).Got?)
      && (r.Parsed? ==>
           var body := GetBody(b[at + 4], b[at + 5..]);
           r.symbol == Symbol(Header(Word32(b, at), b[at + 4]), body.value) && r.rest == body.rest)
  {
    hide GetU32, GetBody, KnownKind, Word32;
    ReadsU32(b, at);
    if at + 4 < |b| { assert b[at + 4..][1..] == b[at + 5..]; }
  }

  /** Reading at a position yields exactly the record that stands there; it fails for want of input, or
      of a kind number, exactly as the bytes say, and is cut short otherwise. */
  lemma RecordLayout(b: bytes, at: nat, s: Symbol)
    requires at <= |b|
    ensures var r := GetSymbol(b[at..]);
      && (r.Parsed? && r.symbol == s <==> IsRecord(b, at, s))
      && (r.Parsed? && r.symbol == s ==> r.rest == b[at + 5 + Width(s.body)..])
      && (r.NoInput? <==> at == |b|)
      && (r.BadKind? <==> at + 5 <= |b| && !IsKindNumber(b[at + 4]))
      && (r.BadKind? ==> r.kind == b[at + 4])
  {
    hide GetSymbol, GetBody, Stands, Word32, Announces, KnownKind, IsKindNumber, YieldsExactly;
    HeaderRead(b, at);
    if at + 5 <= |b| {
      KindAnnounces(b[at + 4], b[at + 5..]);
      if Announces(b[at + 4], s.body) {
        BodyStands(b, at + 5, b[at + 4], s.body);
        YieldsThere(GetBody(b[at + 4], b[at + 5..]), b, at + 5, s.body);
      }
    }
  }

  lemma YieldsThere(r: Take<Body>, b: bytes, at: nat, body: Body)
    requires YieldsExactly(r, b, at, body)
    ensures r.Got? && r.value == body <==> Stands(b, at, body)
    ensures r.Got? && r.value == body ==> at + Width(body) <= |b| && r.rest == b[at + Width(body)..]
  {
  }

  // ----- the whole file -----

  /** The records of the input from a position on, each behind the one before it. */
  ghost predicate RecordsStand(b: bytes, ps: seq<nat>, syms: seq<Symbol>) {
    && |ps| == |syms| + 1
    && (forall i | 0 <= i < |syms| :: IsRecord(b, ps[i], syms[i]) && ps[i + 1] == ps[i] + 5 + Width(syms[i].body))
    && ps[|syms|] <= |b|
  }

  /** Why reading stops at a position: at the end of the input, at a kind number without a body, or at
      bytes that are no whole record. */
  ghost predicate StopsAt(b: bytes, at: nat, end: End) {
    match end
    case AtEnd => at == |b|
    case UnsupportedKind(kind) => at + 5 <= |b| && b[at + 4] == kind && !IsKindNumber(kind)
    case InsideRecord =>
      at < |b| && (at + 5 <= |b| ==> IsKindNumber(b[at + 4])) && forall s: Symbol :: !IsRecord(b, at, s)
  }

  lemma {:induction false} RecordsLayout(b: bytes, at: nat) returns (ps: seq<nat>)
    requires at <= |b|
    ensures var (syms, end) := GetSymbols(b[at..]);
      RecordsStand(b, ps, syms) && ps[0] == at && StopsAt(b, ps[|syms|], end)
    decreases |b| - at
  {
    hide GetSymbol, IsRecord, IsKindNumber;
    var r := GetSymbol(b[at..]);
    NextRecord(b[at..]);
    if r.Parsed? {
      RecordLayout(b, at, r.symbol);
      var next := at + 5 + Width(r.symbol.body);
      assert next <= |b| by { RecordFits(b, at, r.symbol); }
      var qs := RecordsLayout(b, next);
      ps := [at] + qs;
    } else {
      forall s: Symbol ensures !IsRecord(b, at, s) { RecordLayout(b, at, s); }
      RecordLayout(b, at, Symbol(Header(0, 0), SetOverlay));
      ps := [at];
    }
  }

  lemma RecordFits(b: bytes, at: nat, s: Symbol)
    requires IsRecord(b, at, s)
    ensures at + 5 + Width(s.body) <= |b|
  {
  }

  /** What is read from a file, in terms of its bytes: the letters MND, the version in byte 3, the target
      unit in bytes 4 to 7, and from byte 8 on one record behind the other, as far as there are any. */
  lemma FileLayout(data: bytes) returns (ps: seq<nat>)
    ensures GetFile(data).File? <==> |data| >= 8 && data[..3] == [0x4D, 0x4E, 0x44]
    ensures GetFile(data).File? ==>
      var f := GetFile(data);
      && f.hdr == FileHeader(data[3], Word32(data, 4))
      && RecordsStand(data, ps, f.syms) && ps[0] == 8 && StopsAt(data, ps[|f.syms|], f.end)
  {
    hide GetU32, GetSymbols, RecordsStand, StopsAt, Word32;
    ps := [];
    if |data| >= 4 {
      assert data[3..][1..] == data[4..];
      ReadsU32(data, 4);
      if |data| >= 8 { ps := RecordsLayout(data, 8); }
    }
  }
}

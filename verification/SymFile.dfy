// The symbol file as a whole: reading it, and listing it with offsets and line numbers (file.go).

module SymFile {
  import opened Ints
  import opened Fields
  import opened Records

  datatype FileHeader = FileHeader(version: uint8, targetUnit: uint32)

  const SIGNATURE: bytes := [0x4D, 0x4E, 0x44]  // "MND"

  /** How reading ended: at the end of the input, inside a record, or at a kind that is not supported.
      (What the program reports for an input that ends inside a record is left open.) */
  datatype End = AtEnd | InsideRecord | UnsupportedKind(kind: uint8)

  datatype File = BadHeader | File(hdr: FileHeader, syms: seq<Symbol>, end: End)

  // ----- the byte form of a file -----

  function PutHeader(hdr: FileHeader, tail: bytes): (b: bytes)
    ensures |b| == 8 + |tail|
  {
    SIGNATURE + PutU8(hdr.version, PutU32(hdr.targetUnit, tail))
  }

  function PutSymbols(syms: seq<Symbol>, tail: bytes): bytes {
    if syms == [] then tail else PutSymbol(syms[0], PutSymbols(syms[1..], tail))
  }

  function PutFile(hdr: FileHeader, syms: seq<Symbol>): bytes {
    PutHeader(hdr, PutSymbols(syms, []))
  }

  ghost predicate AllWellFormed(syms: seq<Symbol>) {
    forall i | 0 <= i < |syms| :: WellFormed(syms[i])
  }

  lemma {:induction false} PutSymbolsAppend(a: seq<Symbol>, b: seq<Symbol>, tail: bytes)
    ensures PutSymbols(a + b, tail) == PutSymbols(a, PutSymbols(b, tail))
  {
    if a == [] {
      assert a + b == b;
    } else {
      assert (a + b)[0] == a[0] && (a + b)[1..] == a[1..] + b;
      PutSymbolsAppend(a[1..], b, tail);
    }
  }

  // ----- reading -----

  function GetHeader(b: bytes): (r: Take<FileHeader>)
  {
    if |b| < 3 || b[..3] != SIGNATURE then Short
    else
      var (version, b1) :- GetU8(b[3..]);
      var (unit, b2) :- GetU32(b1);
      Got(FileHeader(version, unit), b2)
  }

  lemma HeaderRoundTrip(hdr: FileHeader, tail: bytes, b: bytes)
    ensures GetHeader(PutHeader(hdr, tail)) == Got(hdr, tail)
    ensures GetHeader(b).Got? ==> b == PutHeader(GetHeader(b).value, GetHeader(b).rest)
  {
    var c := PutHeader(hdr, tail);
    assert c[..3] == SIGNATURE && c[3..] == PutU8(hdr.version, PutU32(hdr.targetUnit, tail));
    U32RoundTrip(hdr.targetUnit, tail, []);
    if GetHeader(b).Got? {
      assert b == b[..3] + b[3..];
      U32RoundTrip(0, [], GetU8(b[3..]).rest);
    }
  }

  /** The records of an input up to its end, or up to what cannot be read. */
  function GetSymbols(b: bytes): (seq<Symbol>, End)
    decreases |b|
  {
    match GetSymbol(b)
    case NoInput => ([], AtEnd)
    case Truncated => ([], InsideRecord)
    case BadKind(kind) => ([], UnsupportedKind(kind))
    case Parsed(s, rest) =>
      SymbolReadWrite(b);
      SizeOfSymbol(s, rest);
      var (syms, end) := GetSymbols(rest);
      ([s] + syms, end)
  }

  function GetFile(b: bytes): File {
    match GetHeader(b)
    case Short => BadHeader
    case Got(hdr, rest) => var (syms, end) := GetSymbols(rest); File(hdr, syms, end)
  }

  /** The input that has not been read yet. */
  class Reader {
    var rest: bytes

    constructor (data: bytes)
      ensures rest == data
    {
      rest := data;
    }

    /** `parseFileHeader` */
    method ParseFileHeader() returns (hdr: Take<FileHeader>)
      modifies this
      ensures hdr == GetHeader(old(rest))
      ensures hdr.Got? ==> rest == hdr.rest
    {
      hdr := GetHeader(rest);
      if hdr.Got? {
        rest := hdr.rest;
      }
    }

    /** `parseSymbol` */
    method ParseSymbol() returns (r: Record)
      modifies this
      ensures r == GetSymbol(old(rest))
      ensures r.Parsed? ==> rest == r.rest && |rest| < |old(rest)|
    {
      r := GetSymbol(rest);
      if r.Parsed? {
        SymbolReadWrite(rest);
        SizeOfSymbol(r.symbol, r.rest);
        rest := r.rest;
      }
    }
  }

  lemma NextRecord(b: bytes)
    ensures GetSymbols(b) == match GetSymbol(b)
      case NoInput => ([], AtEnd)
      case Truncated => ([], InsideRecord)
      case BadKind(kind) => ([], UnsupportedKind(kind))
      case Parsed(s, rest) => ([s] + GetSymbols(rest).0, GetSymbols(rest).1)
  {
  }

  /** `Parse`: the header, then records until the input ends. */
  method Parse(data: bytes) returns (f: File)
    ensures f == GetFile(data)
  {
    hide GetSymbol, GetHeader, GetSymbols;
    var br := new Reader(data);
    var hdr := br.ParseFileHeader();
    if hdr.Short? {
      return BadHeader;
    }
    var syms: seq<Symbol> := [];
    ghost var all := GetSymbols(br.rest);
    assert [] + all.0 == all.0;
    while true
      invariant syms + GetSymbols(br.rest).0 == all.0 && GetSymbols(br.rest).1 == all.1
      decreases |br.rest|
    {
      NextRecord(br.rest);
      var sym := br.ParseSymbol();
      match sym {
        case NoInput => return File(hdr.value, syms, AtEnd);
        case Truncated => return File(hdr.value, syms, InsideRecord);
        case BadKind(kind) => return File(hdr.value, syms, UnsupportedKind(kind));
        case Parsed(s, rest) =>
          assert syms + ([s] + GetSymbols(rest).0) == syms + [s] + GetSymbols(rest).0;
          syms := syms + [s];
      }
    }
  }

  /** A file written from well-formed records is read back completely. */
  lemma {:induction false} SymbolsWriteRead(syms: seq<Symbol>)
    requires AllWellFormed(syms)
    ensures GetSymbols(PutSymbols(syms, [])) == (syms, AtEnd)
  {
    hide GetSymbol, PutSymbol, WellFormed;
    NoInputAtEnd([]);
    if syms != [] {
      assert forall i | 0 <= i < |syms[1..]| :: syms[1..][i] == syms[i + 1];
      SymbolsWriteRead(syms[1..]);
      SymbolWriteRead(syms[0], PutSymbols(syms[1..], []));
      assert syms == [syms[0]] + syms[1..];
    }
  }

  lemma NoInputAtEnd(b: bytes)
    ensures GetSymbol(b).NoInput? <==> b == []
  {
  }

  /** Records read up to the end of the input are well formed, and writing them gives the input. */
  lemma {:induction false} SymbolsReadWrite(b: bytes)
    ensures AllWellFormed(GetSymbols(b).0)
    ensures GetSymbols(b).1 == AtEnd ==> PutSymbols(GetSymbols(b).0, []) == b
    decreases |b|
  {
    hide GetSymbol, PutSymbol, WellFormed, BodySize, Wraps;
    var r := GetSymbol(b);
    if r.NoInput? {
      NoInputAtEnd(b);
    }
    if r.Parsed? {
      SymbolReadWrite(b);
      SizeOfSymbol(r.symbol, r.rest);
      SymbolsReadWrite(r.rest);
      assert GetSymbols(b).0[1..] == GetSymbols(r.rest).0;
    }
  }

  /** A complete file: reading ends at the end of the input exactly when the input is the byte form of
      a header and well-formed records, and what is read are that header and those records. */
  lemma ReadingIsInverse(data: bytes, hdr: FileHeader, syms: seq<Symbol>)
    ensures GetFile(data) == File(hdr, syms, AtEnd) <==> data == PutFile(hdr, syms) && AllWellFormed(syms)
  {
    if GetFile(data) == File(hdr, syms, AtEnd) {
      HeaderRoundTrip(hdr, [], data);
      SymbolsReadWrite(GetHeader(data).rest);
    }
    if data == PutFile(hdr, syms) && AllWellFormed(syms) {
      HeaderRoundTrip(hdr, PutSymbols(syms, []), data);
      SymbolsWriteRead(syms);
    }
  }

  // ----- the listing: running offset and running line -----

  /** The running line after one record; `None` where the program panics. */
  datatype Running = Stuck | Line(n: int)

  function NextLine(line: Running, body: Body): Running {
    if line.Stuck? then Stuck
    else
      match body
      case IncSLD => if line.n == 0 then Stuck else Line(line.n + 1)
      case IncSLDByte(inc) => if line.n == 0 then Stuck else Line(line.n + inc)
      case IncSLDWord(inc) => if line.n == 0 then Stuck else Line(line.n + inc)
      case SetSLD(n) => Line(n)
      case SetSLD2(n, _) => Line(n)
      case _ => line
  }

  /** The running line after the first n records. */
  function LineAfter(syms: seq<Symbol>, n: nat): Running
    requires n <= |syms|
  {
    if n == 0 then Line(0) else NextLine(LineAfter(syms, n - 1), syms[n - 1].body)
  }

  /** The offset printed in front of record n: the header and the computed sizes before it. */
  function OffsetOf(syms: seq<Symbol>, n: nat): nat
    requires n <= |syms|
  {
    if n == 0 then 8 else OffsetOf(syms, n - 1) + Size(syms[n - 1])
  }

  /** One line of the listing: offset, record, and the running line after it. */
  datatype ListedRecord = ListedRecord(offset: nat, symbol: Symbol, line: int)

  datatype Listing = Panic | Listing(entries: seq<ListedRecord>)

  /** Line i of the listing shows the offset, the record and the running line after it. */
  predicate Lists(syms: seq<Symbol>, i: nat, e: ListedRecord)
    requires i < |syms|
  {
    e.offset == OffsetOf(syms, i) && e.symbol == syms[i] && LineAfter(syms, i + 1) == Line(e.line)
  }

  /** `File.String`: the listing, with the text of each line left out. */
  method ListFile(syms: seq<Symbol>) returns (r: Listing)
    ensures r.Panic? <==> LineAfter(syms, |syms|).Stuck?
    ensures r.Listing? ==> |r.entries| == |syms| && forall i | 0 <= i < |syms| :: Lists(syms, i, r.entries[i])
  {
    hide Lists;
    var offset := 8;
    var line := 0;
    var entries: seq<ListedRecord> := [];
    for i := 0 to |syms|
      invariant offset == OffsetOf(syms, i) && LineAfter(syms, i) == Line(line)
      invariant |entries| == i && forall j | 0 <= j < i :: Lists(syms, j, entries[j])
    {
      ghost var next := LineAfter(syms, i + 1);
      assert next == NextLine(Line(line), syms[i].body);
      if next.Stuck? { StaysStuck(syms, i + 1, |syms|); }
      match syms[i].body {
        case IncSLD =>
          if line == 0 { return Panic; }
          line := line + 1;
        case IncSLDByte(inc) =>
          if line == 0 { return Panic; }
          line := line + inc;
        case IncSLDWord(inc) =>
          if line == 0 { return Panic; }
          line := line + inc;
        case SetSLD(n) => line := n;
        case SetSLD2(n, _) => line := n;
        case _ =>
      }
      RecordLists(syms, i, line);
      entries := entries + [ListedRecord(offset, syms[i], line)];
      offset := offset + Size(syms[i]);
    }
    r := Listing(entries);
  }

  lemma RecordLists(syms: seq<Symbol>, i: nat, line: int)
    requires i < |syms| && LineAfter(syms, i + 1) == Line(line)
    ensures Lists(syms, i, ListedRecord(OffsetOf(syms, i), syms[i], line))
  {
  }

  lemma {:induction false} StaysStuck(syms: seq<Symbol>, m: nat, n: nat)
    requires m <= n <= |syms| && LineAfter(syms, m).Stuck?
    ensures LineAfter(syms, n).Stuck?
    decreases n
  {
    if m < n { StaysStuck(syms, m, n - 1); }
  }

  // ----- printed offsets against byte positions -----

  /** Where record n starts in the file. */
  function PositionOf(hdr: FileHeader, syms: seq<Symbol>, n: nat): nat
    requires n <= |syms|
  {
    |PutFile(hdr, syms[..n])|
  }

  function WrapsBefore(syms: seq<Symbol>, n: nat): nat
    requires n <= |syms|
  {
    if n == 0 then 0 else WrapsBefore(syms, n - 1) + Wraps(syms[n - 1])
  }

  lemma {:induction false} SizeOfSymbols(syms: seq<Symbol>, n: nat, tail: bytes)
    requires n <= |syms|
    ensures |PutSymbols(syms[..n], tail)| + 8 == OffsetOf(syms, n) + TWO16 * WrapsBefore(syms, n) + |tail|
  {
    hide OffsetOf, WrapsBefore, PutSymbols, PutSymbol, Size, Wraps;
    if n == 0 {
      NoSymbols(syms, tail);
    } else {
      var s := syms[n - 1];
      SizeOfSymbols(syms, n - 1, PutSymbol(s, tail));
      OneFurther(syms, n);
      assert syms[..n] == syms[..n - 1] + [s];
      PutSymbolsAppend(syms[..n - 1], [s], tail);
      PutOne(s, tail);
      SizeOfSymbol(s, tail);
      MoreWraps(WrapsBefore(syms, n - 1), Wraps(s));
    }
  }

  lemma NoSymbols(syms: seq<Symbol>, tail: bytes)
    ensures PutSymbols(syms[..0], tail) == tail && OffsetOf(syms, 0) == 8 && WrapsBefore(syms, 0) == 0
  {
  }

  lemma OneFurther(syms: seq<Symbol>, n: nat)
    requires 0 < n <= |syms|
    ensures OffsetOf(syms, n) == OffsetOf(syms, n - 1) + Size(syms[n - 1])
    ensures WrapsBefore(syms, n) == WrapsBefore(syms, n - 1) + Wraps(syms[n - 1])
  {
    hide Size, Wraps;
  }

  lemma PutOne(s: Symbol, tail: bytes)
    ensures PutSymbols([s], tail) == PutSymbol(s, tail)
  {
    hide PutSymbol;
    assert [s][1..] == [];
  }

  lemma MoreWraps(k: nat, l: nat)
    ensures TWO16 * (k + l) == TWO16 * k + TWO16 * l
  {
  }

  lemma {:induction false} NoWrapsBefore(syms: seq<Symbol>, n: nat)
    requires n <= |syms|
    ensures WrapsBefore(syms, n) == 0 <==> forall i | 0 <= i < n :: Wraps(syms[i]) == 0
  {
    if n > 0 { NoWrapsBefore(syms, n - 1); }
  }

  /** The printed offset and the byte position agree modulo 65536 always, and exactly if and only if
      every earlier definition has fewer than 16384 array lengths. */
  lemma PrintedOffsets(hdr: FileHeader, syms: seq<Symbol>, n: nat)
    requires n <= |syms|
    ensures PositionOf(hdr, syms, n) % TWO16 == OffsetOf(syms, n) % TWO16
    ensures PositionOf(hdr, syms, n) == OffsetOf(syms, n)
      <==> forall i | 0 <= i < n :: syms[i].body.Def2? ==> |syms[i].body.dims| < 16384
  {
    hide PutSymbol, PutSymbols, OffsetOf, WrapsBefore, Size, BodySize;
    SizeOfSymbols(syms, n, []);
    NoWrapsBefore(syms, n);
    assert forall i | 0 <= i < n :: Wraps(syms[i]) == 0 <==> (syms[i].body.Def2? ==> |syms[i].body.dims| < 16384);
    var p, q, k := PositionOf(hdr, syms, n), OffsetOf(syms, n), WrapsBefore(syms, n);
    assert p == q + TWO16 * k;
    SameModulo(q, k);
  }

  lemma SameModulo(q: nat, k: nat)
    ensures (q + TWO16 * k) % TWO16 == q % TWO16
  {
  }
}

// Groups of line-number records, and the running line of the listing (csym/parse_decls.go, file.go).

module LineNumbers {
  import opened Ints
  import opened Records
  import opened GroupScan
  import opened Csym
  import SymFile
  import opened ResolveTypes
  import opened DeclLists
  import opened GlobalDecls

  predicate IsLine(s: Symbol) {
    s.body.IncSLD? || s.body.IncSLDByte? || s.body.IncSLDWord? || s.body.SetSLD? || s.body.SetSLD2?
  }

  /** The first record from j on that is no line number. */
  function LineStop(syms: seq<Symbol>, j: nat): (e: nat)
    requires j <= |syms|
    ensures j <= e <= |syms| && (forall k | j <= k < e :: IsLine(syms[k])) && (e < |syms| ==> !IsLine(syms[e]))
    decreases |syms| - j
  {
    if j == |syms| || !IsLine(syms[j]) then j else LineStop(syms, j + 1)
  }

  /** Where parsing goes on after a group: behind its end marker, or at any other record. */
  function LinesOutcome(syms: seq<Symbol>, i: nat): Outcome<nat>
    requires i < |syms|
  {
    var e := LineStop(syms, i + 1);
    if e == |syms| then Panicked(EndOfRecords) else if syms[e].body.EndSLD? then Good(e + 1) else Good(e)
  }

  /** The running line of the group that starts at i, in 32 bits, after the records before j. */
  function GroupLine(syms: seq<Symbol>, i: nat, j: nat): uint32
    requires i < j <= |syms| && syms[i].body.SetSLD2?
    decreases j
  {
    if j == i + 1 then syms[i].body.line else Stepped(GroupLine(syms, i, j - 1), syms[j - 1].body)
  }

  function Stepped(line: uint32, body: Body): uint32 {
    match body
    case IncSLD => (line + 1) % TWO32
    case IncSLDByte(inc) => (line + inc) % TWO32
    case IncSLDWord(inc) => (line + inc) % TWO32
    case SetSLD(n) => n
    case SetSLD2(n, _) => n
    case _ => line
  }

  /** The source file the group is in: the one named last. */
  function GroupPath(syms: seq<Symbol>, i: nat, j: nat): string
    requires i < j <= |syms| && syms[i].body.SetSLD2?
    decreases j
  {
    if syms[j - 1].body.SetSLD2? then syms[j - 1].body.path else if j == i + 1 then "" else GroupPath(syms, i, j - 1)
  }

  /** One line number for each record of the group. */
  function GroupLines(syms: seq<Symbol>, i: nat, j: nat): (ls: seq<Csym.Line>)
    requires i < j <= |syms| && syms[i].body.SetSLD2?
    ensures |ls| == j - i
    decreases j
  {
    (if j == i + 1 then [] else GroupLines(syms, i, j - 1))
    + [Csym.Line(syms[j - 1].hdr.value, GroupPath(syms, i, j), GroupLine(syms, i, j))]
  }

  lemma {:induction false} LineOfRecord(syms: seq<Symbol>, i: nat, j: nat, k: nat)
    requires i <= k < j <= |syms| && syms[i].body.SetSLD2?
    ensures GroupLines(syms, i, j)[k - i]
      == Csym.Line(syms[k].hdr.value, GroupPath(syms, i, k + 1), GroupLine(syms, i, k + 1))
    decreases j
  {
    GroupLinesStep(syms, i, j);
    hide GroupLines, GroupLine, GroupPath;
    if k < j - 1 { LineOfRecord(syms, i, j - 1, k); }
  }

  lemma GroupLinesStep(syms: seq<Symbol>, i: nat, j: nat)
    requires i < j <= |syms| && syms[i].body.SetSLD2?
    ensures GroupLines(syms, i, j) == (if j == i + 1 then [] else GroupLines(syms, i, j - 1))
      + [Csym.Line(syms[j - 1].hdr.value, GroupPath(syms, i, j), GroupLine(syms, i, j))]
  {
    hide GroupLine, GroupPath;
  }

  /** The two line counters agree: where the listing does not panic, the running line of the group is
      the running line of the listing after the same record, modulo 2^32. */
  lemma {:induction false} CountersAgree(syms: seq<Symbol>, i: nat, j: nat)
    requires i < j <= |syms| && syms[i].body.SetSLD2? && forall k | i < k < j :: IsLine(syms[k])
    ensures var after := SymFile.LineAfter(syms, j); after.Line? ==> GroupLine(syms, i, j) == after.n % TWO32
    decreases j
  {
    ListingNext(syms, j - 1);
    if j == i + 1 {
      FirstOfGroup(syms, i);
      hide SymFile.LineAfter, GroupLine;
      FirstAgrees(SymFile.LineAfter(syms, i), syms[i].body);
    } else {
      CountersAgree(syms, i, j - 1);
      NextOfGroup(syms, i, j - 1);
      hide SymFile.LineAfter, GroupLine;
      var before := SymFile.LineAfter(syms, j - 1);
      if before.Line? { SameStep(before.n, GroupLine(syms, i, j - 1), syms[j - 1]); }
    }
  }

  lemma ListingNext(syms: seq<Symbol>, j: nat)
    requires j < |syms|
    ensures SymFile.LineAfter(syms, j + 1) == SymFile.NextLine(SymFile.LineAfter(syms, j), syms[j].body)
    ensures SymFile.LineAfter(syms, j).Stuck? ==> SymFile.LineAfter(syms, j + 1).Stuck?
  {
  }

  lemma FirstAgrees(before: SymFile.Running, body: Body)
    requires body.SetSLD2?
    ensures var after := SymFile.NextLine(before, body); after.Line? ==> body.line == after.n % TWO32
  {
  }

  lemma SameStep(n: int, line: uint32, s: Symbol)
    requires line == n % TWO32 && IsLine(s)
    ensures var after := SymFile.NextLine(SymFile.Line(n), s.body);
      after.Line? ==> after.n % TWO32 == Stepped(line, s.body)
  {
    WrapsAlike(n, 1);
    if s.body.IncSLDByte? { WrapsAlike(n, s.body.inc8); }
    if s.body.IncSLDWord? { WrapsAlike(n, s.body.inc16); }
  }

  lemma WrapsAlike(n: int, inc: nat)
    ensures (n % TWO32 + inc) % TWO32 == (n + inc) % TWO32
  {
  }

  /** `parseLineNumbers` */
  method ParseLineNumbers(p: Parser, syms: seq<Symbol>, i: nat, ghost d: Decls)
    returns (r: Outcome<nat>, ghost d': Decls)
    requires OnCourse(p, d) && i < |syms| && syms[i].body.SetSLD2?
    modifies p.curOverlay`lines
    ensures r == LinesOutcome(syms, i)
    ensures OnCourse(p, d') && View(p) == old(View(p)) && d.cur < |d.lists|
    ensures r.Good? ==> d' == WithLines(d, GroupLines(syms, i, LineStop(syms, i + 1)))
  {
    hide OnCourse, View, WithLines, GroupLine, GroupPath;
    var body := syms[i].body;
    var path, line := body.path, body.line;
    FirstOfGroup(syms, i);
    d' := NoteLine(p, Csym.Line(syms[i].hdr.value, path, line), d);
    for j := i + 1 to |syms|
      invariant OnCourse(p, d') && View(p) == old(View(p))
      invariant d' == WithLines(d, GroupLines(syms, i, j))
      invariant path == GroupPath(syms, i, j) && line == GroupLine(syms, i, j)
      invariant LineStop(syms, i + 1) == LineStop(syms, j)
    {
      NextOfGroup(syms, i, j);
      match syms[j].body {
        case IncSLD => line := (line + 1) % TWO32;
        case IncSLDByte(inc) => line := (line + inc) % TWO32;
        case IncSLDWord(inc) => line := (line + inc) % TWO32;
        case SetSLD(n) => line := n;
        case SetSLD2(n, path') => line, path := n, path';
        case EndSLD => return Good(j + 1), d';
        case _ => return Good(j), d';
      }
      ghost var l := Csym.Line(syms[j].hdr.value, path, line);
      LinesThenLine(d, GroupLines(syms, i, j), l);
      d' := NoteLine(p, Csym.Line(syms[j].hdr.value, path, line), d');
    }
    r := Panicked(EndOfRecords);
  }

  lemma FirstOfGroup(syms: seq<Symbol>, i: nat)
    requires i < |syms| && syms[i].body.SetSLD2?
    ensures GroupLine(syms, i, i + 1) == syms[i].body.line && GroupPath(syms, i, i + 1) == syms[i].body.path
    ensures GroupLines(syms, i, i + 1) == [Csym.Line(syms[i].hdr.value, syms[i].body.path, syms[i].body.line)]
  {
  }

  lemma NextOfGroup(syms: seq<Symbol>, i: nat, j: nat)
    requires i < j < |syms| && syms[i].body.SetSLD2?
    ensures GroupLine(syms, i, j + 1) == Stepped(GroupLine(syms, i, j), syms[j].body)
    ensures GroupPath(syms, i, j + 1) == if syms[j].body.SetSLD2? then syms[j].body.path else GroupPath(syms, i, j)
    ensures LineStop(syms, j) == if IsLine(syms[j]) then LineStop(syms, j + 1) else j
  {
  }
}

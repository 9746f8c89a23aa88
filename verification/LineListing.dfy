// The line numbers recorded for the overlays against the running line of the listing (csym/parse_decls.go,
// file.go).

module LineListing {
  import opened Ints
  import opened Records
  import opened Csym
  import opened SymFile
  import LN = LineNumbers
  import PF = ParseFunc
  import opened BodyLines
  import opened ListedLines
  import opened OverlayFacts
  import opened OverlayRun
  import opened Projection

  /** The line in 32 bits after the records before n: the line set last and all increments since. */
  predicate IsLineAfter(syms: seq<Symbol>, n: nat, line: uint32)
    requires n <= |syms|
  {
    exists m: nat | m < n :: IsLineFrom(syms, m, n, line)
  }

  predicate IsLineFrom(syms: seq<Symbol>, m: nat, n: nat, line: uint32)
    requires m < n <= |syms|
  {
    IsLastSet(syms, n, m) && line == (syms[m].body.line + Total(syms, m + 1, n)) % 0x1_0000_0000
  }

  /** The source file named last before n. */
  predicate IsPathAfter(syms: seq<Symbol>, n: nat, path: string)
    requires n <= |syms|
  {
    exists m: nat | m < n :: syms[m].body.SetSLD2? && syms[m].body.path == path
      && forall k | m < k < n :: !syms[k].body.SetSLD2?
  }

  /** Line number l is that of line record j: its address, the source file named last, and the line set last
      with all increments since; in 32 bits that is the running line of the listing after it, where the
      listing does not panic. */
  predicate IsGroupLine(syms: seq<Symbol>, l: Csym.Line, j: nat) {
    && j < |syms| && IsLineRecord(syms[j]) && l.addr == syms[j].hdr.value
    && IsPathAfter(syms, j + 1, l.path) && IsLineAfter(syms, j + 1, l.line)
    && var after := LineAfter(syms, j + 1); after.Line? ==> l.line == after.n % TWO32
  }

  /** Line number l is that of record j in the function that starts at i: its start, or that of a block, with
      the line the records up to it add up to. */
  predicate IsBodyLine(syms: seq<Symbol>, l: Csym.Line, i: nat, j: nat) {
    && i <= j < |syms| && syms[i].body.FuncStart? && (j == i || IsEdge(syms, j))
    && (forall k | i < k < j :: !syms[k].body.FuncEnd?)
    && IsLineOf(syms, i, j, l)
  }

  /** Line number l is that of record j in the line numbers that record m of the main loop starts, which go up
      to e, while overlay k is selected. */
  ghost predicate FromGroup(syms: seq<Symbol>, tops: seq<nat>, k: nat, l: Csym.Line, m: nat, e: nat, j: nat) {
    && Belongs(syms, tops, k, m) && syms[tops[m]].body.SetSLD2?
    && tops[m] <= j < e && LinesUpTo(syms, tops[m], e) && IsGroupLine(syms, l, j)
  }

  /** Line number l is that of record j in the function that record m of the main loop starts, which goes up to
      e and is read while overlay k is selected. */
  ghost predicate FromBody(syms: seq<Symbol>, tops: seq<nat>, k: nat, l: Csym.Line, m: nat, e: nat, j: nat) {
    && Belongs(syms, tops, k, m) && syms[tops[m]].body.FuncStart? && IsRead(syms, tops, m)
    && IsEndOf(syms, tops[m], e) && j < e && IsBodyLine(syms, l, tops[m], j)
  }

  ghost predicate IsAccounted(syms: seq<Symbol>, tops: seq<nat>, k: nat, l: Csym.Line) {
    || (exists m, e, j :: FromGroup(syms, tops, k, l, m, e, j))
    || (exists m, e, j :: FromBody(syms, tops, k, l, m, e, j))
  }

  lemma LineSet(syms: seq<Symbol>, n: nat)
    requires n < |syms| && SetsLine(syms[n])
    ensures IsLineAfter(syms, n + 1, syms[n].body.line)
  {
    assert IsLineFrom(syms, n, n + 1, syms[n].body.line);
  }

  lemma LastSetStays(syms: seq<Symbol>, m: nat, n: nat)
    requires n < |syms| && IsLastSet(syms, n, m) && !SetsLine(syms[n])
    ensures IsLastSet(syms, n + 1, m)
  {
  }

  lemma LineGoesOnFrom(syms: seq<Symbol>, m: nat, n: nat, line: uint32)
    requires m < n < |syms| && IsLineFrom(syms, m, n, line) && IsLineRecord(syms[n]) && !SetsLine(syms[n])
    ensures IsLineFrom(syms, m, n + 1, LN.Stepped(line, syms[n].body))
  {
    ListedLines.TotalNext(syms, m + 1, n);
    SteppedBy(line, syms[n]);
    LastSetStays(syms, m, n);
    hide Total, IsLastSet, LN.Stepped, Increment;
    LN.WrapsAlike(syms[m].body.line + Total(syms, m + 1, n), Increment(syms[n]));
  }

  lemma LineGoesOn(syms: seq<Symbol>, n: nat, line: uint32)
    requires n < |syms| && IsLineAfter(syms, n, line) && IsLineRecord(syms[n]) && !SetsLine(syms[n])
    ensures IsLineAfter(syms, n + 1, LN.Stepped(line, syms[n].body))
  {
    hide IsLineFrom, LN.Stepped;
    var m: nat :| m < n && IsLineFrom(syms, m, n, line);
    LineGoesOnFrom(syms, m, n, line);
  }

  lemma {:induction false} GroupLineIs(syms: seq<Symbol>, i: nat, j: nat)
    requires i < j <= |syms| && syms[i].body.SetSLD2? && forall k | i < k < j :: IsLineRecord(syms[k])
    ensures IsLineAfter(syms, j, LN.GroupLine(syms, i, j))
    decreases j
  {
    hide IsLineAfter, LN.GroupLine;
    LN.FirstOfGroup(syms, i);
    if j == i + 1 {
      LineSet(syms, i);
    } else {
      LN.NextOfGroup(syms, i, j - 1);
      if SetsLine(syms[j - 1]) {
        LineSet(syms, j - 1);
      } else {
        GroupLineIs(syms, i, j - 1);
        LineGoesOn(syms, j - 1, LN.GroupLine(syms, i, j - 1));
      }
    }
  }

  lemma SteppedBy(line: uint32, s: Symbol)
    requires IsLineRecord(s) && !SetsLine(s)
    ensures LN.Stepped(line, s.body) == (line + Increment(s)) % 0x1_0000_0000
  {
  }

  lemma {:induction false} GroupPathIs(syms: seq<Symbol>, i: nat, j: nat)
    requires i < j <= |syms| && syms[i].body.SetSLD2?
    ensures IsPathAfter(syms, j, LN.GroupPath(syms, i, j))
    decreases j
  {
    if j > i + 1 && !syms[j - 1].body.SetSLD2? { GroupPathIs(syms, i, j - 1); }
  }

  lemma GroupAgrees(syms: seq<Symbol>, i: nat, k: nat)
    requires i < |syms| && syms[i].body.SetSLD2? && k < LN.LineStop(syms, i + 1) - i
    ensures IsGroupLine(syms, LN.GroupLines(syms, i, LN.LineStop(syms, i + 1))[k], i + k)
  {
    hide LineAfter, IsLineAfter, IsPathAfter, LN.GroupLine, LN.GroupPath, LN.GroupLines;
    LN.LineOfRecord(syms, i, LN.LineStop(syms, i + 1), i + k);
    LN.CountersAgree(syms, i, i + k + 1);
    GroupLineIs(syms, i, i + k + 1);
    GroupPathIs(syms, i, i + k + 1);
  }

  lemma BodyAgrees(syms: seq<Symbol>, i: nat, e: nat)
    requires i < e <= |syms| && syms[i].body.FuncStart? && forall k | i < k < e :: !syms[k].body.FuncEnd?
    ensures forall l | l in PF.FuncLines(syms, i, e) :: exists j | i <= j < e :: IsBodyLine(syms, l, i, j)
  {
    hide PF.FuncLines, IsLineOf;
    var ks := BodyLineNumbers(syms, i, e);
    var ls := PF.FuncLines(syms, i, e);
    forall l | l in ls ensures exists j | i <= j < e :: IsBodyLine(syms, l, i, j) {
      var n :| 0 <= n < |ls| && ls[n] == l;
      assert ks[n] in ks;
      assert IsBodyLine(syms, l, i, ks[n]);
    }
  }

  lemma GroupAccounts(syms: seq<Symbol>, tops: seq<nat>, k: nat, m: nat, l: Csym.Line)
    requires Belongs(syms, tops, k, m) && syms[tops[m]].body.SetSLD2? && l in LinesFrom(syms, tops[..m], tops[m])
    ensures IsAccounted(syms, tops, k, l)
  {
    hide IsGroupLine, LN.GroupLines, Selected;
    var i, e := tops[m], LN.LineStop(syms, tops[m] + 1);
    var ls := LN.GroupLines(syms, i, e);
    var n :| 0 <= n < |ls| && ls[n] == l;
    GroupAgrees(syms, i, n);
    assert FromGroup(syms, tops, k, l, m, e, i + n);
  }

  lemma BodyAccounts(syms: seq<Symbol>, tops: seq<nat>, k: nat, m: nat, l: Csym.Line)
    requires Belongs(syms, tops, k, m) && syms[tops[m]].body.FuncStart? && l in LinesFrom(syms, tops[..m], tops[m])
    ensures IsAccounted(syms, tops, k, l)
  {
    hide IsBodyLine, PF.FuncLines, StartsIt, Selected, FuncRun.RegistrationOf;
    var i, e := tops[m], PF.EndFrom(syms, tops[m] + 1);
    ReadIsRead(syms, tops, m);
    BodyAgrees(syms, i, e);
    var j :| i <= j < e && IsBodyLine(syms, l, i, j);
    assert FromBody(syms, tops, k, l, m, e, j);
  }

  /** Every line number of every overlay is that of a record: of a line record, with the running line the
      listing shows for it, or of the start or a block of a function that is read. */
  lemma {:induction false} LinesAreListed(syms: seq<Symbol>, tops: seq<nat>, k: nat, n: nat)
    requires n <= |tops|
    ensures forall l | l in LinesOf(syms, tops[..n], k) :: IsAccounted(syms, tops, k, l)
    decreases n
  {
    hide LinesFrom, Selected, IsAccounted;
    if n > 0 {
      var m := n - 1;
      Before(tops, m);
      LinesAreListed(syms, tops, k, m);
      if Belongs(syms, tops, k, m) {
        forall l | l in LinesFrom(syms, tops[..m], tops[m]) ensures IsAccounted(syms, tops, k, l) {
          if syms[tops[m]].body.SetSLD2? {
            GroupAccounts(syms, tops, k, m, l);
          } else {
            OnlyThese(syms, tops[..m], tops[m], l);
            BodyAccounts(syms, tops, k, m, l);
          }
        }
      }
    }
  }

  lemma OnlyThese(syms: seq<Symbol>, tops: seq<nat>, i: nat, l: Csym.Line)
    requires i < |syms| && l in LinesFrom(syms, tops, i)
    ensures syms[i].body.SetSLD2? || syms[i].body.FuncStart?
  {
  }

  // ----- no line number is missing -----

  /** What record m of the main loop adds while overlay k is selected is among its line numbers. */
  lemma {:induction false} LinesStay(syms: seq<Symbol>, tops: seq<nat>, k: nat, m: nat, n: nat)
    requires m < n <= |tops| && Belongs(syms, tops, k, m)
    ensures forall l | l in LinesFrom(syms, tops[..m], tops[m]) :: l in LinesOf(syms, tops[..n], k)
    decreases n
  {
    hide LinesFrom, Selected;
    Before(tops, n - 1);
    if m < n - 1 { LinesStay(syms, tops, k, m, n - 1); }
  }

  /** Every line record of a group of line numbers gives a line number, in the overlay that is selected. */
  lemma GroupComplete(syms: seq<Symbol>, tops: seq<nat>, k: nat, m: nat, e: nat, j: nat)
    requires Belongs(syms, tops, k, m) && syms[tops[m]].body.SetSLD2?
    requires tops[m] <= j < e && LinesUpTo(syms, tops[m], e)
    ensures exists l | l in LinesOf(syms, tops, k) :: IsGroupLine(syms, l, j)
  {
    hide IsGroupLine, LN.GroupLines, LinesOf, Selected;
    var i := tops[m];
    var stop := LN.LineStop(syms, i + 1);
    assert stop <= j ==> LN.IsLine(syms[stop]);
    GroupAgrees(syms, i, j - i);
    var ls := LN.GroupLines(syms, i, stop);
    assert ls[j - i] in LinesFrom(syms, tops[..m], i);
    LinesStay(syms, tops, k, m, |tops|);
    assert tops[..|tops|] == tops;
  }

  /** Every function that is read gives a line number for its start, and one for each start and end of a
      block. */
  lemma BodyComplete(syms: seq<Symbol>, tops: seq<nat>, k: nat, m: nat, e: nat, j: nat)
    requires Belongs(syms, tops, k, m) && syms[tops[m]].body.FuncStart? && IsRead(syms, tops, m)
    requires IsEndOf(syms, tops[m], e) && tops[m] <= j < e && GivesLine(syms, tops[m], j)
    ensures exists l | l in LinesOf(syms, tops, k) :: IsBodyLine(syms, l, tops[m], j)
  {
    hide IsLineOf, PF.FuncLines, StartsIt, Selected, FuncRun.RegistrationOf;
    var i := tops[m];
    assert PF.EndFrom(syms, i + 1) == e;
    ReadIsRead(syms, tops, m);
    var ks := BodyLineNumbers(syms, i, e);
    var ls := PF.FuncLines(syms, i, e);
    assert j in ks;
    var n :| 0 <= n < |ks| && ks[n] == j;
    assert IsBodyLine(syms, ls[n], i, j);
    assert ls[n] in LinesFrom(syms, tops[..m], i);
    LinesStay(syms, tops, k, m, |tops|);
    assert tops[..|tops|] == tops;
  }
}

// The running line of a function body in closed form, and which records give a line number
// (csym/parse_decls.go).

module BodyLines {
  import opened Ints
  import opened Records
  import opened Csym
  import opened Selections
  import opened ParseFunc

  /** A record that starts or ends a block. */
  predicate IsEdge(syms: seq<Symbol>, k: nat) {
    k < |syms| && (syms[k].body.BlockStart? || syms[k].body.BlockEnd?)
  }

  /** The starts and ends of blocks from i on, below j. */
  function Edges(syms: seq<Symbol>, i: nat, j: nat): set<nat> {
    set k: nat | i <= k < j && IsEdge(syms, k)
  }

  /** The lines of the records from i on, below j, that start or end a block, added up. */
  function LinesTotal(syms: seq<Symbol>, i: nat, j: nat): nat
    decreases j - i
  {
    if i >= j then 0
    else (if IsEdge(syms, i) then syms[i].body.line else 0) + LinesTotal(syms, i + 1, j)
  }

  /** The line, in 32 bits, at which the function that starts at i stands after the records before j: its
      own line and those of all block starts and ends, added up, less one for each of these. */
  predicate IsLineAt(syms: seq<Symbol>, i: nat, j: nat, line: uint32)
    requires i < |syms| && syms[i].body.FuncStart?
  {
    (line + |Edges(syms, i + 1, j)|) % 0x1_0000_0000
    == (syms[i].body.line + LinesTotal(syms, i + 1, j)) % 0x1_0000_0000
  }

  lemma EdgesNext(syms: seq<Symbol>, i: nat, j: nat)
    requires i <= j
    ensures |Edges(syms, i, j + 1)| == |Edges(syms, i, j)| + (if IsEdge(syms, j) then 1 else 0)
  {
    assert Edges(syms, i, j + 1) == Edges(syms, i, j) + (if IsEdge(syms, j) then {j} else {});
  }

  lemma {:induction false} TotalNext(syms: seq<Symbol>, i: nat, j: nat)
    requires i <= j
    ensures LinesTotal(syms, i, j + 1) == LinesTotal(syms, i, j) + (if IsEdge(syms, j) then syms[j].body.line else 0)
    decreases j - i
  {
    if i < j { TotalNext(syms, i + 1, j); }
  }

  lemma SameRemainder(a: int, b: int, c: int)
    requires a % 0x1_0000_0000 == b % 0x1_0000_0000
    ensures ((a + c) % 0x1_0000_0000) == (b + c) % 0x1_0000_0000
    ensures (a % 0x1_0000_0000 + c) % 0x1_0000_0000 == (a + c) % 0x1_0000_0000
  {
  }

  /** The running line in closed form. */
  lemma {:induction false} LineInClosedForm(syms: seq<Symbol>, i: nat, j: nat)
    requires i < j <= |syms| && syms[i].body.FuncStart?
    ensures IsLineAt(syms, i, j, FuncLine(syms, i, j))
    decreases j
  {
    if j == i + 1 {
      assert Edges(syms, i + 1, j) == {};
    } else {
      LineInClosedForm(syms, i, j - 1);
      EdgesNext(syms, i + 1, j - 1);
      TotalNext(syms, i + 1, j - 1);
      hide Edges, LinesTotal;
      if IsEdge(syms, j - 1) {
        OneEdge(FuncLine(syms, i, j - 1), syms[j - 1].body.line, |Edges(syms, i + 1, j - 1)|, syms[i].body.line,
          LinesTotal(syms, i + 1, j - 1));
      }
    }
  }

  lemma OneEdge(before: int, line: int, n: int, start: int, total: int)
    requires (before + n) % 0x1_0000_0000 == (start + total) % 0x1_0000_0000
    ensures ((before + line - 1) % 0x1_0000_0000 + (n + 1)) % 0x1_0000_0000
      == (start + (total + line)) % 0x1_0000_0000
  {
    SameRemainder(before + line - 1, before + line - 1, n + 1);
    SameRemainder(before + n, start + total, line);
  }

  /** There is one such line. */
  lemma LineIsOne(syms: seq<Symbol>, i: nat, j: nat, a: uint32, b: uint32)
    requires i < |syms| && syms[i].body.FuncStart? && IsLineAt(syms, i, j, a) && IsLineAt(syms, i, j, b)
    ensures a == b
  {
    var n := |Edges(syms, i + 1, j)|;
    SameRemainder(a + n, b + n, -n);
  }

  // ----- the line numbers of a body -----

  predicate GivesLine(syms: seq<Symbol>, i: nat, k: nat) {
    k == i || IsEdge(syms, k)
  }

  /** The line number that record k gives in the function that starts at i. */
  predicate IsLineOf(syms: seq<Symbol>, i: nat, k: nat, l: Csym.Line)
    requires i < |syms| && k < |syms| && syms[i].body.FuncStart?
  {
    l.addr == syms[k].hdr.value && l.path == syms[i].body.path && IsLineAt(syms, i, k + 1, l.line)
  }

  lemma OneMoreRecord(syms: seq<Symbol>, i: nat, j: nat)
    requires i < j < |syms| && syms[i].body.FuncStart?
    ensures FuncLines(syms, i, j + 1) == FuncLines(syms, i, j)
      + (if IsEdge(syms, j) then [Csym.Line(syms[j].hdr.value, syms[i].body.path, FuncLine(syms, i, j + 1))] else [])
  {
  }

  lemma FirstLine(syms: seq<Symbol>, i: nat)
    requires i < |syms| && syms[i].body.FuncStart?
    ensures FuncLines(syms, i, i + 1)
      == [Csym.Line(syms[i].hdr.value, syms[i].body.path, FuncLine(syms, i, i + 1))]
  {
  }

  /** These records give these line numbers. */
  ghost predicate Numbers(syms: seq<Symbol>, i: nat, ks: seq<nat>, ls: seq<Csym.Line>)
    requires i < |syms| && syms[i].body.FuncStart?
  {
    |ks| == |ls| && forall n | 0 <= n < |ks| :: ks[n] < |syms| && IsLineOf(syms, i, ks[n], ls[n])
  }

  lemma NumbersOneMore(syms: seq<Symbol>, i: nat, ks: seq<nat>, ls: seq<Csym.Line>, k: nat, l: Csym.Line)
    requires i < |syms| && syms[i].body.FuncStart? && Numbers(syms, i, ks, ls)
    requires k < |syms| && IsLineOf(syms, i, k, l)
    ensures Numbers(syms, i, ks + [k], ls + [l])
  {
    hide IsLineOf;
  }

  lemma LineOfRecord(syms: seq<Symbol>, i: nat, k: nat)
    requires i <= k < |syms| && syms[i].body.FuncStart?
    ensures IsLineOf(syms, i, k, Csym.Line(syms[k].hdr.value, syms[i].body.path, FuncLine(syms, i, k + 1)))
  {
    hide IsLineAt, FuncLine;
    LineInClosedForm(syms, i, k + 1);
  }

  /** A body gives one line number for its start, and one for each start and end of a block, in order. */
  lemma {:induction false} BodyLineNumbers(syms: seq<Symbol>, i: nat, j: nat) returns (ks: seq<nat>)
    requires i < j <= |syms| && syms[i].body.FuncStart?
    ensures Selects(ks, i, j, (k: nat) => GivesLine(syms, i, k)) && Numbers(syms, i, ks, FuncLines(syms, i, j))
    decreases j
  {
    var has := (k: nat) => GivesLine(syms, i, k);
    hide IsLineOf, FuncLine, FuncLines, Selects, Numbers;
    LineOfRecord(syms, i, j - 1);
    if j == i + 1 {
      FirstLine(syms, i);
      SelectsNone(i, has);
      SelectsLast([], i, i, has);
      NoNumbers(syms, i);
      NumbersOneMore(syms, i, [], [], i, FuncLines(syms, i, j)[0]);
      ks := [] + [i];
      assert [] + FuncLines(syms, i, j) == FuncLines(syms, i, j);
    } else {
      ks := BodyLineNumbers(syms, i, j - 1);
      SelectsLast(ks, i, j - 1, has);
      OneMoreRecord(syms, i, j - 1);
      if IsEdge(syms, j - 1) {
        NumbersOneMore(syms, i, ks, FuncLines(syms, i, j - 1), j - 1,
          Csym.Line(syms[j - 1].hdr.value, syms[i].body.path, FuncLine(syms, i, j)));
        ks := ks + [j - 1];
      } else {
        assert ks + [] == ks && FuncLines(syms, i, j - 1) + [] == FuncLines(syms, i, j - 1);
      }
    }
  }

  lemma NoNumbers(syms: seq<Symbol>, i: nat)
    requires i < |syms| && syms[i].body.FuncStart?
    ensures Numbers(syms, i, [], [])
  {
  }
}

// What a function holds after its last body, by the records of that body (csym/parse_decls.go).

module BodyFacts {
  import opened Records
  import opened Selections
  import opened GroupScan
  import opened BlockTree
  import opened TypesState
  import opened FuncRun
  import PF = ParseFunc

  predicate StartsBlock(syms: seq<Symbol>, k: nat) {
    k < |syms| && syms[k].body.BlockStart?
  }

  /** These blocks start at the lines that these records say. */
  predicate StartAt(blocks: seq<Blk>, syms: seq<Symbol>, ks: seq<nat>) {
    && |blocks| == |ks|
    && forall q | 0 <= q < |ks| :: StartsBlock(syms, ks[q]) && blocks[q].lineStart == syms[ks[q]].body.line
  }

  lemma StepStartAt(syms: seq<Symbol>, taken: seq<string>, m: Machine, j: nat, ks: seq<nat>)
    requires j < |syms| && StartAt(m.blocks, syms, ks) && Step(syms, taken, m, j).Good?
    ensures StartAt(Step(syms, taken, m, j).value.blocks, syms, ks + (if StartsBlock(syms, j) then [j] else []))
  {
    hide DeclOutcome, AddFirst;
  }

  /** Any records of a body, nested well or not, if the program does not panic: there is one block for each
      record that starts one, in order, and it starts at the line of that record. */
  lemma {:induction false} BlocksByStarts(syms: seq<Symbol>, taken: seq<string>, i: nat, j: nat) returns (ks: seq<nat>)
    requires i <= j <= |syms| && Run(syms, taken, START, i, j).Good?
    ensures Selects(ks, i, j, (k: nat) => StartsBlock(syms, k))
    ensures StartAt(Run(syms, taken, START, i, j).value.blocks, syms, ks)
    decreases j
  {
    hide Selects, Step, StartAt, Run;
    var has := (k: nat) => StartsBlock(syms, k);
    if i == j {
      ks := [];
      SelectsNone(i, has);
      NoBlocks(syms, taken, i);
    } else {
      LastStep(syms, taken, i, j - 1);
      var before := BlocksByStarts(syms, taken, i, j - 1);
      SelectsLast(before, i, j - 1, has);
      StepStartAt(syms, taken, Run(syms, taken, START, i, j - 1).value, j - 1, before);
      ks := before + (if has(j - 1) then [j - 1] else []);
    }
  }

  lemma NoBlocks(syms: seq<Symbol>, taken: seq<string>, i: nat)
    requires i <= |syms|
    ensures Run(syms, taken, START, i, i) == Good(START) && StartAt(START.blocks, syms, [])
  {
  }

  lemma LastStep(syms: seq<Symbol>, taken: seq<string>, i: nat, k: nat)
    requires i <= k < |syms| && Run(syms, taken, START, i, k + 1).Good?
    ensures Run(syms, taken, START, i, k).Good?
    ensures Step(syms, taken, Run(syms, taken, START, i, k).value, k) == Run(syms, taken, START, i, k + 1)
  {
    RunThen(syms, taken, START, i, k, k + 1);
    var m := Run(syms, taken, START, i, k).value;
    hide Step;
    if Step(syms, taken, m, k).Good? {
      assert Run(syms, taken, Step(syms, taken, m, k).value, k + 1, k + 1) == Step(syms, taken, m, k);
    }
  }

  /** Path and lines of a function are those of the last body read: the path and the line of its start, and
      the line of its end. */
  lemma LastBody(v: State, x: FuncVal, syms: seq<Symbol>, rs: seq<nat>, e: nat)
    requires Tells(v, x, syms, rs) && rs != []
    requires var i := rs[|rs| - 1];
      && i < e < |syms| && syms[i].body.FuncStart? && syms[e].body.FuncEnd?
      && forall k | i < k < e :: !syms[k].body.FuncEnd?
    ensures var start := syms[rs[|rs| - 1]].body;
      x.path == start.path && x.lineStart == start.line && x.lineEnd == syms[e].body.line
  {
    var end := PF.EndFrom(syms, rs[|rs| - 1] + 1);
    assert end == e;
  }
}

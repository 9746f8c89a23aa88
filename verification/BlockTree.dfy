// The scope blocks of a function body: the machine that reads them, and the tree it stands for
// (csym/parse_decls.go).

module BlockTree {
  import opened Ints
  import opened Records
  import opened CTypes
  import opened Naming
  import opened Scaffolds
  import opened GroupScan

  // ----- declaration records -----

  predicate IsDecl(s: Records.Symbol) {
    s.body.Def? || s.body.Def2?
  }

  /** `parseClass` */
  function ClassOutcome(class_: uint16): Outcome<StorageClass> {
    if class_ == CLASS_AUTO then Good(Auto)
    else if class_ == CLASS_EXT then Good(Extern)
    else if class_ == CLASS_STAT then Good(Static)
    else if class_ == CLASS_REG || class_ == CLASS_REGPARM then Good(Register)
    else if class_ == CLASS_LABEL || class_ == CLASS_ARG then Good(NoClass)
    else if class_ == CLASS_TPDEF then Good(Typedef)
    else Panicked(UnsupportedClass)
  }

  /** Whether a local or a parameter can be declared by this record: its type first, then its class. */
  function DeclOutcome(s: Records.Symbol): Outcome<Done>
    requires IsDecl(s)
  {
    if RecordType(s).Panicked? then RecordType(s)
    else if ClassOutcome(s.body.class_).Panicked? then Panicked(UnsupportedClass)
    else Good(Done)
  }

  function NameAtRecord(syms: seq<Records.Symbol>, j: nat): string {
    if j < |syms| && IsDecl(syms[j]) then ValidName(syms[j].body.name) else ""
  }

  predicate NameTaken(syms: seq<Records.Symbol>, taken: seq<string>, ds: seq<nat>, name: string) {
    name in taken || exists k | 0 <= k < |ds| :: NameAtRecord(syms, ds[k]) == name
  }

  /** `addLocal` and `addParam`: a name already present is not added again. */
  function AddFirst(syms: seq<Records.Symbol>, taken: seq<string>, ds: seq<nat>, j: nat): seq<nat> {
    if NameTaken(syms, taken, ds, NameAtRecord(syms, j)) then ds else ds + [j]
  }

  // ----- the machine -----

  /** A block, with its locals as positions of their records. */
  datatype Blk = Blk(lineStart: uint32, lineEnd: uint32, locals: seq<nat>)

  datatype Cursor = NoBlock | At(index: nat)

  /** Blocks in order of creation, the stack of enclosing blocks, the innermost open block, and the
      parameters added. */
  datatype Machine = Machine(blocks: seq<Blk>, stack: seq<nat>, cur: Cursor, params: seq<nat>)

  const START := Machine([], [], Cursor.NoBlock, [])

  ghost predicate Fit(m: Machine) {
    && (forall k | 0 <= k < |m.stack| :: m.stack[k] < |m.blocks|)
    && (m.cur.At? ==> m.cur.index < |m.blocks|)
    && (m.cur.NoBlock? ==> m.stack == [])
  }

  function AddDecl(syms: seq<Records.Symbol>, taken: seq<string>, m: Machine, j: nat): Machine {
    match m.cur
    case NoBlock => m.(params := AddFirst(syms, taken, m.params, j))
    case At(c) =>
      if c >= |m.blocks| then m
      else m.(blocks := m.blocks[c := m.blocks[c].(locals := AddFirst(syms, [], m.blocks[c].locals, j))])
  }

  function Open(m: Machine, line: uint32): Machine {
    Machine(m.blocks + [Blk(line, 0, [])], if m.cur.At? then m.stack + [m.cur.index] else m.stack,
      At(|m.blocks|), m.params)
  }

  function Close(m: Machine, line: uint32): Machine
    requires m.cur.At?
  {
    var c, n := m.cur.index, |m.stack|;
    Machine(if c < |m.blocks| then m.blocks[c := m.blocks[c].(lineEnd := line)] else m.blocks,
      if n > 0 then m.stack[..n - 1] else m.stack, if n > 0 then At(m.stack[n - 1]) else Cursor.NoBlock, m.params)
  }

  /** One record of a body, other than its end. */
  function Step(syms: seq<Records.Symbol>, taken: seq<string>, m: Machine, j: nat): Outcome<Machine>
    requires j < |syms|
  {
    var body := syms[j].body;
    if body.BlockStart? then Good(Open(m, body.line))
    else if body.BlockEnd? then if m.cur.NoBlock? then Panicked(Why.NoBlock) else Good(Close(m, body.line))
    else if IsDecl(syms[j]) then
      match DeclOutcome(syms[j])
      case Panicked(why) => Panicked(why)
      case Good(_) => Good(AddDecl(syms, taken, m, j))
    else Panicked(UnsupportedRecord)
  }

  function Run(syms: seq<Records.Symbol>, taken: seq<string>, m: Machine, i: nat, j: nat): Outcome<Machine>
    requires i <= j <= |syms|
    decreases j - i
  {
    if i == j then Good(m)
    else
      match Step(syms, taken, m, i)
      case Panicked(why) => Panicked(why)
      case Good(m') => Run(syms, taken, m', i + 1, j)
  }

  lemma {:induction false} RunThen(syms: seq<Records.Symbol>, taken: seq<string>, m: Machine, i: nat, k: nat, j: nat)
    requires i <= k <= j <= |syms|
    ensures Run(syms, taken, m, i, j) ==
      match Run(syms, taken, m, i, k)
      case Panicked(why) => Panicked(why)
      case Good(m') => Run(syms, taken, m', k, j)
    decreases k - i
  {
    hide Step;
    if i < k && Step(syms, taken, m, i).Good? { RunThen(syms, taken, Step(syms, taken, m, i).value, i + 1, k, j); }
  }

  lemma StepKeepsFit(syms: seq<Records.Symbol>, taken: seq<string>, m: Machine, j: nat)
    requires j < |syms| && Fit(m) && Step(syms, taken, m, j).Good?
    ensures Fit(Step(syms, taken, m, j).value)
    ensures |Step(syms, taken, m, j).value.blocks| == |m.blocks| + (if syms[j].body.BlockStart? then 1 else 0)
  {
  }

  // ----- the tree -----

  /** What a body consists of: declarations, and blocks between a start and an end record. */
  datatype Item = Local(at: nat) | Nested(start: nat, items: seq<Item>, stop: nat)

  /** The records from i to j spell these items. */
  predicate Spells(syms: seq<Records.Symbol>, items: seq<Item>, i: nat, j: nat)
    decreases |syms| - i
  {
    if items == [] then i == j
    else
      i < j <= |syms| &&
      match items[0]
      case Local(at) => at == i && IsDecl(syms[i]) && Spells(syms, items[1..], i + 1, j)
      case Nested(start, inner, stop) =>
        && start == i && i < stop < j && syms[i].body.BlockStart? && syms[stop].body.BlockEnd?
        && Spells(syms, inner, i + 1, stop) && Spells(syms, items[1..], stop + 1, j)
  }

  /** The declarations directly among these items. */
  function Locals(items: seq<Item>): seq<nat> {
    if items == [] then [] else (if items[0].Local? then [items[0].at] else []) + Locals(items[1..])
  }

  /** These declarations added one after the other. */
  function Onto(syms: seq<Records.Symbol>, taken: seq<string>, from: seq<nat>, ds: seq<nat>): seq<nat> {
    if ds == [] then from else AddFirst(syms, taken, Onto(syms, taken, from, ds[..|ds| - 1]), ds[|ds| - 1])
  }

  /** The first declaration of each name that is not taken. */
  function Firsts(syms: seq<Records.Symbol>, taken: seq<string>, ds: seq<nat>): seq<nat> {
    Onto(syms, taken, [], ds)
  }

  function LineOf(syms: seq<Records.Symbol>, j: nat): uint32 {
    if j < |syms| && (syms[j].body.BlockStart? || syms[j].body.BlockEnd?) then syms[j].body.line else 0
  }

  /** The blocks of a tree in preorder, each with the lines of its own start and end records and
      with the first declaration of each name directly inside it. */
  function Preorder(syms: seq<Records.Symbol>, items: seq<Item>): seq<Blk> {
    if items == [] then []
    else
      (match items[0]
       case Local(_) => []
       case Nested(start, inner, stop) =>
         [Blk(LineOf(syms, start), LineOf(syms, stop), Firsts(syms, [], Locals(inner)))] + Preorder(syms, inner))
      + Preorder(syms, items[1..])
  }

  predicate IsFirstNamed(syms: seq<Records.Symbol>, taken: seq<string>, ds: seq<nat>, k: nat)
    requires k < |ds|
  {
    && NameAtRecord(syms, ds[k]) !in taken
    && forall l | 0 <= l < k :: NameAtRecord(syms, ds[l]) != NameAtRecord(syms, ds[k])
  }

  /** The first declaration of its name, among these, if the name is not taken. */
  ghost predicate IsChosen(syms: seq<Records.Symbol>, taken: seq<string>, ds: seq<nat>, d: nat) {
    exists k | 0 <= k < |ds| :: ds[k] == d && IsFirstNamed(syms, taken, ds, k)
  }

  /** A declaration is kept exactly if its name is not taken and no earlier one has its name. */
  lemma {:induction false} FirstsExactly(syms: seq<Records.Symbol>, taken: seq<string>, ds: seq<nat>)
    ensures forall d :: d in Firsts(syms, taken, ds) <==> IsChosen(syms, taken, ds, d)
    ensures forall name :: NameTaken(syms, taken, Firsts(syms, taken, ds), name) <==> NameTaken(syms, taken, ds, name)
  {
    hide IsChosen, NameTaken, NameAtRecord;
    if ds == [] {
      NothingChosen(syms, taken);
    } else {
      var n := |ds| - 1;
      var es := ds[..n];
      assert ds == es + [ds[n]];
      FirstsExactly(syms, taken, es);
      FirstsStep(syms, taken, es, ds[n]);
      forall d ensures IsChosen(syms, taken, ds, d)
        <==> IsChosen(syms, taken, es, d) || (d == ds[n] && !NameTaken(syms, taken, es, NameAtRecord(syms, d)))
      {
        ChosenStep(syms, taken, es, ds[n], d);
      }
    }
  }

  lemma NothingChosen(syms: seq<Records.Symbol>, taken: seq<string>)
    ensures forall d :: !IsChosen(syms, taken, [], d)
    ensures Firsts(syms, taken, []) == []
  {
  }

  lemma ChosenStep(syms: seq<Records.Symbol>, taken: seq<string>, es: seq<nat>, x: nat, d: nat)
    ensures IsChosen(syms, taken, es + [x], d)
      <==> IsChosen(syms, taken, es, d) || (d == x && !NameTaken(syms, taken, es, NameAtRecord(syms, x)))
  {
    hide NameAtRecord;
    var ds := es + [x];
    forall k | 0 <= k < |es| ensures IsFirstNamed(syms, taken, ds, k) <==> IsFirstNamed(syms, taken, es, k) {
      FirstBelow(syms, taken, es, x, k);
    }
    assert IsFirstNamed(syms, taken, ds, |es|) <==> !NameTaken(syms, taken, es, NameAtRecord(syms, x)) by {
      FirstAtEnd(syms, taken, es, x);
    }
    hide IsFirstNamed;
    assert forall k | 0 <= k < |es| :: ds[k] == es[k];
    if IsChosen(syms, taken, es, d) {
      var k :| 0 <= k < |es| && es[k] == d && IsFirstNamed(syms, taken, es, k);
      assert ds[k] == d && IsFirstNamed(syms, taken, ds, k);
    }
    if d == x && IsFirstNamed(syms, taken, ds, |es|) { assert ds[|es|] == d; }
  }

  lemma FirstBelow(syms: seq<Records.Symbol>, taken: seq<string>, es: seq<nat>, x: nat, k: nat)
    requires k < |es|
    ensures IsFirstNamed(syms, taken, es + [x], k) <==> IsFirstNamed(syms, taken, es, k)
  {
    hide NameAtRecord;
    var ds := es + [x];
    assert forall l | 0 <= l <= k :: ds[l] == es[l];
    if IsFirstNamed(syms, taken, ds, k) {
      forall l | 0 <= l < k ensures NameAtRecord(syms, es[l]) != NameAtRecord(syms, es[k]) {
        assert NameAtRecord(syms, ds[l]) != NameAtRecord(syms, ds[k]);
      }
    }
  }

  lemma FirstAtEnd(syms: seq<Records.Symbol>, taken: seq<string>, es: seq<nat>, x: nat)
    ensures IsFirstNamed(syms, taken, es + [x], |es|) <==> !NameTaken(syms, taken, es, NameAtRecord(syms, x))
  {
    hide NameAtRecord;
    var ds := es + [x];
    assert forall l | 0 <= l < |es| :: ds[l] == es[l];
    if IsFirstNamed(syms, taken, ds, |es|) {
      forall l | 0 <= l < |es| ensures NameAtRecord(syms, es[l]) != NameAtRecord(syms, x) {
        assert NameAtRecord(syms, ds[l]) != NameAtRecord(syms, ds[|es|]);
      }
    }
  }

  lemma FirstsStep(syms: seq<Records.Symbol>, taken: seq<string>, es: seq<nat>, d: nat)
    requires forall name :: NameTaken(syms, taken, Firsts(syms, taken, es), name) <==> NameTaken(syms, taken, es, name)
    ensures Firsts(syms, taken, es + [d]) == Firsts(syms, taken, es)
      + (if NameTaken(syms, taken, es, NameAtRecord(syms, d)) then [] else [d])
    ensures forall name ::
      NameTaken(syms, taken, Firsts(syms, taken, es + [d]), name) <==> NameTaken(syms, taken, es + [d], name)
  {
    var fs := Firsts(syms, taken, es);
    assert (es + [d])[..|es + [d]| - 1] == es;
    forall name
      ensures NameTaken(syms, taken, es + [d], name)
        <==> NameTaken(syms, taken, es, name) || NameAtRecord(syms, d) == name {
      OneMoreName(syms, taken, es, d, name);
    }
    forall name
      ensures NameTaken(syms, taken, fs + [d], name)
        <==> NameTaken(syms, taken, fs, name) || NameAtRecord(syms, d) == name {
      OneMoreName(syms, taken, fs, d, name);
    }
  }

  lemma OneMoreName(syms: seq<Records.Symbol>, taken: seq<string>, es: seq<nat>, d: nat, name: string)
    ensures NameTaken(syms, taken, es + [d], name)
      <==> NameTaken(syms, taken, es, name) || NameAtRecord(syms, d) == name
  {
    var fs := es + [d];
    assert forall k | 0 <= k < |es| :: fs[k] == es[k];
    if NameAtRecord(syms, d) == name { assert fs[|es|] == d; }
    if k :| 0 <= k < |es| && NameAtRecord(syms, es[k]) == name { assert NameAtRecord(syms, fs[k]) == name; }
  }

  lemma {:induction false} OntoCons(syms: seq<Records.Symbol>, taken: seq<string>, from: seq<nat>, d: nat, ds: seq<nat>)
    ensures Onto(syms, taken, AddFirst(syms, taken, from, d), ds) == Onto(syms, taken, from, [d] + ds)
  {
    hide AddFirst;
    var es := [d] + ds;
    if ds == [] {
      assert es[..0] == [] && es[0] == d;
    } else {
      var n := |ds| - 1;
      assert es[..|es| - 1] == [d] + ds[..n] && es[|es| - 1] == ds[n];
      OntoCons(syms, taken, from, d, ds[..n]);
    }
  }

  /** Declarations added to whatever is innermost. */
  function AddAll(syms: seq<Records.Symbol>, taken: seq<string>, m: Machine, ds: seq<nat>): Machine {
    match m.cur
    case NoBlock => m.(params := Onto(syms, taken, m.params, ds))
    case At(c) =>
      if c >= |m.blocks| then m
      else m.(blocks := m.blocks[c := m.blocks[c].(locals := Onto(syms, [], m.blocks[c].locals, ds))])
  }

  lemma AddAllCons(syms: seq<Records.Symbol>, taken: seq<string>, m: Machine, d: nat, ds: seq<nat>)
    requires Fit(m)
    ensures AddAll(syms, taken, AddDecl(syms, taken, m, d), ds) == AddAll(syms, taken, m, [d] + ds)
  {
    hide AddFirst, Onto;
    match m.cur
    case NoBlock => OntoCons(syms, taken, m.params, d, ds);
    case At(c) => OntoCons(syms, [], m.blocks[c].locals, d, ds);
  }

  function MoreBlocks(m: Machine, bs: seq<Blk>): Machine {
    m.(blocks := m.blocks + bs)
  }

  lemma AddAllBeneath(syms: seq<Records.Symbol>, taken: seq<string>, m: Machine, bs: seq<Blk>, ds: seq<nat>)
    requires Fit(m)
    ensures AddAll(syms, taken, MoreBlocks(m, bs), ds) == MoreBlocks(AddAll(syms, taken, m, ds), bs)
  {
    hide Onto;
  }

  /** A block that is opened, given its declarations and inner blocks, and closed. */
  lemma OpenAndClose(syms: seq<Records.Symbol>, taken: seq<string>, m: Machine, first: uint32, ds: seq<nat>,
    bs: seq<Blk>, last: uint32)
    requires Fit(m)
    ensures var m' := MoreBlocks(AddAll(syms, taken, Open(m, first), ds), bs);
      m'.cur.At? && Close(m', last) == MoreBlocks(m, [Blk(first, last, Firsts(syms, [], ds))] + bs)
  {
    hide Onto;
    var m' := MoreBlocks(AddAll(syms, taken, Open(m, first), ds), bs);
    var n := |m.blocks|;
    assert Open(m, first).blocks[n] == Blk(first, 0, []);
    assert m'.blocks == m.blocks + [Blk(first, 0, Firsts(syms, [], ds))] + bs;
    assert Close(m', last).blocks == m.blocks + ([Blk(first, last, Firsts(syms, [], ds))] + bs);
  }

  lemma OpenKeepsFit(m: Machine, line: uint32)
    requires Fit(m)
    ensures Fit(Open(m, line))
  {
  }

  lemma MoreBlocksKeepsFit(m: Machine, bs: seq<Blk>)
    requires Fit(m)
    ensures Fit(MoreBlocks(m, bs))
  {
  }

  ghost predicate DeclsFine(syms: seq<Records.Symbol>, i: nat, j: nat) {
    forall k | i <= k < j && k < |syms| :: IsDecl(syms[k]) ==> DeclOutcome(syms[k]).Good?
  }

  /** Into a block, through it, out of it, and on. */
  lemma RunAround(syms: seq<Records.Symbol>, taken: seq<string>, m: Machine, entered: Machine, filled: Machine,
    closed: Machine,
    after: Machine, i: nat, stop: nat, j: nat)
    requires i < stop < j <= |syms| && Step(syms, taken, m, i) == Good(entered)
      && Run(syms, taken, entered, i + 1, stop) == Good(filled)
    requires Step(syms, taken, filled, stop) == Good(closed) && Run(syms, taken, closed, stop + 1, j) == Good(after)
    ensures Run(syms, taken, m, i, j) == Good(after)
  {
    hide Step;
    RunThen(syms, taken, entered, i + 1, stop, j);
  }

  /** A block of a tree, and what comes behind it. */
  lemma BlockRun(syms: seq<Records.Symbol>, taken: seq<string>, m: Machine, inner: seq<Item>, rest: seq<Item>, i: nat,
    stop: nat, j: nat,
    bs: seq<Blk>)
    requires i < stop < j <= |syms| && syms[i].body.BlockStart? && syms[stop].body.BlockEnd? && Fit(m)
    requires bs == [Blk(syms[i].body.line, syms[stop].body.line, Firsts(syms, [], Locals(inner)))]
      + Preorder(syms, inner)
    requires var entered := Open(m, syms[i].body.line);
      Run(syms, taken, entered, i + 1, stop)
        == Good(MoreBlocks(AddAll(syms, taken, entered, Locals(inner)), Preorder(syms, inner)))
    requires var closed := MoreBlocks(m, bs);
      Run(syms, taken, closed, stop + 1, j)
        == Good(MoreBlocks(AddAll(syms, taken, closed, Locals(rest)), Preorder(syms, rest)))
    ensures Run(syms, taken, m, i, j)
      == Good(MoreBlocks(AddAll(syms, taken, m, Locals(rest)), bs + Preorder(syms, rest)))
  {
    hide AddAll, Open, Close, MoreBlocks, Fit, Firsts, Preorder, Locals, Run;
    var first, last := syms[i].body.line, syms[stop].body.line;
    var entered, closed := Open(m, first), MoreBlocks(m, bs);
    var filled := MoreBlocks(AddAll(syms, taken, entered, Locals(inner)), Preorder(syms, inner));
    var after := MoreBlocks(AddAll(syms, taken, closed, Locals(rest)), Preorder(syms, rest));
    OpenAndClose(syms, taken, m, first, Locals(inner), Preorder(syms, inner), last);
    RunAround(syms, taken, m, entered, filled, closed, after, i, stop, j);
    AddAllBeneath(syms, taken, m, bs, Locals(rest));
    MoreAndMore(AddAll(syms, taken, m, Locals(rest)), bs, Preorder(syms, rest));
  }

  /** Main theorem, for any tree and any surroundings: running the machine over the records of a tree
      adds its direct declarations to whatever is innermost and its blocks in preorder, and leaves
      the stack as it was. */
  lemma {:induction false} TreeRun(syms: seq<Records.Symbol>, taken: seq<string>, m: Machine, items: seq<Item>, i: nat,
    j: nat)
    requires i <= j <= |syms| && Spells(syms, items, i, j) && Fit(m) && DeclsFine(syms, i, j)
    ensures Run(syms, taken, m, i, j) == Good(MoreBlocks(AddAll(syms, taken, m, Locals(items)), Preorder(syms, items)))
    decreases j - i
  {
    hide AddAll, AddDecl, Open, Close, MoreBlocks, Fit, DeclOutcome, ClassOutcome, Firsts;
    if items == [] {
      NothingAdded(syms, taken, m);
    } else {
      var rest := items[1..];
      match items[0]
      case Local(at) =>
        var m' := AddDecl(syms, taken, m, at);
        assert Step(syms, taken, m, i) == Good(m');
        StepKeepsFit(syms, taken, m, i);
        TreeRun(syms, taken, m', rest, i + 1, j);
        assert [] + Preorder(syms, rest) == Preorder(syms, rest);
        AddAllCons(syms, taken, m, at, Locals(rest));
      case Nested(start, inner, stop) =>
        var first, last := syms[start].body.line, syms[stop].body.line;
        var bs := [Blk(first, last, Firsts(syms, [], Locals(inner)))] + Preorder(syms, inner);
        OpenKeepsFit(m, first);
        TreeRun(syms, taken, Open(m, first), inner, i + 1, stop);
        MoreBlocksKeepsFit(m, bs);
        TreeRun(syms, taken, MoreBlocks(m, bs), rest, stop + 1, j);
        BlockRun(syms, taken, m, inner, rest, i, stop, j, bs);
        assert Locals(items) == Locals(rest) && Preorder(syms, items) == bs + Preorder(syms, rest);
    }
  }

  lemma NothingAdded(syms: seq<Records.Symbol>, taken: seq<string>, m: Machine)
    ensures MoreBlocks(AddAll(syms, taken, m, []), []) == m
  {
  }

  lemma MoreAndMore(m: Machine, a: seq<Blk>, b: seq<Blk>)
    ensures MoreBlocks(MoreBlocks(m, a), b) == MoreBlocks(m, a + b)
  {
    assert m.blocks + a + b == m.blocks + (a + b);
  }

  /** A whole body: the blocks of the tree in preorder, the parameters in front of and between them,
      and nothing left open. */
  lemma BodyRun(syms: seq<Records.Symbol>, taken: seq<string>, items: seq<Item>, i: nat, j: nat)
    requires i <= j <= |syms| && Spells(syms, items, i, j) && DeclsFine(syms, i, j)
    ensures Run(syms, taken, START, i, j)
      == Good(Machine(Preorder(syms, items), [], Cursor.NoBlock, Firsts(syms, taken, Locals(items))))
  {
    hide Onto, Preorder, Run, Locals, DeclsFine, Spells;
    TreeRun(syms, taken, START, items, i, j);
    assert [] + Preorder(syms, items) == Preorder(syms, items);
  }

  // ----- when a block is missing -----

  function Change(s: Records.Symbol): int {
    if s.body.BlockStart? then 1 else if s.body.BlockEnd? then -1 else 0
  }

  /** Blocks opened less blocks closed between i and j. */
  function Depth(syms: seq<Records.Symbol>, i: nat, j: nat): int
    requires i <= j <= |syms|
    decreases j - i
  {
    if i == j then 0
    else Depth(syms, i, j - 1) + Change(syms[j - 1])
  }

  function OpenBlocks(m: Machine): nat {
    if m.cur.NoBlock? then 0 else 1 + |m.stack|
  }

  predicate InBody(s: Records.Symbol) {
    s.body.BlockStart? || s.body.BlockEnd? || IsDecl(s)
  }

  /** No missing block is ever closed exactly if no stretch from the first record on ends more blocks
      than it starts. */
  lemma {:induction false} ClosesOnlyOpenBlocks(syms: seq<Records.Symbol>, taken: seq<string>, i: nat, j: nat)
    requires i <= j <= |syms| && DeclsFine(syms, i, j) && forall k | i <= k < j :: InBody(syms[k])
    ensures Run(syms, taken, START, i, j).Good? <==> forall k | i <= k <= j :: Depth(syms, i, k) >= 0
    ensures Run(syms, taken, START, i, j).Panicked? ==> Run(syms, taken, START, i, j).why == Why.NoBlock
    ensures var r := Run(syms, taken, START, i, j); r.Good? ==> Fit(r.value) && OpenBlocks(r.value) == Depth(syms, i, j)
    decreases j - i
  {
    hide Step, InBody, Fit, OpenBlocks, DeclOutcome;
    if i == j {
      NothingOpen();
    } else {
      var k := j - 1;
      ClosesOnlyOpenBlocks(syms, taken, i, k);
      RunThen(syms, taken, START, i, k, j);
      var before := Run(syms, taken, START, i, k);
      if before.Good? {
        LastStep(syms, taken, before.value, k);
        assert Depth(syms, i, j) == Depth(syms, i, k) + Change(syms[k]);
      }
    }
  }

  lemma NothingOpen()
    ensures Fit(START) && OpenBlocks(START) == 0
  {
  }

  lemma LastStep(syms: seq<Records.Symbol>, taken: seq<string>, m: Machine, k: nat)
    requires k < |syms| && Fit(m) && InBody(syms[k]) && (IsDecl(syms[k]) ==> DeclOutcome(syms[k]).Good?)
    ensures Run(syms, taken, m, k, k + 1) == Step(syms, taken, m, k)
    ensures var r := Step(syms, taken, m, k);
      var d := Change(syms[k]);
      if OpenBlocks(m) + d < 0 then r == Panicked(Why.NoBlock)
      else r.Good? && Fit(r.value) && OpenBlocks(r.value) == OpenBlocks(m) + d
  {
    hide DeclOutcome, AddFirst;
  }

  // ----- well-nested bodies are exactly those that have a tree -----

  lemma {:induction false} DepthSplit(syms: seq<Records.Symbol>, i: nat, k: nat, j: nat)
    requires i <= k <= j <= |syms|
    ensures Depth(syms, i, j) == Depth(syms, i, k) + Depth(syms, k, j)
    decreases j - k
  {
    if k < j { DepthSplit(syms, i, k, j - 1); }
  }

  ghost predicate WellNested(syms: seq<Records.Symbol>, i: nat, j: nat)
    requires i <= j <= |syms|
  {
    && (forall k | i <= k < j :: InBody(syms[k]))
    && (forall k | i <= k <= j :: Depth(syms, i, k) >= 0)
    && Depth(syms, i, j) == 0
  }

  lemma DepthFirst(syms: seq<Records.Symbol>, i: nat, j: nat)
    requires i < j <= |syms|
    ensures Depth(syms, i, i + 1) == Change(syms[i])
    ensures forall k | i < k <= j :: Depth(syms, i, k) == Change(syms[i]) + Depth(syms, i + 1, k)
  {
    assert Depth(syms, i, i) == 0;
    forall k | i < k <= j ensures Depth(syms, i, k) == Change(syms[i]) + Depth(syms, i + 1, k) {
      DepthSplit(syms, i, i + 1, k);
    }
  }

  /** The record that ends the block started at i. */
  lemma MatchingEnd(syms: seq<Records.Symbol>, i: nat, j: nat) returns (stop: nat)
    requires i < j <= |syms| && WellNested(syms, i, j) && syms[i].body.BlockStart?
    ensures i < stop < j && syms[stop].body.BlockEnd? && Depth(syms, i, stop + 1) == 0
    ensures (forall k | i < k <= stop :: Depth(syms, i, k) >= 1) && Depth(syms, i, stop) == 1
  {
    DepthFirst(syms, i, j);
    stop := i + 1;
    while Depth(syms, i, stop + 1) != 0
      invariant i < stop < j && forall k | i < k <= stop :: Depth(syms, i, k) >= 1
      decreases j - stop
    {
      assert Depth(syms, i, stop + 1) >= 0;
      stop := stop + 1;
    }
    assert Depth(syms, i, stop + 1) == Depth(syms, i, stop) + Change(syms[stop]);
  }

  lemma {:induction false} WellNestedHasTree(syms: seq<Records.Symbol>, i: nat, j: nat) returns (items: seq<Item>)
    requires i <= j <= |syms| && WellNested(syms, i, j)
    ensures Spells(syms, items, i, j)
    decreases j - i
  {
    if i == j { return []; }
    DepthFirst(syms, i, j);
    assert Depth(syms, i, i + 1) >= 0 && InBody(syms[i]);
    if syms[i].body.BlockStart? {
      var stop := MatchingEnd(syms, i, j);
      WellNestedInside(syms, i, stop, j);
      var inner := WellNestedHasTree(syms, i + 1, stop);
      WellNestedAfter(syms, i, stop + 1, j);
      var rest := WellNestedHasTree(syms, stop + 1, j);
      items := [Nested(i, inner, stop)] + rest;
    } else {
      WellNestedAfter(syms, i, i + 1, j);
      var rest := WellNestedHasTree(syms, i + 1, j);
      items := [Local(i)] + rest;
    }
  }

  lemma WellNestedAfter(syms: seq<Records.Symbol>, i: nat, next: nat, j: nat)
    requires i <= next <= j <= |syms| && WellNested(syms, i, j) && Depth(syms, i, next) == 0
    ensures WellNested(syms, next, j)
  {
    forall k | next <= k <= j ensures Depth(syms, next, k) == Depth(syms, i, k) {
      DepthSplit(syms, i, next, k);
    }
  }

  lemma WellNestedInside(syms: seq<Records.Symbol>, i: nat, stop: nat, j: nat)
    requires i < stop < j <= |syms| && WellNested(syms, i, j) && syms[i].body.BlockStart?
    requires (forall k | i < k <= stop :: Depth(syms, i, k) >= 1) && Depth(syms, i, stop) == 1
    ensures WellNested(syms, i + 1, stop)
  {
    DepthFirst(syms, i, stop);
    var next := i + 1;
    forall k | next <= k <= stop ensures Depth(syms, next, k) >= 0 {
      assert Depth(syms, i, k) >= 1;
    }
  }

  lemma {:induction false} TreesAreWellNested(syms: seq<Records.Symbol>, items: seq<Item>, i: nat, j: nat)
    requires i <= j <= |syms| && Spells(syms, items, i, j)
    ensures WellNested(syms, i, j)
    decreases j - i
  {
    if items != [] {
      var rest := items[1..];
      var next := if items[0].Local? then i + 1 else items[0].stop + 1;
      if items[0].Nested? {
        var stop := items[0].stop;
        TreesAreWellNested(syms, items[0].items, i + 1, stop);
        DepthFirst(syms, i, j);
        assert Depth(syms, i + 1, stop) == 0 && Depth(syms, i, stop + 1) == 0;
      } else {
        DepthFirst(syms, i, j);
      }
      TreesAreWellNested(syms, rest, next, j);
      forall k | i <= k <= j ensures Depth(syms, i, k) >= 0 && (k == j ==> Depth(syms, i, k) == 0) {
        if k >= next { DepthSplit(syms, i, next, k); }
      }
    }
  }
}

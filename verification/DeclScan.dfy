// Where declaration parsing succeeds, and where it panics: a function of the records alone
// (csym/parse_decls.go).

module DeclScan {
  import opened Records
  import opened Scaffolds
  import opened GroupScan
  import opened BlockTree
  import opened GlobalDecls
  import LN = LineNumbers
  import PF = ParseFunc
  import opened OverlayRun
  import opened Projection

  /** The classes that other passes handle. */
  predicate IsQuietClass(s: Symbol)
    requires IsDecl(s)
  {
    s.body.class_ in {CLASS_MOS, CLASS_MOU, CLASS_TPDEF, CLASS_MOE, CLASS_FIELD}
    || (s.body.Def? && s.body.class_ in {CLASS_STRTAG, CLASS_UNTAG, CLASS_ENTAG, CLASS_103})
    || (s.body.Def2? && s.body.class_ == CLASS_EOS)
  }

  /** What the record at i comes to, when it starts no function. */
  function PlainOutcome(syms: seq<Symbol>, tops: seq<nat>, i: nat): Outcome<nat>
    requires i < |syms|
  {
    var s := syms[i];
    if IsName(s) || s.body.EndSLD? || s.body.Overlay? then Good(i + 1)
    else if s.body.SetSLD2? then LN.LinesOutcome(syms, i)
    else if IsDecl(s) then
      if IsGlobal(s) then (if RecordType(s).Panicked? then Panicked(RecordType(s).why) else Good(i + 1))
      else if IsQuietClass(s) then Good(i + 1)
      else Panicked(UnsupportedClass)
    else if s.body.SetOverlay? then (if DeclaredAs(syms, tops, s.hdr.value) != 0 then Good(i + 1)
      else Panicked(NoOverlay))
    else Panicked(UnsupportedRecord)
  }

  /** What the function that starts at i comes to: skipped, or read. */
  function FuncOutcome(syms: seq<Symbol>, tops: seq<nat>, i: nat): Outcome<nat>
    requires i < |syms|
  {
    if !IsReadAt(syms, tops, i) && PF.EndFrom(syms, i + 1) < |syms| then Good(PF.EndFrom(syms, i + 1) + 1)
    else PF.BodyOutcome(syms, i, [])
  }

  function RecordOutcome(syms: seq<Symbol>, tops: seq<nat>, i: nat): (r: Outcome<nat>)
    requires i < |syms|
    ensures r.Good? ==> r.value == NextTop(syms, i) <= |syms|
  {
    if syms[i].body.FuncStart? then FuncOutcome(syms, tops, i) else PlainOutcome(syms, tops, i)
  }

  function DeclsFrom(syms: seq<Symbol>, tops: seq<nat>, i: nat): Outcome<Done>
    decreases |syms| - i
  {
    if i >= |syms| then Good(Done)
    else
      match RecordOutcome(syms, tops, i)
      case Panicked(why) => Panicked(why)
      case Good(next) => DeclsFrom(syms, tops + [i], next)
  }

  /** The outcome of `ParseDecls`. */
  function DeclsOutcome(syms: seq<Symbol>): Outcome<Done> {
    DeclsFrom(syms, [], 0)
  }

  /** Two machines that differ in what has been declared only. */
  predicate Alike(m: Machine, n: Machine) {
    m.stack == n.stack && m.cur == n.cur && |m.blocks| == |n.blocks|
  }

  lemma StepAlike(syms: seq<Symbol>, a: seq<string>, b: seq<string>, m: Machine, n: Machine, j: nat)
    requires j < |syms| && Alike(m, n)
    ensures var r, q := Step(syms, a, m, j), Step(syms, b, n, j);
      if r.Good? then q.Good? && Alike(r.value, q.value) else q.Panicked? && q.why == r.why
  {
    hide AddFirst, DeclOutcome;
  }

  /** Names decide which declarations are kept, not whether the program panics. */
  lemma {:induction false} RunAlike(syms: seq<Symbol>, a: seq<string>, b: seq<string>, m: Machine, n: Machine, i: nat,
    j: nat)
    requires i <= j <= |syms| && Alike(m, n)
    ensures var r, q := Run(syms, a, m, i, j), Run(syms, b, n, i, j);
      r.Good? == q.Good? && (r.Panicked? ==> q.why == r.why)
    decreases j - i
  {
    hide Step, Alike;
    if i < j {
      StepAlike(syms, a, b, m, n, i);
      if Step(syms, a, m, i).Good? {
        RunAlike(syms, a, b, Step(syms, a, m, i).value, Step(syms, b, n, i).value, i + 1, j);
      }
    }
  }

  lemma BodyAlike(syms: seq<Symbol>, i: nat, taken: seq<string>)
    requires i < |syms|
    ensures PF.BodyOutcome(syms, i, taken) == PF.BodyOutcome(syms, i, [])
  {
    RunAlike(syms, taken, [], START, START, i + 1, PF.EndFrom(syms, i + 1));
  }
}

// Where type parsing succeeds, and where it panics: a function of the records alone
// (csym/parse_types.go).

module GroupScan {
  import opened Ints
  import opened Fields
  import opened Records
  import opened TagTables
  import opened TypeWord
  import opened TypesState
  import opened Scaffolds
  import opened TagGroups

  /** Why the program panics. */
  datatype Why = UnsupportedBase | MissingLength | WrongBase | UnsupportedClass | NoScaffold | EndOfRecords
    | UnsupportedRecord | NoOverlay | NoBlock

  datatype Outcome<+T> = Good(value: T) | Panicked(why: Why)

  datatype Done = Done

  /** Whether a type word with these array lengths can be turned into a type. */
  function TypeOutcome(word: uint16, dims: seq<nat>): Outcome<Done> {
    if !Supported(BaseBits(word)) then Panicked(UnsupportedBase)
    else if Arrays(ModsOf(word)) > |dims| then Panicked(MissingLength)
    else Good(Done)
  }

  function RecordType(s: Symbol): Outcome<Done>
    requires s.body.Def? || s.body.Def2?
  {
    TypeOutcome(s.body.typ, DimsOf(s))
  }

  /** What reading one record of a group does: go on, end the group, or panic. */
  datatype GroupStep = Skip | Take | End | Fail(why: Why)

  function StepOf(s: Symbol, kind: TagKind): GroupStep {
    if IsEos(s) then End
    else if !s.body.Def? && !s.body.Def2? then Skip
    else if !IsMember(s, kind) && !IsMethod(s, kind) then Fail(UnsupportedClass)
    else if kind != EnumTag && RecordType(s).Panicked? then Fail(RecordType(s).why)
    else Take
  }

  /** The position behind the end marker of the group whose records start at j. */
  function GroupEnd(syms: seq<Symbol>, j: nat, kind: TagKind): (r: Outcome<nat>)
    ensures r.Good? ==> j < r.value <= |syms|
    decreases |syms| - j
  {
    if j >= |syms| then Panicked(EndOfRecords)
    else
      match StepOf(syms[j], kind)
      case End => Good(j + 1)
      case Fail(why) => Panicked(why)
      case _ => GroupEnd(syms, j + 1, kind)
  }

  function TagBase(kind: TagKind): nat {
    match kind
    case StructTag => BASE_STRUCT
    case UnionTag => BASE_UNION
    case EnumTag => BASE_ENUM
  }

  /** The group that opens at position i. */
  function GroupOutcome(syms: seq<Symbol>, i: nat, kind: TagKind): (r: Outcome<nat>)
    requires OpensKind(syms, i, kind)
    ensures r.Good? ==> i < r.value <= |syms|
  {
    if BaseBits(syms[i].body.typ) != TagBase(kind) then Panicked(WrongBase) else GroupEnd(syms, i + 1, kind)
  }

  predicate IsTypedefRecord(s: Symbol) {
    (s.body.Def? || s.body.Def2?) && s.body.class_ == CLASS_TPDEF
  }

  /** One turn of the main loop. */
  function TurnOutcome(syms: seq<Symbol>, i: nat): (r: Outcome<nat>)
    requires i < |syms|
    ensures r.Good? ==> i < r.value <= |syms|
  {
    if OpensKind(syms, i, StructTag) then GroupOutcome(syms, i, StructTag)
    else if OpensKind(syms, i, UnionTag) then GroupOutcome(syms, i, UnionTag)
    else if OpensKind(syms, i, EnumTag) then GroupOutcome(syms, i, EnumTag)
    else if IsTypedefRecord(syms[i]) && RecordType(syms[i]).Panicked? then Panicked(RecordType(syms[i]).why)
    else Good(i + 1)
  }

  function TypesOutcome(syms: seq<Symbol>, i: nat): Outcome<Done>
    decreases |syms| - i
  {
    if i >= |syms| then Good(Done)
    else
      match TurnOutcome(syms, i)
      case Panicked(why) => Panicked(why)
      case Good(next) => TypesOutcome(syms, next)
  }

  /** No record between the opening of a group and its end opens another, or is a type definition. */
  lemma {:induction false} GroupsDoNotNest(syms: seq<Symbol>, j: nat, kind: TagKind)
    requires GroupEnd(syms, j, kind).Good?
    ensures forall k | j <= k < GroupEnd(syms, j, kind).value :: !OpensAnyGroup(syms[k]) && !IsTypedefRecord(syms[k])
    decreases |syms| - j
  {
    if !IsEos(syms[j]) { GroupsDoNotNest(syms, j + 1, kind); }
  }

  /** The positions of the type definitions among the first n records. */
  function TypedefRecords(syms: seq<Symbol>, n: nat): seq<nat>
    requires n <= |syms|
  {
    if n == 0 then []
    else TypedefRecords(syms, n - 1) + (if IsTypedefRecord(syms[n - 1]) then [n - 1] else [])
  }

  lemma {:induction false} NoTypedefRecords(syms: seq<Symbol>, i: nat, j: nat)
    requires i <= j <= |syms| && forall k | i <= k < j :: !IsTypedefRecord(syms[k])
    ensures TypedefRecords(syms, j) == TypedefRecords(syms, i)
    decreases j
  {
    if i < j { NoTypedefRecords(syms, i, j - 1); }
  }

  /** The program never looks for a scaffold in vain: no input makes it panic there. */
  lemma {:induction false} NeverWithoutScaffold(syms: seq<Symbol>, i: nat)
    ensures TypesOutcome(syms, i) != Panicked(NoScaffold)
    decreases |syms| - i
  {
    if i < |syms| {
      NoGroupWithoutScaffold(syms, i + 1, StructTag);
      NoGroupWithoutScaffold(syms, i + 1, UnionTag);
      NoGroupWithoutScaffold(syms, i + 1, EnumTag);
      if TurnOutcome(syms, i).Good? { NeverWithoutScaffold(syms, TurnOutcome(syms, i).value); }
    }
  }

  lemma {:induction false} NoGroupWithoutScaffold(syms: seq<Symbol>, j: nat, kind: TagKind)
    ensures GroupEnd(syms, j, kind) != Panicked(NoScaffold)
    decreases |syms| - j
  {
    if j < |syms| { NoGroupWithoutScaffold(syms, j + 1, kind); }
  }
}

// What the class of a definition record means, number by number, and where the two passes panic
// (class.go, csym/parse_types.go, csym/parse_decls.go).

module ClassNumbers {
  import opened Ints
  import opened Records
  import opened CTypes
  import opened TagTables
  import opened Selections
  import opened WordBits
  import opened Initial
  import opened TagGroups
  import opened GroupScan
  import opened BlockTree
  import opened DeclScan
  import LN = LineNumbers

  // ----- types of records -----

  /** The type word of a definition stands for a type: its base is supported, and there is a length for each
      array. */
  predicate HasType(s: Symbol)
    requires s.body.Def? || s.body.Def2?
  {
    && s.body.typ % 16 !in {6, 7, 11}
    && |ArraysFrom(s.body.typ, 0)| <= (if s.body.Def2? then |s.body.dims| else 0)
  }

  lemma TypeOfRecord(s: Symbol)
    requires s.body.Def? || s.body.Def2?
    ensures RecordType(s).Good? <==> HasType(s)
  {
    hide ArraysFrom, TypeOutcome;
    WordOutcome(s.body.typ, DimsOf(s));
  }

  /** `parseClass`, number by number. */
  lemma StorageByNumber(class_: uint16)
    ensures ClassOutcome(class_)
      == if class_ == 1 then Good(Auto)
         else if class_ == 2 then Good(Extern)
         else if class_ == 3 then Good(Static)
         else if class_ == 4 || class_ == 17 then Good(Register)
         else if class_ == 6 || class_ == 9 then Good(NoClass)
         else if class_ == 13 then Good(Typedef)
         else Panicked(UnsupportedClass)
  {
  }

  // ----- the groups -----

  /** The class that opens a group of this kind. */
  function Opening(kind: TagKind): int {
    if kind == StructTag then 10 else if kind == UnionTag then 12 else 15
  }

  /** A definition that belongs to a group: a member of a struct (8), a union (11) or an enum (16), long or
      short, but short in an enum; or a method of a struct (18), which is short. */
  predicate BelongsTo(s: Symbol, kind: TagKind) {
    match kind
    case StructTag => ((s.body.Def? || s.body.Def2?) && s.body.class_ == 8) || (s.body.Def? && s.body.class_ == 18)
    case UnionTag => (s.body.Def? || s.body.Def2?) && s.body.class_ == 11
    case EnumTag => s.body.Def? && s.body.class_ == 16
  }

  predicate EndsGroup(s: Symbol) {
    s.body.Def2? && s.body.class_ == 0x66
  }

  /** A record that a group can be read over: no definition, or one that belongs to it and has a type (that
      of an enum member does not matter). */
  predicate FitsGroup(s: Symbol, kind: TagKind) {
    && !EndsGroup(s)
    && (s.body.Def? || s.body.Def2? ==> BelongsTo(s, kind) && (kind == EnumTag || HasType(s)))
  }

  lemma StepByNumber(s: Symbol, kind: TagKind)
    ensures StepOf(s, kind).End? <==> EndsGroup(s)
    ensures StepOf(s, kind).Skip? || StepOf(s, kind).Take? <==> FitsGroup(s, kind)
    ensures StepOf(s, kind).Fail? ==>
      StepOf(s, kind).why
      == if !BelongsTo(s, kind) then UnsupportedClass
         else if s.body.typ % 16 in {6, 7, 11} then UnsupportedBase
         else MissingLength
  {
    hide ArraysFrom, TypeOutcome;
    if s.body.Def? || s.body.Def2? {
      TypeOfRecord(s);
      WordOutcome(s.body.typ, DimsOf(s));
    }
  }

  /** The records from j on fit, up to an end marker in front of e. */
  predicate GroupUpTo(syms: seq<Symbol>, j: nat, kind: TagKind, e: nat) {
    j < e <= |syms| && EndsGroup(syms[e - 1]) && forall k | j <= k < e - 1 :: FitsGroup(syms[k], kind)
  }

  /** A group is read to its end exactly if every record up to its end marker fits. */
  lemma {:induction false} GroupEndsExactly(syms: seq<Symbol>, j: nat, kind: TagKind, e: nat)
    ensures GroupEnd(syms, j, kind) == Good(e) <==> GroupUpTo(syms, j, kind, e)
    decreases |syms| - j
  {
    hide StepOf, FitsGroup, EndsGroup;
    if j < |syms| {
      StepByNumber(syms[j], kind);
      EndFitsNot(syms[j], kind);
      GroupEndsExactly(syms, j + 1, kind, e);
    }
  }

  lemma EndFitsNot(s: Symbol, kind: TagKind)
    ensures EndsGroup(s) ==> !FitsGroup(s, kind)
  {
  }

  /** Why a record that neither fits a group nor ends it makes the program panic. */
  function WhyNot(s: Symbol, kind: TagKind): Why
    requires s.body.Def? || s.body.Def2?
  {
    if !BelongsTo(s, kind) then UnsupportedClass
    else if s.body.typ % 16 in {6, 7, 11} then UnsupportedBase
    else MissingLength
  }

  /** The first record of those from j on that neither fits nor ends the group. */
  ghost predicate Spoils(syms: seq<Symbol>, j: nat, kind: TagKind, k: nat, why: Why) {
    && j <= k < |syms| && !FitsGroup(syms[k], kind) && !EndsGroup(syms[k]) && WhyNot(syms[k], kind) == why
    && forall l | j <= l < k :: FitsGroup(syms[l], kind)
  }

  /** Reading a group panics exactly at the first record that does not fit, or at the end of the records if
      all fit. */
  lemma {:induction false} GroupPanicsExactly(syms: seq<Symbol>, j: nat, kind: TagKind, why: Why)
    ensures GroupEnd(syms, j, kind) == Panicked(why)
      <==> (why == EndOfRecords && forall k | j <= k < |syms| :: FitsGroup(syms[k], kind))
           || exists k: nat :: Spoils(syms, j, kind, k, why)
    decreases |syms| - j
  {
    hide StepOf, FitsGroup, EndsGroup, BelongsTo;
    if j < |syms| {
      StepByNumber(syms[j], kind);
      EndFitsNot(syms[j], kind);
      MisfitIsDefinition(syms[j], kind);
      GroupPanicsExactly(syms, j + 1, kind, why);
      if FitsGroup(syms[j], kind) {
        forall k: nat ensures Spoils(syms, j, kind, k, why) <==> Spoils(syms, j + 1, kind, k, why) {
          SpoilsLater(syms, j, kind, k, why);
        }
        var next := j + 1;
        if k: nat :| Spoils(syms, next, kind, k, why) { assert Spoils(syms, j, kind, k, why); }
      } else if !EndsGroup(syms[j]) {
        if WhyNot(syms[j], kind) == why { assert Spoils(syms, j, kind, j, why); }
      }
    }
  }

  lemma MisfitIsDefinition(s: Symbol, kind: TagKind)
    ensures !FitsGroup(s, kind) ==> s.body.Def? || s.body.Def2?
  {
  }

  lemma SpoilsLater(syms: seq<Symbol>, j: nat, kind: TagKind, k: nat, why: Why)
    requires j < |syms| && FitsGroup(syms[j], kind)
    ensures Spoils(syms, j, kind, k, why) <==> Spoils(syms, j + 1, kind, k, why)
  {
    hide FitsGroup, EndsGroup;
  }

  /** A member of a group: of class 8, 11 or 16. */
  predicate IsMemberRecord(syms: seq<Symbol>, kind: TagKind, k: nat) {
    k < |syms| && (syms[k].body.Def? || (syms[k].body.Def2? && kind != EnumTag))
    && syms[k].body.class_ == if kind == StructTag then 8 else if kind == UnionTag then 11 else 16
  }

  /** A method of a struct: of class 18. */
  predicate IsMethodRecord(syms: seq<Symbol>, kind: TagKind, k: nat) {
    k < |syms| && kind == StructTag && syms[k].body.Def? && syms[k].body.class_ == 18
  }

  /** The first end marker from j on, or the end of the records. */
  predicate IsGroupStop(syms: seq<Symbol>, j: nat, e: nat) {
    j <= e <= |syms| && (e < |syms| ==> EndsGroup(syms[e])) && forall k | j <= k < e :: !EndsGroup(syms[k])
  }

  /** The members and the methods of a group, each in order. */
  lemma {:induction false} MembersAre(syms: seq<Symbol>, j: nat, kind: TagKind) returns (e: nat)
    requires j <= |syms|
    ensures IsGroupStop(syms, j, e)
    ensures Selects(Members(syms, j, kind), j, e, (k: nat) => IsMemberRecord(syms, kind, k))
    ensures Selects(Methods(syms, j, kind), j, e, (k: nat) => IsMethodRecord(syms, kind, k))
    decreases |syms| - j
  {
    hide Selects;
    var isMember, isMethod :=
      (k: nat) => IsMemberRecord(syms, kind, k), (k: nat) => IsMethodRecord(syms, kind, k);
    if j == |syms| || EndsGroup(syms[j]) {
      e := j;
      SelectsNone(j, isMember);
      SelectsNone(j, isMethod);
    } else {
      e := MembersAre(syms, j + 1, kind);
      SelectsFirst(Members(syms, j + 1, kind), j, e, isMember);
      SelectsFirst(Methods(syms, j + 1, kind), j, e, isMethod);
    }
  }

  // ----- the type pass -----

  predicate Opens(s: Symbol, kind: TagKind) {
    s.body.Def? && s.body.class_ == Opening(kind)
  }

  /** The base number of the type word of a record that opens a group. */
  function OpeningBase(kind: TagKind): int {
    if kind == StructTag then 8 else if kind == UnionTag then 9 else 10
  }

  predicate DefinesType(s: Symbol) {
    (s.body.Def? || s.body.Def2?) && s.body.class_ == 13
  }

  /** The group that record i opens is read to its end. */
  ghost predicate GroupReads(syms: seq<Symbol>, i: nat, kind: TagKind)
    requires i < |syms|
  {
    && (syms[i].body.Def? ==> syms[i].body.typ % 16 == OpeningBase(kind))
    && var first := i + 1; exists e: nat :: GroupUpTo(syms, first, kind, e)
  }

  /** Record i is none at which the type pass fails. */
  ghost predicate TurnFine(syms: seq<Symbol>, i: nat)
    requires i < |syms|
  {
    && (forall kind: TagKind :: Opens(syms[i], kind) ==> GroupReads(syms, i, kind))
    && (DefinesType(syms[i]) ==> HasType(syms[i]))
  }

  lemma GroupIsRead(syms: seq<Symbol>, i: nat, kind: TagKind)
    requires OpensKind(syms, i, kind)
    ensures GroupOutcome(syms, i, kind).Good? <==> GroupReads(syms, i, kind)
  {
    hide GroupEnd, EndsGroup, FitsGroup;
    if GroupEnd(syms, i + 1, kind).Good? {
      GroupEndsExactly(syms, i + 1, kind, GroupEnd(syms, i + 1, kind).value);
    }
    if GroupReads(syms, i, kind) {
      var e: nat :| GroupUpTo(syms, i + 1, kind, e);
      GroupEndsExactly(syms, i + 1, kind, e);
    }
  }

  lemma TurnIsFine(syms: seq<Symbol>, i: nat)
    requires i < |syms|
    ensures TurnOutcome(syms, i).Good? <==> TurnFine(syms, i)
  {
    hide GroupOutcome, GroupReads, HasType, RecordType;
    forall kind: TagKind ensures Opens(syms[i], kind) <==> OpensKind(syms, i, kind) {}
    if OpensKind(syms, i, StructTag) { GroupIsRead(syms, i, StructTag); }
    if OpensKind(syms, i, UnionTag) { GroupIsRead(syms, i, UnionTag); }
    if OpensKind(syms, i, EnumTag) { GroupIsRead(syms, i, EnumTag); }
    if DefinesType(syms[i]) { TypeOfRecord(syms[i]); }
  }

  /** No record inside a group that is read is a turn of its own that could fail. */
  lemma InsideIsFine(syms: seq<Symbol>, i: nat, k: nat)
    requires i < |syms| && TurnOutcome(syms, i).Good? && i < k < TurnOutcome(syms, i).value
    ensures TurnOutcome(syms, k).Good?
  {
    hide GroupEnd;
    var kind := if OpensKind(syms, i, StructTag) then StructTag else if OpensKind(syms, i, UnionTag) then UnionTag
      else EnumTag;
    GroupsDoNotNest(syms, i + 1, kind);
  }

  lemma {:induction false} AllTurns(syms: seq<Symbol>, i: nat)
    ensures TypesOutcome(syms, i).Good? <==> forall k | i <= k < |syms| :: TurnOutcome(syms, k).Good?
    decreases |syms| - i
  {
    hide TurnOutcome;
    if i < |syms| && TurnOutcome(syms, i).Good? {
      var next := TurnOutcome(syms, i).value;
      AllTurns(syms, next);
      forall k | i < k < next ensures TurnOutcome(syms, k).Good? { InsideIsFine(syms, i, k); }
    }
  }

  /** The type pass succeeds exactly if every record that opens a group, wherever it stands, has the base of
      its kind and a group that can be read to its end, and every type definition has a type. */
  lemma TypesSucceedExactly(syms: seq<Symbol>)
    ensures TypesOutcome(syms, 0).Good? <==> forall i | 0 <= i < |syms| :: TurnFine(syms, i)
  {
    hide TurnOutcome, TurnFine;
    AllTurns(syms, 0);
    forall i | 0 <= i < |syms| ensures TurnOutcome(syms, i).Good? <==> TurnFine(syms, i) { TurnIsFine(syms, i); }
  }

  /** The type definitions are the definitions of class 13, in order. */
  lemma {:induction false} TypedefsAre(syms: seq<Symbol>, n: nat)
    requires n <= |syms|
    ensures Selects(TypedefRecords(syms, n), 0, n, (k: nat) => k < |syms| && DefinesType(syms[k]))
  {
    hide Selects;
    var has := (k: nat) => k < |syms| && DefinesType(syms[k]);
    if n == 0 {
      SelectsNone(0, has);
    } else {
      TypedefsAre(syms, n - 1);
      SelectsLast(TypedefRecords(syms, n - 1), 0, n - 1, has);
    }
  }

  /** The types made first are made for the short definitions of class 10, 12 or 15, in order. */
  lemma {:induction false} OpenersAre(syms: seq<Symbol>, n: nat, kind: TagKind)
    requires n <= |syms|
    ensures Selects(Openers(syms, n, kind), 0, n, (k: nat) => k < |syms| && Opens(syms[k], kind))
  {
    hide Selects;
    var has := (k: nat) => k < |syms| && Opens(syms[k], kind);
    if n == 0 {
      SelectsNone(0, has);
    } else {
      OpenersAre(syms, n - 1, kind);
      SelectsLast(Openers(syms, n - 1, kind), 0, n - 1, has);
    }
  }

  // ----- the declaration pass -----

  /** A definition that the main loop of the declaration pass passes over. */
  predicate PassesOver(s: Symbol) {
    || (s.body.Def? && s.body.class_ in {8, 10, 11, 12, 13, 15, 16, 18, 0x67})
    || (s.body.Def2? && s.body.class_ in {8, 11, 13, 16, 18, 0x66})
  }

  /** A definition that declares a global: external (2) or static (3). */
  predicate DeclaresGlobal(s: Symbol) {
    (s.body.Def? || s.body.Def2?) && s.body.class_ in {2, 3}
  }

  /** A definition that can stand in a function body: of class 1 to 4, 6, 9, 13 or 17, with a type. */
  predicate FitsBody(s: Symbol) {
    || s.body.BlockStart? || s.body.BlockEnd?
    || ((s.body.Def? || s.body.Def2?) && s.body.class_ in {1, 2, 3, 4, 6, 9, 13, 17} && HasType(s))
  }

  lemma FitsByNumber(s: Symbol)
    ensures FitsBody(s) <==> InBody(s) && (IsDecl(s) ==> DeclOutcome(s).Good?)
  {
    hide HasType, RecordType;
    if IsDecl(s) {
      TypeOfRecord(s);
      StorageByNumber(s.body.class_);
    }
  }

  lemma {:induction false} RunFits(syms: seq<Symbol>, taken: seq<string>, m: Machine, i: nat, j: nat)
    requires i <= j <= |syms| && Run(syms, taken, m, i, j).Good?
    ensures forall k | i <= k < j :: FitsBody(syms[k])
    decreases j - i
  {
    hide FitsBody;
    if i < j {
      StepFits(syms, taken, m, i);
      RunFits(syms, taken, Step(syms, taken, m, i).value, i + 1, j);
    }
  }

  lemma StepFits(syms: seq<Symbol>, taken: seq<string>, m: Machine, i: nat)
    requires i < |syms| && Step(syms, taken, m, i).Good?
    ensures FitsBody(syms[i])
  {
    hide DeclOutcome, AddDecl, Open, Close;
    FitsByNumber(syms[i]);
  }

  /** A body is read to its end exactly if every record fits, and no stretch from its start ends more blocks
      than it starts. */
  lemma BodyReadsExactly(syms: seq<Symbol>, taken: seq<string>, i: nat, j: nat)
    requires i <= j <= |syms|
    ensures Run(syms, taken, START, i, j).Good?
      <==> (forall k | i <= k < j :: FitsBody(syms[k])) && forall k | i <= k <= j :: Depth(syms, i, k) >= 0
  {
    hide FitsBody, Run, InBody, DeclOutcome;
    if Run(syms, taken, START, i, j).Good? { RunFits(syms, taken, START, i, j); }
    if forall k | i <= k < j :: FitsBody(syms[k]) {
      forall k | i <= k < j ensures InBody(syms[k]) && (IsDecl(syms[k]) ==> DeclOutcome(syms[k]).Good?) {
        FitsByNumber(syms[k]);
      }
      ClosesOnlyOpenBlocks(syms, taken, i, j);
    }
  }

  /** Where one record of the main loop, if it starts no function and no line numbers and selects no
      overlay, makes the program panic, and where it does not. */
  lemma PlainByNumber(syms: seq<Symbol>, tops: seq<nat>, i: nat)
    requires i < |syms|
    requires !syms[i].body.FuncStart? && !syms[i].body.SetSLD2? && !syms[i].body.SetOverlay?
    ensures var s := syms[i];
      PlainOutcome(syms, tops, i).Good?
      <==> s.body.Name1? || s.body.Name2? || s.body.EndSLD? || s.body.Overlay? || PassesOver(s)
           || (DeclaresGlobal(s) && HasType(s))
    ensures PlainOutcome(syms, tops, i).Good? ==> PlainOutcome(syms, tops, i).value == i + 1
  {
    hide HasType, RecordType;
    if DeclaresGlobal(syms[i]) { TypeOfRecord(syms[i]); }
  }
}

// What a run makes of each function: where it comes from, which bodies it was read from, and what they
// leave in it (csym/parse_decls.go).

module FuncRun {
  import opened Ints
  import opened Records
  import C = CTypes
  import opened TypeGraph
  import opened Naming
  import opened Spelling
  import opened Csym
  import opened TypesState
  import opened TagGroups
  import opened GroupScan
  import opened BlockTree
  import opened DeclState
  import opened DeclLists
  import opened GlobalDecls
  import opened FuncBodies
  import PF = ParseFunc
  import opened OverlayRun

  // ----- registrations -----

  /** A name and an address a function is registered under. */
  datatype Registration = Registration(key: string, addr: uint32)

  function RegistrationOf(syms: seq<Symbol>, i: nat): Registration {
    if i < |syms| && (IsDecl(syms[i]) || syms[i].body.FuncStart?)
    then Registration(ValidName(syms[i].body.name), syms[i].hdr.value) else Registration("", 0)
  }

  predicate IsRegistered(syms: seq<Symbol>, ps: seq<nat>, e: Registration) {
    exists j | 0 <= j < |ps| :: RegistrationOf(syms, ps[j]) == e
  }

  /** Whether a record adds a function: a global declaration of one always does, the start of one only if
      there is none yet under its name and address. */
  predicate Registers(syms: seq<Symbol>, i: nat, ps: seq<nat>)
    requires i < |syms|
  {
    || (IsGlobal(syms[i]) && IsFuncWord(syms[i].body.typ))
    || (syms[i].body.FuncStart? && !IsRegistered(syms, ps, RegistrationOf(syms, i)))
  }

  /** The records that add the functions of overlay k, in order. */
  function FuncsOf(syms: seq<Symbol>, tops: seq<nat>, k: nat): seq<nat> {
    if tops == [] then []
    else
      var before, i := tops[..|tops| - 1], tops[|tops| - 1];
      var ps := FuncsOf(syms, before, k);
      if i < |syms| && Selected(syms, before) == k && Registers(syms, i, ps) then ps + [i] else ps
  }

  // ----- bodies -----

  /** The start line a function has after these bodies. */
  function StartLine(syms: seq<Symbol>, rs: seq<nat>): uint32 {
    if rs == [] then 0
    else if rs[|rs| - 1] < |syms| && syms[rs[|rs| - 1]].body.FuncStart? then syms[rs[|rs| - 1]].body.line else 0
  }

  /** The function starts in overlay k whose bodies are read into the function registered so: all, until
      one gives it a start line other than 0. */
  function Reads(syms: seq<Symbol>, tops: seq<nat>, k: nat, e: Registration): seq<nat> {
    if tops == [] then []
    else
      var before, i := tops[..|tops| - 1], tops[|tops| - 1];
      var rs := Reads(syms, before, k, e);
      if i < |syms| && syms[i].body.FuncStart? && Selected(syms, before) == k && RegistrationOf(syms, i) == e
        && StartLine(syms, rs) == 0 then rs + [i] else rs
  }

  /** The blocks and the parameters the bodies leave in a function. */
  datatype Story = Story(blocks: seq<Blk>, params: seq<nat>)

  function NamesOf(syms: seq<Symbol>, ds: seq<nat>): (names: seq<string>)
    ensures |names| == |ds|
  {
    seq(|ds|, k requires 0 <= k < |ds| => NameAtRecord(syms, ds[k]))
  }

  function BodyRunFrom(syms: seq<Symbol>, taken: seq<string>, i: nat): Outcome<Machine> {
    if i < |syms| then Run(syms, taken, START, i + 1, PF.EndFrom(syms, i + 1)) else Panicked(EndOfRecords)
  }

  /** One body after the other: its blocks come after those before, its parameters too, where their
      names are new. */
  function StoryOf(syms: seq<Symbol>, rs: seq<nat>): Story {
    if rs == [] then Story([], [])
    else
      var before := StoryOf(syms, rs[..|rs| - 1]);
      match BodyRunFrom(syms, NamesOf(syms, before.params), rs[|rs| - 1])
      case Panicked(_) => before
      case Good(m) => Story(before.blocks + m.blocks, before.params + m.params)
  }

  function PathAfter(syms: seq<Symbol>, rs: seq<nat>): string {
    if rs != [] && rs[|rs| - 1] < |syms| && syms[rs[|rs| - 1]].body.FuncStart? then syms[rs[|rs| - 1]].body.path else ""
  }

  function EndLine(syms: seq<Symbol>, rs: seq<nat>): uint32 {
    if rs == [] || rs[|rs| - 1] >= |syms| then 0
    else
      var e := PF.EndFrom(syms, rs[|rs| - 1] + 1);
      if e < |syms| then syms[e].body.line else 0
  }

  // ----- what a function holds -----

  /** The content of a function object. */
  datatype FuncVal = FuncVal(v: C.Var, path: string, lineStart: uint32, lineEnd: uint32, blocks: seq<Content>,
    params: seq<C.Node>)

  /** The fields of a function object. */
  datatype FuncFields = FuncFields(v: C.Var, path: string, lineStart: uint32, lineEnd: uint32, blocks: seq<C.Block>)

  ghost function FuncFieldsOf(f: C.FuncDecl): FuncFields
    reads f
  {
    FuncFields(f.v, f.path, f.lineStart, f.lineEnd, f.blocks)
  }

  type BlockVals = map<C.Block, Content>

  ghost function AllContents(blocks: set<C.Block>): BlockVals
    reads blocks
  {
    map b | b in blocks :: ContentOf(b)
  }

  ghost function ContentsIn(bs: seq<C.Block>, cs: BlockVals): (r: seq<Content>)
    ensures |r| == |bs|
  {
    seq(|bs|, k requires 0 <= k < |bs| => if bs[k] in cs then cs[bs[k]] else Content(0, 0, []))
  }

  ghost function ParamsIn(t: C.Type, g: Graph): seq<C.Node> {
    if t.Ref? && t.node in g && g[t.node].Func? then g[t.node].params else []
  }

  /** What a function holds, with its blocks and its type looked up. */
  ghost function Assembled(x: FuncFields, cs: BlockVals, g: Graph): FuncVal {
    FuncVal(x.v, x.path, x.lineStart, x.lineEnd, ContentsIn(x.blocks, cs), ParamsIn(x.v.typ, g))
  }

  type FuncVals = map<C.FuncDecl, FuncVal>

  /** What every function holds. */
  ghost function Values(p: Parser): FuncVals
    reads p`funcs, p`blocks, p`nodes, p.funcs, p.blocks, p.nodes
  {
    map f | f in p.funcs :: Assembled(FuncFieldsOf(f), AllContents(p.blocks), Snap(p.nodes))
  }

  /** The name of a function that a body has added: with its address, if the name was in use. */
  predicate IsStubName(name: string, syms: seq<Symbol>, ps: seq<nat>, j: nat)
    requires j < |ps|
  {
    var e := RegistrationOf(syms, ps[j]);
    if exists l | 0 <= l < j :: RegistrationOf(syms, ps[l]).key == e.key then IsAddressName(name, e.key, e.addr)
    else name == e.key
  }

  /** The name, size and type its first record gives a function. */
  ghost predicate OriginMatches(v: State, size: uint32, x: FuncVal, syms: seq<Symbol>, ps: seq<nat>, j: nat)
    requires j < |ps|
  {
    ps[j] < |syms| &&
    var s := syms[ps[j]];
    if IsDecl(s) then
      && size == s.body.size && x.v.name == ValidName(s.body.name)
      && TypeMatches(v, x.v.typ, s.body.typ, DimsOf(s), TagTextOf(s))
    else
      && size == 0 && IsStubName(x.v.name, syms, ps, j)
      && x.v.typ.Ref? && x.v.typ.node in v.g && v.g[x.v.typ.node] == C.Func(C.Basic(C.Void), [], false)
  }

  /** Path, lines, blocks and parameters are those of the bodies read. */
  ghost predicate Tells(v: State, x: FuncVal, syms: seq<Symbol>, rs: seq<nat>) {
    && x.path == PathAfter(syms, rs) && x.lineStart == StartLine(syms, rs) && x.lineEnd == EndLine(syms, rs)
    && var story := StoryOf(syms, rs);
       BodyMatches(v, x.blocks, x.params, Machine(story.blocks, [], Cursor.NoBlock, story.params), syms)
  }

  /** A well-nested body adds the blocks of its tree in preorder, and the first declaration outside all
      blocks of every name that is not a parameter yet. */
  lemma WellNestedStory(syms: seq<Symbol>, rs: seq<nat>, i: nat) returns (items: seq<Item>)
    requires i < |syms| && WellNested(syms, i + 1, PF.EndFrom(syms, i + 1))
      && DeclsFine(syms, i + 1, PF.EndFrom(syms, i + 1))
    ensures Spells(syms, items, i + 1, PF.EndFrom(syms, i + 1))
    ensures var before := StoryOf(syms, rs);
      StoryOf(syms, rs + [i])
      == Story(before.blocks + Preorder(syms, items),
        before.params + Firsts(syms, NamesOf(syms, before.params), Locals(items)))
  {
    hide Run, Preorder, Firsts, WellNested, Spells, DeclsFine;
    var e := PF.EndFrom(syms, i + 1);
    items := WellNestedHasTree(syms, i + 1, e);
    assert (rs + [i])[..|rs + [i]| - 1] == rs;
    BodyRun(syms, NamesOf(syms, StoryOf(syms, rs).params), items, i + 1, e);
  }

  lemma NothingTold(syms: seq<Symbol>)
    ensures StoryOf(syms, []) == Story([], []) && NamesOf(syms, []) == []
  {
  }

  lemma OnlyBody(syms: seq<Symbol>, i: nat, blocks: seq<Blk>, params: seq<nat>)
    requires StoryOf(syms, [] + [i]) == Story([] + blocks, [] + params)
    ensures StoryOf(syms, [i]) == Story(blocks, params)
  {
    assert [] + [i] == [i] && [] + blocks == blocks && [] + params == params;
  }

  /** A function read once, from a well-nested body, holds the blocks of its tree in preorder, with their
      lines and locals, and the parameters in front of and between them. */
  lemma HoldsTree(v: State, x: FuncVal, syms: seq<Symbol>, i: nat) returns (items: seq<Item>)
    requires Tells(v, x, syms, [i]) && i < |syms|
    requires WellNested(syms, i + 1, PF.EndFrom(syms, i + 1)) && DeclsFine(syms, i + 1, PF.EndFrom(syms, i + 1))
    ensures Spells(syms, items, i + 1, PF.EndFrom(syms, i + 1))
    ensures BodyMatches(v, x.blocks, x.params,
      Machine(Preorder(syms, items), [], Cursor.NoBlock, Firsts(syms, [], Locals(items))), syms)
  {
    hide Preorder, Firsts, WellNested, Spells, DeclsFine, BodyMatches, StoryOf, NamesOf;
    items := WellNestedStory(syms, [], i);
    NothingTold(syms);
    OnlyBody(syms, i, Preorder(syms, items), Firsts(syms, [], Locals(items)));
  }

  /** The bodies of function j: those of its registration, if it is the first registered so. */
  function ReadsOf(syms: seq<Symbol>, tops: seq<nat>, k: nat, ps: seq<nat>, j: nat): seq<nat>
    requires j < |ps|
  {
    if IsRegistered(syms, ps[..j], RegistrationOf(syms, ps[j])) then []
    else Reads(syms, tops, k, RegistrationOf(syms, ps[j]))
  }

  ghost predicate FuncHolds(v: State, vals: FuncVals, f: C.FuncDecl, syms: seq<Symbol>, tops: seq<nat>, k: nat,
    ps: seq<nat>, j: nat)
    requires j < |ps|
  {
    f in vals && OriginMatches(v, f.size, vals[f], syms, ps, j)
      && Tells(v, vals[f], syms, ReadsOf(syms, tops, k, ps, j))
  }

  /** Function j is registered, and holds what the records say. */
  ghost predicate FuncsHold(v: State, vals: FuncVals, fs: seq<C.FuncDecl>, syms: seq<Symbol>, tops: seq<nat>, k: nat,
    ps: seq<nat>) {
    |fs| == |ps| && forall j | 0 <= j < |fs| :: FuncHolds(v, vals, fs[j], syms, tops, k, ps, j)
  }

  /** Names and addresses are those of the registrations. */
  predicate FuncsMatch(fs: seq<C.FuncDecl>, keys: seq<string>, syms: seq<Symbol>, ps: seq<nat>) {
    |fs| == |ps| == |keys| && forall j | 0 <= j < |ps| ::
      Registration(keys[j], fs[j].addr) == RegistrationOf(syms, ps[j])
  }

  // ----- a record more -----

  lemma OneMoreRead(syms: seq<Symbol>, tops: seq<nat>, i: nat, k: nat, e: Registration)
    requires i < |syms|
    ensures var rs := Reads(syms, tops, k, e);
      Reads(syms, tops + [i], k, e)
      == if syms[i].body.FuncStart? && Selected(syms, tops) == k && RegistrationOf(syms, i) == e
        && StartLine(syms, rs) == 0
         then rs + [i] else rs
  {
    Last(tops, i);
    hide Selected, RegistrationOf, StartLine;
  }

  lemma OneMoreFunc(syms: seq<Symbol>, tops: seq<nat>, i: nat, k: nat)
    requires i < |syms|
    ensures var ps := FuncsOf(syms, tops, k);
      FuncsOf(syms, tops + [i], k) == if Selected(syms, tops) == k && Registers(syms, i, ps) then ps + [i] else ps
  {
    Last(tops, i);
    hide Selected, Registers;
  }

  lemma MoreRegistered(syms: seq<Symbol>, ps: seq<nat>, i: nat, e: Registration)
    ensures IsRegistered(syms, ps + [i], e) <==> IsRegistered(syms, ps, e) || RegistrationOf(syms, i) == e
  {
    var qs := ps + [i];
    assert forall j | 0 <= j < |ps| :: qs[j] == ps[j];
    assert qs[|ps|] == i;
    if IsRegistered(syms, ps, e) {
      var j :| 0 <= j < |ps| && RegistrationOf(syms, ps[j]) == e;
      assert RegistrationOf(syms, qs[j]) == e;
    }
  }

  /** Only what is registered has been read. */
  lemma {:induction false} ReadIsRegistered(syms: seq<Symbol>, tops: seq<nat>, k: nat, e: Registration)
    requires Reads(syms, tops, k, e) != []
    ensures IsRegistered(syms, FuncsOf(syms, tops, k), e)
  {
    hide RegistrationOf, Selected, IsRegistered, StartLine;
    var before, i := tops[..|tops| - 1], tops[|tops| - 1];
    var ps := FuncsOf(syms, before, k);
    if Reads(syms, before, k, e) != [] { ReadIsRegistered(syms, before, k, e); }
    MoreRegistered(syms, ps, i, e);
  }

  lemma OriginStays(v: State, w: State, size: uint32, x: FuncVal, syms: seq<Symbol>, ps: seq<nat>, j: nat)
    requires j < |ps| && OriginMatches(v, size, x, syms, ps, j) && Grows(v, w)
    ensures OriginMatches(w, size, x, syms, ps, j)
  {
    var s := syms[ps[j]];
    if IsDecl(s) {
      TypeMatchesStays(v, w, x.v.typ, s.body.typ, DimsOf(s), TagTextOf(s));
    } else {
      assert Kept(v.g[x.v.typ.node], w.g[x.v.typ.node]);
    }
  }

  lemma TellsStays(v: State, w: State, x: FuncVal, syms: seq<Symbol>, rs: seq<nat>)
    requires Tells(v, x, syms, rs) && Grows(v, w)
    ensures Tells(w, x, syms, rs)
  {
    hide Grows, BodyMatches, StoryOf, EndLine;
    var story := StoryOf(syms, rs);
    BodyMatchesStays(v, w, x.blocks, x.params, Machine(story.blocks, [], Cursor.NoBlock, story.params), syms);
  }

  /** A function whose value, bodies and place in the list stay. */
  lemma FuncHoldsStays(v: State, w: State, vals: FuncVals, vals': FuncVals, f: C.FuncDecl, syms: seq<Symbol>,
    tops: seq<nat>, tops': seq<nat>, k: nat, ps: seq<nat>, ps': seq<nat>, j: nat)
    requires j < |ps| <= |ps'| && ps'[..|ps|] == ps && FuncHolds(v, vals, f, syms, tops, k, ps, j) && Grows(v, w)
    requires f in vals' && vals'[f] == vals[f]
    requires ReadsOf(syms, tops', k, ps', j) == ReadsOf(syms, tops, k, ps, j)
    ensures FuncHolds(w, vals', f, syms, tops', k, ps', j)
  {
    hide Grows, Tells, OriginMatches, RegistrationOf, ReadsOf;
    OriginStays(v, w, f.size, vals[f], syms, ps, j);
    TellsStays(v, w, vals[f], syms, ReadsOf(syms, tops, k, ps, j));
    SameOrigin(w, f.size, vals[f], syms, ps, ps', j);
  }

  lemma SameOrigin(v: State, size: uint32, x: FuncVal, syms: seq<Symbol>, ps: seq<nat>, ps': seq<nat>, j: nat)
    requires j < |ps| <= |ps'| && ps'[..|ps|] == ps && OriginMatches(v, size, x, syms, ps, j)
    ensures OriginMatches(v, size, x, syms, ps', j)
  {
    hide RegistrationOf, TypeMatches;
    assert forall l | 0 <= l <= j :: ps'[l] == ps[l];
    assert forall name :: IsStubName(name, syms, ps', j) <==> IsStubName(name, syms, ps, j);
  }

  /** These functions have their values in both. */
  ghost predicate SameValues(vals: FuncVals, vals': FuncVals, fs: seq<C.FuncDecl>) {
    forall f | f in fs :: f in vals && f in vals' && vals'[f] == vals[f]
  }

  /** A record that reads nothing into the functions of this overlay. */
  predicate IsElsewhere(syms: seq<Symbol>, tops: seq<nat>, i: nat, k: nat)
    requires i < |syms|
  {
    k != Selected(syms, tops) || !syms[i].body.FuncStart?
  }

  lemma ElsewhereReadsSame(syms: seq<Symbol>, tops: seq<nat>, i: nat, k: nat, ps: seq<nat>, ps': seq<nat>, j: nat)
    requires i < |syms| && IsElsewhere(syms, tops, i, k) && j < |ps| <= |ps'| && ps'[..|ps|] == ps
    ensures ReadsOf(syms, tops + [i], k, ps', j) == ReadsOf(syms, tops, k, ps, j)
  {
    hide Selected, RegistrationOf, Reads, StartLine;
    assert ps'[..j] == ps[..j] && ps'[j] == ps[j];
    OneMoreRead(syms, tops, i, k, RegistrationOf(syms, ps[j]));
  }

  lemma ElsewhereHolds(v: State, w: State, vals: FuncVals, vals': FuncVals, fs: seq<C.FuncDecl>, syms: seq<Symbol>,
    tops: seq<nat>, i: nat, k: nat, ps: seq<nat>)
    requires FuncsHold(v, vals, fs, syms, tops, k, ps) && Grows(v, w) && SameValues(vals, vals', fs)
    requires i < |syms| && IsElsewhere(syms, tops, i, k)
    ensures FuncsHold(w, vals', fs, syms, tops + [i], k, ps)
  {
    hide FuncHolds, Grows, IsElsewhere, ReadsOf;
    forall j | 0 <= j < |fs| ensures FuncHolds(w, vals', fs[j], syms, tops + [i], k, ps, j) {
      assert FuncHolds(v, vals, fs[j], syms, tops, k, ps, j) && fs[j] in fs;
      ElsewhereReadsSame(syms, tops, i, k, ps, ps, j);
      FuncHoldsStays(v, w, vals, vals', fs[j], syms, tops, tops + [i], k, ps, ps, j);
    }
  }

  /** The value of a function with nothing in it yet. */
  predicate IsUnread(x: FuncVal) {
    x.path == "" && x.lineStart == 0 && x.lineEnd == 0 && x.blocks == [] && x.params == []
  }

  lemma UnreadTells(v: State, x: FuncVal, syms: seq<Symbol>)
    requires IsUnread(x)
    ensures Tells(v, x, syms, [])
  {
  }

  /** A function declared: nothing has been read into it. */
  lemma DeclaredHolds(v: State, w: State, vals: FuncVals, vals': FuncVals, fs: seq<C.FuncDecl>, f: C.FuncDecl,
    syms: seq<Symbol>,
    tops: seq<nat>, i: nat, k: nat, ps: seq<nat>)
    requires FuncsHold(v, vals, fs, syms, tops, k, ps) && Grows(v, w) && SameValues(vals, vals', fs)
    requires i < |syms| && IsDecl(syms[i]) && ps == FuncsOf(syms, tops, k)
    requires f in vals' && IsUnread(vals'[f]) && OriginMatches(w, f.size, vals'[f], syms, ps + [i], |ps|)
    ensures FuncsHold(w, vals', fs + [f], syms, tops + [i], k, ps + [i])
  {
    hide FuncHolds, Grows, ReadsOf, OriginMatches, FuncsOf;
    var qs := ps + [i];
    forall j | 0 <= j < |fs + [f]| ensures FuncHolds(w, vals', (fs + [f])[j], syms, tops + [i], k, qs, j) {
      if j < |fs| {
        assert FuncHolds(v, vals, fs[j], syms, tops, k, ps, j) && fs[j] in fs;
        ElsewhereReadsSame(syms, tops, i, k, ps, qs, j);
        FuncHoldsStays(v, w, vals, vals', fs[j], syms, tops, tops + [i], k, ps, qs, j);
      } else {
        NothingReadInto(syms, tops, i, k, ps);
        UnreadTells(w, vals'[f], syms);
        HoldsNow(w, vals', f, syms, tops + [i], k, qs, j);
      }
    }
  }

  lemma HoldsNow(v: State, vals: FuncVals, f: C.FuncDecl, syms: seq<Symbol>, tops: seq<nat>, k: nat, ps: seq<nat>,
    j: nat)
    requires j < |ps| && f in vals && OriginMatches(v, f.size, vals[f], syms, ps, j)
      && Tells(v, vals[f], syms, ReadsOf(syms, tops, k, ps, j))
    ensures FuncHolds(v, vals, f, syms, tops, k, ps, j)
  {
  }

  lemma NothingReadInto(syms: seq<Symbol>, tops: seq<nat>, i: nat, k: nat, ps: seq<nat>)
    requires i < |syms| && !syms[i].body.FuncStart? && ps == FuncsOf(syms, tops, k)
    ensures ReadsOf(syms, tops + [i], k, ps + [i], |ps|) == []
  {
    hide FuncsOf, Reads, RegistrationOf, IsRegistered;
    var e := RegistrationOf(syms, i);
    assert (ps + [i])[..|ps|] == ps && (ps + [i])[|ps|] == i;
    if !IsRegistered(syms, ps, e) {
      if Reads(syms, tops, k, e) != [] { ReadIsRegistered(syms, tops, k, e); }
      OneMoreRead(syms, tops, i, k, e);
    }
  }

  // ----- reading a body into a function -----

  lemma DeclsMatchTogether(v: State, ns: seq<C.Node>, ms: seq<C.Node>, syms: seq<Symbol>, ds: seq<nat>, es: seq<nat>)
    requires DeclsMatch(v, ns, syms, ds) && DeclsMatch(v, ms, syms, es)
    ensures DeclsMatch(v, ns + ms, syms, ds + es)
  {
    hide DeclMatches;
  }

  lemma BodiesMatchTogether(v: State, cs: seq<Content>, ps: seq<C.Node>, m: Machine, ds: seq<Content>, qs: seq<C.Node>,
    n: Machine,
    all: Machine, syms: seq<Symbol>)
    requires BodyMatches(v, cs, ps, m, syms) && BodyMatches(v, ds, qs, n, syms)
    requires all.blocks == m.blocks + n.blocks && all.params == m.params + n.params
    ensures BodyMatches(v, cs + ds, ps + qs, all, syms)
  {
    hide DeclsMatch;
    DeclsMatchTogether(v, ps, qs, syms, m.params, n.params);
    forall k | 0 <= k < |cs + ds| ensures BlockMatches(v, (cs + ds)[k], all.blocks[k], syms) {
      if k < |cs| {
        assert BlockMatches(v, cs[k], m.blocks[k], syms);
      } else {
        assert BlockMatches(v, ds[k - |cs|], n.blocks[k - |cs|], syms);
      }
    }
  }

  /** The value x' is x with the body of the function start at i read into it. */
  ghost predicate IsReadInto(w: State, x: FuncVal, x': FuncVal, syms: seq<Symbol>, i: nat, taken: seq<string>,
    cs: seq<Content>, qs: seq<C.Node>, m: Machine) {
    && i < |syms| && syms[i].body.FuncStart? && BodyRunFrom(syms, taken, i) == Good(m)
    && BodyMatches(w, cs, qs, m, syms)
    && x'.v == x.v && x'.path == syms[i].body.path && x'.lineStart == syms[i].body.line
    && x'.lineEnd == EndLine(syms, [i])
    && x'.blocks == x.blocks + cs && x'.params == x.params + qs
  }

  lemma ReadTells(v: State, w: State, x: FuncVal, x': FuncVal, syms: seq<Symbol>, rs: seq<nat>, i: nat,
    cs: seq<Content>, qs: seq<C.Node>, m: Machine)
    requires Tells(v, x, syms, rs) && Grows(v, w)
    requires IsReadInto(w, x, x', syms, i, NamesOf(syms, StoryOf(syms, rs).params), cs, qs, m)
    ensures Tells(w, x', syms, rs + [i])
  {
    hide Grows, BodyMatches, BodyRunFrom;
    var all := rs + [i];
    assert all[..|all| - 1] == rs && all[|all| - 1] == i && [i][0] == i;
    TellsStays(v, w, x, syms, rs);
    var before, after := StoryOf(syms, rs), StoryOf(syms, all);
    BodiesMatchTogether(w, x.blocks, x.params, Machine(before.blocks, [], Cursor.NoBlock, before.params), cs, qs, m,
      Machine(after.blocks, [], Cursor.NoBlock, after.params), syms);
  }

  /** Reading into the first function of a registration leaves the bodies of all others. */
  lemma OtherReadsSame(syms: seq<Symbol>, tops: seq<nat>, i: nat, k: nat, ps: seq<nat>, ps': seq<nat>, j: nat)
    requires i < |syms| && j < |ps| <= |ps'| && ps'[..|ps|] == ps
    requires IsRegistered(syms, ps[..j], RegistrationOf(syms, ps[j]))
      || RegistrationOf(syms, ps[j]) != RegistrationOf(syms, i)
      || StartLine(syms, Reads(syms, tops, k, RegistrationOf(syms, ps[j]))) != 0
    ensures ReadsOf(syms, tops + [i], k, ps', j) == ReadsOf(syms, tops, k, ps, j)
  {
    hide Selected, RegistrationOf, Reads, StartLine;
    assert ps'[..j] == ps[..j] && ps'[j] == ps[j];
    OneMoreRead(syms, tops, i, k, RegistrationOf(syms, ps[j]));
  }

  /** A function that starts again and is skipped. */
  lemma SkippedHolds(v: State, w: State, vals: FuncVals, vals': FuncVals, fs: seq<C.FuncDecl>, syms: seq<Symbol>,
    tops: seq<nat>, i: nat, k: nat, ps: seq<nat>)
    requires FuncsHold(v, vals, fs, syms, tops, k, ps) && Grows(v, w) && SameValues(vals, vals', fs) && i < |syms|
    requires StartLine(syms, Reads(syms, tops, k, RegistrationOf(syms, i))) != 0
    ensures FuncsHold(w, vals', fs, syms, tops + [i], k, ps)
  {
    hide FuncHolds, Grows, ReadsOf, StartLine, RegistrationOf, Reads;
    forall j | 0 <= j < |fs| ensures FuncHolds(w, vals', fs[j], syms, tops + [i], k, ps, j) {
      assert FuncHolds(v, vals, fs[j], syms, tops, k, ps, j) && fs[j] in fs;
      OtherReadsSame(syms, tops, i, k, ps, ps, j);
      FuncHoldsStays(v, w, vals, vals', fs[j], syms, tops, tops + [i], k, ps, ps, j);
    }
  }

  /** The first function of its registration. */
  predicate IsFirstOf(syms: seq<Symbol>, ps: seq<nat>, e: Registration, j: nat) {
    j < |ps| && RegistrationOf(syms, ps[j]) == e && !IsRegistered(syms, ps[..j], e)
  }

  lemma LaterIsRegistered(syms: seq<Symbol>, ps: seq<nat>, e: Registration, first: nat, j: nat)
    requires IsFirstOf(syms, ps, e, first) && j < |ps| && j != first && RegistrationOf(syms, ps[j]) == e
    ensures IsRegistered(syms, ps[..j], e)
  {
    if j > first { assert ps[..j][first] == ps[first]; }
  }

  /** A function that is there, and that a body is read into. */
  lemma ReadHolds(v: State, w: State, vals: FuncVals, vals': FuncVals, fs: seq<C.FuncDecl>, syms: seq<Symbol>,
    tops: seq<nat>, i: nat, k: nat, ps: seq<nat>, first: nat, cs: seq<Content>, qs: seq<C.Node>, m: Machine)
    requires FuncsHold(v, vals, fs, syms, tops, k, ps) && Grows(v, w) && i < |syms| && k == Selected(syms, tops)
      && syms[i].body.FuncStart?
    requires IsFirstOf(syms, ps, RegistrationOf(syms, i), first)
      && StartLine(syms, Reads(syms, tops, k, RegistrationOf(syms, i))) == 0
    requires forall j | 0 <= j < |fs| && j != first :: fs[j] in vals && fs[j] in vals' && vals'[fs[j]] == vals[fs[j]]
    requires fs[first] in vals && fs[first] in vals'
    requires IsReadInto(w, vals[fs[first]], vals'[fs[first]], syms, i,
      NamesOf(syms, StoryOf(syms, Reads(syms, tops, k, RegistrationOf(syms, i))).params), cs, qs, m)
    ensures FuncsHold(w, vals', fs, syms, tops + [i], k, ps)
  {
    hide FuncHolds, Grows, ReadsOf, StartLine, RegistrationOf, Reads, IsReadInto, Selected, IsRegistered;
    var e := RegistrationOf(syms, i);
    forall j | 0 <= j < |fs| ensures FuncHolds(w, vals', fs[j], syms, tops + [i], k, ps, j) {
      assert FuncHolds(v, vals, fs[j], syms, tops, k, ps, j);
      if j == first {
        OneMoreRead(syms, tops, i, k, e);
        FirstReads(syms, tops, k, ps, e, first);
        FirstReads(syms, tops + [i], k, ps, e, first);
        ReadIntoHolds(v, w, vals, vals', fs[j], syms, tops, tops + [i], k, ps, j, i, cs, qs, m);
      } else {
        if RegistrationOf(syms, ps[j]) == e { LaterIsRegistered(syms, ps, e, first, j); }
        OtherReadsSame(syms, tops, i, k, ps, ps, j);
        FuncHoldsStays(v, w, vals, vals', fs[j], syms, tops, tops + [i], k, ps, ps, j);
      }
    }
  }

  lemma FirstReads(syms: seq<Symbol>, tops: seq<nat>, k: nat, ps: seq<nat>, e: Registration, j: nat)
    requires IsFirstOf(syms, ps, e, j)
    ensures ReadsOf(syms, tops, k, ps, j) == Reads(syms, tops, k, e)
  {
  }

  lemma ReadIntoHolds(v: State, w: State, vals: FuncVals, vals': FuncVals, f: C.FuncDecl, syms: seq<Symbol>,
    tops: seq<nat>, tops': seq<nat>, k: nat, ps: seq<nat>, j: nat, i: nat, cs: seq<Content>, qs: seq<C.Node>,
    m: Machine)
    requires j < |ps| && FuncHolds(v, vals, f, syms, tops, k, ps, j) && Grows(v, w) && f in vals'
    requires ReadsOf(syms, tops', k, ps, j) == ReadsOf(syms, tops, k, ps, j) + [i]
    requires IsReadInto(w, vals[f], vals'[f], syms, i,
      NamesOf(syms, StoryOf(syms, ReadsOf(syms, tops, k, ps, j)).params), cs, qs, m)
    ensures FuncHolds(w, vals', f, syms, tops', k, ps, j)
  {
    hide Grows, ReadsOf, Tells, OriginMatches, StoryOf, NamesOf, BodyMatches, BodyRunFrom;
    ReadTells(v, w, vals[f], vals'[f], syms, ReadsOf(syms, tops, k, ps, j), i, cs, qs, m);
    OriginStays(v, w, f.size, vals[f], syms, ps, j);
    OriginSameVar(w, f.size, vals[f], vals'[f], syms, ps, j);
  }

  lemma OriginSameVar(v: State, size: uint32, x: FuncVal, x': FuncVal, syms: seq<Symbol>, ps: seq<nat>, j: nat)
    requires j < |ps| && OriginMatches(v, size, x, syms, ps, j) && x'.v == x.v
    ensures OriginMatches(v, size, x', syms, ps, j)
  {
  }

  /** A function added by its start, before its body is read. */
  lemma AddedHolds(v: State, w: State, vals: FuncVals, vals': FuncVals, fs: seq<C.FuncDecl>, f: C.FuncDecl,
    syms: seq<Symbol>,
    tops: seq<nat>, i: nat, k: nat, ps: seq<nat>)
    requires FuncsHold(v, vals, fs, syms, tops, k, ps) && Grows(v, w) && SameValues(vals, vals', fs)
    requires i < |syms| && ps == FuncsOf(syms, tops, k) && !IsRegistered(syms, ps, RegistrationOf(syms, i))
    requires f in vals' && IsUnread(vals'[f]) && OriginMatches(w, f.size, vals'[f], syms, ps + [i], |ps|)
    ensures FuncsHold(w, vals', fs + [f], syms, tops, k, ps + [i])
    ensures IsFirstOf(syms, ps + [i], RegistrationOf(syms, i), |ps|)
      && Reads(syms, tops, k, RegistrationOf(syms, i)) == []
  {
    hide FuncHolds, Grows, ReadsOf, OriginMatches, FuncsOf, Reads, RegistrationOf, IsRegistered;
    var qs, e := ps + [i], RegistrationOf(syms, i);
    assert qs[..|ps|] == ps && qs[|ps|] == i;
    if Reads(syms, tops, k, e) != [] { ReadIsRegistered(syms, tops, k, e); }
    forall j | 0 <= j < |fs + [f]| ensures FuncHolds(w, vals', (fs + [f])[j], syms, tops, k, qs, j) {
      if j < |fs| {
        assert FuncHolds(v, vals, fs[j], syms, tops, k, ps, j) && fs[j] in fs;
        SameReads(syms, tops, k, ps, qs, j);
        FuncHoldsStays(v, w, vals, vals', fs[j], syms, tops, tops, k, ps, qs, j);
      } else {
        FirstReads(syms, tops, k, qs, e, j);
        UnreadTells(w, vals'[f], syms);
        HoldsNow(w, vals', f, syms, tops, k, qs, j);
      }
    }
  }

  lemma SameReads(syms: seq<Symbol>, tops: seq<nat>, k: nat, ps: seq<nat>, ps': seq<nat>, j: nat)
    requires j < |ps| <= |ps'| && ps'[..|ps|] == ps
    ensures ReadsOf(syms, tops, k, ps', j) == ReadsOf(syms, tops, k, ps, j)
  {
    assert ps'[..j] == ps[..j] && ps'[j] == ps[j];
  }

  /** The names of the parameters a function holds are the names of their records. */
  lemma ParamNamesTold(u: State, x: FuncVal, syms: seq<Symbol>, rs: seq<nat>, t: C.Node)
    requires Tells(Bare(u), x, syms, rs) && t in u.g && u.g[t].Func? && u.g[t].params == x.params
    ensures PF.ParamNames(u, t) == NamesOf(syms, StoryOf(syms, rs).params)
  {
    hide StoryOf, TypeMatches;
    var ds := StoryOf(syms, rs).params;
    forall k | 0 <= k < |x.params| ensures PF.ParamNames(u, t)[k] == NamesOf(syms, ds)[k] {
      assert DeclMatches(Bare(u), x.params[k], syms[ds[k]]);
      assert Bare(u).g[x.params[k]] == BareDef(u.g[x.params[k]]);
    }
  }
}

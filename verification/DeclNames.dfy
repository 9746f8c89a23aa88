// Functions and variables that share a name get their addresses appended (csym/parse_fixups.go).

module DeclNames {
  import opened Ints
  import opened CTypes
  import opened TypeGraph
  import opened Lists
  import opened Csym
  import opened Fixups
  import opened FuncIndex
  import opened Spelling

  // ----- what the renaming makes of each entry -----

  /** Another entry has the key of entry k. */
  predicate HasNamesake(keys: seq<string>, k: nat)
    requires k < |keys|
  {
    exists j | 0 <= j < |keys| && j != k :: keys[j] == keys[k]
  }

  /** Another entry that is not merely external has the key of entry k. */
  predicate HasRealNamesake(g: Graph, vars: seq<Node>, keys: seq<string>, k: nat)
    requires k < |keys| == |vars|
  {
    exists j | 0 <= j < |keys| && j != k :: keys[j] == keys[k] && vars[j] in g && IsReal(g[vars[j]])
  }

  /** The address is appended to the name if the name is shared; nothing else changes. */
  predicate IsRenamed(was: Var, now: Var, addr: uint32, shared: bool) {
    && now.typ == was.typ
    && if shared then IsAddressName(now.name, was.name, addr) else now.name == was.name
  }

  /** Entry k after the renaming: a variable that is not merely external has its address in its name if
      another such has its name; nothing else changes. */
  predicate IsRenamedDecl(g: Graph, vars: seq<Node>, keys: seq<string>, k: nat, now: Def)
    requires k < |keys| == |vars| && vars[k] in g
  {
    var was := g[vars[k]];
    if IsReal(was) then
      && now.Decl? && now.addr == was.addr && now.size == was.size && now.class_ == was.class_
      && IsRenamed(was.v, now.v, was.addr, HasRealNamesake(g, vars, keys, k))
    else now == was
  }

  predicate IsReal(d: Def) {
    d.Decl? && d.class_ != Extern
  }

  /** Two functions whose names are shared end with one name exactly if they had one name and one address. */
  lemma RenamedAlike(v: Var, x: uint32, v': Var, w: Var, y: uint32, w': Var)
    requires IsRenamed(v, v', x, true) && IsRenamed(w, w', y, true)
    ensures v'.name == w'.name <==> v.name == w.name && x == y
  {
    if v'.name == w'.name {
      var n := |v.name|;
      assert v'.name[..n + 6][..n] == v.name && w'.name[..n + 6][..n] == w.name;
    }
    if v.name == w.name && x == y {
      HexValueInjective(v'.name[|v.name| + 6..], w'.name[|v.name| + 6..]);
      assert v'.name == v'.name[..|v.name| + 6] + v'.name[|v.name| + 6..];
      assert w'.name == w'.name[..|v.name| + 6] + w'.name[|v.name| + 6..];
    }
  }

  // ----- groups by size -----

  /** The entries under a key. */
  function Under(keys: seq<string>, key: string): set<nat> {
    set j: nat | j < |keys| && keys[j] == key
  }

  lemma {:induction false} KeyedCounts<T>(fs: seq<T>, keys: seq<string>, key: string)
    requires |fs| == |keys|
    ensures |Keyed(fs, keys, key)| == |Under(keys, key)|
  {
    if fs == [] {
      assert Under(keys, key) == {};
    } else {
      var n := |fs| - 1;
      KeyedCounts(fs[..n], keys[..n], key);
      assert Under(keys, key) == Under(keys[..n], key) + (if keys[n] == key then {n} else {});
    }
  }

  /** A set that has k has two elements or more exactly if it has another. */
  lemma TwoOrMore(s: set<nat>, k: nat)
    requires k in s
    ensures |s| >= 2 <==> exists j | j in s :: j != k
  {
    var others := s - {k};
    assert |others| == |s| - 1;
    if j :| j in s && j != k { assert j in others; }
    if |s| >= 2 {
      var j :| j in others;
      assert j in s && j != k;
    }
  }

  lemma GroupIsShared(fs: seq<FuncDecl>, keys: seq<string>, k: nat)
    requires |fs| == |keys| && k < |keys|
    ensures GroupSize(fs, keys, k) >= 2 <==> HasNamesake(keys, k)
  {
    KeyedCounts(fs, keys, keys[k]);
    TwoOrMore(Under(keys, keys[k]), k);
    if j :| j in Under(keys, keys[k]) && j != k { assert HasNamesake(keys, k); }
    if j :| 0 <= j < |keys| && j != k && keys[j] == keys[k] { assert j in Under(keys, keys[k]); }
  }

  function RealUnder(g: Graph, vars: seq<Node>, keys: seq<string>, key: string): set<nat>
    requires |vars| == |keys|
  {
    set j: nat | j < |keys| && keys[j] == key && vars[j] in g && IsReal(g[vars[j]])
  }

  lemma {:induction false} RealCounts(g: Graph, vars: seq<Node>, keys: seq<string>, key: string)
    requires |vars| == |keys|
    ensures RealCount(g, Keyed(vars, keys, key)) == |RealUnder(g, vars, keys, key)|
  {
    if vars == [] {
      assert RealUnder(g, vars, keys, key) == {};
    } else {
      var n := |vars| - 1;
      RealCounts(g, vars[..n], keys[..n], key);
      var before, s := Keyed(vars[..n], keys[..n], key), Keyed(vars, keys, key);
      var here := keys[n] == key && vars[n] in g && IsReal(g[vars[n]]);
      assert RealUnder(g, vars, keys, key) == RealUnder(g, vars[..n], keys[..n], key) + (if here then {n} else {});
      if keys[n] == key {
        assert s == before + [vars[n]];
        assert s[..|s| - 1] == before && s[|s| - 1] == vars[n];
      } else {
        assert s == before;
      }
    }
  }

  lemma RealGroupIsShared(g: Graph, vars: seq<Node>, keys: seq<string>, k: nat)
    requires |vars| == |keys| && k < |keys| && vars[k] in g && IsReal(g[vars[k]])
    ensures RealCount(g, GroupAt(vars, keys, k)) >= 2 <==> HasRealNamesake(g, vars, keys, k)
  {
    RealCounts(g, vars, keys, keys[k]);
    var all := RealUnder(g, vars, keys, keys[k]);
    TwoOrMore(all, k);
    if j :| j in all && j != k { assert HasRealNamesake(g, vars, keys, k); }
    if j :| 0 <= j < |keys| && j != k && keys[j] == keys[k] && vars[j] in g && IsReal(g[vars[j]]) { assert j in all; }
  }

  /** What the renaming by groups makes of a function is what it should. */
  lemma WithAddressIs(fs: seq<FuncDecl>, keys: seq<string>, k: nat, v: Var, addr: uint32)
    requires |fs| == |keys| && k < |keys|
    ensures IsRenamed(v, WithAddress(v, addr, GroupSize(fs, keys, k)), addr, HasNamesake(keys, k))
  {
    hide IsAddressName;
    GroupIsShared(fs, keys, k);
    AddressName(v.name, addr);
  }

  lemma VarRenamedIs(g: Graph, vars: seq<Node>, keys: seq<string>, k: nat)
    requires |vars| == |keys| && k < |keys| && vars[k] in g
    ensures IsRenamedDecl(g, vars, keys, k, VarRenamed(g[vars[k]], RealCount(g, GroupAt(vars, keys, k))))
  {
    hide IsAddressName, RealCount;
    var d := g[vars[k]];
    if IsReal(d) {
      RealGroupIsShared(g, vars, keys, k);
      AddressName(d.v.name, d.addr);
    }
  }

  // ----- functions -----

  /** How many functions are registered under the key of entry k. */
  function GroupSize(fs: seq<FuncDecl>, keys: seq<string>, k: nat): nat
    requires |fs| == |keys| && k < |keys|
  {
    |Keyed(fs, keys, keys[k])|
  }

  /** The variable of a function after the renaming of its overlay. */
  function WithAddress(v: Var, addr: uint32, size: nat): Var {
    if size >= 2 then v.(name := UniqueName(v.name, addr)) else v
  }

  /** Membership in an index entry, by position in the list. */
  lemma {:induction false} KeyedExactly<T>(fs: seq<T>, keys: seq<string>, key: string, k: nat)
    requires |fs| == |keys| && k < |fs| && NoDup(fs)
    ensures fs[k] in Keyed(fs, keys, key) <==> keys[k] == key
    ensures NoDup(Keyed(fs, keys, key))
    decreases |fs|
  {
    var n := |fs| - 1;
    var fs', keys' := fs[..n], keys[..n];
    KeyedListed(fs', keys', key);
    assert fs[n] !in fs';
    if k < n {
      KeyedExactly(fs', keys', key, k);
      assert fs'[k] == fs[k] && fs[k] != fs[n];
    } else if n > 0 {
      KeyedExactly(fs', keys', key, 0);
    }
  }

  /** One name: `makeFuncNamesUniqueInOverlay` renames its functions if there are at least two. */
  method RenameFuncs(s: seq<FuncDecl>, ghost funcs: set<FuncDecl>)
    requires NoDup(s) && Elements(s) <= funcs
    modifies funcs`v
    ensures forall f | f in funcs :: f.v == if f in s then WithAddress(old(f.v), f.addr, |s|) else old(f.v)
  {
    if |s| < 2 {
      return;
    }
    for i := 0 to |s|
      invariant forall f | f in funcs :: f.v == if f in s[..i] then WithAddress(old(f.v), f.addr, |s|) else old(f.v)
    {
      var f := s[i];
      assert f !in s[..i] && f in Elements(s);
      f.v := f.v.(name := UniqueName(f.v.name, f.addr));
      assert s[..i + 1] == s[..i] + [f];
    }
    assert s[..|s|] == s;
  }

  /** `makeFuncNamesUniqueInOverlay`: the names are visited in whatever order the map is iterated. */
  method MakeFuncNamesUnique(o: Overlay, ghost funcs: set<FuncDecl>)
    requires IsIndex(o.funcNames, o.funcs, o.funcKeys) && NoDup(o.funcs) && Elements(o.funcs) <= funcs
    modifies funcs`v
    ensures forall k | 0 <= k < |o.funcs| ::
      IsRenamed(old(o.funcs[k].v), o.funcs[k].v, o.funcs[k].addr, HasNamesake(o.funcKeys, k))
    ensures forall f | f in funcs && f !in o.funcs :: f.v == old(f.v)
  {
    hide WithAddress, Keyed, IsRenamed, HasNamesake, GroupSize;
    var index := o.funcNames;
    ghost var fs, keys := o.funcs, o.funcKeys;
    forall k | 0 <= k < |fs| ensures keys[k] in index { KeyInUse(index, fs, keys, k); }
    var todo := index.Keys;
    while todo != {}
      invariant todo <= index.Keys
      invariant forall k | 0 <= k < |fs| ::
        fs[k].v == if keys[k] in todo then old(fs[k].v)
          else WithAddress(old(fs[k].v), fs[k].addr, GroupSize(fs, keys, k))
      invariant forall f | f in funcs && f !in fs :: f.v == old(f.v)
    {
      var key :| key in todo;
      ghost var s := Keyed(fs, keys, key);
      assert index[key] == s && s != [];
      GroupFacts(fs, keys, key);
      assert Elements(s) <= funcs by { forall f | f in s ensures f in funcs { assert f in fs && f in Elements(fs); } }
      assert forall f | f in fs :: f in Elements(fs) && f in funcs;
      SizeOf(fs, keys, key);
      RenameFuncs(index[key], funcs);
      todo := todo - {key};
    }
    forall k | 0 <= k < |fs| ensures IsRenamed(old(fs[k].v), fs[k].v, fs[k].addr, HasNamesake(keys, k)) {
      WithAddressIs(fs, keys, k, old(fs[k].v), fs[k].addr);
    }
  }

  lemma SizeOf(fs: seq<FuncDecl>, keys: seq<string>, key: string)
    requires |fs| == |keys|
    ensures forall k | 0 <= k < |keys| && keys[k] == key :: GroupSize(fs, keys, k) == |Keyed(fs, keys, key)|
  {
  }

  lemma KeyInUse<T>(index: map<string, seq<T>>, fs: seq<T>, keys: seq<string>, k: nat)
    requires IsIndex(index, fs, keys) && NoDup(fs) && k < |fs|
    ensures keys[k] in index
  {
    KeyedExactly(fs, keys, keys[k], k);
  }

  // ----- variables -----

  /** How many of these declarations are not merely external. */
  function RealCount(g: Graph, s: seq<Node>): nat {
    if s == [] then 0
    else RealCount(g, s[..|s| - 1]) + (if s[|s| - 1] in g && IsReal(g[s[|s| - 1]]) then 1 else 0)
  }

  /** A declaration after the renaming of its overlay. */
  function VarRenamed(d: Def, count: nat): Def {
    if IsReal(d) && count >= 2 then d.(v := d.v.(name := UniqueName(d.v.name, d.addr))) else d
  }

  method CountReal(s: seq<Node>, ghost nodes: set<Node>) returns (count: nat)
    requires forall n | n in s :: n in nodes && n.def.Decl?
    ensures count == RealCount(Snap(nodes), s)
  {
    count := 0;
    for i := 0 to |s|
      invariant count == RealCount(Snap(nodes), s[..i])
    {
      assert s[..i + 1][..i] == s[..i] && s[i] in s;
      if s[i].def.class_ != Extern {
        count := count + 1;
      }
    }
    assert s[..|s|] == s;
  }

  /** One name: `makeVarNamesUniqueInOverlay` renames its variables if at least two are not external. */
  method RenameVars(s: seq<Node>, ghost nodes: set<Node>)
    requires NoDup(s) && Elements(s) <= nodes && forall n | n in s :: n.def.Decl?
    modifies nodes
    ensures forall n | n in nodes :: n.def == if n in s then VarRenamed(old(n.def), RealCount(old(Snap(nodes)), s))
      else old(n.def)
  {
    ghost var g := Snap(nodes);
    assert forall n | n in s :: n in Elements(s) && n in nodes;
    var count := CountReal(s, nodes);
    if count < 2 {
      return;
    }
    for i := 0 to |s|
      invariant forall n | n in nodes :: n.def == if n in s[..i] then VarRenamed(g[n], count) else g[n]
    {
      var n := s[i];
      assert n in s && n !in s[..i];
      if n.def.class_ != Extern {
        n.def := n.def.(v := n.def.v.(name := UniqueName(n.def.v.name, n.def.addr)));
      }
      assert s[..i + 1] == s[..i] + [n];
    }
    assert s[..|s|] == s;
  }

  /** The group of entry k. */
  function GroupAt<T>(s: seq<T>, keys: seq<string>, k: nat): seq<T>
    requires |s| == |keys| && k < |keys|
  {
    Keyed(s, keys, keys[k])
  }

  /** `makeVarNamesUniqueInOverlay`: the names are visited in whatever order the map is iterated. */
  method MakeVarNamesUnique(o: Overlay, ghost nodes: set<Node>)
    requires IsIndex(o.varNames, o.vars, o.varKeys) && NoDup(o.vars) && Elements(o.vars) <= nodes
    requires forall n | n in o.vars :: n.def.Decl?
    modifies nodes
    ensures forall k | 0 <= k < |o.vars| ::
      o.vars[k] in nodes && IsRenamedDecl(old(Snap(nodes)), o.vars, o.varKeys, k, o.vars[k].def)
    ensures forall n | n in nodes && n !in o.vars :: n.def == old(n.def)
  {
    hide VarRenamed, Keyed, RealCount, IsRenamedDecl, GroupAt;
    var index := o.varNames;
    ghost var vs, keys, g := o.vars, o.varKeys, Snap(nodes);
    assert forall n | n in vs :: n in Elements(vs) && n in nodes;
    forall k | 0 <= k < |vs| ensures keys[k] in index { KeyInUse(index, vs, keys, k); }
    var todo := index.Keys;
    while todo != {}
      invariant todo <= index.Keys
      invariant forall k | 0 <= k < |vs| ::
        vs[k].def == if keys[k] in todo then g[vs[k]] else VarRenamed(g[vs[k]], RealCount(g, GroupAt(vs, keys, k)))
      invariant forall n | n in nodes && n !in vs :: n.def == g[n]
    {
      var key :| key in todo;
      ghost var s, before := Keyed(vs, keys, key), Snap(nodes);
      assert index[key] == s && s != [];
      GroupFacts(vs, keys, key);
      assert Elements(s) <= nodes by { forall n | n in s ensures n in nodes { assert n in vs; } }
      forall n | n in s ensures n in g && before[n] == g[n] && n.def.Decl? {
        var k :| 0 <= k < |vs| && vs[k] == n;
        assert keys[k] == key;
      }
      SameCount(g, before, s);
      GroupOf(vs, keys, key);
      RenameVars(index[key], nodes);
      todo := todo - {key};
    }
    forall k | 0 <= k < |vs| ensures vs[k] in nodes && IsRenamedDecl(g, vs, keys, k, vs[k].def) {
      VarRenamedIs(g, vs, keys, k);
    }
  }

  lemma GroupOf<T>(s: seq<T>, keys: seq<string>, key: string)
    requires |s| == |keys|
    ensures forall k | 0 <= k < |keys| && keys[k] == key :: GroupAt(s, keys, k) == Keyed(s, keys, key)
  {
  }

  lemma GroupFacts<T>(s: seq<T>, keys: seq<string>, key: string)
    requires |s| == |keys| && NoDup(s)
    ensures NoDup(Keyed(s, keys, key)) && forall x | x in Keyed(s, keys, key) :: x in s
    ensures forall k | 0 <= k < |s| :: s[k] in Keyed(s, keys, key) <==> keys[k] == key
  {
    KeyedListed(s, keys, key);
    forall k | 0 <= k < |s| ensures (s[k] in Keyed(s, keys, key) <==> keys[k] == key) && NoDup(Keyed(s, keys, key)) {
      KeyedExactly(s, keys, key, k);
    }
    if s != [] { KeyedExactly(s, keys, key, 0); }
  }

  lemma {:induction false} SameCount(g: Graph, h: Graph, s: seq<Node>)
    requires forall n | n in s :: n in g && n in h && h[n] == g[n]
    ensures RealCount(h, s) == RealCount(g, s)
  {
    if s != [] {
      assert forall n | n in s[..|s| - 1] :: n in s;
      SameCount(g, h, s[..|s| - 1]);
    }
  }
}

// The functions of an overlay: the flat list, and the index by name (csym/parse_decls.go).

module FuncIndex {
  import opened Ints
  import opened CTypes
  import opened Csym

  // ----- names made from addresses -----

  function HexDigit(d: nat): char
    requires d < 16
  {
    "0123456789ABCDEF"[d]
  }

  /** `%0nX`, for a number of n digits. */
  function Hex(x: nat, n: nat): (s: string)
    ensures |s| == n
  {
    if n == 0 then "" else Hex(x / 16, n - 1) + [HexDigit(x % 16)]
  }

  function Power16(n: nat): nat {
    if n == 0 then 1 else 16 * Power16(n - 1)
  }

  /** `UniqueName` */
  function UniqueName(name: string, addr: uint32): string {
    name + "_addr_" + Hex(addr, 8)
  }

  // ----- the list and the index -----

  /** The functions registered under a name, in order. */
  function Keyed<T>(fs: seq<T>, keys: seq<string>, key: string): (r: seq<T>)
    requires |fs| == |keys|
  {
    if fs == [] then []
    else
      var n := |fs| - 1;
      Keyed(fs[..n], keys[..n], key) + (if keys[n] == key then [fs[n]] else [])
  }

  lemma KeyedAppend<T>(fs: seq<T>, keys: seq<string>, f: T, k: string, key: string)
    requires |fs| == |keys|
    ensures Keyed(fs + [f], keys + [k], key) == Keyed(fs, keys, key) + (if k == key then [f] else [])
  {
    assert (fs + [f])[..|fs|] == fs && (keys + [k])[..|fs|] == keys;
  }

  /** The index holds, for every name, the functions registered under it; no entry is empty. */
  ghost predicate IsIndex<T>(index: map<string, seq<T>>, fs: seq<T>, keys: seq<string>) {
    && |fs| == |keys|
    && forall key ::
      if key in index then index[key] == Keyed(fs, keys, key) && index[key] != [] else Keyed(fs, keys, key) == []
  }

  function Registered<T>(index: map<string, seq<T>>, key: string, f: T): map<string, seq<T>> {
    index[key := (if key in index then index[key] else []) + [f]]
  }

  lemma RegisteringKeepsIndex<T>(index: map<string, seq<T>>, fs: seq<T>, keys: seq<string>, key: string, f: T)
    requires IsIndex(index, fs, keys)
    ensures IsIndex(Registered(index, key, f), fs + [f], keys + [key])
  {
    hide Keyed;
    forall x ensures Keyed(fs + [f], keys + [key], x) == Keyed(fs, keys, x) + (if key == x then [f] else []) {
      KeyedAppend(fs, keys, f, key, x);
    }
  }

  /** Entry k was registered under this name for this address. */
  predicate Answers(fs: seq<FuncDecl>, keys: seq<string>, key: string, addr: uint32, k: nat)
    requires |fs| == |keys| && k < |fs|
  {
    keys[k] == key && fs[k].addr == addr
  }

  /** Linear search: the first function registered under this name for this address. */
  ghost predicate IsFirst(fs: seq<FuncDecl>, keys: seq<string>, key: string, addr: uint32, f: FuncDecl)
    requires |fs| == |keys|
  {
    exists k | 0 <= k < |fs| ::
      fs[k] == f && Answers(fs, keys, key, addr, k) && forall j | 0 <= j < k :: !Answers(fs, keys, key, addr, j)
  }

  ghost predicate NoneAnswers(fs: seq<FuncDecl>, keys: seq<string>, key: string, addr: uint32)
    requires |fs| == |keys|
  {
    forall k | 0 <= k < |fs| :: !Answers(fs, keys, key, addr, k)
  }

  predicate IsFirstAt(s: seq<FuncDecl>, addr: uint32, i: nat)
    requires i < |s|
  {
    s[i].addr == addr && forall j | 0 <= j < i :: s[j].addr != addr
  }

  lemma {:induction false} KeyedListed<T>(fs: seq<T>, keys: seq<string>, key: string)
    requires |fs| == |keys|
    ensures forall f | f in Keyed(fs, keys, key) :: f in fs
  {
    if fs != [] { KeyedListed(fs[..|fs| - 1], keys[..|fs| - 1], key); }
  }

  /** Where the index entry of a name holds no function for an address, the list holds none. */
  lemma {:induction false} NoneKeyed(fs: seq<FuncDecl>, keys: seq<string>, key: string, addr: uint32)
    requires |fs| == |keys| && forall f | f in Keyed(fs, keys, key) :: f.addr != addr
    ensures NoneAnswers(fs, keys, key, addr)
  {
    if fs != [] {
      var n := |fs| - 1;
      var fs', keys' := fs[..n], keys[..n];
      NoneKeyed(fs', keys', key, addr);
      assert !Answers(fs, keys, key, addr, n) by { if keys[n] == key { assert fs[n] in Keyed(fs, keys, key); } }
      forall k | 0 <= k < n ensures !Answers(fs, keys, key, addr, k) {
        assert !Answers(fs', keys', key, addr, k);
      }
    }
  }

  /** Searching the index entry of a name finds what a search of the whole list finds. */
  lemma {:induction false} FirstKeyed(fs: seq<FuncDecl>, keys: seq<string>, key: string, addr: uint32, i: nat)
    requires |fs| == |keys| && i < |Keyed(fs, keys, key)| && IsFirstAt(Keyed(fs, keys, key), addr, i)
    ensures IsFirst(fs, keys, key, addr, Keyed(fs, keys, key)[i])
  {
    var n := |fs| - 1;
    var fs', keys' := fs[..n], keys[..n];
    var s', s := Keyed(fs', keys', key), Keyed(fs, keys, key);
    assert forall j | 0 <= j < |s'| :: s'[j] == s[j];
    if i < |s'| {
      assert IsFirstAt(s', addr, i);
      FirstKeyed(fs', keys', key, addr, i);
      var k :| 0 <= k < |fs'| && fs'[k] == s'[i] && Answers(fs', keys', key, addr, k)
        && forall j | 0 <= j < k :: !Answers(fs', keys', key, addr, j);
      assert fs[k] == s[i] && Answers(fs, keys, key, addr, k);
      forall j | 0 <= j < k ensures !Answers(fs, keys, key, addr, j) { assert !Answers(fs', keys', key, addr, j); }
    } else {
      assert fs[n] == s[i] && Answers(fs, keys, key, addr, n);
      forall f | f in s' ensures f.addr != addr { var j :| 0 <= j < |s'| && s'[j] == f; assert s[j] == f; }
      NoneKeyed(fs', keys', key, addr);
      forall j | 0 <= j < n ensures !Answers(fs, keys, key, addr, j) { assert !Answers(fs', keys', key, addr, j); }
    }
  }

  /** A name and an address stand for one function, and functions added later do not change which. */
  lemma FirstStays(fs: seq<FuncDecl>, keys: seq<string>, key: string, addr: uint32, f: FuncDecl, gs: seq<FuncDecl>,
    more: seq<string>)
    requires |fs| == |keys| && |gs| == |more| && IsFirst(fs, keys, key, addr, f)
    ensures forall g :: IsFirst(fs + gs, keys + more, key, addr, g) <==> g == f
  {
    var k :| 0 <= k < |fs| && fs[k] == f && Answers(fs, keys, key, addr, k)
      && forall j | 0 <= j < k :: !Answers(fs, keys, key, addr, j);
    assert (fs + gs)[k] == f && Answers(fs + gs, keys + more, key, addr, k);
    forall j | 0 <= j < k ensures !Answers(fs + gs, keys + more, key, addr, j) {
      assert !Answers(fs, keys, key, addr, j);
    }
  }

  /** The function added where none answered is the one later searches find. */
  lemma AddedIsFirst(fs: seq<FuncDecl>, keys: seq<string>, key: string, addr: uint32, f: FuncDecl)
    requires |fs| == |keys| && NoneAnswers(fs, keys, key, addr) && f.addr == addr
    ensures IsFirst(fs + [f], keys + [key], key, addr, f)
  {
    var n := |fs|;
    assert (fs + [f])[n] == f && Answers(fs + [f], keys + [key], key, addr, n);
    forall j | 0 <= j < n ensures !Answers(fs + [f], keys + [key], key, addr, j) {
      assert !Answers(fs, keys, key, addr, j);
    }
  }
}

// The running line of the listing in closed form (file.go).

module ListedLines {
  import opened Records
  import opened SymFile

  predicate SetsLine(s: Symbol) {
    s.body.SetSLD? || s.body.SetSLD2?
  }

  predicate Increments(s: Symbol) {
    s.body.IncSLD? || s.body.IncSLDByte? || s.body.IncSLDWord?
  }

  function Increment(s: Symbol): nat {
    if s.body.IncSLD? then 1
    else if s.body.IncSLDByte? then s.body.inc8
    else if s.body.IncSLDWord? then s.body.inc16
    else 0
  }

  /** The increments of the records from m on, below n, added up. */
  function Total(syms: seq<Symbol>, m: nat, n: nat): nat
    requires n <= |syms|
    decreases n - m
  {
    if m >= n then 0 else Increment(syms[m]) + Total(syms, m + 1, n)
  }

  /** The last record before n that sets the line is m. */
  predicate IsLastSet(syms: seq<Symbol>, n: nat, m: nat)
    requires n <= |syms|
  {
    m < n && SetsLine(syms[m]) && forall k | m < k < n :: !SetsLine(syms[k])
  }

  predicate NoneSet(syms: seq<Symbol>, n: nat)
    requires n <= |syms|
  {
    forall k | 0 <= k < n :: !SetsLine(syms[k])
  }

  /** Record k increments a line that was never set, or set to 0. */
  predicate IncrementsNothing(syms: seq<Symbol>, k: nat) {
    && k < |syms| && Increments(syms[k])
    && (NoneSet(syms, k) || exists m: nat | m < k :: IsLastSet(syms, k, m) && syms[m].body.line == 0)
  }

  lemma {:induction false} TotalNext(syms: seq<Symbol>, m: nat, n: nat)
    requires m <= n < |syms|
    ensures Total(syms, m, n + 1) == Total(syms, m, n) + Increment(syms[n])
    decreases n - m
  {
    if m < n { TotalNext(syms, m + 1, n); }
  }

  /** What the records before n say of the running line after them. */
  predicate SaysLine(syms: seq<Symbol>, n: nat, line: int)
    requires n <= |syms|
  {
    && (NoneSet(syms, n) ==> line == 0)
    && (forall m | 0 <= m < n && IsLastSet(syms, n, m) :: line == syms[m].body.line + Total(syms, m + 1, n))
    && (forall m | 0 <= m < n && IsLastSet(syms, n, m) && syms[m].body.line == 0 :: line == 0)
  }

  lemma SetNow(syms: seq<Symbol>, n: nat)
    requires n < |syms| && SetsLine(syms[n])
    ensures SaysLine(syms, n + 1, syms[n].body.line)
  {
    var next := n + 1;
    assert IsLastSet(syms, next, n);
    forall m | 0 <= m < next && IsLastSet(syms, next, m) ensures m == n {}
  }

  lemma SetBefore(syms: seq<Symbol>, n: nat)
    requires n < |syms| && !SetsLine(syms[n])
    ensures NoneSet(syms, n + 1) <==> NoneSet(syms, n)
    ensures var next := n + 1; forall m | 0 <= m <= n :: IsLastSet(syms, next, m) <==> IsLastSet(syms, n, m)
  {
  }

  lemma SaysFrom(syms: seq<Symbol>, n: nat, line: int, m: nat)
    requires n < |syms| && m < n && IsLastSet(syms, n, m) && SaysLine(syms, n, line) && !IncrementsNothing(syms, n)
    ensures line == syms[m].body.line + Total(syms, m + 1, n)
    ensures syms[m].body.line == 0 ==> line == 0 && !Increments(syms[n])
  {
    hide Total, NoneSet, IsLastSet;
  }

  lemma GoesOnFrom(syms: seq<Symbol>, n: nat, line: int, m: nat)
    requires n < |syms| && m < n && IsLastSet(syms, n, m) && SaysLine(syms, n, line) && !IncrementsNothing(syms, n)
    ensures line + Increment(syms[n]) == syms[m].body.line + Total(syms, m + 1, n + 1)
    ensures syms[m].body.line == 0 ==> line + Increment(syms[n]) == 0
  {
    hide Total, NoneSet, IsLastSet, SaysLine, IncrementsNothing;
    TotalNext(syms, m + 1, n);
    SaysFrom(syms, n, line, m);
  }

  lemma GoesOn(syms: seq<Symbol>, n: nat, line: int)
    requires n < |syms| && !SetsLine(syms[n]) && SaysLine(syms, n, line) && !IncrementsNothing(syms, n)
    ensures SaysLine(syms, n + 1, line + Increment(syms[n]))
  {
    var next := n + 1;
    SetBefore(syms, n);
    if NoneSet(syms, n) { assert !Increments(syms[n]) && Increment(syms[n]) == 0; }
    hide NoneSet, IsLastSet, Total, Increment, IncrementsNothing;
    forall m | 0 <= m < next && IsLastSet(syms, next, m)
      ensures line + Increment(syms[n]) == syms[m].body.line + Total(syms, m + 1, next)
      ensures syms[m].body.line == 0 ==> line + Increment(syms[n]) == 0
    {
      LastIsBefore(syms, n, m);
      GoesOnFrom(syms, n, line, m);
    }
  }

  lemma LastIsBefore(syms: seq<Symbol>, n: nat, m: nat)
    requires n < |syms| && !SetsLine(syms[n]) && IsLastSet(syms, n + 1, m)
    ensures m < n && IsLastSet(syms, n, m)
  {
  }

  lemma {:induction false} SomeSet(syms: seq<Symbol>, n: nat) returns (m: nat)
    requires n <= |syms| && !NoneSet(syms, n)
    ensures IsLastSet(syms, n, m)
    decreases n
  {
    if SetsLine(syms[n - 1]) {
      m := n - 1;
    } else {
      SetBefore(syms, n - 1);
      m := SomeSet(syms, n - 1);
    }
  }

  lemma ZeroMeansNothing(syms: seq<Symbol>, n: nat, line: int)
    requires n < |syms| && Increments(syms[n]) && SaysLine(syms, n, line)
    ensures line == 0 <==> IncrementsNothing(syms, n)
  {
    if !NoneSet(syms, n) {
      var m := SomeSet(syms, n);
      if IncrementsNothing(syms, n) {
        var k: nat :| k < n && IsLastSet(syms, n, k) && syms[k].body.line == 0;
      }
    }
  }

  /** The listing panics exactly if some record increments a line that was never set, or set to 0.  Else the
      running line is the line set last and all increments since, added up; 0 if none was set. */
  lemma {:induction false} RunningLine(syms: seq<Symbol>, n: nat)
    requires n <= |syms|
    ensures LineAfter(syms, n).Stuck? <==> exists k: nat | k < n :: IncrementsNothing(syms, k)
    ensures LineAfter(syms, n).Line? ==> SaysLine(syms, n, LineAfter(syms, n).n)
  {
    hide IncrementsNothing, SaysLine;
    if n == 0 {
      SaysNothing(syms);
    } else {
      var k := n - 1;
      RunningLine(syms, k);
      if LineAfter(syms, k).Line? {
        var line := LineAfter(syms, k).n;
        if SetsLine(syms[k]) {
          SetNow(syms, k);
          SetIsNoIncrement(syms, k);
        } else {
          if Increments(syms[k]) { ZeroMeansNothing(syms, k, line); } else { SetIsNoIncrement(syms, k); }
          if !IncrementsNothing(syms, k) { GoesOn(syms, k, line); }
        }
      }
    }
  }

  lemma SaysNothing(syms: seq<Symbol>)
    ensures SaysLine(syms, 0, 0)
  {
  }

  lemma SetIsNoIncrement(syms: seq<Symbol>, k: nat)
    requires k < |syms| && (SetsLine(syms[k]) || !Increments(syms[k]))
    ensures !IncrementsNothing(syms, k)
  {
  }
}

/** Move-to-front coding on a plain list, and the numbers that stand for runs of zeros. */
module Mtf {

  import opened Powers

  const RUNA := 0
  const RUNB := 1

  // ----- move to front -----

  /** The list with entry j moved to the front. */
  function ToFront(list: seq<int>, j: int): (r: seq<int>)
    requires 0 <= j < |list|
    ensures |r| == |list|
    ensures forall k :: 0 <= k < |list| ==> r[k] == if k == 0 then list[j] else if k <= j then list[k - 1] else list[k]
  {
    [list[j]] + list[..j] + list[j + 1..]
  }

  predicate Distinct(list: seq<int>) {
    forall i, j :: 0 <= i < j < |list| ==> list[i] != list[j]
  }

  /** Where x is in the list. */
  function IndexOf(list: seq<int>, x: int): (j: int)
    requires x in list
    ensures 0 <= j < |list| && list[j] == x
    ensures forall k :: 0 <= k < j ==> list[k] != x
  {
    if list[0] == x then 0 else 1 + IndexOf(list[1..], x)
  }

  lemma ToFrontKeeps(list: seq<int>, j: int, x: int)
    requires 0 <= j < |list| && x in list
    ensures x in ToFront(list, j)
  {
    var k :| 0 <= k < |list| && list[k] == x;
    if k < j { assert ToFront(list, j)[k + 1] == x; }
    else if k == j { assert ToFront(list, j)[0] == x; }
    else { assert ToFront(list, j)[k] == x; }
  }

  /** The positions at which the entries of xs are found, each moved to the front after it is found. */
  function Positions(list: seq<int>, xs: seq<int>): (ps: seq<int>)
    requires forall i :: 0 <= i < |xs| ==> xs[i] in list
    ensures |ps| == |xs| && forall i :: 0 <= i < |ps| ==> 0 <= ps[i] < |list|
    decreases |xs|
  {
    if xs == [] then []
    else
      var j := IndexOf(list, xs[0]);
      assert forall i :: 1 <= i < |xs| ==> xs[i] in ToFront(list, j) by {
        forall i | 1 <= i < |xs| ensures xs[i] in ToFront(list, j) { ToFrontKeeps(list, j, xs[i]); }
      }
      [j] + Positions(ToFront(list, j), xs[1..])
  }

  /** The entries found at the positions ps. */
  function Entries(list: seq<int>, ps: seq<int>): (xs: seq<int>)
    requires forall i :: 0 <= i < |ps| ==> 0 <= ps[i] < |list|
    ensures |xs| == |ps|
    decreases |ps|
  {
    if ps == [] then [] else [list[ps[0]]] + Entries(ToFront(list, ps[0]), ps[1..])
  }

  /** The list after that. */
  function After(list: seq<int>, ps: seq<int>): (r: seq<int>)
    requires forall i :: 0 <= i < |ps| ==> 0 <= ps[i] < |list|
    ensures |r| == |list|
    decreases |ps|
  {
    if ps == [] then list else After(ToFront(list, ps[0]), ps[1..])
  }

  /** A longer list that begins in the same way finds the same entries. */
  lemma {:induction false} EntriesLonger(list: seq<int>, longer: seq<int>, ps: seq<int>)
    requires |list| <= |longer| && longer[..|list|] == list && forall i :: 0 <= i < |ps| ==> 0 <= ps[i] < |list|
    ensures Entries(longer, ps) == Entries(list, ps)
    decreases |ps|
  {
    if ps != [] {
      assert forall k :: 0 <= k < |list| ==> longer[k] == longer[..|list|][k];
      EntriesLonger(ToFront(list, ps[0]), ToFront(longer, ps[0]), ps[1..]);
    }
  }

  /** Finding undoes placing. */
  lemma {:induction false} EntriesOfPositions(list: seq<int>, xs: seq<int>)
    requires forall i :: 0 <= i < |xs| ==> xs[i] in list
    ensures Entries(list, Positions(list, xs)) == xs
    decreases |xs|
  {
    if xs != [] {
      var j := IndexOf(list, xs[0]);
      forall i | 1 <= i < |xs| ensures xs[i] in ToFront(list, j) { ToFrontKeeps(list, j, xs[i]); }
      EntriesOfPositions(ToFront(list, j), xs[1..]);
      assert Positions(list, xs)[1..] == Positions(ToFront(list, j), xs[1..]);
    }
  }

  lemma {:induction false} EntriesJoin(list: seq<int>, ps: seq<int>, qs: seq<int>)
    requires forall i :: 0 <= i < |ps| ==> 0 <= ps[i] < |list|
    requires forall i :: 0 <= i < |qs| ==> 0 <= qs[i] < |list|
    ensures forall i :: 0 <= i < |ps + qs| ==> 0 <= (ps + qs)[i] < |list|
    ensures Entries(list, ps + qs) == Entries(list, ps) + Entries(After(list, ps), qs)
    ensures After(list, ps + qs) == After(After(list, ps), qs)
    decreases |ps|
  {
    if ps == [] {
      assert ps + qs == qs;
    } else {
      var f, x := ToFront(list, ps[0]), list[ps[0]];
      assert (ps + qs)[1..] == ps[1..] + qs;
      EntriesJoin(f, ps[1..], qs);
      hide ToFront;
      assert [x] + (Entries(f, ps[1..]) + Entries(After(list, ps), qs)) == [x] + Entries(f, ps[1..]) +
        Entries(After(list, ps), qs);
    }
  }

  // ----- runs of zeros -----

  /** The digits RUNA and RUNB that stand for a run of n zeros: base two with the digits one and two. */
  function Digits(n: nat): (r: seq<int>)
    ensures forall i :: 0 <= i < |r| ==> r[i] == RUNA || r[i] == RUNB
    ensures |r| <= n && (n > 0 ==> r != [])
  {
    if n == 0 then [] else [Digit(n)] + Digits((n - 1) / 2)
  }

  function Digit(n: nat): int { if n % 2 == 1 then RUNA else RUNB }

  predicate AreDigits(ds: seq<int>) {
    forall i :: 0 <= i < |ds| ==> ds[i] == RUNA || ds[i] == RUNB
  }

  function RunLength(ds: seq<int>): nat
    requires AreDigits(ds)
  {
    if ds == [] then 0 else ds[0] + 1 + 2 * RunLength(ds[1..])
  }

  lemma DigitSplit(n: nat)
    requires n > 0
    ensures n == Digit(n) + 1 + 2 * ((n - 1) / 2)
  {
  }

  /** Every run length comes back from its digits, and every string of digits from its run length. */
  lemma {:induction false} RunOfDigits(n: nat)
    ensures RunLength(Digits(n)) == n
  {
    if n > 0 {
      RunOfDigits((n - 1) / 2);
      assert Digits(n)[1..] == Digits((n - 1) / 2);
      DigitSplit(n);
      hide Digits, Digit;
    }
  }

  lemma DigitFirst(d: int, m: nat)
    requires d == RUNA || d == RUNB
    ensures Digits(d + 1 + 2 * m) == [d] + Digits(m)
  {
    var n := d + 1 + 2 * m;
    assert (n - 1) / 2 == m && Digit(n) == d;
  }

  lemma {:induction false} DigitsOfRun(ds: seq<int>)
    requires AreDigits(ds)
    ensures Digits(RunLength(ds)) == ds
  {
    if ds != [] {
      DigitsOfRun(ds[1..]);
      DigitFirst(ds[0], RunLength(ds[1..]));
      assert ds == [ds[0]] + ds[1..];
    }
  }

  /** k digits stand for at least 2^k - 1 zeros. */
  lemma {:induction false} DigitsFew(n: nat)
    ensures Pow2(|Digits(n)|) <= n + 1
  {
    if n > 0 { DigitsFew((n - 1) / 2); }
  }

  /** What is gained by one more digit. */
  lemma {:induction false} RunLengthSnoc(ds: seq<int>, d: int)
    requires AreDigits(ds) && (d == RUNA || d == RUNB)
    ensures AreDigits(ds + [d]) && RunLength(ds + [d]) == RunLength(ds) + (d + 1) * Pow2(|ds|)
  {
    if ds == [] {
      assert RunLength([d][1..]) == 0;
    } else {
      RunLengthSnoc(ds[1..], d);
      assert (ds + [d])[1..] == ds[1..] + [d];
      assert 2 * ((d + 1) * Pow2(|ds| - 1)) == (d + 1) * (2 * Pow2(|ds| - 1));
    }
  }

  function Zeros(n: nat): (r: seq<int>)
    ensures |r| == n && forall i :: 0 <= i < n ==> r[i] == 0
  {
    seq(n, i => 0)
  }

  // ----- the symbols of a block -----

  /** The symbols for the positions ps when z zeros are still to be told: runs as digits, other positions one up. */
  function Symbols(ps: seq<int>, z: nat): (r: seq<int>)
    ensures |r| <= |ps| + z
    decreases |ps|
  {
    if ps == [] then Digits(z)
    else if ps[0] == 0 then Symbols(ps[1..], z + 1)
    else Digits(z) + [ps[0] + 1] + Symbols(ps[1..], 0)
  }

  /** Reads symbols back: the positions, given the digits of the run that is being read. */
  function PositionsOf(syms: seq<int>, run: seq<int>): (ps: seq<int>)
    requires AreDigits(run)
    decreases |syms|
  {
    if syms == [] then Zeros(RunLength(run))
    else if syms[0] == RUNA || syms[0] == RUNB then PositionsOf(syms[1..], run + [syms[0]])
    else Zeros(RunLength(run)) + [syms[0] - 1] + PositionsOf(syms[1..], [])
  }

  lemma {:induction false} ReadDigits(ds: seq<int>, rest: seq<int>, run: seq<int>)
    requires AreDigits(ds) && AreDigits(run)
    ensures AreDigits(run + ds) && PositionsOf(ds + rest, run) == PositionsOf(rest, run + ds)
    decreases |ds|
  {
    if ds == [] {
      assert ds + rest == rest && run + ds == run;
    } else {
      assert (ds + rest)[1..] == ds[1..] + rest;
      assert run + ds == (run + [ds[0]]) + ds[1..];
      ReadDigits(ds[1..], rest, run + [ds[0]]);
    }
  }

  lemma ZerosThen(z: nat, p: int, rest: seq<int>)
    ensures Zeros(z + 1) + rest == Zeros(z) + ([0] + rest)
    ensures Zeros(z) + [p] + rest == Zeros(z) + ([p] + rest)
  {
  }

  lemma ReadRun(z: nat)
    ensures PositionsOf(Digits(z), []) == Zeros(z)
  {
    RunOfDigits(z);
    ReadDigits(Digits(z), [], []);
    assert Digits(z) + [] == Digits(z) && [] + Digits(z) == Digits(z);
  }

  lemma ReadPosition(z: nat, p: int, rest: seq<int>)
    requires p > 0
    ensures PositionsOf(Digits(z) + [p + 1] + rest, []) == Zeros(z) + [p] + PositionsOf(rest, [])
  {
    RunOfDigits(z);
    ReadDigits(Digits(z), [p + 1] + rest, []);
    assert Digits(z) + [p + 1] + rest == Digits(z) + ([p + 1] + rest) && [] + Digits(z) == Digits(z);
    assert ([p + 1] + rest)[1..] == rest;
  }

  /** Reading undoes telling, for all positions. */
  lemma {:induction false} PositionsOfSymbols(ps: seq<int>, z: nat)
    requires forall i :: 0 <= i < |ps| ==> ps[i] >= 0
    ensures PositionsOf(Symbols(ps, z), []) == Zeros(z) + ps
    decreases |ps|
  {
    hide Zeros, Digits, PositionsOf;
    if ps == [] {
      ReadRun(z);
    } else {
      assert ps == [ps[0]] + ps[1..];
      ZerosThen(z, ps[0], ps[1..]);
      if ps[0] == 0 {
        PositionsOfSymbols(ps[1..], z + 1);
      } else {
        PositionsOfSymbols(ps[1..], 0);
        assert Zeros(0) + ps[1..] == ps[1..];
        ReadPosition(z, ps[0], Symbols(ps[1..], 0));
      }
    }
  }

  /** Symbols lie below the end marker. */
  lemma {:induction false} SymbolsBounded(ps: seq<int>, z: nat, n: int)
    requires n >= 1 && forall i :: 0 <= i < |ps| ==> 0 <= ps[i] < n
    ensures forall i :: 0 <= i < |Symbols(ps, z)| ==> 0 <= Symbols(ps, z)[i] <= n
    decreases |ps|
  {
    if ps != [] {
      SymbolsBounded(ps[1..], if ps[0] == 0 then z + 1 else 0, n);
    }
  }
}

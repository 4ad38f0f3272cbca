/** Blocks that repeat: which rotations are equal, and where they stand when the rotations are in order. */
module Roots {

  import opened Rotations
  import opened Counting
  import opened Powers

  /** The block, turned by h places. */
  function Turned(b: seq<int>, h: nat): seq<int>
    requires h <= |b|
  {
    b[h..] + b[..h]
  }

  /** The least number of places by which the block can be turned without changing. */
  function RootLength(b: seq<int>): (d: nat)
    requires b != []
    ensures 1 <= d <= |b| && Turned(b, d) == b && forall h :: 1 <= h < d ==> Turned(b, h) != b
  {
    LeastTurn(b, 1)
  }

  function LeastTurn(b: seq<int>, from: nat): (d: nat)
    requires 1 <= from <= |b| && forall h :: 1 <= h < from ==> Turned(b, h) != b
    ensures from <= d <= |b| && Turned(b, d) == b && forall h :: 1 <= h < d ==> Turned(b, h) != b
    decreases |b| - from
  {
    if from == |b| || Turned(b, from) == b then from else LeastTurn(b, from + 1)
  }

  /** How often the block repeats its root. */
  function Repeats(b: seq<int>): (m: nat)
    requires b != []
    ensures 1 <= m <= |b| && m * RootLength(b) == |b|
  {
    RootDivides(b);
    var d := RootLength(b);
    CountIs(|b|, d);
    |b| / d
  }

  lemma CountIs(n: nat, d: nat)
    requires 1 <= d <= n && n % d == 0
    ensures 1 <= n / d <= n && n / d * d == n
  {
  }

  // ----- turns that change nothing -----

  /** x + h on a ring of n places. */
  function Plus(n: nat, x: nat, h: nat): (r: nat)
    requires x < n && h <= n
    ensures r < n
  {
    if x + h < n then x + h else x + h - n
  }

  /** Turning by h changes nothing: said place by place. */
  ghost predicate Fixed(b: seq<int>, h: nat)
    requires h <= |b|
  {
    forall x :: 0 <= x < |b| ==> b[Plus(|b|, x, h)] == b[x]
  }

  lemma TurnedIs(b: seq<int>, h: nat)
    requires h <= |b|
    ensures Turned(b, h) == b <==> Fixed(b, h)
  {
    var t := Turned(b, h);
    assert |t| == |b| && forall x :: 0 <= x < |b| ==> t[x] == b[Plus(|b|, x, h)];
    if Turned(b, h) == b {
      forall x | 0 <= x < |b| ensures b[Plus(|b|, x, h)] == b[x] { assert t[x] == b[Plus(|b|, x, h)]; }
    }
  }

  /** With two turns their difference. */
  lemma FixedMinus(b: seq<int>, g: nat, h: nat)
    requires g <= h <= |b| && Fixed(b, g) && Fixed(b, h)
    ensures Fixed(b, h - g)
  {
    var n := |b|;
    forall x | 0 <= x < n ensures b[Plus(n, x, h - g)] == b[x] {
      var y := Plus(n, x, h - g);
      assert Plus(n, y, g) == Plus(n, x, h);
    }
  }

  /** Every turn that changes nothing is by a multiple of the root. */
  lemma {:induction false} FixedMultiple(b: seq<int>, h: nat)
    requires b != [] && h <= |b| && Fixed(b, h)
    ensures h % RootLength(b) == 0
    decreases h
  {
    hide Fixed;
    var d := RootLength(b);
    TurnedIs(b, d);
    if h < d {
      TurnedIs(b, h);
      assert h == 0;
    } else {
      FixedMinus(b, d, h);
      FixedMultiple(b, h - d);
      ModBack(h, d);
    }
  }

  lemma ModBack(h: nat, d: nat)
    requires 0 < d <= h
    ensures (h - d) % d == h % d
  {
    DivUnique(h, d, (h - d) / d + 1, (h - d) % d);
    assert d * ((h - d) / d + 1) == d * ((h - d) / d) + d;
  }

  lemma {:induction false} MultipleFixed(b: seq<int>, k: nat)
    requires b != [] && k * RootLength(b) <= |b|
    ensures Fixed(b, k * RootLength(b))
  {
    var d := RootLength(b);
    if k > 0 {
      MulNext(k - 1, d);
      MultipleFixed(b, k - 1);
      TurnedIs(b, d);
      var g := (k - 1) * d;
      forall x | 0 <= x < |b| ensures b[Plus(|b|, x, g + d)] == b[x] {
        assert Plus(|b|, Plus(|b|, x, g), d) == Plus(|b|, x, g + d);
      }
    }
  }

  lemma RootDivides(b: seq<int>)
    requires b != []
    ensures |b| % RootLength(b) == 0
  {
    FixedMultiple(b, |b|);
  }

  // ----- equal rotations -----

  /** Rotations x and x + h are equal exactly if turning by h changes nothing. */
  lemma EqualIsFixed(b: seq<int>, x: nat, h: nat)
    requires x < |b| && h <= |b|
    ensures Cmp(b, x, Plus(|b|, x, h), |b|) == 0 <==> Fixed(b, h)
  {
    var n := |b|;
    if Cmp(b, x, Plus(n, x, h), n) == 0 {
      forall y | 0 <= y < n ensures b[Plus(n, y, h)] == b[y] {
        var k := if x <= y then y - x else y + n - x;
        EqualAt(b, x, Plus(n, x, h), n, k);
        AdvOnce(n, x, k);
        AdvOnce(n, Plus(n, x, h), k);
      }
    }
    if Fixed(b, h) { FixedEqual(b, x, h, n); }
  }

  lemma {:induction false} EqualAt(b: seq<int>, x: nat, y: nat, h: nat, k: nat)
    requires x < |b| && y < |b| && k < h && Cmp(b, x, y, h) == 0
    ensures b[Adv(|b|, x, k)] == b[Adv(|b|, y, k)]
    decreases k
  {
    if k > 0 { EqualAt(b, Next(|b|, x), Next(|b|, y), h - 1, k - 1); }
  }

  lemma {:induction false} FixedEqual(b: seq<int>, x: nat, h: nat, k: nat)
    requires x < |b| && h <= |b| && Fixed(b, h)
    ensures Cmp(b, x, Plus(|b|, x, h), k) == 0
    decreases k
  {
    if k > 0 {
      assert Next(|b|, Plus(|b|, x, h)) == Plus(|b|, Next(|b|, x), h);
      FixedEqual(b, Next(|b|, x), h, k - 1);
    }
  }

  /** Rotations are equal if and only if they start a multiple of the root apart. */
  lemma EqualExactly(b: seq<int>, x: nat, y: nat)
    requires x < |b| && y < |b|
    ensures Cmp(b, x, y, |b|) == 0 <==> x % RootLength(b) == y % RootLength(b)
  {
    hide Cmp, Fixed, RootLength;
    var d := RootLength(b);
    CmpFlip(b, x, y, |b|);
    var lo, hi := if x <= y then x else y, if x <= y then y else x;
    EqualIsFixed(b, lo, hi - lo);
    assert Plus(|b|, lo, hi - lo) == hi;
    ModDiff(lo, hi, d);
    if Fixed(b, hi - lo) { FixedMultiple(b, hi - lo); }
    if (hi - lo) % d == 0 {
      assert (hi - lo) / d * d == hi - lo;
      MultipleFixed(b, (hi - lo) / d);
    }
  }

  lemma ModDiff(x: nat, y: nat, d: nat)
    requires x <= y && d > 0
    ensures (y - x) % d == 0 <==> x % d == y % d
  {
    if (y - x) % d == 0 {
      var k := (y - x) / d;
      assert y == d * (x / d + k) + x % d by { assert d * (x / d + k) == d * (x / d) + d * k; }
      DivUnique(y, d, x / d + k, x % d);
    }
    if x % d == y % d {
      assert y - x == d * (y / d - x / d) by { assert d * (y / d - x / d) == d * (y / d) - d * (x / d); }
      Multiples(d, y / d, x / d);
      DivUnique(y - x, d, y / d - x / d, 0);
    }
  }

  // ----- equal rotations in a stretch that is in order -----

  /** The block is its root over and over again. */
  lemma RootOver(b: seq<int>, i: nat)
    requires i < |b|
    ensures b[i] == b[i % RootLength(b)]
  {
    hide RootLength;
    var d := RootLength(b);
    ModBelow(i, d);
    DivUnique(i % d, d, 0, i % d);
    EqualExactly(b, i, i % d);
  }

  lemma ModBelow(i: nat, d: nat)
    requires d > 0
    ensures 0 <= i % d <= i && i % d < d
  {
    assert i == d * (i / d) + i % d;
    NonNegative(d, i / d);
  }

  /** Where in the root a rotation starts: equal rotations have equal classes. */
  function Class(b: seq<int>, x: int): int
    requires b != []
  {
    x % RootLength(b)
  }

  /** s[lo..hi] is in order, and no rotation elsewhere is equal to one in it. */
  ghost predicate Stretch(b: seq<int>, s: seq<int>, lo: int, hi: int) {
    && b != [] && IsPermutation(s, |b|) && 0 <= lo <= hi <= |b|
    && (forall p, q :: lo <= p < q < hi ==> Le(b, s[p], s[q]))
    && (forall p, q :: lo <= p < hi && 0 <= q < |b| && Class(b, s[p]) == Class(b, s[q]) ==> lo <= q < hi)
  }

  /** What stands between equal rotations is equal to them. */
  lemma Between(b: seq<int>, s: seq<int>, lo: int, hi: int, p: int, q: int, r: int)
    requires Stretch(b, s, lo, hi) && lo <= p <= q <= r < hi && Class(b, s[p]) == Class(b, s[r])
    ensures Class(b, s[q]) == Class(b, s[p])
  {
    hide Cmp, RootLength;
    if p < q < r {
      EqualExactly(b, s[p], s[r]);
      CmpTrans(b, s[p], s[q], s[r], |b|);
      EqualExactly(b, s[p], s[q]);
    }
  }

  /** The places that start a multiple of the root away from x. */
  function Kin(b: seq<int>, x: nat): (r: seq<int>)
    requires x < |b|
    ensures |r| == Repeats(b)
  {
    seq(Repeats(b), k requires 0 <= k < Repeats(b) => Class(b, x) + k * RootLength(b))
  }

  lemma KinAt(b: seq<int>, x: nat, k: nat)
    requires x < |b| && k < Repeats(b)
    ensures 0 <= Kin(b, x)[k] < |b| && Class(b, Kin(b, x)[k]) == Class(b, x) && Kin(b, x)[k] / RootLength(b) == k
  {
    hide RootLength, Repeats;
    PlaceAt(Class(b, x), RootLength(b), k, Repeats(b));
  }

  /** Place k of m that lie d apart, counted from r. */
  lemma PlaceAt(r: nat, d: nat, k: nat, m: nat)
    requires r < d && k < m
    ensures 0 <= r + k * d < m * d && (r + k * d) % d == r && (r + k * d) / d == k
  {
    assert d * k == k * d && d * m == m * d;
    DivUnique(r + k * d, d, k, r);
    Multiples(d, k, m);
    NonNegative(k, d);
  }

  lemma KinAll(b: seq<int>, x: nat, y: nat)
    requires x < |b| && y < |b| && Class(b, x) == Class(b, y)
    ensures y in Kin(b, x)
  {
    hide RootLength, Repeats;
    var d, m := RootLength(b), Repeats(b);
    var k := y / d;
    assert y == d * k + y % d && d * k == k * d;
    if k >= m { Multiples(d, m - 1, k); assert d * m == m * d; KLarge(d, m, k); }
    assert Kin(b, x)[k] == y;
  }

  lemma KLarge(d: nat, m: nat, k: nat)
    requires k >= m
    ensures d * k >= d * m
  {
    NonNegative(d, k - m);
    assert d * k == d * m + d * (k - m);
  }

  lemma KinDistinct(b: seq<int>, x: nat)
    requires x < |b|
    ensures forall i, j :: 0 <= i < j < |Kin(b, x)| ==> Kin(b, x)[i] != Kin(b, x)[j]
  {
    hide RootLength, Repeats, Kin;
    forall i, j | 0 <= i < j < |Kin(b, x)| ensures Kin(b, x)[i] != Kin(b, x)[j] {
      KinAt(b, x, i);
      KinAt(b, x, j);
    }
  }

  /** From the first of them on, exactly as many rotations are equal as the block has repeats. */
  lemma RunFrom(b: seq<int>, s: seq<int>, lo: int, hi: int, a: int)
    requires Stretch(b, s, lo, hi) && lo <= a < hi
    requires forall q :: lo <= q < a ==> Class(b, s[q]) != Class(b, s[a])
    ensures a + Repeats(b) <= hi
    ensures forall p :: a <= p < hi ==> (Class(b, s[p]) == Class(b, s[a]) <==> p < a + Repeats(b))
  {
    hide RootLength, Repeats, Kin, Le, Class;
    var m := Repeats(b);
    RunLong(b, s, lo, hi, a, hi);
    forall p | a <= p < hi ensures Class(b, s[p]) == Class(b, s[a]) <==> p < a + m {
      if Class(b, s[p]) == Class(b, s[a]) { RunShort(b, s, lo, hi, a, p); } else { RunLong(b, s, lo, hi, a, p); }
    }
  }

  /** A run that ends at e has all the equal rotations. */
  lemma RunLong(b: seq<int>, s: seq<int>, lo: int, hi: int, a: int, e: int)
    requires Stretch(b, s, lo, hi) && lo <= a < hi && a <= e && (e >= hi || Class(b, s[e]) != Class(b, s[a]))
    requires forall q :: lo <= q < a ==> Class(b, s[q]) != Class(b, s[a])
    ensures e - a >= Repeats(b)
  {
    hide RootLength, Repeats, Kin, Le, Class;
    var top := if e <= hi then e else hi;
    var run := seq(top - a, i requires 0 <= i < top - a => s[a + i]);
    var kin := Kin(b, s[a]);
    KinDistinct(b, s[a]);
    forall k | 0 <= k < |kin| ensures kin[k] in run {
      KinAt(b, s[a], k);
      var p := Onto(s, |b|, kin[k]);
      assert lo <= p < hi;
      if p >= e { Between(b, s, lo, hi, a, e, p); }
      assert run[p - a] == kin[k];
    }
    Pigeonhole(kin, run);
  }

  /** A run up to p has no more than all of them. */
  lemma RunShort(b: seq<int>, s: seq<int>, lo: int, hi: int, a: int, p: int)
    requires Stretch(b, s, lo, hi) && lo <= a <= p < hi && Class(b, s[p]) == Class(b, s[a])
    ensures p - a + 1 <= Repeats(b)
  {
    hide RootLength, Repeats, Kin, Le, Class;
    var run := seq(p - a + 1, i requires 0 <= i < p - a + 1 => s[a + i]);
    var kin := Kin(b, s[a]);
    KinDistinct(b, s[a]);
    forall i | 0 <= i < |run| ensures run[i] in kin {
      Between(b, s, lo, hi, a, a + i, p);
      KinAll(b, s[a], run[i]);
    }
    Pigeonhole(run, kin);
  }

  /** Group k of equal rotations begins k * m places after the start of the stretch. */
  lemma {:induction false} GroupStarts(b: seq<int>, s: seq<int>, lo: int, hi: int, k: nat)
    requires Stretch(b, s, lo, hi) && lo + k * Repeats(b) < hi
    ensures var a := lo + k * Repeats(b); lo <= a && (forall q :: lo <= q < a ==> Class(b, s[q]) != Class(b, s[a]))
  {
    hide RootLength, Repeats, Stretch, IsPermutation, Class;
    var m := Repeats(b);
    NonNegative(k, m);
    if k > 0 {
      var a := lo + k * m;
      MulNext(k - 1, m);
      NonNegative(k - 1, m);
      GroupStarts(b, s, lo, hi, k - 1);
      StretchIn(b, s, lo, hi);
      RunFrom(b, s, lo, hi, a - m);
      forall q | lo <= q < a ensures Class(b, s[q]) != Class(b, s[a]) {
        if Class(b, s[q]) == Class(b, s[a]) { Between(b, s, lo, hi, q, a - 1, a); }
      }
    }
  }

  lemma StretchIn(b: seq<int>, s: seq<int>, lo: int, hi: int)
    requires Stretch(b, s, lo, hi)
    ensures |s| == |b| && 0 <= lo <= hi <= |b| && forall p :: 0 <= p < |b| ==> 0 <= s[p] < |b|
  {
    hide RootLength, Le;
  }

  /** Equal rotations stand together in groups of m, counted from the start of the stretch. */
  lemma SameGroup(b: seq<int>, s: seq<int>, lo: int, hi: int, i: nat, j: nat)
    requires Stretch(b, s, lo, hi) && lo + i < hi && lo + j < hi
    ensures 0 <= s[lo + i] < |b| && 0 <= s[lo + j] < |b|
    ensures Cmp(b, s[lo + i], s[lo + j], |b|) == 0 <==> i / Repeats(b) == j / Repeats(b)
  {
    hide RootLength, Repeats, Stretch, Cmp, IsPermutation;
    StretchIn(b, s, lo, hi);
    EqualExactly(b, s[lo + i], s[lo + j]);
    if i <= j { SameGroupUp(b, s, lo, hi, i, j); } else { SameGroupUp(b, s, lo, hi, j, i); }
  }

  lemma SameGroupUp(b: seq<int>, s: seq<int>, lo: int, hi: int, i: nat, j: nat)
    requires Stretch(b, s, lo, hi) && i <= j && lo + j < hi
    ensures 0 <= s[lo + i] < |b| && 0 <= s[lo + j] < |b|
    ensures Class(b, s[lo + i]) == Class(b, s[lo + j]) <==> i / Repeats(b) == j / Repeats(b)
  {
    hide RootLength, Repeats, Stretch, IsPermutation, Class;
    StretchIn(b, s, lo, hi);
    var m := Repeats(b);
    var k := i / m;
    InGroup(i, j, m);
    GroupStarts(b, s, lo, hi, k);
    RunFrom(b, s, lo, hi, lo + k * m);
  }

  lemma InGroup(i: nat, j: nat, m: nat)
    requires i <= j && m > 0
    ensures 0 <= i / m * m <= i < i / m * m + m && (i / m == j / m <==> j < i / m * m + m)
  {
    var k := i / m;
    assert i == m * k + i % m && m * k == k * m;
    NonNegative(k, m);
    if j < k * m + m {
      DivUnique(j, m, k, j - k * m);
    } else {
      assert m * (k + 1) == m * k + m;
      DivAtLeast(j, m, k + 1);
    }
  }
}

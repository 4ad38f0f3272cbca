/** The quadrant descriptors of a big bucket that has been sorted: what they mean, and when they are as strict as the
    comment beside the original says. */
module Descriptors {

  import opened Rotations
  import opened Counting
  import opened Powers
  import opened MainOrder
  import opened MainSimpleSort
  import opened Roots

  /** j >> shifts: what the rotation at place j of its bucket gets. */
  function Descriptor(j: int, shifts: nat): int { j / Pow2(shifts) }

  lemma DescriptorGrows(i: nat, j: nat, shifts: nat)
    requires i <= j
    ensures 0 <= Descriptor(i, shifts) <= Descriptor(j, shifts) <= j
  {
    var p := Pow2(shifts);
    assert i == p * (i / p) + i % p && j == p * (j / p) + j % p;
    DivAtLeast(j, p, i / p);
    DivAtLeast(i, p, 0);
    NonNegative(p - 1, j / p);
    assert p * (j / p) == j / p + (p - 1) * (j / p);
  }

  /** The shifts that bring the descriptors of a big bucket below 2^16. */
  function ShiftsFor(size: nat): nat {
    if size <= 65534 then 0 else 1 + ShiftsFor(size / 2)
  }

  lemma HalfFirst(size: nat, k: nat)
    requires k > 0
    ensures Descriptor(size, k) == Descriptor(size / 2, k - 1)
  {
    DivTwice(size, Pow2(k - 1));
  }

  lemma {:induction false} ShiftsEnough(size: nat)
    ensures Descriptor(size, ShiftsFor(size)) <= 65534
  {
    hide Descriptor;
    if size > 65534 {
      HalfFirst(size, ShiftsFor(size));
      ShiftsEnough(size / 2);
    } else {
      DescriptorGrows(size, size, 0);
    }
  }

  /** Fewer shifts are not enough. */
  lemma {:induction false} ShiftsLeast(size: nat, k: nat)
    requires k <= ShiftsFor(size) && Descriptor(size, k) <= 65534
    ensures k == ShiftsFor(size)
  {
    if size > 65534 && k > 0 {
      HalfFirst(size, k);
      ShiftsLeast(size / 2, k - 1);
    }
  }

  lemma {:induction false} FewShifts(size: nat, k: nat)
    requires size <= 65534 * Pow2(k)
    ensures ShiftsFor(size) <= k
  {
    if size > 65534 { FewShifts(size / 2, k - 1); }
  }

  lemma {:induction false} PowGrows(k: nat, l: nat)
    requires k <= l
    ensures Pow2(k) <= Pow2(l)
    decreases l
  {
    if k < l { PowGrows(k, l - 1); }
  }

  /** In a bucket of that size the second descriptor is given to someone, unless the first is given to no more than
      one. */
  lemma ShiftsRoom(size: nat)
    requires 1 <= size <= 900000
    ensures Pow2(ShiftsFor(size)) < size || Pow2(ShiftsFor(size)) == 1
  {
    if size > 65534 {
      assert Pow2(4) == 16;
      FewShifts(size, 4);
      PowGrows(ShiftsFor(size), 4);
    }
  }

  /** Step 3: descriptors that follow the order of big bucket ss keep their meaning. */
  lemma MeaningKept(b: seq<int>, s: seq<int>, ss: int, lo: int, size: int, shifts: nat, q: seq<int>, q': seq<int>)
    requires IsPermutation(s, |b|) && 0 <= lo && 0 <= size && lo + size <= |b| && InOrder(b, s, lo, lo + size)
    requires forall p :: 0 <= p < |b| ==> (lo <= p < lo + size <==> b[s[p]] == ss)
    requires QuadrantMeaning(b, q) && |q'| == |q|
    requires forall j :: 0 <= j < size ==> q'[s[lo + j]] == Descriptor(j, shifts)
    requires forall x :: 0 <= x < |b| && b[x] != ss ==> q'[x] == q[x]
    ensures QuadrantMeaning(b, q')
  {
    hide Descriptor;
    forall x, y | 0 <= x < |b| && 0 <= y < |b| && b[x] == b[y] && q'[x] < q'[y] ensures Le(b, x, y) {
      if b[x] == ss {
        var p := Onto(s, |b|, x);
        var r := Onto(s, |b|, y);
        assert q'[s[lo + (p - lo)]] == Descriptor(p - lo, shifts);
        assert q'[s[lo + (r - lo)]] == Descriptor(r - lo, shifts);
        if r < p { DescriptorGrows(r - lo, p - lo, shifts); }
        assert NotAfter(b, s[p], s[r]);
      }
    }
  }

  // ----- when the comment about descriptors holds -----

  /** The number of repeats of the block divides 2^shifts, or the bucket is empty. */
  predicate Fine(b: seq<int>, size: nat)
    requires b != []
  {
    size == 0 || Pow2(ShiftsFor(size)) % Repeats(b) == 0
  }

  lemma BucketStretch(b: seq<int>, s: seq<int>, ss: int, lo: int, size: int)
    requires b != [] && IsPermutation(s, |b|) && 0 <= lo && 0 <= size && lo + size <= |b| &&
      InOrder(b, s, lo, lo + size)
    requires forall p :: 0 <= p < |b| ==> (lo <= p < lo + size <==> b[s[p]] == ss)
    ensures Stretch(b, s, lo, lo + size)
  {
    hide Cmp, Class;
    forall p, q | lo <= p < lo + size && 0 <= q < |b| && Class(b, s[p]) == Class(b, s[q]) ensures b[s[q]] == ss {
      SameByte(b, s[p], s[q]);
    }
    forall p, q | lo <= p < q < lo + size ensures Le(b, s[p], s[q]) { assert NotAfter(b, s[p], s[q]); }
  }

  lemma SameByte(b: seq<int>, x: nat, y: nat)
    requires x < |b| && y < |b| && Class(b, x) == Class(b, y)
    ensures b[x] == b[y]
  {
    EqualExactly(b, x, y);
  }

  /** The descriptors of a bucket tell its rotations apart strictly if and only if equal rotations, which stand in
      groups as large as the number of repeats, never fall on both sides of a multiple of 2^shifts. */
  lemma StrictExactly(b: seq<int>, s: seq<int>, ss: int, lo: int, size: int, q: seq<int>)
    requires b != [] && IsPermutation(s, |b|) && 0 <= lo && 0 <= size && lo + size <= |b| <= 900000 &&
      InOrder(b, s, lo, lo + size)
    requires forall p :: 0 <= p < |b| ==> (lo <= p < lo + size <==> b[s[p]] == ss)
    requires |b| <= |q| && forall j :: 0 <= j < size ==> q[s[lo + j]] == Descriptor(j, ShiftsFor(size))
    ensures StrictAt(b, q, ss) <==> Fine(b, size)
  {
    hide InOrder, Cmp, Repeats, ShiftsFor, IsPermutation, Stretch, Pow2, Descriptor;
    BucketStretch(b, s, ss, lo, size);
    StretchIn(b, s, lo, lo + size);
    if !Fine(b, size) { NotFine(b, s, ss, lo, size, q); }
    if size == 0 {
      forall x | 0 <= x < |b| ensures b[x] != ss { var p := Onto(s, |b|, x); }
    } else if Fine(b, size) {
      forall x, y | 0 <= x < |b| && 0 <= y < |b| && b[x] == b[y] == ss && q[x] < q[y] ensures Cmp(b, x, y, |b|) < 0 {
        IsFine(b, s, ss, lo, size, q, x, y);
      }
    }
  }

  /** A smaller descriptor, where no group is divided. */
  lemma IsFine(b: seq<int>, s: seq<int>, ss: int, lo: int, size: int, q: seq<int>, x: nat, y: nat)
    requires Stretch(b, s, lo, lo + size) && 1 <= size && Pow2(ShiftsFor(size)) % Repeats(b) == 0
    requires forall p :: 0 <= p < |b| ==> (lo <= p < lo + size <==> b[s[p]] == ss)
    requires |b| <= |q| && forall j :: 0 <= j < size ==> q[s[lo + j]] == Descriptor(j, ShiftsFor(size))
    requires x < |b| && y < |b| && b[x] == b[y] == ss && q[x] < q[y]
    ensures Cmp(b, x, y, |b|) < 0
  {
    hide *;
    var i := PlaceIn(b, s, ss, lo, size, q, x);
    var j := PlaceIn(b, s, ss, lo, size, q, y);
    PlacesFine(b, s, lo, lo + size, i, j, ShiftsFor(size));
  }

  /** The place of a rotation in its bucket. */
  lemma PlaceIn(b: seq<int>, s: seq<int>, ss: int, lo: int, size: int, q: seq<int>, x: nat) returns (i: nat)
    requires Stretch(b, s, lo, lo + size) && |b| <= |q| && x < |b| && b[x] == ss
    requires forall p :: 0 <= p < |b| ==> (lo <= p < lo + size <==> b[s[p]] == ss)
    requires forall j :: 0 <= j < size ==> q[s[lo + j]] == Descriptor(j, ShiftsFor(size))
    ensures i < size && 0 <= lo && lo + size <= |s| && s[lo + i] == x && q[x] == Descriptor(i, ShiftsFor(size))
  {
    hide *;
    StretchIn(b, s, lo, lo + size);
    StretchAll(b, s, lo, lo + size);
    var p := Onto(s, |b|, x);
    i := p - lo;
    assert q[s[lo + i]] == Descriptor(i, ShiftsFor(size));
  }

  lemma PlacesFine(b: seq<int>, s: seq<int>, lo: int, hi: int, i: nat, j: nat, shifts: nat)
    requires Stretch(b, s, lo, hi) && lo + i < hi && lo + j < hi && Pow2(shifts) % Repeats(b) == 0 &&
      Descriptor(i, shifts) < Descriptor(j, shifts)
    ensures 0 <= s[lo + i] < |b| && 0 <= s[lo + j] < |b| && Cmp(b, s[lo + i], s[lo + j], |b|) < 0
  {
    hide *;
    SameGroup(b, s, lo, hi, i, j);
    if i / Repeats(b) == j / Repeats(b) { SameDescriptor(i, j, Repeats(b), shifts); }
    if j <= i { DescriptorGrows(j, i, shifts); }
    StretchOrder(b, s, lo, hi, lo + i, lo + j);
  }

  lemma StretchAll(b: seq<int>, s: seq<int>, lo: int, hi: int)
    requires Stretch(b, s, lo, hi)
    ensures IsPermutation(s, |b|)
  {
    hide Cmp, Class;
  }

  lemma StretchOrder(b: seq<int>, s: seq<int>, lo: int, hi: int, p: int, q: int)
    requires Stretch(b, s, lo, hi) && lo <= p < q < hi
    ensures 0 <= s[p] < |b| && 0 <= s[q] < |b| && Cmp(b, s[p], s[q], |b|) <= 0
  {
    hide Cmp, Class;
  }

  /** In one group of m, in one group of every multiple of m. */
  lemma SameDescriptor(i: nat, j: nat, m: nat, shifts: nat)
    requires m > 0 && Pow2(shifts) % m == 0 && i / m == j / m
    ensures Descriptor(i, shifts) == Descriptor(j, shifts)
  {
    hide Pow2;
    var r := Whole(Pow2(shifts), m);
    DivBy(i, m, r, i / m, i / m / r);
    DivBy(j, m, r, j / m, j / m / r);
  }

  lemma Whole(p: nat, m: nat) returns (r: nat)
    requires p > 0 && m > 0 && p % m == 0
    ensures r > 0 && p == m * r
  {
    r := p / m;
  }

  lemma DivBy(i: nat, m: nat, r: nat, a: nat, q: nat)
    requires m > 0 && r > 0 && a == i / m && q == a / r
    ensures m * r > 0 && i / (m * r) == q
  {
    var e, f := a % r, i % m;
    assert i == m * a + f && a == r * q + e;
    SplitBy(m, r, q, e, f);
    DivUnique(i, m * r, q, m * e + f);
  }

  lemma SplitBy(m: nat, r: nat, q: nat, e: nat, f: nat)
    requires m > 0 && e < r && f < m
    ensures m * r > 0 && m * (r * q + e) + f == m * r * q + (m * e + f) && 0 <= m * e + f < m * r
  {
    assert m * (r * q + e) == m * (r * q) + m * e;
    MulThree(m, r, q);
    Multiples(m, e, r);
    NonNegative(m, e);
  }

  lemma MulThree(m: int, r: int, q: int)
    ensures m * (r * q) == m * r * q
  {
  }

  /** The last rotation with descriptor 0 and the first with descriptor 1. */
  lemma Edge(k: nat)
    ensures Descriptor(Pow2(k) - 1, k) == 0 && Descriptor(Pow2(k), k) == 1
  {
    var p := Pow2(k);
    DivUnique(p - 1, p, 0, p - 1);
    DivUnique(p, p, 1, 0);
  }

  /** Two equal rotations that get different descriptors. */
  lemma NotFine(b: seq<int>, s: seq<int>, ss: int, lo: int, size: int, q: seq<int>)
    requires Stretch(b, s, lo, lo + size) && 1 <= size <= 900000 && Pow2(ShiftsFor(size)) % Repeats(b) != 0
    requires forall p :: 0 <= p < |b| ==> (lo <= p < lo + size <==> b[s[p]] == ss)
    requires |b| <= |q| && forall j :: 0 <= j < size ==> q[s[lo + j]] == Descriptor(j, ShiftsFor(size))
    ensures !StrictAt(b, q, ss)
  {
    hide Cmp, Repeats, ShiftsFor, IsPermutation, Stretch, Pow2, Descriptor;
    StretchIn(b, s, lo, lo + size);
    var p := Pow2(ShiftsFor(size));
    EdgeInside(b, s, lo, size);
    NotAtEdge(p, Repeats(b));
    SameGroup(b, s, lo, lo + size, p - 1, p);
    Edge(ShiftsFor(size));
    var x, y := s[lo + (p - 1)], s[lo + p];
    assert b[x] == b[y] == ss && q[x] == 0 && q[y] == 1;
  }

  lemma EdgeInside(b: seq<int>, s: seq<int>, lo: int, size: int)
    requires Stretch(b, s, lo, lo + size) && 1 <= size <= 900000 && Pow2(ShiftsFor(size)) % Repeats(b) != 0
    ensures Pow2(ShiftsFor(size)) < size
  {
    hide Cmp, Repeats, ShiftsFor, IsPermutation, Stretch, Pow2;
    ShiftsRoom(size);
    StretchIn(b, s, lo, lo + size);
    NonNegative(0, Repeats(b));
    GroupStarts(b, s, lo, lo + size, 0);
    RunFrom(b, s, lo, lo + size, lo);
  }

  /** A number that m does not divide is in the same group of m as the one before it. */
  lemma NotAtEdge(p: nat, m: nat)
    requires p > 0 && m > 0 && p % m != 0
    ensures (p - 1) / m == p / m
  {
    DivUnique(p - 1, m, p / m, p % m - 1);
  }
}

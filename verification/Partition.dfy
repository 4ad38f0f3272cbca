/** Three-way partitioning of part of an array around a key, as both block sorters do it. */
module Partition {

  import opened Rotations
  import opened Rearrange

  /** The key by which entry x is partitioned: the value found d places on. */
  function K(key: seq<int>, d: int, x: int): int {
    if 0 <= x + d < |key| then key[x + d] else 0
  }

  ghost predicate Keyed(s: seq<int>, key: seq<int>, d: int, lo: int, hi: int) {
    forall p :: 0 <= p < |s| && lo <= p < hi ==> 0 <= s[p] + d < |key|
  }

  ghost predicate AllBelow(s: seq<int>, key: seq<int>, d: int, med: int, lo: int, hi: int) {
    forall p :: 0 <= p < |s| && lo <= p < hi ==> K(key, d, s[p]) < med
  }

  ghost predicate AllEqual(s: seq<int>, key: seq<int>, d: int, med: int, lo: int, hi: int) {
    forall p :: 0 <= p < |s| && lo <= p < hi ==> K(key, d, s[p]) == med
  }

  ghost predicate AllAbove(s: seq<int>, key: seq<int>, d: int, med: int, lo: int, hi: int) {
    forall p :: 0 <= p < |s| && lo <= p < hi ==> K(key, d, s[p]) > med
  }

  /** Halfway through: equal entries at both ends, smaller ones after the left end, greater ones before
      the right end, and [unLo, unHi] still to be looked at. */
  ghost predicate Halfway(s: seq<int>, key: seq<int>, d: int, med: int, lo: int, ltLo: int, unLo: int, unHi: int,
      gtHi: int, hi: int) {
    && 0 <= lo <= ltLo <= unLo <= unHi + 1 <= gtHi + 1 <= hi + 1 <= |s|
    && AllEqual(s, key, d, med, lo, ltLo)
    && AllBelow(s, key, d, med, ltLo, unLo)
    && AllAbove(s, key, d, med, unHi + 1, gtHi + 1)
    && AllEqual(s, key, d, med, gtHi + 1, hi + 1)
    && Keyed(s, key, d, lo, hi + 1)
  }

  method ScanUp(a: array<int>, key: seq<int>, d: int, med: int, lo: int, lt0: int, un0: int, unHi: int, gtHi: int,
      hi: int)
    returns (ltLo: int, unLo: int)
    requires Halfway(a[..], key, d, med, lo, lt0, un0, unHi, gtHi, hi)
    modifies a
    ensures Halfway(a[..], key, d, med, lo, ltLo, unLo, unHi, gtHi, hi)
    ensures Permuted(old(a[..]), a[..], lo, hi + 1)
    ensures un0 <= unLo
    ensures unLo <= unHi ==> K(key, d, a[unLo]) > med
  {
    ltLo, unLo := lt0, un0;
    while true
      invariant Halfway(a[..], key, d, med, lo, ltLo, unLo, unHi, gtHi, hi)
      invariant Permuted(old(a[..]), a[..], lo, hi + 1)
      invariant un0 <= unLo
      decreases unHi + 1 - unLo
    {
      if unLo > unHi { break; }
      var n := key[a[unLo] + d] - med;
      if n == 0 {
        Swap(a, unLo, ltLo);
        ltLo, unLo := ltLo + 1, unLo + 1;
        continue;
      }
      if n > 0 { break; }
      unLo := unLo + 1;
    }
  }

  method ScanDown(a: array<int>, key: seq<int>, d: int, med: int, lo: int, ltLo: int, unLo: int, un0: int, gt0: int,
      hi: int)
    returns (unHi: int, gtHi: int)
    requires Halfway(a[..], key, d, med, lo, ltLo, unLo, un0, gt0, hi)
    requires unLo <= un0 ==> K(key, d, a[unLo]) > med
    modifies a
    ensures Halfway(a[..], key, d, med, lo, ltLo, unLo, unHi, gtHi, hi)
    ensures Permuted(old(a[..]), a[..], lo, hi + 1)
    ensures unHi <= un0
    ensures unLo <= unHi ==> unLo < unHi && K(key, d, a[unLo]) > med && K(key, d, a[unHi]) < med
  {
    unHi, gtHi := un0, gt0;
    while true
      invariant Halfway(a[..], key, d, med, lo, ltLo, unLo, unHi, gtHi, hi)
      invariant Permuted(old(a[..]), a[..], lo, hi + 1)
      invariant unHi <= un0
      invariant unLo <= unHi ==> K(key, d, a[unLo]) > med
      decreases unHi + 1 - unLo
    {
      if unLo > unHi { break; }
      var n := key[a[unHi] + d] - med;
      if n == 0 {
        Swap(a, unHi, gtHi);
        gtHi, unHi := gtHi - 1, unHi - 1;
        continue;
      }
      if n < 0 { break; }
      unHi := unHi - 1;
    }
  }

  /** The two entries that stopped the scans change places. */
  lemma HalfwaySwap(s: seq<int>, t: seq<int>, key: seq<int>, d: int, med: int, lo: int, ltLo: int, unLo: int, unHi: int,
      gtHi: int, hi: int)
    requires Halfway(s, key, d, med, lo, ltLo, unLo, unHi, gtHi, hi) && unLo < unHi
    requires K(key, d, s[unLo]) > med > K(key, d, s[unHi])
    requires |t| == |s| && t[unLo] == s[unHi] && t[unHi] == s[unLo]
    requires forall p :: 0 <= p < |s| && p != unLo && p != unHi ==> t[p] == s[p]
    ensures Halfway(t, key, d, med, lo, ltLo, unLo + 1, unHi - 1, gtHi, hi)
  {
  }

  /** Splits [lo, hi] around med, leaving the equal entries at the two ends. */
  method SplitEnds(a: array<int>, key: seq<int>, d: int, med: int, lo: int, hi: int)
    returns (ltLo: int, unLo: int, unHi: int, gtHi: int)
    requires 0 <= lo <= hi < a.Length && Keyed(a[..], key, d, lo, hi + 1)
    modifies a
    ensures Halfway(a[..], key, d, med, lo, ltLo, unLo, unHi, gtHi, hi) && unHi == unLo - 1
    ensures Permuted(old(a[..]), a[..], lo, hi + 1)
  {
    hide AllBelow, AllEqual, AllAbove, Keyed;
    unLo, ltLo := lo, lo;
    unHi, gtHi := hi, hi;
    HalfwayStart(a[..], key, d, med, lo, hi);
    while true
      invariant Halfway(a[..], key, d, med, lo, ltLo, unLo, unHi, gtHi, hi)
      invariant Permuted(old(a[..]), a[..], lo, hi + 1)
      decreases unHi + 1 - unLo
    {
      ltLo, unLo := ScanUp(a, key, d, med, lo, ltLo, unLo, unHi, gtHi, hi);
      unHi, gtHi := ScanDown(a, key, d, med, lo, ltLo, unLo, unHi, gtHi, hi);
      if unLo > unHi { break; }
      ghost var s := a[..];
      Swap(a, unLo, unHi);
      HalfwaySwap(s, a[..], key, d, med, lo, ltLo, unLo, unHi, gtHi, hi);
      unLo, unHi := unLo + 1, unHi - 1;
    }
  }

  lemma HalfwayStart(s: seq<int>, key: seq<int>, d: int, med: int, lo: int, hi: int)
    requires 0 <= lo <= hi < |s| && Keyed(s, key, d, lo, hi + 1)
    ensures Halfway(s, key, d, med, lo, lo, lo, hi, hi, hi)
  {
  }

  /** [lo, hi] holds the smaller entries up to n, the greater ones from m on, and the equal ones between. */
  ghost predicate Split3(s: seq<int>, key: seq<int>, d: int, med: int, lo: int, n: int, m: int, hi: int) {
    && lo - 1 <= n < m - 1 && m <= hi + 1
    && AllBelow(s, key, d, med, lo, n + 1)
    && AllEqual(s, key, d, med, n + 1, m)
    && AllAbove(s, key, d, med, m, hi + 1)
  }

  /** Brings the equal entries from the left end to the middle. */
  method GatherLeft(a: array<int>, key: seq<int>, d: int, med: int, lo: int, ltLo: int, unLo: int, hi: int)
    requires 0 <= lo <= ltLo <= unLo <= hi + 1 <= a.Length
    requires AllEqual(a[..], key, d, med, lo, ltLo) && AllBelow(a[..], key, d, med, ltLo, unLo)
    modifies a
    ensures Permuted(old(a[..]), a[..], lo, unLo)
    ensures AllBelow(a[..], key, d, med, lo, lo + unLo - ltLo)
    ensures AllEqual(a[..], key, d, med, lo + unLo - ltLo, unLo)
  {
    var n := if ltLo - lo < unLo - ltLo then ltLo - lo else unLo - ltLo;
    SwapRanges(a, lo, unLo - n, n);
  }

  /** Brings the equal entries from the right end to the middle. */
  method GatherRight(a: array<int>, key: seq<int>, d: int, med: int, unLo: int, gtHi: int, hi: int)
    requires 0 <= unLo <= gtHi + 1 <= hi + 1 <= a.Length
    requires AllAbove(a[..], key, d, med, unLo, gtHi + 1) && AllEqual(a[..], key, d, med, gtHi + 1, hi + 1)
    modifies a
    ensures Permuted(old(a[..]), a[..], unLo, hi + 1)
    ensures AllEqual(a[..], key, d, med, unLo, unLo + hi - gtHi)
    ensures AllAbove(a[..], key, d, med, unLo + hi - gtHi, hi + 1)
  {
    var m := if hi - gtHi < gtHi - unLo + 1 then hi - gtHi else gtHi - unLo + 1;
    SwapRanges(a, unLo, hi - m + 1, m);
  }

  /** Three-way partition of [lo, hi] around med, the key of one of its entries. */
  method Partition3(a: array<int>, key: seq<int>, d: int, med: int, lo: int, hi: int)
      returns (allEqual: bool, n: int, m: int)
    requires 0 <= lo <= hi < a.Length && Keyed(a[..], key, d, lo, hi + 1)
    requires exists p :: lo <= p <= hi && K(key, d, a[p]) == med
    modifies a
    ensures Permuted(old(a[..]), a[..], lo, hi + 1)
    ensures Keyed(a[..], key, d, lo, hi + 1)
    ensures Split3(a[..], key, d, med, lo, n, m, hi)
    ensures allEqual <==> n == lo - 1 && m == hi + 1
  {
    var w :| lo <= w <= hi && K(key, d, a[w]) == med;
    var ltLo, unLo, unHi, gtHi := SplitEnds(a, key, d, med, lo, hi);
    SomeEqual(old(a[..]), a[..], key, d, med, lo, ltLo, unLo, gtHi, hi, w);
    if gtHi < ltLo {
      return true, lo - 1, hi + 1;
    }
    label split:
    GatherLeft(a, key, d, med, lo, ltLo, unLo, hi);
    GatherRight(a, key, d, med, unLo, gtHi, hi);
    n := lo + unLo - ltLo - 1;
    m := hi - (gtHi - unHi) + 1;
    allEqual := false;
    assert Permuted(old@split(a[..]), a[..], lo, hi + 1);
    KeyedPermuted(old(a[..]), a[..], key, d, lo, hi + 1);
  }

  lemma KeyedPermuted(s: seq<int>, t: seq<int>, key: seq<int>, d: int, lo: int, hi: int)
    requires 0 <= lo <= hi <= |s| && Permuted(s, t, lo, hi) && Keyed(s, key, d, lo, hi)
    ensures Keyed(t, key, d, lo, hi)
  {
    forall p | lo <= p < hi ensures 0 <= t[p] + d < |key| {
      var q := PermutedSource(s, t, lo, hi, p);
    }
  }

  lemma PermutedSym(s: seq<int>, t: seq<int>, lo: int, hi: int)
    requires Permuted(s, t, lo, hi)
    ensures Permuted(t, s, lo, hi)
  {
  }

  lemma SomeEqual(s: seq<int>, t: seq<int>, key: seq<int>, d: int, med: int, lo: int, ltLo: int, unLo: int, gtHi: int,
      hi: int, w: int)
    requires Permuted(s, t, lo, hi + 1)
    requires Halfway(t, key, d, med, lo, ltLo, unLo, unLo - 1, gtHi, hi)
    requires lo <= w <= hi && K(key, d, s[w]) == med
    ensures lo < ltLo || gtHi < hi
  {
    PermutedSym(s, t, lo, hi + 1);
    var q := PermutedSource(t, s, lo, hi + 1, w);
  }
}

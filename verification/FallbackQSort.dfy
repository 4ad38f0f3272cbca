/** fallbackSimpleSort and fallbackQSort3: sorting part of fmap by equivalence class. */
module FallbackQSort {

  import opened Rotations
  import opened Rearrange
  import opened Partition
  import opened PendingRanges
  import opened Powers

  const SMALL_THRESH := 10
  const STACK_SIZE := 100

  /** The entries of [lo, hi) are in non-decreasing order of key. */
  ghost predicate SortedBy(s: seq<int>, key: seq<int>, lo: int, hi: int) {
    forall p, q :: 0 <= p <= q < |s| && lo <= p && q < hi ==> K(key, 0, s[p]) <= K(key, 0, s[q])
  }

  /** The same, leaving out the entry at hole. */
  ghost predicate SortedBut(s: seq<int>, key: seq<int>, lo: int, hi: int, hole: int) {
    forall p, q :: 0 <= p <= q < |s| && lo <= p && q < hi && p != hole && q != hole ==>
      K(key, 0, s[p]) <= K(key, 0, s[q])
  }

  ghost predicate NoneAbove(s: seq<int>, key: seq<int>, lo: int, hi: int, x: int) {
    forall p :: 0 <= p < |s| && lo <= p < hi ==> K(key, 0, s[p]) <= x
  }

  /** Entry i is on its way up and would now be put down at j - h, which gives s. */
  ghost predicate Inserting(was: seq<int>, s: seq<int>, key: seq<int>, lo: int, hi: int, i: int, j: int, h: int) {
    && 0 <= lo <= i && i + h <= j && j - h <= hi < |s| && h >= 1
    && Permuted(was, s, lo, hi + 1) && Keyed(s, key, 0, lo, hi + 1)
    && (h == 1 ==> SortedBut(s, key, i, hi + 1, j - h) && NoneAbove(s, key, i, j, K(key, 0, s[j - h])))
  }

  lemma InsertStart(s: seq<int>, key: seq<int>, lo: int, hi: int, i: int, h: int)
    requires 0 <= lo <= i && i + h <= hi < |s| && h >= 1 && Keyed(s, key, 0, lo, hi + 1)
    requires h == 1 ==> SortedBy(s, key, i + 1, hi + 1)
    ensures Inserting(s, s, key, lo, hi, i, i + h, h)
  {
  }

  /** One step: the entry in hand moves past a smaller one. */
  lemma InsertStep(was: seq<int>, s: seq<int>, t: seq<int>, key: seq<int>, lo: int, hi: int, i: int, j: int, h: int)
    requires Inserting(was, s, key, lo, hi, i, j, h) && j <= hi
    requires K(key, 0, s[j]) < K(key, 0, s[j - h])
    requires t == s[j - h := s[j]][j := s[j - h]]
    ensures Inserting(was, t, key, lo, hi, i, j + h, h)
  {
    hide Permuted;
    PermutedExchange(was, s, lo, hi + 1, j - h, j);
  }

  lemma InsertEnd(was: seq<int>, s: seq<int>, key: seq<int>, lo: int, hi: int, i: int, j: int, h: int)
    requires Inserting(was, s, key, lo, hi, i, j, h)
    requires j <= hi ==> K(key, 0, s[j - h]) <= K(key, 0, s[j])
    ensures Permuted(was, s, lo, hi + 1) && Keyed(s, key, 0, lo, hi + 1)
    ensures h == 1 ==> SortedBy(s, key, i, hi + 1)
  {
    hide Permuted;
  }

  lemma InsertingKeyed(was: seq<int>, s: seq<int>, key: seq<int>, lo: int, hi: int, i: int, j: int, h: int)
    requires Inserting(was, s, key, lo, hi, i, j, h)
    ensures 0 <= s[j - h] < |key| && (j <= hi ==> 0 <= s[j] < |key|)
  {
  }

  /** Inserts entry i into the entries at i + h, i + 2h, ... that follow it. */
  method InsertUp(fmap: array<int>, eclass: seq<int>, lo: int, hi: int, i: int, h: int)
    requires 0 <= lo <= i && i + h <= hi < fmap.Length && h >= 1
    requires Keyed(fmap[..], eclass, 0, lo, hi + 1)
    requires h == 1 ==> SortedBy(fmap[..], eclass, i + 1, hi + 1)
    modifies fmap
    ensures Permuted(old(fmap[..]), fmap[..], lo, hi + 1)
    ensures Keyed(fmap[..], eclass, 0, lo, hi + 1)
    ensures h == 1 ==> SortedBy(fmap[..], eclass, i, hi + 1)
  {
    hide Inserting, Permuted, SortedBy, Keyed;
    ghost var s := fmap[..];
    InsertStart(s, eclass, lo, hi, i, h);
    InsertingKeyed(s, s, eclass, lo, hi, i, i + h, h);
    var tmp := fmap[i];
    var ecTmp := eclass[tmp];
    var j := i + h;
    while j <= hi && ecTmp > eclass[fmap[j]]
      invariant i + h <= j && j - h <= hi
      invariant |s| == fmap.Length && s[j - h] == tmp && forall p :: 0 <= p < |s| && p != j - h ==> fmap[p] == s[p]
      invariant Inserting(old(fmap[..]), s, eclass, lo, hi, i, j, h)
      invariant j <= hi ==> 0 <= s[j] < |eclass| && fmap[j] == s[j]
    {
      ghost var t := s[j - h := s[j]][j := s[j - h]];
      InsertStep(old(fmap[..]), s, t, eclass, lo, hi, i, j, h);
      s := t;
      fmap[j - h] := fmap[j];
      j := j + h;
      InsertingKeyed(old(fmap[..]), s, eclass, lo, hi, i, j, h);
    }
    InsertEnd(old(fmap[..]), s, eclass, lo, hi, i, j, h);
    fmap[j - h] := tmp;
    assert fmap[..] == s;
  }

  method SimpleSort(fmap: array<int>, eclass: seq<int>, lo: int, hi: int)
    requires 0 <= lo <= hi + 1 <= fmap.Length && Keyed(fmap[..], eclass, 0, lo, hi + 1)
    modifies fmap
    ensures Permuted(old(fmap[..]), fmap[..], lo, hi + 1)
    ensures Keyed(fmap[..], eclass, 0, lo, hi + 1)
    ensures SortedBy(fmap[..], eclass, lo, hi + 1)
  {
    if lo == hi { return; }
    if hi - lo > 3 {
      var i := hi - 4;
      while i >= lo
        invariant lo - 1 <= i <= hi - 4
        invariant Permuted(old(fmap[..]), fmap[..], lo, hi + 1)
        invariant Keyed(fmap[..], eclass, 0, lo, hi + 1)
      {
        InsertUp(fmap, eclass, lo, hi, i, 4);
        i := i - 1;
      }
    }
    var i := hi - 1;
    while i >= lo
      invariant lo - 1 <= i <= hi - 1 || i == hi - 1
      invariant Permuted(old(fmap[..]), fmap[..], lo, hi + 1)
      invariant Keyed(fmap[..], eclass, 0, lo, hi + 1)
      invariant SortedBy(fmap[..], eclass, i + 1, hi + 1)
    {
      InsertUp(fmap, eclass, lo, hi, i, 1);
      i := i - 1;
    }
  }

  /** Entries are in order, except possibly two entries of the same pending range. */
  ghost predicate Ordered(s: seq<int>, key: seq<int>, own: seq<int>, loSt: int, hiSt: int)
    requires |own| == |s|
  {
    forall p, q :: 0 <= loSt <= p < q <= hiSt && q < |s| && (own[p] != own[q] || own[p] == -1) ==>
      K(key, 0, s[p]) <= K(key, 0, s[q])
  }

  /** Slot k of the stack never holds more than 1/2^k of what is to be sorted. */
  ghost predicate Halving(stLo: seq<int>, stHi: seq<int>, size: int)
    requires |stLo| == |stHi|
  {
    forall k :: 0 <= k < |stLo| ==> (stHi[k] - stLo[k] + 1) * Pow2(k) <= size
  }

  ghost function Work(stLo: seq<int>, stHi: seq<int>): int
    requires |stLo| == |stHi|
  {
    if stLo == [] then 0
    else
      var e := |stLo| - 1;
      Work(stLo[..e], stHi[..e]) + 2 * (stHi[e] - stLo[e] + 1) + 1
  }

  lemma {:induction false} WorkNat(stLo: seq<int>, stHi: seq<int>)
    requires |stLo| == |stHi| && forall k :: 0 <= k < |stLo| ==> stLo[k] <= stHi[k] + 1
    ensures Work(stLo, stHi) >= 0
  {
    if stLo != [] { WorkNat(stLo[..|stLo| - 1], stHi[..|stLo| - 1]); }
  }

  /** The range of slot k was rearranged and split up; order holds for the finer slots. */
  lemma Refine(s: seq<int>, t: seq<int>, key: seq<int>, own: seq<int>, own': seq<int>, loSt: int, hiSt: int, lo: int,
      hi: int, k: int)
    requires |own| == |own'| == |s| && 0 <= loSt <= lo && hi <= hiSt < |s|
    requires Permuted(s, t, lo, hi + 1)
    requires Ordered(s, key, own, loSt, hiSt) && k != -1
    requires forall p :: loSt <= p <= hiSt ==> (own[p] == k <==> lo <= p <= hi)
    requires forall p :: loSt <= p <= hiSt && !(lo <= p <= hi) ==> own'[p] == own[p]
    requires forall p, q :: lo <= p < q <= hi && (own'[p] != own'[q] || own'[p] == -1) ==>
      K(key, 0, t[p]) <= K(key, 0, t[q])
    ensures Ordered(t, key, own', loSt, hiSt)
  {
    forall p, q | loSt <= p < q <= hiSt && (own'[p] != own'[q] || own'[p] == -1)
      ensures K(key, 0, t[p]) <= K(key, 0, t[q])
    {
      if lo <= p <= hi && !(lo <= q <= hi) {
        var p' := PermutedSource(s, t, lo, hi + 1, p);
        assert own[p'] == k && own[q] != k;
      } else if lo <= q <= hi && !(lo <= p <= hi) {
        var q' := PermutedSource(s, t, lo, hi + 1, q);
        assert own[q'] == k && own[p] != k;
      }
    }
  }

  /** Slot numbers after range [lo, hi] of slot e was split at n and m: the part that is pushed first takes
      slot e, the other slot e + 1, and the entries between are settled. */
  function SplitOwn(own: seq<int>, lo: int, n: int, m: int, hi: int, e: int, lowFirst: bool): (r: seq<int>)
    ensures |r| == |own|
  {
    var settled := Paint(own, lo, hi, -1);
    if lowFirst then Paint(Paint(settled, lo, n, e), m, hi, e + 1)
    else Paint(Paint(settled, m, hi, e), lo, n, e + 1)
  }

  lemma SplitRefines(s: seq<int>, t: seq<int>, key: seq<int>, own: seq<int>, loSt: int, hiSt: int,
      lo: int, n: int, m: int, hi: int, e: int, lowFirst: bool, med: int)
    requires |own| == |s| && 0 <= loSt <= lo && hi <= hiSt < |s| && e >= 0
    requires Permuted(s, t, lo, hi + 1)
    requires Ordered(s, key, own, loSt, hiSt)
    requires forall p :: loSt <= p <= hiSt ==> (own[p] == e <==> lo <= p <= hi)
    requires Split3(t, key, 0, med, lo, n, m, hi)
    ensures Ordered(t, key, SplitOwn(own, lo, n, m, hi, e, lowFirst), loSt, hiSt)
  {
    Refine(s, t, key, own, SplitOwn(own, lo, n, m, hi, e, lowFirst), loSt, hiSt, lo, hi, e);
  }

  lemma SplitSlots(stLo: seq<int>, stHi: seq<int>, own: seq<int>, loSt: int, hiSt: int, lo: int, n: int, m: int,
      hi: int, lowFirst: bool)
    requires |stLo| == |stHi| > 0 && Slots(stLo, stHi, own, loSt, hiSt)
    requires lo == stLo[|stLo| - 1] && hi == stHi[|stLo| - 1] && lo - 1 <= n < m - 1 && m <= hi + 1
    ensures var e := |stLo| - 1;
            Slots(stLo[..e] + (if lowFirst then [lo, m] else [m, lo]),
              stHi[..e] + (if lowFirst then [n, hi] else [hi, n]), SplitOwn(own, lo, n, m, hi, e, lowFirst), loSt, hiSt)
  {
    hide Slots, Paint;
    var e := |stLo| - 1;
    assert -1 < |stLo| && |stLo[..e]| == e;
    SlotsPop(stLo, stHi, own, loSt, hiSt);
    SlotsRange(stLo, stHi, own, loSt, hiSt);
    var own1 := Paint(own, lo, hi, -1);
    if lowFirst {
      SlotsPush(stLo[..e], stHi[..e], own1, loSt, hiSt, lo, n);
      SlotsPush(stLo[..e] + [lo], stHi[..e] + [n], Paint(own1, lo, n, e), loSt, hiSt, m, hi);
      assert stLo[..e] + [lo] + [m] == stLo[..e] + [lo, m] && stHi[..e] + [n] + [hi] == stHi[..e] + [n, hi];
    } else {
      SlotsPush(stLo[..e], stHi[..e], own1, loSt, hiSt, m, hi);
      SlotsPush(stLo[..e] + [m], stHi[..e] + [hi], Paint(own1, m, hi, e), loSt, hiSt, lo, n);
      assert stLo[..e] + [m] + [lo] == stLo[..e] + [m, lo] && stHi[..e] + [hi] + [n] == stHi[..e] + [hi, n];
    }
  }

  lemma WorkPush(stLo: seq<int>, stHi: seq<int>, l1: int, h1: int, l2: int, h2: int)
    requires |stLo| == |stHi|
    ensures Work(stLo + [l1, l2], stHi + [h1, h2]) == Work(stLo, stHi) + 2 * (h1 - l1 + 1) + 2 * (h2 - l2 + 1) + 2
  {
    var lo1, hi1 := stLo + [l1], stHi + [h1];
    assert lo1[..|stLo|] == stLo && hi1[..|stLo|] == stHi;
    assert stLo + [l1, l2] == lo1 + [l2] && stHi + [h1, h2] == hi1 + [h2];
    assert (lo1 + [l2])[..|lo1|] == lo1 && (hi1 + [h2])[..|lo1|] == hi1;
  }

  lemma {:induction false} Pow2Grows(j: nat, k: nat)
    requires j <= k
    ensures Pow2(j) <= Pow2(k)
  {
    if j < k { Pow2Grows(j, k - 1); }
  }

  lemma Pow2Of17()
    ensures Pow2(17) == 131072
  {
    assert Pow2(4) == 16;
    assert Pow2(8) == 256;
    assert Pow2(12) == 4096;
    assert Pow2(16) == 65536;
  }

  /** The depth of the stack stays logarithmic: a range worth splitting is never high up. */
  lemma SlotBound(k: nat, width: int, size: int)
    requires width > SMALL_THRESH && width * Pow2(k) <= size <= 900000
    ensures k <= 16
  {
    hide Pow2;
    assert width * Pow2(k) >= 11 * Pow2(k);
    Pow2Of17();
    if k >= 17 { Pow2Grows(17, k); }
  }

  lemma HalvingPush(stLo: seq<int>, stHi: seq<int>, size: int, l1: int, h1: int, l2: int, h2: int)
    requires |stLo| == |stHi| > 0 && Halving(stLo, stHi, size)
    requires var e := |stLo| - 1; -1 <= h2 - l2 <= h1 - l1 && (h1 - l1 + 1) + (h2 - l2 + 1) <= stHi[e] - stLo[e] + 1
    ensures var e := |stLo| - 1; Halving(stLo[..e] + [l1, l2], stHi[..e] + [h1, h2], size)
  {
    var e := |stLo| - 1;
    HalvingArithmetic(stHi[e] - stLo[e] + 1, h1 - l1 + 1, h2 - l2 + 1, Pow2(e), size);
    var lo', hi' := stLo[..e] + [l1, l2], stHi[..e] + [h1, h2];
    forall k | 0 <= k < |lo'| ensures (hi'[k] - lo'[k] + 1) * Pow2(k) <= size {
      if k < e {
        assert lo'[k] == stLo[k] && hi'[k] == stHi[k];
      }
    }
  }

  lemma HalvingArithmetic(w: int, w1: int, w2: int, p: nat, size: int)
    requires 0 <= w2 <= w1 && w1 + w2 <= w && w * p <= size
    ensures w1 * p <= size && w2 * (2 * p) <= size
  {
    assert w1 * p <= w * p;
    assert (2 * w2) * p <= w * p;
  }

  /** What holds of fmap and of the stack between two rounds of the quicksort. */
  ghost predicate Pending(s: seq<int>, key: seq<int>, own: seq<int>, stLo: seq<int>, stHi: seq<int>, loSt: int,
      hiSt: int) {
    && 0 <= loSt <= hiSt < |s| && |own| == |s|
    && Keyed(s, key, 0, loSt, hiSt + 1)
    && Slots(stLo, stHi, own, loSt, hiSt)
    && Ordered(s, key, own, loSt, hiSt)
    && Halving(stLo, stHi, hiSt - loSt + 1)
  }

  /** The top range has been sorted and leaves the stack. */
  lemma SettleTop(s: seq<int>, t: seq<int>, key: seq<int>, own: seq<int>, stLo: seq<int>, stHi: seq<int>, loSt: int,
      hiSt: int)
    requires |stLo| > 0 && Pending(s, key, own, stLo, stHi, loSt, hiSt)
    requires var e := |stLo| - 1; Permuted(s, t, stLo[e], stHi[e] + 1) && SortedBy(t, key, stLo[e], stHi[e] + 1)
    ensures var e := |stLo| - 1; Pending(t, key, Paint(own, stLo[e], stHi[e], -1), stLo[..e], stHi[..e], loSt, hiSt)
    ensures var e := |stLo| - 1; Work(stLo[..e], stHi[..e]) < Work(stLo, stHi)
  {
    hide SortedBy, Ordered, Slots, Keyed, Permuted, Halving;
    var e := |stLo| - 1;
    TopRange(stLo, stHi, own, loSt, hiSt);
    SlotsPop(stLo, stHi, own, loSt, hiSt);
    PermutedLength(s, t, stLo[e], stHi[e] + 1);
    SettleOrdered(s, t, key, own, loSt, hiSt, stLo[e], stHi[e], e);
    PermutedWiden(s, t, stLo[e], stHi[e] + 1, loSt, hiSt + 1);
    KeyedPermuted(s, t, key, 0, loSt, hiSt + 1);
    HalvingPop(stLo, stHi, hiSt - loSt + 1);
  }

  lemma HalvingPop(stLo: seq<int>, stHi: seq<int>, size: int)
    requires |stLo| > 0 && |stLo| == |stHi| && Halving(stLo, stHi, size)
    ensures Halving(stLo[..|stLo| - 1], stHi[..|stLo| - 1], size)
  {
  }

  lemma TopRange(stLo: seq<int>, stHi: seq<int>, own: seq<int>, loSt: int, hiSt: int)
    requires |stLo| > 0 && Slots(stLo, stHi, own, loSt, hiSt)
    ensures |stLo| == |stHi|
    ensures loSt <= stLo[|stLo| - 1] <= stHi[|stLo| - 1] + 1 <= hiSt + 1
    ensures forall p :: 0 <= p < |own| && loSt <= p <= hiSt ==>
      (own[p] == |stLo| - 1 <==> stLo[|stLo| - 1] <= p <= stHi[|stLo| - 1])
  {
  }

  lemma SettleOrdered(s: seq<int>, t: seq<int>, key: seq<int>, own: seq<int>, loSt: int, hiSt: int, lo: int, hi: int,
      e: int)
    requires |own| == |s| && 0 <= loSt <= lo <= hi + 1 && hi <= hiSt < |s| && e != -1
    requires Permuted(s, t, lo, hi + 1) && Ordered(s, key, own, loSt, hiSt) && SortedBy(t, key, lo, hi + 1)
    requires forall p :: 0 <= p < |own| && loSt <= p <= hiSt ==> (own[p] == e <==> lo <= p <= hi)
    ensures Ordered(t, key, Paint(own, lo, hi, -1), loSt, hiSt)
  {
    hide Ordered;
    Refine(s, t, key, own, Paint(own, lo, hi, -1), loSt, hiSt, lo, hi, e);
  }

  /** The top range has been partitioned; its two outer parts go onto the stack, the larger one first. */
  lemma SplitTop(s: seq<int>, t: seq<int>, key: seq<int>, own: seq<int>, stLo: seq<int>, stHi: seq<int>, loSt: int,
      hiSt: int, med: int, n: int, m: int)
    requires |stLo| > 0 && Pending(s, key, own, stLo, stHi, loSt, hiSt)
    requires var e := |stLo| - 1; Permuted(s, t, stLo[e], stHi[e] + 1) && Split3(t, key, 0, med, stLo[e], n, m, stHi[e])
    ensures var e := |stLo| - 1; var lo, hi := stLo[e], stHi[e]; var lowFirst := n - lo > hi - m;
            var stLo', stHi' := stLo[..e] + (if lowFirst then [lo, m] else [m, lo]),
              stHi[..e] + (if lowFirst then [n, hi] else [hi, n]);
            Pending(t, key, SplitOwn(own, lo, n, m, hi, e, lowFirst), stLo', stHi', loSt, hiSt) &&
            Work(stLo', stHi') < Work(stLo, stHi)
  {
    var e := |stLo| - 1;
    var lo, hi := stLo[e], stHi[e];
    var lowFirst := n - lo > hi - m;
    SplitSlots(stLo, stHi, own, loSt, hiSt, lo, n, m, hi, lowFirst);
    SplitRefines(s, t, key, own, loSt, hiSt, lo, n, m, hi, e, lowFirst, med);
    KeyedPermuted(s, t, key, 0, loSt, hiSt + 1);
    if lowFirst {
      HalvingPush(stLo, stHi, hiSt - loSt + 1, lo, n, m, hi);
      WorkPush(stLo[..e], stHi[..e], lo, n, m, hi);
    } else {
      HalvingPush(stLo, stHi, hiSt - loSt + 1, m, hi, lo, n);
      WorkPush(stLo[..e], stHi[..e], m, hi, lo, n);
    }
  }

  /** A range all of whose keys are equal is sorted. */
  lemma AllEqualSorted(s: seq<int>, key: seq<int>, med: int, lo: int, hi: int)
    requires AllEqual(s, key, 0, med, lo, hi)
    ensures SortedBy(s, key, lo, hi)
  {
  }

  /** Sorts the range taken off the stack if it is small, or else partitions it. */
  method SettleOrSplit(fmap: array<int>, eclass: seq<int>, lo: int, hi: int, r0: nat)
    returns (settled: bool, n: int, m: int, r: nat, ghost med: int)
    requires 0 <= lo <= hi + 1 <= fmap.Length && Keyed(fmap[..], eclass, 0, lo, hi + 1)
    modifies fmap
    ensures Permuted(old(fmap[..]), fmap[..], lo, hi + 1)
    ensures settled ==> SortedBy(fmap[..], eclass, lo, hi + 1)
    ensures !settled ==> hi - lo >= SMALL_THRESH && Split3(fmap[..], eclass, 0, med, lo, n, m, hi)
  {
    n, m, r, med := 0, 0, r0, 0;
    if hi - lo < SMALL_THRESH {
      SimpleSort(fmap, eclass, lo, hi);
      settled := true;
      return;
    }
    r := (r * 7621 + 1) % 32768;
    var at := if r % 3 == 0 then lo else if r % 3 == 1 then (lo + hi) / 2 else hi;
    var pivot := eclass[fmap[at]];
    med := pivot;
    assert K(eclass, 0, fmap[at]) == med;
    settled, n, m := Partition3(fmap, eclass, 0, pivot, lo, hi);
    if settled {
      AllEqualSorted(fmap[..], eclass, med, lo, hi + 1);
    }
  }

  /** Pushes the two outer parts of a partitioned range, the larger one first. */
  method PushParts(stackLo: array<int>, stackHi: array<int>, sp: nat, lo: int, n: int, m: int, hi: int)
    requires sp + 1 < stackLo.Length == stackHi.Length && stackLo != stackHi
    modifies stackLo, stackHi
    ensures stackLo[..sp + 2] == old(stackLo[..sp]) + (if n - lo > hi - m then [lo, m] else [m, lo])
    ensures stackHi[..sp + 2] == old(stackHi[..sp]) + (if n - lo > hi - m then [n, hi] else [hi, n])
  {
    if n - lo > hi - m {
      Push(stackLo, stackHi, sp, lo, n);
      Push(stackLo, stackHi, sp + 1, m, hi);
    } else {
      Push(stackLo, stackHi, sp, m, hi);
      Push(stackLo, stackHi, sp + 1, lo, n);
    }
  }

  /** One range, nothing settled. */
  lemma PendingStart(s: seq<int>, key: seq<int>, loSt: int, hiSt: int)
    requires 0 <= loSt <= hiSt < |s| && Keyed(s, key, 0, loSt, hiSt + 1)
    ensures Pending(s, key, Paint(seq(|s|, _ => -1), loSt, hiSt, 0), [loSt], [hiSt], loSt, hiSt)
  {
  }

  lemma PendingTop(s: seq<int>, key: seq<int>, own: seq<int>, stLo: seq<int>, stHi: seq<int>, loSt: int, hiSt: int)
    requires |stLo| > 0 && Pending(s, key, own, stLo, stHi, loSt, hiSt)
    ensures var e := |stLo| - 1; var lo, hi := stLo[e], stHi[e];
            loSt <= lo <= hi + 1 <= hiSt + 1 && Keyed(s, key, 0, lo, hi + 1) &&
              (hi - lo + 1) * Pow2(e) <= hiSt - loSt + 1
  {
  }

  lemma PendingWork(s: seq<int>, key: seq<int>, own: seq<int>, stLo: seq<int>, stHi: seq<int>, loSt: int, hiSt: int)
    requires Pending(s, key, own, stLo, stHi, loSt, hiSt)
    ensures Work(stLo, stHi) >= 0
  {
    WorkNat(stLo, stHi);
  }

  /** No range is pending: everything is in order. */
  lemma PendingEnd(s: seq<int>, key: seq<int>, own: seq<int>, loSt: int, hiSt: int)
    requires Pending(s, key, own, [], [], loSt, hiSt)
    ensures SortedBy(s, key, loSt, hiSt + 1)
  {
  }

  method Push(stackLo: array<int>, stackHi: array<int>, sp: nat, lo: int, hi: int)
    requires sp < stackLo.Length == stackHi.Length && stackLo != stackHi
    modifies stackLo, stackHi
    ensures stackLo[..sp + 1] == old(stackLo[..sp]) + [lo] && stackHi[..sp + 1] == old(stackHi[..sp]) + [hi]
  {
    stackLo[sp], stackHi[sp] := lo, hi;
  }

  /** One round: takes a range off the stack and sorts it, or partitions it and pushes its parts. */
  method Round(fmap: array<int>, eclass: seq<int>, stackLo: array<int>, stackHi: array<int>, sp0: nat, r0: nat,
      ghost own0: seq<int>, ghost loSt: int, ghost hiSt: int)
    returns (sp: nat, r: nat, ghost own: seq<int>)
    requires 0 < sp0 <= 18 && stackLo.Length == stackHi.Length == STACK_SIZE
    requires stackLo != stackHi && fmap != stackLo && fmap != stackHi
    requires 0 <= loSt <= hiSt < fmap.Length && hiSt - loSt < 900000
    requires Pending(fmap[..], eclass, own0, stackLo[..sp0], stackHi[..sp0], loSt, hiSt)
    modifies fmap, stackLo, stackHi
    ensures sp <= 18
    ensures Permuted(old(fmap[..]), fmap[..], loSt, hiSt + 1)
    ensures Pending(fmap[..], eclass, own, stackLo[..sp], stackHi[..sp], loSt, hiSt)
    ensures 0 <= Work(stackLo[..sp], stackHi[..sp]) < Work(old(stackLo[..sp0]), old(stackHi[..sp0]))
  {
    hide Slots, Ordered, Halving, SortedBy, Split3, Keyed, Work, Paint, SplitOwn, Pending, Permuted, Pow2;
    assert sp0 < STACK_SIZE - 1;  // assertion 1004 of the original
    ghost var s, stLo, stHi := fmap[..], stackLo[..sp0], stackHi[..sp0];
    PendingTop(s, eclass, own0, stLo, stHi, loSt, hiSt);
    sp := sp0 - 1;
    var lo, hi := stackLo[sp], stackHi[sp];
    assert lo == stLo[sp] && hi == stHi[sp] && stLo[..sp] == stackLo[..sp] && stHi[..sp] == stackHi[..sp];
    var settled, n, m;
    ghost var med;
    settled, n, m, r, med := SettleOrSplit(fmap, eclass, lo, hi, r0);
    PermutedWiden(s, fmap[..], lo, hi + 1, loSt, hiSt + 1);
    if settled {
      SettleTop(s, fmap[..], eclass, own0, stLo, stHi, loSt, hiSt);
      own := Paint(own0, lo, hi, -1);
    } else {
      SplitTop(s, fmap[..], eclass, own0, stLo, stHi, loSt, hiSt, med, n, m);
      SlotBound(sp, hi - lo + 1, hiSt - loSt + 1);
      own := SplitOwn(own0, lo, n, m, hi, sp, n - lo > hi - m);
      PushParts(stackLo, stackHi, sp, lo, n, m, hi);
      sp := sp + 2;
    }
    PendingWork(fmap[..], eclass, own, stackLo[..sp], stackHi[..sp], loSt, hiSt);
  }

  /** Sorts fmap[loSt..hiSt] by equivalence class, with an explicit stack of pending ranges. */
  method QSort3(fmap: array<int>, eclass: seq<int>, loSt: int, hiSt: int)
    requires 0 <= loSt <= hiSt < fmap.Length && hiSt - loSt < 900000
    requires Keyed(fmap[..], eclass, 0, loSt, hiSt + 1)
    modifies fmap
    ensures Permuted(old(fmap[..]), fmap[..], loSt, hiSt + 1)
    ensures SortedBy(fmap[..], eclass, loSt, hiSt + 1)
  {
    hide SortedBy, Keyed, Work, Paint, Pending, Permuted;
    var stackLo, stackHi := new int[STACK_SIZE], new int[STACK_SIZE];
    var r, sp := 0, 0;
    Push(stackLo, stackHi, sp, loSt, hiSt);
    sp := sp + 1;
    ghost var own := Paint(seq(fmap.Length, _ => -1), loSt, hiSt, 0);
    PendingStart(fmap[..], eclass, loSt, hiSt);
    PermutedSelf(fmap[..], loSt, hiSt + 1);
    assert stackLo[..sp] == [loSt] && stackHi[..sp] == [hiSt];
    while sp > 0
      invariant 0 <= sp <= 18
      invariant Permuted(old(fmap[..]), fmap[..], loSt, hiSt + 1)
      invariant Pending(fmap[..], eclass, own, stackLo[..sp], stackHi[..sp], loSt, hiSt)
      decreases Work(stackLo[..sp], stackHi[..sp])
    {
      ghost var s := fmap[..];
      PendingWork(s, eclass, own, stackLo[..sp], stackHi[..sp], loSt, hiSt);
      sp, r, own := Round(fmap, eclass, stackLo, stackHi, sp, r, own, loSt, hiSt);
      PermutedThen(old(fmap[..]), s, fmap[..], loSt, hiSt + 1, loSt, hiSt + 1);
    }
    assert stackLo[..0] == [] && stackHi[..0] == [];
    PendingEnd(fmap[..], eclass, own, loSt, hiSt);
  }
}

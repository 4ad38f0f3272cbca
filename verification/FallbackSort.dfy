/** fallbackSort: prefix doubling over buckets that are marked by header bits. */
module FallbackSort {

  import opened Rotations
  import opened Rearrange
  import opened BitTable
  import opened Counting
  import opened FallbackBuckets
  import P = Partition
  import Q = FallbackQSort

  /** Positions up to r are in the order of 2h bytes and marked so; the rest are still at h bytes. */
  ghost predicate Refined(b: seq<int>, f: seq<int>, bh: seq<bv32>, h: nat, r: int) {
    && IsPermutation(f, |b|) && OrderedTo(b, f, h)
    && Sentinels(bh, |b|) && -1 <= r < |b|
    && (forall p, q :: 0 <= p < q <= r ==> Cmp(b, f[p], f[q], 2 * h) <= 0)
    && HeadsMark(b, f, bh, 2 * h, 0, r + 1)
    && HeadsMark(b, f, bh, h, r + 1, |b|)
    && IsSet(bh, r + 1)
  }

  lemma Deeper(b: seq<int>, i: nat, j: nat, h: nat)
    requires i < |b| && j < |b|
    ensures Cmp(b, i, j, h) != 0 ==> Cmp(b, i, j, 2 * h) == Cmp(b, i, j, h)
  {
    CmpPrefix(b, i, j, h, 2 * h);
  }

  lemma RefinedStart(b: seq<int>, f: seq<int>, bh: seq<bv32>, h: nat)
    requires |b| > 0 && IsPermutation(f, |b|) && OrderedTo(b, f, h) && Sentinels(bh, |b|)
    requires HeadsMark(b, f, bh, h, 0, |b|)
    ensures Refined(b, f, bh, h, -1)
  {
    StartZero(b, f, h);
    assert IsSet(bh, 0);
  }

  /** A run of marked positions is a run of rotations that are alone in their class. */
  lemma SinglesRefine(b: seq<int>, f: seq<int>, bh: seq<bv32>, h: nat, r: int, l: int)
    requires Refined(b, f, bh, h, r) && r < l <= |b|
    requires AllSet(bh, r + 1, l + 1)
    ensures Refined(b, f, bh, h, l - 1)
    ensures forall z :: r < z < l ==> Starts(b, f, h, z)
  {
    hide IsSet, OrderedTo;
    forall p, q | 0 <= p < q <= l - 1 ensures Cmp(b, f[p], f[q], 2 * h) <= 0 {
      if q > r {
        assert IsSet(bh, q) && Starts(b, f, h, q);
        StartSeparates(b, f, h, q, p, q);
        Deeper(b, f[p], f[q], h);
      }
    }
    forall z | r < z < l ensures Starts(b, f, h, z) && Starts(b, f, 2 * h, z) {
      assert IsSet(bh, z);
      if z > 0 { Deeper(b, f[z - 1], f[z], h); }
    }
    forall z | 0 <= z < l ensures IsSet(bh, z) <==> Starts(b, f, 2 * h, z) {
      if z > r { assert IsSet(bh, z); }
    }
  }

  /** The bucket [l, r] of f was sorted by class into f'. */
  ghost predicate BucketSorted(b: seq<int>, f: seq<int>, f': seq<int>, ec: seq<int>, bh: seq<bv32>, h: nat, l: int,
      r: int) {
    && Refined(b, f, bh, h, l - 1) && 0 <= l <= r < |b|
    && IsSet(bh, r + 1) && NoneSet(bh, l + 1, r + 1)
    && Classes(b, ec, h)
    && Permuted(f, f', l, r + 1) && Q.SortedBy(f', ec, l, r + 1)
    && IsPermutation(f', |b|)
  }

  /** Where an entry of the sorted bucket comes from, and what it agrees with. */
  lemma BucketEntry(b: seq<int>, f: seq<int>, f': seq<int>, ec: seq<int>, bh: seq<bv32>, h: nat, l: int, r: int, q: int)
    requires BucketSorted(b, f, f', ec, bh, h, l, r) && l <= q <= r
    ensures exists q' :: l <= q' <= r && f'[q] == f[q']
    ensures Cmp(b, f[l], f'[q], h) == 0
  {
    hide IsSet, OrderedTo, Classes, Q.SortedBy;
    var q' := PermutedSource(f, f', l, r + 1, q);
    forall z | l < z <= q' ensures !Starts(b, f, h, z) { assert !IsSet(bh, z); }
    NoStartEqual(b, f, h, l, q');
  }

  lemma BucketPair(b: seq<int>, f: seq<int>, f': seq<int>, ec: seq<int>, bh: seq<bv32>, h: nat, l: int, r: int, p: int,
      q: int)
    requires BucketSorted(b, f, f', ec, bh, h, l, r) && l <= p <= q <= r && h <= |b|
    ensures Cmp(b, f'[p], f'[q], h) == 0 && Cmp(b, f'[p], f'[q], 2 * h) <= 0
    ensures Cmp(b, f'[p], f'[q], 2 * h) == 0 <==> ec[f'[p]] == ec[f'[q]]
  {
    hide IsSet, OrderedTo, Permuted, HeadsMark;
    BucketEntry(b, f, f', ec, bh, h, l, r, p);
    BucketEntry(b, f, f', ec, bh, h, l, r, q);
    var i, j := f'[p], f'[q];
    CmpFlip(b, f[l], i, h);
    CmpTrans(b, i, f[l], j, h);
    CmpFlip(b, f[l], j, h);
    CmpTrans(b, j, f[l], i, h);
    CmpFlip(b, i, j, h);
    CmpSplit(b, i, j, h, h);
    CmpFlip(b, Adv(|b|, i, h), Adv(|b|, j, h), h);
    assert P.K(ec, 0, f'[p]) <= P.K(ec, 0, f'[q]);
  }

  /** Across the ends of the bucket the order is strict. */
  lemma BucketOutside(b: seq<int>, f: seq<int>, f': seq<int>, ec: seq<int>, bh: seq<bv32>, h: nat, l: int, r: int,
      p: int, q: int)
    requires BucketSorted(b, f, f', ec, bh, h, l, r) && l <= q <= r && 0 <= p < |b|
    ensures p < l ==> Cmp(b, f'[p], f'[q], h) < 0
    ensures p > r ==> Cmp(b, f'[q], f'[p], h) < 0
  {
    hide IsSet, OrderedTo, Classes, Q.SortedBy;
    BucketEntry(b, f, f', ec, bh, h, l, r, q);
    var q' :| l <= q' <= r && f'[q] == f[q'];
    if p < l {
      assert IsSet(bh, l) && Starts(b, f, h, l);
      StartSeparates(b, f, h, l, p, q');
    } else if p > r {
      assert Starts(b, f, h, r + 1);
      StartSeparates(b, f, h, r + 1, q', p);
    }
  }

  lemma BucketOrdered(b: seq<int>, f: seq<int>, f': seq<int>, ec: seq<int>, bh: seq<bv32>, h: nat, l: int, r: int)
    requires BucketSorted(b, f, f', ec, bh, h, l, r) && h <= |b|
    ensures OrderedTo(b, f', h)
    ensures forall p, q :: 0 <= p < q <= r ==> Cmp(b, f'[p], f'[q], 2 * h) <= 0
  {
    hide IsSet, HeadsMark, Classes, Q.SortedBy;
    forall p, q | 0 <= p < q < |b|
      ensures Cmp(b, f'[p], f'[q], h) <= 0 && (q <= r ==> Cmp(b, f'[p], f'[q], 2 * h) <= 0)
    {
      Deeper(b, f'[p], f'[q], h);
      if l <= p && q <= r { BucketPair(b, f, f', ec, bh, h, l, r, p, q); }
      else if l <= q <= r { BucketOutside(b, f, f', ec, bh, h, l, r, p, q); }
      else if l <= p <= r { BucketOutside(b, f, f', ec, bh, h, l, r, q, p); }
      else { assert f'[p] == f[p] && f'[q] == f[q]; }
    }
  }

  /** Entry z of the bucket that starts at l begins a class of its own. */
  predicate NewClass(f: seq<int>, ec: seq<int>, l: int, z: int)
    requires 0 <= l <= z < |f| && forall y :: 0 <= y < |f| ==> 0 <= f[y] < |ec|
  {
    z == l || ec[f[z - 1]] != ec[f[z]]
  }

  /** The bits that the scan of the sorted bucket leaves. */
  ghost predicate BucketMarked(f': seq<int>, ec: seq<int>, bh: seq<bv32>, bh': seq<bv32>, l: int, r: int)
    requires |bh| == |bh'| && 0 <= l <= r < |f'| && r < 32 * |bh|
    requires forall z :: 0 <= z < |f'| ==> 0 <= f'[z] < |ec|
  {
    && (forall z :: 0 <= z < 32 * |bh| && !(l <= z <= r) ==> (IsSet(bh', z) <==> IsSet(bh, z)))
    && (forall z :: l <= z <= r ==> (IsSet(bh', z) <==> IsSet(bh, z) || NewClass(f', ec, l, z)))
  }

  lemma BucketRefines(b: seq<int>, f: seq<int>, f': seq<int>, ec: seq<int>, bh: seq<bv32>, bh': seq<bv32>, h: nat,
      l: int, r: int)
    requires BucketSorted(b, f, f', ec, bh, h, l, r) && h <= |b|
    requires |bh| == |bh'| && BucketMarked(f', ec, bh, bh', l, r)
    ensures Refined(b, f', bh', h, r)
  {
    hide IsSet, OrderedTo, Classes, Q.SortedBy;
    BucketOrdered(b, f, f', ec, bh, h, l, r);
    forall z | 0 <= z <= r ensures IsSet(bh', z) <==> Starts(b, f', 2 * h, z) {
      if z < l {
        assert IsSet(bh, z) <==> Starts(b, f, 2 * h, z);
      } else if z == l {
        if l > 0 {
          BucketOutside(b, f, f', ec, bh, h, l, r, l - 1, l);
          Deeper(b, f'[l - 1], f'[l], h);
        }
      } else {
        assert !IsSet(bh, z);
        BucketPair(b, f, f', ec, bh, h, l, r, z - 1, z);
      }
    }
    forall z | r < z < |b| ensures IsSet(bh', z) <==> Starts(b, f', h, z) {
      assert IsSet(bh, z) <==> Starts(b, f, h, z);
      if z == r + 1 { BucketOutside(b, f, f', ec, bh, h, l, r, z, r); }
    }
    assert Sentinels(bh', |b|);
    assert IsSet(bh', r + 1);
    assert HeadsMark(b, f', bh', 2 * h, 0, r + 1);
    assert HeadsMark(b, f', bh', h, r + 1, |b|);
  }

  /** Marks the starts of the finer classes within the sorted bucket [l, r]. */
  method ScanBucket(fmap: array<int>, eclass: array<int>, bhtab: array<bv32>, l: int, r: int, nblock: int)
    requires 0 <= l <= r < nblock <= fmap.Length && nblock <= eclass.Length && nblock <= 32 * bhtab.Length
    requires bhtab as object != fmap && bhtab as object != eclass
    requires IsPermutation(fmap[..nblock], nblock)
    requires forall x :: 0 <= x < nblock ==> eclass[x] >= 0
    modifies bhtab
    ensures BucketMarked(fmap[..nblock], eclass[..nblock], old(bhtab[..]), bhtab[..], l, r)
  {
    hide IsSet;
    ghost var f, ec, bh := fmap[..nblock], eclass[..nblock], bhtab[..];
    var cc := -1;
    for i := l to r + 1
      invariant fmap[..nblock] == f && eclass[..nblock] == ec
      invariant cc == if i == l then -1 else ec[f[i - 1]]
      invariant forall z :: 0 <= z < 32 * bhtab.Length && !(l <= z < i) ==> (IsSet(bhtab[..], z) <==> IsSet(bh, z))
      invariant forall z :: l <= z < i ==> (IsSet(bhtab[..], z) <==> IsSet(bh, z) || NewClass(f, ec, l, z))
    {
      assert fmap[i] == f[i] && eclass[f[i]] == ec[f[i]];
      var cc1 := eclass[fmap[i]];
      if cc != cc1 {
        SetBH(bhtab, i);
        cc := cc1;
      }
    }
  }

  /** Sorts the bucket [l, r] by class and marks the finer classes. */
  method RefineBucket(fmap: array<int>, eclass: array<int>, bhtab: array<bv32>, nblock: int, l: int, r: int,
      ghost h: int, ghost b: seq<int>)
    requires 0 < nblock == |b| <= 900000 && nblock <= fmap.Length && nblock <= eclass.Length &&
      nblock <= 32 * bhtab.Length
    requires fmap != eclass && bhtab as object != fmap && bhtab as object != eclass
    requires 1 <= h <= nblock && 0 <= l < r < nblock
    requires Refined(b, fmap[..nblock], bhtab[..], h, l - 1)
    requires IsSet(bhtab[..], r + 1) && NoneSet(bhtab[..], l + 1, r + 1)
    requires Classes(b, eclass[..nblock], h) && forall x :: 0 <= x < nblock ==> eclass[x] >= 0
    modifies fmap, bhtab
    ensures Refined(b, fmap[..nblock], bhtab[..], h, r)
  {
    hide IsSet, OrderedTo, HeadsMark, Classes, Sentinels, NoneSet, Q.SortedBy, BucketMarked;
    ghost var s, f, ec, bh := fmap[..], fmap[..nblock], eclass[..nblock], bhtab[..];
    forall p | l <= p < r + 1 ensures 0 <= fmap[p] < nblock { assert fmap[p] == f[p]; }
    Q.QSort3(fmap, eclass[..nblock], l, r);
    ghost var f' := fmap[..nblock];
    PermutedPrefix(s, fmap[..], l, r + 1, nblock);
    StaysPermutation(f, f', nblock);
    SortedPrefix(fmap[..], ec, l, r + 1, nblock);
    ScanBucket(fmap, eclass, bhtab, l, r, nblock);
    BucketRefines(b, f, f', ec, bh, bhtab[..], h, l, r);
  }

  lemma SortedPrefix(s: seq<int>, key: seq<int>, lo: int, hi: int, n: int)
    requires 0 <= lo <= hi <= n <= |s| && Q.SortedBy(s, key, lo, hi)
    ensures Q.SortedBy(s[..n], key, lo, hi)
  {
  }

  /** What a whole pass leaves: order and marks for twice as many bytes. */
  lemma PassDone(b: seq<int>, f: seq<int>, bh: seq<bv32>, h: nat)
    requires |b| > 0 && Refined(b, f, bh, h, |b| - 1)
    ensures IsPermutation(f, |b|) && OrderedTo(b, f, 2 * h) && HeadsMark(b, f, bh, 2 * h, 0, |b|) && Sentinels(bh, |b|)
  {
    hide IsSet;
  }

  /** The scan over all buckets of one pass. */
  method RefineBuckets(fmap: array<int>, eclass: array<int>, bhtab: array<bv32>, nblock: int, ghost h: int,
      ghost b: seq<int>)
    returns (nNotDone: int)
    requires 0 < nblock == |b| <= 900000 && nblock <= fmap.Length && nblock <= eclass.Length &&
      nblock <= 32 * bhtab.Length
    requires fmap != eclass && bhtab as object != fmap && bhtab as object != eclass
    requires 1 <= h <= nblock
    requires Refined(b, fmap[..nblock], bhtab[..], h, -1)
    requires Classes(b, eclass[..nblock], h) && forall x :: 0 <= x < nblock ==> eclass[x] >= 0
    modifies fmap, bhtab
    ensures Refined(b, fmap[..nblock], bhtab[..], h, nblock - 1)
    ensures nNotDone >= 0
    ensures nNotDone == 0 ==> forall z :: 0 <= z < nblock ==> Starts(b, fmap[..nblock], h, z)
  {
    hide IsSet, OrderedTo, HeadsMark, Classes, Starts;
    nNotDone := 0;
    ghost var ec := eclass[..nblock];
    var r := -1;
    while true
      invariant -1 <= r < nblock && nNotDone >= 0
      invariant eclass[..nblock] == ec
      invariant Refined(b, fmap[..nblock], bhtab[..], h, r)
      invariant nNotDone == 0 ==> forall z :: 0 <= z <= r ==> Starts(b, fmap[..nblock], h, z)
      decreases nblock - r
    {
      var k := NextClear(bhtab, r + 1, nblock + 1);
      var l := k - 1;
      SinglesRefine(b, fmap[..nblock], bhtab[..], h, r, l);
      if l >= nblock { break; }
      k := NextSet(bhtab, k, nblock);
      r := k - 1;
      if r >= nblock { break; }
      if r > l {
        nNotDone := nNotDone + (r - l + 1);
        RefineBucket(fmap, eclass, bhtab, nblock, l, r, h, b);
      }
    }
  }

  // ----- fallbackSort -----

  /** The classes overlay the bytes of the block. The contract says only that the bytes are gone, not what takes their
      place; the zeros of the body stand for any values. */
  method Overwrite(eclass8: array<int>)
    modifies eclass8
  {
    forall i | 0 <= i < eclass8.Length { eclass8[i] := 0; }
  }

  lemma DoneByLength(b: seq<int>, f: seq<int>, h: nat)
    requires IsPermutation(f, |b|) && OrderedTo(b, f, h) && h > |b|
    ensures SortsRotations(b, f)
  {
    forall p, q | 0 <= p < q < |b| ensures Le(b, f[p], f[q]) {
      CmpPrefix(b, f[p], f[q], |b|, h);
    }
  }

  lemma DoneBySingles(b: seq<int>, f: seq<int>, h: nat)
    requires IsPermutation(f, |b|) && OrderedTo(b, f, h)
    requires forall z :: 0 <= z < |b| ==> Starts(b, f, h, z)
    ensures SortsRotations(b, f)
  {
    forall p, q | 0 <= p < q < |b| ensures Le(b, f[p], f[q]) {
      StartSeparates(b, f, h, q, p, q);
      CmpDecided(b, f[p], f[q], h);
    }
  }

  /** Starts at h bytes are starts at 2h bytes. */
  lemma SinglesStay(b: seq<int>, f: seq<int>, h: nat)
    requires IsPermutation(f, |b|) && forall z :: 0 <= z < |b| ==> Starts(b, f, h, z)
    ensures forall z :: 0 <= z < |b| ==> Starts(b, f, 2 * h, z)
  {
    forall z | 0 <= z < |b| ensures Starts(b, f, 2 * h, z) {
      assert Starts(b, f, h, z);
      if z > 0 { Deeper(b, f[z - 1], f[z], h); }
    }
  }

  /** The first bytes of the rotations in sorted order. */
  ghost function FirstBytes(b: seq<int>, f: seq<int>): (g: seq<int>)
    requires SortsRotations(b, f)
    ensures |g| == |b| && IsPermutation(f, |b|) && g == Reindex(b, f)
    ensures forall p, q :: 0 <= p <= q < |b| ==> g[p] <= g[q]
    ensures forall p :: 0 <= p < |b| ==> g[p] == b[f[p]]
  {
    assert forall p, q :: 0 <= p < q < |b| ==> Le(b, f[p], f[q]);
    Reindex(b, f)
  }

  /** The first byte value of which any is left is the one at the next place. */
  lemma NextByte(g: seq<int>, i: nat, j: int)
    requires i < |g| && (forall p, q :: 0 <= p <= q < |g| ==> g[p] <= g[q])
    requires j <= g[i] && CountEq(g, j) != CountEq(g[..i], j)
    ensures j == g[i]
  {
    assert g[..|g|] == g;
    if j < g[i] { NoneAfter(g, i, |g|, j); }
  }

  /** Rebuilds the block from the sorted order and the byte counts. */
  method Rebuild(eclass8: array<int>, fmap: array<int>, ftabCopy: array<int>, nblock: int, ghost b: seq<int>)
    requires 0 < nblock == |b| && nblock <= fmap.Length && nblock <= eclass8.Length && Bytes(b)
    requires ftabCopy.Length == 256 && ftabCopy != fmap && ftabCopy != eclass8 && fmap != eclass8
    requires forall c :: 0 <= c < 256 ==> ftabCopy[c] == CountEq(b, c)
    requires SortsRotations(b, fmap[..nblock])
    modifies eclass8, ftabCopy
    ensures eclass8[..nblock] == b
  {
    hide CountEq, SortsRotations;
    ghost var f := fmap[..nblock];
    ghost var g := FirstBytes(b, f);
    forall c ensures CountEq(b, c) == CountEq(g, c) - CountEq(g[..0], c) {
      ReindexCount(b, f, c);
      CountEmpty(g);
    }
    var j := 0;
    for i := 0 to nblock
      invariant 0 <= j < 256 && j == if i == 0 then 0 else g[i - 1]
      invariant fmap[..nblock] == f
      invariant forall c :: 0 <= c < 256 ==> ftabCopy[c] == CountEq(g, c) - CountEq(g[..i], c)
      invariant forall x :: 0 <= x < i ==> eclass8[f[x]] == b[f[x]]
    {
      assert ftabCopy[g[i]] > 0 by { CountPrefix(g, i, nblock, g[i]); assert g[..nblock] == g; }
      while ftabCopy[j] == 0
        invariant 0 <= j <= g[i] < 256
        decreases 256 - j
      {
        j := j + 1;
      }
      NextByte(g, i, j);
      ftabCopy[j] := ftabCopy[j] - 1;
      forall x | 0 <= x < i ensures f[x] != f[i] {}
      assert fmap[i] == f[i];
      eclass8[fmap[i]] := j;
      forall c | 0 <= c < 256 ensures CountEq(g[..i + 1], c) == CountEq(g[..i], c) + (if g[i] == c then 1 else 0) {
        CountNext(g, i, c);
      }
    }
    forall x | 0 <= x < nblock ensures eclass8[x] == b[x] {
      var i := Onto(f, nblock, x);
    }
  }

  method CopyCounts(ftab: array<int>) returns (ftabCopy: array<int>)
    requires ftab.Length == 257
    ensures fresh(ftabCopy) && ftabCopy.Length == 256
    ensures forall c :: 0 <= c < 256 ==> ftabCopy[c] == ftab[c]
  {
    ftabCopy := new int[256](_ => 0);
    for i := 0 to 256
      invariant forall c :: 0 <= c < i ==> ftabCopy[c] == ftab[c]
    {
      ftabCopy[i] := ftab[i];
    }
  }

  /** The passes that double the number of bytes compared, until every rotation is in its place. */
  method Refine(fmap: array<int>, eclass: array<int>, eclass8: array<int>, bhtab: array<bv32>, nblock: int,
      ghost b: seq<int>)
    requires 0 < nblock == |b| <= 900000 && nblock <= fmap.Length && nblock <= eclass.Length &&
      nblock <= 32 * bhtab.Length
    requires fmap != eclass && fmap != eclass8 && eclass != eclass8
    requires bhtab as object != fmap && bhtab as object != eclass && bhtab as object != eclass8
    requires IsPermutation(fmap[..nblock], nblock) && OrderedTo(b, fmap[..nblock], 1)
    requires HeadsMark(b, fmap[..nblock], bhtab[..], 1, 0, nblock) && Sentinels(bhtab[..], nblock)
    modifies fmap, eclass, eclass8, bhtab
    ensures SortsRotations(b, fmap[..nblock])
  {
    hide IsSet, OrderedTo, HeadsMark, Classes, Starts, Sentinels, SortsRotations, Refined, IsPermutation;
    var h := 1;
    while true
      invariant 1 <= h <= nblock
      invariant IsPermutation(fmap[..nblock], nblock) && OrderedTo(b, fmap[..nblock], h)
      invariant HeadsMark(b, fmap[..nblock], bhtab[..], h, 0, nblock) && Sentinels(bhtab[..], nblock)
      decreases nblock - h
    {
      RefinedStart(b, fmap[..nblock], bhtab[..], h);
      AssignClasses(fmap, eclass, bhtab, nblock, h, b);
      Overwrite(eclass8);
      var nNotDone := RefineBuckets(fmap, eclass, bhtab, nblock, h, b);
      PassDone(b, fmap[..nblock], bhtab[..], h);
      if nNotDone == 0 {
        SinglesStay(b, fmap[..nblock], h);
        DoneBySingles(b, fmap[..nblock], 2 * h);
      }
      h := 2 * h;
      if h > nblock || nNotDone == 0 { break; }
    }
    if h > nblock { DoneByLength(b, fmap[..nblock], h); }
  }

  /** Leaves in fmap the sorted order of the rotations of the block, and the block as it was. */
  method SortBlock(fmap: array<int>, eclass: array<int>, eclass8: array<int>, bhtab: array<bv32>, nblock: int)
    requires 0 < nblock <= 900000 && nblock <= fmap.Length && nblock <= eclass.Length && nblock <= eclass8.Length
    requires bhtab.Length >= 3 + nblock / 32
    requires fmap != eclass && fmap != eclass8 && eclass != eclass8
    requires bhtab as object != fmap && bhtab as object != eclass && bhtab as object != eclass8
    requires Bytes(eclass8[..nblock])
    modifies fmap, eclass, eclass8, bhtab
    ensures SortsRotations(old(eclass8[..nblock]), fmap[..nblock])
    ensures eclass8[..nblock] == old(eclass8[..nblock])
  {
    hide IsSet, OrderedTo, HeadsMark, Sentinels, SortsRotations, RankDown, CountEq, Below, IsPermutation;
    ghost var b := eclass8[..nblock];
    var ftab := CountBytes(eclass8[..nblock]);
    var ftabCopy := CopyCounts(ftab);
    Accumulate(ftab, b);
    Place(fmap, ftab, eclass8[..nblock]);
    RadixOrders(b, fmap[..nblock]);
    MarkStarts(bhtab, ftab, nblock, b, fmap[..nblock]);
    Refine(fmap, eclass, eclass8, bhtab, nblock, b);
    Rebuild(eclass8, fmap, ftabCopy, nblock, b);
  }
}

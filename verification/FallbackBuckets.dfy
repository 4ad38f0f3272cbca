/** fallbackSort: the radix sort it starts from, its buckets and their equivalence classes. */
module FallbackBuckets {

  import opened Rotations
  import opened Rearrange
  import opened Counting
  import opened BitTable
  import P = Partition
  import FallbackQSort

  // ----- the initial one-byte radix sort -----

  method CountBytes(block: seq<int>) returns (ftab: array<int>)
    requires Bytes(block)
    ensures fresh(ftab) && ftab.Length == 257
    ensures forall c :: 0 <= c < 257 ==> ftab[c] == CountEq(block, c)
  {
    ftab := new int[257](_ => 0);
    for i := 0 to |block|
      invariant forall c :: 0 <= c < 257 ==> ftab[c] == CountEq(block[..i], c)
    {
      forall c | 0 <= c < 257
        ensures CountEq(block[..i + 1], c) == CountEq(block[..i], c) + (if block[i] == c then 1 else 0) {
        CountNext(block, i, c);
      }
      ftab[block[i]] := ftab[block[i]] + 1;
    }
    assert block[..|block|] == block;
  }

  method Accumulate(ftab: array<int>, ghost block: seq<int>)
    requires Bytes(block) && ftab.Length == 257
    requires forall c :: 0 <= c < 257 ==> ftab[c] == CountEq(block, c)
    modifies ftab
    ensures forall c :: 0 <= c < 257 ==> ftab[c] == Below(block, c + 1)
  {
    hide CountEq, Below;
    assert Below(block, 0) == 0 by { BelowEnds(block, 256); }
    BelowStep(block, 0);
    for i := 1 to 257
      invariant forall c :: 0 <= c < i ==> ftab[c] == Below(block, c + 1)
      invariant forall c :: i <= c < 257 ==> ftab[c] == CountEq(block, c)
    {
      BelowStep(block, i);
      ftab[i] := ftab[i] + ftab[i - 1];
    }
  }

  ghost function RanksDown(block: seq<int>): (r: seq<int>)
    ensures |r| == |block| && forall i :: 0 <= i < |r| ==> r[i] == RankDown(block, i)
  {
    seq(|block|, i requires 0 <= i < |block| => RankDown(block, i))
  }

  lemma RanksDownPermutation(block: seq<int>)
    requires Bytes(block)
    ensures IsPermutation(RanksDown(block), |block|)
  {
    var r := RanksDown(block);
    forall i | 0 <= i < |r| ensures 0 <= r[i] < |block| {
      RankInBucket(block, i);
    }
    forall i, j | 0 <= i < j < |r| ensures r[i] != r[j] {
      RanksDiffer(block, i, j);
    }
  }

  method Place(fmap: array<int>, ftab: array<int>, block: seq<int>)
    requires Bytes(block) && ftab.Length == 257 && fmap.Length >= |block| && fmap != ftab
    requires forall c :: 0 <= c < 257 ==> ftab[c] == Below(block, c + 1)
    modifies fmap, ftab
    ensures forall i :: 0 <= i < |block| ==> 0 <= RankDown(block, i) < |block| && fmap[RankDown(block, i)] == i
    ensures forall c :: 0 <= c < 256 ==> ftab[c] == Below(block, c)
  {
    hide RankDown, Below, CountEq;
    ghost var rank := RanksDown(block);
    RanksDownPermutation(block);
    assert forall c :: CountEq(block[..0], c) == 0 by { CountEmpty(block); }
    for i := 0 to |block|
      invariant forall c :: 0 <= c < 257 ==> ftab[c] == Below(block, c + 1) - CountEq(block[..i], c)
      invariant forall x :: 0 <= x < i ==> fmap[rank[x]] == x
    {
      var j := block[i];
      assert RankDown(block, i) == Below(block, j + 1) - 1 - CountEq(block[..i], j) by { RankDownIs(block, i); }
      var k := ftab[j] - 1;
      ftab[j] := k;
      fmap[k] := i;
      forall c | 0 <= c < 257
        ensures CountEq(block[..i + 1], c) == CountEq(block[..i], c) + (if block[i] == c then 1 else 0) {
        CountNext(block, i, c);
      }
    }
    assert block[..|block|] == block;
    forall c | 0 <= c < 256 ensures ftab[c] == Below(block, c) {
      BelowStep(block, c);
    }
  }

  lemma CountEmpty(s: seq<int>)
    ensures forall c :: CountEq(s[..0], c) == 0
  {
  }

  lemma RankDownIs(s: seq<int>, i: nat)
    requires i < |s|
    ensures RankDown(s, i) == Below(s, s[i] + 1) - 1 - CountEq(s[..i], s[i])
  {
  }

  // ----- what a pass relies on and establishes -----

  /** f lists the rotations in the order of their first h bytes. */
  ghost predicate OrderedTo(b: seq<int>, f: seq<int>, h: nat)
    requires IsPermutation(f, |b|)
  {
    forall p, q :: 0 <= p < q < |b| ==> Cmp(b, f[p], f[q], h) <= 0
  }

  /** Position z is the first of its class of rotations that agree on h bytes. */
  ghost predicate Starts(b: seq<int>, f: seq<int>, h: nat, z: int)
    requires IsPermutation(f, |b|) && 0 <= z < |b|
  {
    z == 0 || Cmp(b, f[z - 1], f[z], h) != 0
  }

  /** In [lo, hi) the header bits mark exactly the starts of the classes. */
  ghost predicate HeadsMark(b: seq<int>, f: seq<int>, bh: seq<bv32>, h: nat, lo: int, hi: int)
    requires IsPermutation(f, |b|) && |b| <= 32 * |bh|
  {
    forall z :: 0 <= lo <= z < hi <= |b| ==> (IsSet(bh, z) <==> Starts(b, f, h, z))
  }

  /** The bits beyond the block stop both kinds of scan. */
  ghost predicate Sentinels(bh: seq<bv32>, n: nat) {
    n + 1 < 32 * |bh| && IsSet(bh, n) && !IsSet(bh, n + 1)
  }

  /** A marked start separates: everything before it is strictly smaller. */
  lemma StartSeparates(b: seq<int>, f: seq<int>, h: nat, z: int, p: int, q: int)
    requires IsPermutation(f, |b|) && OrderedTo(b, f, h)
    requires 0 <= p < z <= q < |b| && Starts(b, f, h, z)
    ensures Cmp(b, f[p], f[q], h) < 0
  {
    var y := z - 1;
    if p < y { assert Cmp(b, f[p], f[y], h) <= 0; } else { CmpSelf(b, f[p], h); }
    CmpTrans(b, f[p], f[y], f[z], h);
    if z < q { assert Cmp(b, f[z], f[q], h) <= 0; } else { CmpSelf(b, f[z], h); }
    CmpTrans(b, f[p], f[z], f[q], h);
  }

  /** Without a start in between, two rotations agree. */
  lemma {:induction false} NoStartEqual(b: seq<int>, f: seq<int>, h: nat, p: int, q: int)
    requires IsPermutation(f, |b|) && 0 <= p <= q < |b|
    requires forall z :: p < z <= q ==> !Starts(b, f, h, z)
    ensures Cmp(b, f[p], f[q], h) == 0
    decreases q - p
  {
    if p == q {
      CmpSelf(b, f[p], h);
    } else {
      NoStartEqual(b, f, h, p, q - 1);
      assert !Starts(b, f, h, q);
      CmpTrans(b, f[p], f[q - 1], f[q], h);
      CmpFlip(b, f[p], f[q - 1], h);
      CmpFlip(b, f[q - 1], f[q], h);
      CmpTrans(b, f[q], f[q - 1], f[p], h);
      CmpFlip(b, f[q], f[p], h);
    }
  }

  lemma CmpOne(b: seq<int>, i: nat, j: nat)
    requires i < |b| && j < |b|
    ensures Cmp(b, i, j, 1) == b[i] - b[j]
  {
    assert Cmp(b, Next(|b|, i), Next(|b|, j), 0) == 0;
  }

  /** After the radix sort the rotations are in the order of their first byte. */
  lemma RadixOrders(block: seq<int>, f: seq<int>)
    requires Bytes(block) && |f| == |block|
    requires forall i :: 0 <= i < |block| ==> 0 <= RankDown(block, i) < |block| && f[RankDown(block, i)] == i
    ensures IsPermutation(f, |block|) && OrderedTo(block, f, 1)
    ensures forall p :: 0 <= p < |block| ==> RankDown(block, f[p]) == p
  {
    hide RankDown;
    var rank := RanksDown(block);
    RanksDownPermutation(block);
    InverseIsPermutation(f, rank, |block|);
    forall p, q | 0 <= p < q < |block| ensures Cmp(block, f[p], f[q], 1) <= 0 {
      CmpOne(block, f[p], f[q]);
      assert rank[f[p]] == p && rank[f[q]] == q;
      if block[f[q]] < block[f[p]] { RankByValue(block, f[q], f[p]); }
    }
  }

  /** Position z is where one of the byte values below m begins. */
  ghost predicate FirstPlace(block: seq<int>, z: int, m: int) {
    exists c :: 0 <= c < m && Below(block, c) == z
  }

  lemma FirstPlaceNext(block: seq<int>, z: int, m: nat)
    ensures FirstPlace(block, z, m + 1) <==> FirstPlace(block, z, m) || Below(block, m) == z
    ensures !FirstPlace(block, z, 0)
  {
    hide Below;
    if FirstPlace(block, z, m) { var c :| 0 <= c < m && Below(block, c) == z; assert Below(block, c) == z; }
    if Below(block, m) == z { assert FirstPlace(block, z, m + 1); }
  }

  /** The first places of the byte values are the starts of the classes. */
  lemma RadixStarts(block: seq<int>, f: seq<int>, z: int)
    requires Bytes(block) && IsPermutation(f, |block|) && 0 <= z < |block|
    requires forall p :: 0 <= p < |block| ==> RankDown(block, f[p]) == p
    ensures FirstPlace(block, z, 256) <==> Starts(block, f, 1, z)
  {
    hide RankDown, Below;
    var c := block[f[z]];
    assert RankDown(block, f[z]) == z;
    RankInBucket(block, f[z]);
    if z > 0 {
      var d := block[f[z - 1]];
      assert RankDown(block, f[z - 1]) == z - 1;
      RankInBucket(block, f[z - 1]);
      CmpOne(block, f[z - 1], f[z]);
      if d < c { BelowMonotone(block, d + 1, c); }
      if c < d { BelowMonotone(block, c + 1, d); }
      if e :| 0 <= e < 256 && Below(block, e) == z && c == d {
        if e <= c { BelowMonotone(block, e, c); } else { BelowMonotone(block, c + 1, e); }
      }
      assert d < c ==> Below(block, c) == z;
    } else {
      BelowEnds(block, 256);
      assert Below(block, 0) == z;
    }
  }

  /** Marks the first place of every byte value, and the sentinels beyond the block. */
  method MarkStarts(bhtab: array<bv32>, ftab: array<int>, nblock: int, ghost block: seq<int>, ghost f: seq<int>)
    requires Bytes(block) && nblock == |block| == |f| && IsPermutation(f, nblock)
    requires forall p :: 0 <= p < nblock ==> RankDown(block, f[p]) == p
    requires bhtab.Length >= 3 + nblock / 32 && bhtab as object != ftab
    requires ftab.Length == 257 && forall c :: 0 <= c < 256 ==> ftab[c] == Below(block, c)
    modifies bhtab
    ensures HeadsMark(block, f, bhtab[..], 1, 0, nblock) && Sentinels(bhtab[..], nblock)
  {
    hide IsSet, Below, RankDown, FirstPlace;
    var nBhtab := 2 + nblock / 32;
    ZeroWords(bhtab, nBhtab);
    forall z | 0 <= z < nblock ensures !FirstPlace(block, z, 0) { FirstPlaceNext(block, z, 0); }
    for i := 0 to 256
      invariant forall z :: 0 <= z < nblock ==> (IsSet(bhtab[..], z) <==> FirstPlace(block, z, i))
    {
      assert ftab[i] == Below(block, i);
      ghost var was := bhtab[..];
      SetBH(bhtab, ftab[i]);
      forall z | 0 <= z < nblock ensures IsSet(bhtab[..], z) <==> FirstPlace(block, z, i + 1) {
        assert IsSet(was, z) <==> FirstPlace(block, z, i);
        FirstPlaceNext(block, z, i);
      }
    }
    ghost var bh := bhtab[..];
    for i := 0 to 32
      invariant forall z :: 0 <= z < nblock ==> (IsSet(bhtab[..], z) <==> IsSet(bh, z))
      invariant i > 0 ==> IsSet(bhtab[..], nblock) && !IsSet(bhtab[..], nblock + 1)
    {
      SetBH(bhtab, nblock + 2 * i);
      ClearBH(bhtab, nblock + 2 * i + 1);
    }
    forall z | 0 <= z < nblock ensures IsSet(bhtab[..], z) <==> Starts(block, f, 1, z) {
      RadixStarts(block, f, z);
    }
  }

  // ----- the equivalence classes of one pass -----

  /** ec compares positions as the h bytes that start h places further on do. */
  ghost predicate Classes(b: seq<int>, ec: seq<int>, h: nat) {
    && |ec| == |b|
    && (forall x, y :: 0 <= x < |b| && 0 <= y < |b| ==>
          (ec[x] <= ec[y] <==> Cmp(b, Adv(|b|, x, h), Adv(|b|, y, h), h) <= 0))
  }

  /** The position h places before v. */
  function Back(n: nat, v: int, h: int): int {
    if v - h < 0 then v - h + n else v - h
  }

  lemma BackForth(n: nat, x: int, h: nat)
    requires 0 <= x < n && h <= n
    ensures Back(n, Adv(n, x, h), h) == x
    ensures 0 <= Back(n, x, h) < n && Adv(n, Back(n, x, h), h) == x
  {
    AdvOnce(n, x, h);
    AdvOnce(n, Back(n, x, h), h);
  }

  /** st[i] is the start of the class that position i belongs to. */
  ghost predicate ClassStarts(b: seq<int>, f: seq<int>, h: nat, st: seq<int>)
    requires IsPermutation(f, |b|)
  {
    && |st| <= |b|
    && (forall i :: 0 <= i < |st| ==> 0 <= st[i] <= i && Starts(b, f, h, st[i]))
    && (forall i, z :: 0 <= i < |st| && st[i] < z <= i ==> !Starts(b, f, h, z))
  }

  lemma SameStart(b: seq<int>, f: seq<int>, h: nat, st: seq<int>, i: int, j: int)
    requires IsPermutation(f, |b|) && OrderedTo(b, f, h)
    requires ClassStarts(b, f, h, st) && 0 <= i <= j < |st|
    ensures st[i] <= st[j]
    ensures st[j] <= st[i] <==> Cmp(b, f[j], f[i], h) <= 0
  {
    CmpFlip(b, f[i], f[j], h);
    if st[j] <= i {
      assert Starts(b, f, h, st[i]) && Starts(b, f, h, st[j]);
      assert st[i] == st[j];
      NoStartEqual(b, f, h, i, j);
    } else {
      StartSeparates(b, f, h, st[j], i, j);
    }
  }

  lemma ClassesFromStarts(b: seq<int>, f: seq<int>, h: nat, st: seq<int>, ec: seq<int>)
    requires IsPermutation(f, |b|) && OrderedTo(b, f, h) && h <= |b| == |st| == |ec|
    requires ClassStarts(b, f, h, st)
    requires forall i :: 0 <= i < |b| ==> 0 <= Back(|b|, f[i], h) < |b| && ec[Back(|b|, f[i], h)] == st[i]
    ensures Classes(b, ec, h)
  {
    hide ClassStarts, OrderedTo;
    var n := |b|;
    forall x, y | 0 <= x < n && 0 <= y < n
      ensures ec[x] <= ec[y] <==> Cmp(b, Adv(n, x, h), Adv(n, y, h), h) <= 0
    {
      BackForth(n, x, h);
      BackForth(n, y, h);
      var i := Onto(f, n, Adv(n, x, h));
      var j := Onto(f, n, Adv(n, y, h));
      assert ec[x] == st[i] && ec[y] == st[j];
      if i <= j { SameStart(b, f, h, st, i, j); OrderedPair(b, f, h, i, j); } else { SameStart(b, f, h, st, j, i); }
    }
  }

  lemma OrderedPair(b: seq<int>, f: seq<int>, h: nat, p: int, q: int)
    requires IsPermutation(f, |b|) && OrderedTo(b, f, h) && 0 <= p <= q < |b|
    ensures Cmp(b, f[p], f[q], h) <= 0
  {
    if p == q { CmpSelf(b, f[p], h); }
  }

  /** Gives every rotation the class of the one that starts h places further on. */
  method AssignClasses(fmap: array<int>, eclass: array<int>, bhtab: array<bv32>, nblock: int, h: int, ghost b: seq<int>)
    requires nblock == |b| <= fmap.Length && nblock <= eclass.Length && fmap != eclass && bhtab as object != eclass
    requires 1 <= h <= nblock
    requires IsPermutation(fmap[..nblock], nblock) && OrderedTo(b, fmap[..nblock], h)
    requires nblock <= 32 * bhtab.Length && HeadsMark(b, fmap[..nblock], bhtab[..], h, 0, nblock)
    modifies eclass
    ensures Classes(b, eclass[..nblock], h)
    ensures forall x :: 0 <= x < nblock ==> eclass[x] >= 0
  {
    hide IsSet, Starts, OrderedTo;
    ghost var f, bh := fmap[..nblock], bhtab[..];
    ghost var st: seq<int> := [];
    var j := 0;
    StartZero(b, f, h);
    for i := 0 to nblock
      invariant fmap[..nblock] == f && bhtab[..] == bh
      invariant |st| == i && ClassStarts(b, f, h, st)
      invariant i > 0 ==> j == st[i - 1]
      invariant forall x :: 0 <= x < i ==> 0 <= Back(nblock, f[x], h) < nblock && eclass[Back(nblock, f[x], h)] == st[x]
    {
      assert IsSet(bh, i) <==> Starts(b, f, h, i);
      if IsSet(bhtab[..], i) { j := i; }
      var k := fmap[i] - h;
      if k < 0 { k := k + nblock; }
      assert fmap[i] == f[i] && k == Back(nblock, f[i], h);
      forall x | 0 <= x < i ensures Back(nblock, f[x], h) != k {
        assert f[x] != f[i];
      }
      eclass[k] := j;
      st := st + [j];
    }
    ClassesFromStarts(b, f, h, st, eclass[..nblock]);
    forall x | 0 <= x < nblock ensures eclass[x] >= 0 {
      BackForth(nblock, x, h);
      var i := Onto(f, nblock, Adv(nblock, x, h));
    }
  }

  lemma StartZero(b: seq<int>, f: seq<int>, h: nat)
    requires IsPermutation(f, |b|) && |b| > 0
    ensures Starts(b, f, h, 0)
  {
  }
}

/** Canonical Huffman codes: how they are assigned, the tables for decoding them, and why decoding works. */
module HuffmanCodes {

  import opened Powers
  import opened Counting

  /** Every length is one that the format allows. */
  ghost predicate Lengths(len: seq<int>, minLen: int, maxLen: int) {
    && 0 < |len| <= 258 && 1 <= minLen <= maxLen <= 20
    && (forall i :: 0 <= i < |len| ==> minLen <= len[i] <= maxLen)
  }

  ghost predicate GoodLengths(len: seq<int>) {
    0 < |len| <= 258 && forall i :: 0 <= i < |len| ==> 1 <= len[i] <= 20
  }

  /** The least length, or 32 where there is none below, as the loops that look for it start from. */
  function MinOf(len: seq<int>): (m: int)
    ensures m <= 32 && (forall i :: 0 <= i < |len| ==> m <= len[i]) &&
      (m < 32 ==> exists i :: 0 <= i < |len| && len[i] == m)
  {
    if len == [] then 32
    else
      var m := MinOf(len[..|len| - 1]);
      if len[|len| - 1] < m then len[|len| - 1] else m
  }

  function MaxOf(len: seq<int>): (m: int)
    ensures m >= 0 && (forall i :: 0 <= i < |len| ==> len[i] <= m) &&
      (m > 0 ==> exists i :: 0 <= i < |len| && len[i] == m)
  {
    if len == [] then 0
    else
      var m := MaxOf(len[..|len| - 1]);
      if len[|len| - 1] > m then len[|len| - 1] else m
  }

  lemma GoodRange(len: seq<int>)
    requires GoodLengths(len)
    ensures 1 <= MinOf(len) <= MaxOf(len) <= 20 && Lengths(len, MinOf(len), MaxOf(len))
    ensures exists i :: 0 <= i < |len| && len[i] == MaxOf(len)
  {
    assert MinOf(len) <= len[0] <= MaxOf(len);
  }

  /** The loop that finds the least and the greatest length. */
  method FindRange(length: seq<int>, alphaSize: int) returns (minLen: int, maxLen: int)
    requires alphaSize == |length|
    ensures minLen == MinOf(length) && maxLen == MaxOf(length)
  {
    minLen, maxLen := 32, 0;
    for i := 0 to alphaSize
      invariant minLen == MinOf(length[..i]) && maxLen == MaxOf(length[..i])
    {
      assert length[..i + 1][..i] == length[..i];
      if length[i] > maxLen { maxLen := length[i]; }
      if length[i] < minLen { minLen := length[i]; }
    }
    assert length[..alphaSize] == length;
  }

  /** The first code of length n. */
  function First(len: seq<int>, n: nat): (r: nat)
    decreases n
  {
    if n == 0 then 0 else 2 * (First(len, n - 1) + CountEq(len, n - 1))
  }

  /** The code of symbol i: codes of one length are consecutive, in the order of the symbols. */
  function Code(len: seq<int>, i: int): (r: nat)
    requires 0 <= i < |len| && len[i] >= 0
    ensures First(len, len[i]) <= r
  {
    First(len, len[i]) + CountEq(len[..i], len[i])
  }

  lemma {:induction false} FirstZero(len: seq<int>, n: nat, minLen: int)
    requires n <= minLen && forall i :: 0 <= i < |len| ==> len[i] >= minLen
    ensures First(len, n) == 0
    decreases n
  {
    if n > 0 {
      FirstZero(len, n - 1, minLen);
      NoneEqual(len, n - 1);
    }
  }

  /** Codes of different symbols of one length differ, and lie in the stretch of their length. */
  lemma CodeInStretch(len: seq<int>, i: int)
    requires 0 <= i < |len| && len[i] >= 0
    ensures First(len, len[i]) <= Code(len, i) < First(len, len[i]) + CountEq(len, len[i])
  {
    assert len[..|len|] == len;
    CountPrefix(len, i, |len|, len[i]);
  }

  // ----- assigning codes -----

  /** BZ2_hbAssignCodes: counts through the codes, length by length. */
  method AssignCodes(code: array<int>, length: seq<int>, minLen: int, maxLen: int, alphaSize: int)
    requires alphaSize == |length| <= code.Length && Lengths(length, minLen, maxLen)
    modifies code
    ensures forall i :: 0 <= i < alphaSize ==> code[i] == Code(length, i)
  {
    hide First, CountEq;
    var vec := 0;
    FirstZero(length, minLen, minLen);
    for n := minLen to maxLen + 1
      invariant vec == First(length, n)
      invariant forall i :: 0 <= i < alphaSize && length[i] < n ==> code[i] == Code(length, i)
    {
      EmptyCount(length, n);
      for i := 0 to alphaSize
        invariant vec == First(length, n) + CountEq(length[..i], n)
        invariant forall k :: 0 <= k < alphaSize && length[k] < n ==> code[k] == Code(length, k)
        invariant forall k :: 0 <= k < i && length[k] == n ==> code[k] == Code(length, k)
      {
        CountNext(length, i, n);
        if length[i] == n {
          code[i] := vec;
          vec := vec + 1;
        }
      }
      assert length[..alphaSize] == length;
      FirstNext(length, n);
      vec := vec * 2;
    }
  }

  lemma FirstNext(len: seq<int>, n: nat)
    ensures First(len, n + 1) == 2 * (First(len, n) + CountEq(len, n))
  {
  }

  // ----- tables for decoding -----

  /** The last code of length n, or zero where the tables stay empty. */
  function LimitOf(len: seq<int>, n: nat): int {
    if MinOf(len) <= n <= MaxOf(len) then First(len, n) + CountEq(len, n) - 1 else 0
  }

  /** What to subtract from a code of length n to find the place of its symbol. */
  function BaseOf(len: seq<int>, n: nat): int {
    First(len, n) - Below(len, n)
  }

  /** The tables: the symbols in perm are ordered by length. */
  ghost predicate Tables(len: seq<int>, limit: seq<int>, base: seq<int>, perm: seq<int>) {
    && GoodLengths(len) && |limit| >= 23 && |base| >= 23 && |perm| >= |len|
    && (forall n :: 0 <= n < 23 ==> limit[n] == LimitOf(len, n))
    && (forall n :: MinOf(len) <= n <= MaxOf(len) ==> 0 <= n < 23 && base[n] == BaseOf(len, n))
    && (forall x :: 0 <= x < |len| ==> perm[x] == PlaceOf(len, x))
  }

  method FillPerm(perm: array<int>, length: seq<int>, minLen: int, maxLen: int, alphaSize: int)
    requires alphaSize == |length| <= perm.Length && Lengths(length, minLen, maxLen)
    modifies perm
    ensures forall i :: 0 <= i < alphaSize ==> 0 <= RankUp(length, i) < alphaSize && perm[RankUp(length, i)] == i
  {
    hide Below, CountEq;
    var pp := 0;
    forall k | 0 <= k < alphaSize ensures 0 <= RankUp(length, k) < alphaSize { RankInBucket(length, k); }
    NoneBelow(length, minLen);
    for i := minLen to maxLen + 1
      invariant pp == Below(length, i)
      invariant forall k :: 0 <= k < alphaSize && length[k] < i ==> perm[RankUp(length, k)] == k
    {
      EmptyCount(length, i);
      for j := 0 to alphaSize
        invariant pp == Below(length, i) + CountEq(length[..j], i)
        invariant forall k :: 0 <= k < alphaSize && length[k] < i ==> perm[RankUp(length, k)] == k
        invariant forall k :: 0 <= k < j && length[k] == i ==> perm[RankUp(length, k)] == k
      {
        CountNext(length, j, i);
        if length[j] == i {
          assert pp == RankUp(length, j);
          forall k | 0 <= k < alphaSize && k != j ensures RankUp(length, k) != pp { RanksDiffer(length, k, j); }
          perm[pp] := j;
          pp := pp + 1;
        }
      }
      assert length[..alphaSize] == length;
      BelowStep(length, i);
    }
  }

  /** How many symbols have lengths below n; where the codes of length n begin in perm. */
  method CountLengths(base: array<int>, length: seq<int>, alphaSize: int)
    requires alphaSize == |length| && base.Length >= 23 && forall i :: 0 <= i < |length| ==> 1 <= length[i] <= 20
    modifies base
    ensures forall n :: 0 <= n < 23 ==> base[n] == Below(length, n)
  {
    hide Below, CountEq;
    for i := 0 to 23
      invariant forall n :: 0 <= n < i ==> base[n] == 0
    {
      base[i] := 0;
    }
    forall n ensures CountEq(length[..0], n) == 0 { EmptyCount(length, n); }
    for i := 0 to alphaSize
      invariant forall n :: 0 <= n < 23 ==> base[n] == CountEq(length[..i], n - 1)
    {
      forall n ensures CountEq(length[..i + 1], n) == CountEq(length[..i], n) + (if length[i] == n then 1 else 0) {
        CountNext(length, i, n);
      }
      base[length[i] + 1] := base[length[i] + 1] + 1;
    }
    assert length[..alphaSize] == length;
    NoneEqual(length, -1);
    NoneBelow(length, 0);
    for i := 1 to 23
      invariant forall n :: 0 <= n < i ==> base[n] == Below(length, n)
      invariant forall n :: i <= n < 23 ==> base[n] == CountEq(length, n - 1)
    {
      BelowStep(length, i - 1);
      base[i] := base[i] + base[i - 1];
    }
  }

  /** BZ2_hbCreateDecodeTables. */
  method CreateDecodeTables(limit: array<int>, base: array<int>, perm: array<int>, length: seq<int>, minLen: int,
      maxLen: int, alphaSize: int)
    requires alphaSize == |length| <= perm.Length && limit.Length >= 23 && base.Length >= 23 &&
      Lengths(length, minLen, maxLen)
    requires limit != base && limit != perm && base != perm && minLen == MinOf(length) && maxLen == MaxOf(length)
    modifies limit, base, perm
    ensures Tables(length, limit[..], base[..], perm[..])
  {
    hide First, Below, CountEq, RankUp, MinOf, MaxOf, PlaceOf;
    FillPerm(perm, length, minLen, maxLen, alphaSize);
    ghost var p := perm[..];
    CountLengths(base, length, alphaSize);
    FillLimit(limit, base[..], length, minLen, maxLen);
    ghost var lim := limit[..];
    NoneBelow(length, minLen);
    FirstZero(length, minLen, minLen);
    for i := minLen + 1 to maxLen + 1
      invariant perm[..] == p && limit[..] == lim
      invariant forall n :: minLen <= n < i ==> base[n] == First(length, n) - Below(length, n)
      invariant forall n :: i <= n < 23 ==> base[n] == Below(length, n)
    {
      FirstNext(length, i - 1);
      base[i] := (limit[i - 1] + 1) * 2 - base[i];
    }
    forall x | 0 <= x < |length| ensures p[x] == PlaceOf(length, x) {
      assert p[RankUp(length, PlaceOf(length, x))] == PlaceOf(length, x);
    }
  }

  method FillLimit(limit: array<int>, base: seq<int>, length: seq<int>, minLen: int, maxLen: int)
    requires limit.Length >= 23 && |base| >= 23 && Lengths(length, minLen, maxLen)
    requires forall n :: 0 <= n < 23 ==> base[n] == Below(length, n)
    modifies limit
    ensures forall n :: minLen <= n <= maxLen ==> limit[n] == First(length, n) + CountEq(length, n) - 1
    ensures forall n :: 0 <= n < 23 && !(minLen <= n <= maxLen) ==> limit[n] == 0
  {
    hide First, Below, CountEq;
    for i := 0 to 23
      invariant forall n :: 0 <= n < i ==> limit[n] == 0
    {
      limit[i] := 0;
    }
    var vec := 0;
    FirstZero(length, minLen, minLen);
    for i := minLen to maxLen + 1
      invariant vec == First(length, i)
      invariant forall n :: minLen <= n < i ==> limit[n] == First(length, n) + CountEq(length, n) - 1
      invariant forall n :: 0 <= n < 23 && !(minLen <= n < i) ==> limit[n] == 0
    {
      BelowStep(length, i);
      FirstNext(length, i);
      vec := vec + (base[i + 1] - base[i]);
      limit[i] := vec - 1;
      vec := vec * 2;
    }
  }

  // ----- decoding one code -----

  /** The first k bits of an n-bit code. */
  function Top(code: int, n: int, k: int): int
    requires 0 <= k <= n
  {
    code / Pow2(n - k)
  }

  /** Codes of length n lie above everything that k bits of a shorter code can begin with. */
  lemma {:induction false} FirstAbove(len: seq<int>, k: nat, n: nat)
    requires k < n
    ensures First(len, n) >= Pow2(n - k) * (First(len, k) + CountEq(len, k))
    decreases n
  {
    FirstNext(len, n - 1);
    var f := First(len, k) + CountEq(len, k);
    assert Pow2(n - k) == 2 * Pow2(n - 1 - k) && Pow2(0) == 1;
    hide First, CountEq, Pow2;
    if k < n - 1 {
      FirstAbove(len, k, n - 1);
      MulDouble(Pow2(n - 1 - k), f);
    }
  }

  /** Reading the code of symbol i bit by bit, the test against the limits succeeds at its last bit and not before,
      and then the tables give i. */
  lemma CodeStops(len: seq<int>, i: int, k: int)
    requires GoodLengths(len) && 0 <= i < |len| && MinOf(len) <= k <= len[i]
    ensures 0 <= k && (Top(Code(len, i), len[i], k) <= LimitOf(len, k) <==> k == len[i])
    ensures var x := Top(Code(len, i), len[i], len[i]) - BaseOf(len, len[i]); 0 <= x < |len| && PlaceOf(len, x) == i
  {
    hide First, CountEq, RankUp, Below, MinOf, MaxOf, Top;
    GoodRange(len);
    CodeInStretch(len, i);
    CodePlace(len, i);
    TopWhole(Code(len, i), len[i]);
    RankInjective(len, PlaceOf(len, RankUp(len, i)), i);
    if k < len[i] { TopBeyond(len, i, k); }
  }

  lemma CodePlace(len: seq<int>, i: int)
    requires 0 <= i < |len| && len[i] >= 0
    ensures Code(len, i) - BaseOf(len, len[i]) == RankUp(len, i) && 0 <= RankUp(len, i) < |len|
  {
    RankInBucket(len, i);
    BelowMost(len, len[i] + 1);
  }

  lemma TopWhole(c: int, n: int)
    requires n >= 0
    ensures Top(c, n, n) == c
  {
  }

  lemma TopBeyond(len: seq<int>, i: int, k: int)
    requires 0 <= i < |len| && 0 <= k < len[i]
    ensures Top(Code(len, i), len[i], k) >= First(len, k) + CountEq(len, k)
  {
    hide First, CountEq, Code, Pow2;
    FirstAbove(len, k, len[i]);
    DivAtLeast(Code(len, i), Pow2(len[i] - k), First(len, k) + CountEq(len, k));
  }

  /** What the loop knows of the bits it has read when the test has failed for every shorter length. */
  predicate Beyond(len: seq<int>, zn: nat, zvec: int) {
    zvec >= First(len, zn) && (zn > MinOf(len) && zn > 0 ==> zvec >= 2 * (First(len, zn - 1) + CountEq(len, zn - 1)))
  }

  /** Whatever the bits are: when the test succeeds the place looked up is one that was filled, so neither of the checks
      that follow the loop can fail. */
  lemma AnyBitsStop(len: seq<int>, zn: nat, zvec: int, bit: int)
    requires GoodLengths(len) && 0 <= bit <= 1 && MinOf(len) <= zn && Beyond(len, zn, zvec)
    ensures zvec <= LimitOf(len, zn) ==> zn <= MaxOf(len) && 0 <= zvec - BaseOf(len, zn) < |len|
    ensures zvec > LimitOf(len, zn) ==> Beyond(len, zn + 1, 2 * zvec + bit)
  {
    hide First, CountEq, Below, MinOf, MaxOf;
    GoodRange(len);
    FirstNext(len, zn);
    FirstNext(len, zn - 1);
    if zn <= MaxOf(len) {
      BelowStep(len, zn);
      BelowMost(len, zn + 1);
    } else {
      FirstPositive(len, MaxOf(len), zn - 1);
      NoneEqual(len, zn);
    }
  }

  lemma {:induction false} FirstPositive(len: seq<int>, maxLen: int, k: int)
    requires 0 <= maxLen <= k && exists i :: 0 <= i < |len| && len[i] == maxLen
    ensures First(len, k) + CountEq(len, k) >= 1
    decreases k
  {
    hide First, CountEq;
    if k == maxLen {
      var i :| 0 <= i < |len| && len[i] == maxLen;
      CountPrefix(len, i, |len|, maxLen);
      assert len[..|len|] == len;
    } else {
      FirstPositive(len, maxLen, k - 1);
      FirstNext(len, k - 1);
    }
  }

  lemma BelowMost(s: seq<int>, c: int)
    ensures Below(s, c) <= |s|
  {
  }

  // ----- codes fit their lengths exactly when the Kraft sum allows it -----

  /** The part of the Kraft sum that comes from lengths below n. */
  ghost function KraftBelow(len: seq<int>, l: nat, n: int): nat
    requires forall i :: 0 <= i < |len| ==> 0 <= len[i] <= l
  {
    if len == [] then 0
    else KraftBelow(len[..|len| - 1], l, n) + (if len[|len| - 1] < n then Pow2(l - len[|len| - 1]) else 0)
  }

  lemma {:induction false} KraftBelowEnds(len: seq<int>, l: nat, n: int, maxLen: int)
    requires forall i :: 0 <= i < |len| ==> 0 <= len[i] <= l
    ensures n <= 0 ==> KraftBelow(len, l, n) == 0
    ensures (forall i :: 0 <= i < |len| ==> len[i] < n) ==> KraftBelow(len, l, n) == Kraft(len, l)
    ensures KraftBelow(len, l, n) <= Kraft(len, l)
  {
    if len != [] { KraftBelowEnds(len[..|len| - 1], l, n, maxLen); }
  }

  lemma {:induction false} KraftBelowNext(len: seq<int>, l: nat, n: int)
    requires 0 <= n <= l && forall i :: 0 <= i < |len| ==> 0 <= len[i] <= l
    ensures KraftBelow(len, l, n + 1) == KraftBelow(len, l, n) + CountEq(len, n) * Pow2(l - n)
  {
    if len != [] {
      KraftBelowNext(len[..|len| - 1], l, n);
      hide Pow2;
      MulNext(CountEq(len[..|len| - 1], n), Pow2(l - n));
    }
  }

  lemma {:induction false} FirstIsKraft(len: seq<int>, l: nat, n: int)
    requires 0 <= n <= l && forall i :: 0 <= i < |len| ==> 0 <= len[i] <= l
    ensures First(len, n) * Pow2(l - n) == KraftBelow(len, l, n)
    decreases n
  {
    if n == 0 {
      KraftBelowEnds(len, l, 0, 0);
    } else {
      FirstIsKraft(len, l, n - 1);
      KraftBelowNext(len, l, n - 1);
      FirstNext(len, n - 1);
      assert Pow2(l - n + 1) == 2 * Pow2(l - n);
      hide First, CountEq, Pow2, KraftBelow;
      Regroup(First(len, n - 1), CountEq(len, n - 1), Pow2(l - n));
    }
  }

  /** The codes of length n end at or before 2^n exactly when the Kraft sum up to there is at most one. */
  lemma StretchFits(len: seq<int>, l: nat, n: int)
    requires 0 <= n <= l && forall i :: 0 <= i < |len| ==> 0 <= len[i] <= l
    ensures First(len, n) + CountEq(len, n) <= Pow2(n) <==> KraftBelow(len, l, n + 1) <= Pow2(l)
  {
    hide First, CountEq, Pow2, KraftBelow;
    StretchTimes(len, l, n);
    Pow2Add(n, l - n);
    MulCompare(First(len, n) + CountEq(len, n), Pow2(n), Pow2(l - n));
  }

  lemma StretchTimes(len: seq<int>, l: nat, n: int)
    requires 0 <= n <= l && forall i :: 0 <= i < |len| ==> 0 <= len[i] <= l
    ensures (First(len, n) + CountEq(len, n)) * Pow2(l - n) == KraftBelow(len, l, n + 1)
  {
    hide First, CountEq, Pow2, KraftBelow;
    FirstIsKraft(len, l, n);
    KraftBelowNext(len, l, n);
    MulAdd(First(len, n), CountEq(len, n), Pow2(l - n));
  }

  /** Every code fits in its length if and only if the Kraft sum is at most one. */
  lemma CodesFit(len: seq<int>, minLen: int, maxLen: int, l: nat)
    requires Lengths(len, minLen, maxLen) && maxLen <= l && exists i :: 0 <= i < |len| && len[i] == maxLen
    ensures Kraft(len, l) <= Pow2(l) <==> forall i :: 0 <= i < |len| ==> Code(len, i) < Pow2(len[i])
  {
    hide First, CountEq, Pow2, KraftBelow, Kraft, Code;
    if Kraft(len, l) <= Pow2(l) {
      forall i | 0 <= i < |len| ensures Code(len, i) < Pow2(len[i]) {
        KraftBelowEnds(len, l, len[i] + 1, maxLen);
        StretchFits(len, l, len[i]);
        CodeInStretch(len, i);
      }
    }
    if forall i :: 0 <= i < |len| ==> Code(len, i) < Pow2(len[i]) {
      var i := LastOf(len, maxLen);
      assert Code(len, i) < Pow2(len[i]);
      KraftBelowEnds(len, l, maxLen + 1, maxLen);
      StretchFits(len, l, maxLen);
    }
  }

  /** The last symbol of a length has the last code of that length. */
  lemma LastOf(len: seq<int>, n: int) returns (i: int)
    requires n >= 0 && exists k :: 0 <= k < |len| && len[k] == n
    ensures 0 <= i < |len| && len[i] == n && Code(len, i) == First(len, n) + CountEq(len, n) - 1
  {
    i := |len| - 1;
    while len[i] != n
      invariant 0 <= i < |len| && (exists k :: 0 <= k <= i && len[k] == n) && forall k :: i < k < |len| ==> len[k] != n
      decreases i
    {
      i := i - 1;
    }
    CountNext(len, i, n);
    NoneAfter(len, i + 1, |len|, n);
    assert len[..|len|] == len;
  }

  /** No code begins with another. */
  lemma PrefixFree(len: seq<int>, i: int, j: int)
    requires 0 <= i < |len| && 0 <= j < |len| && i != j && 0 <= len[i] <= len[j]
    ensures Top(Code(len, j), len[j], len[i]) != Code(len, i)
  {
    hide First, Top;
    CodeInStretch(len, i);
    if len[i] < len[j] {
      TopBeyond(len, j, len[i]);
    } else {
      TopWhole(Code(len, j), len[j]);
      if i < j { CountPrefix(len, i, j, len[i]); } else { CountPrefix(len, j, i, len[i]); }
    }
  }
}

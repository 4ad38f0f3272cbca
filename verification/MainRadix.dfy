/** The two-byte radix sort that mainSort starts with. */
module MainRadix {

  import opened Rotations
  import opened Counting
  import opened MainOrder
  import opened MainSimpleSort
  import opened MainScan
  import opened MainStep2

  const PAIRS := 65536

  lemma PairBound(b: seq<int>, i: int)
    requires Bytes(b) && 0 <= i < |b|
    ensures 0 <= Key2(b)[i] < PAIRS
  {
  }

  /** Counts the byte pairs and clears the quadrants. */
  method CountPairs(block: seq<int>, quadrant: array<int>, ftab: array<int>, nblock: nat, ghost b: seq<int>)
    requires 0 < nblock <= |block| && nblock <= quadrant.Length && ftab.Length == PAIRS + 1 && quadrant != ftab
    requires b == block[..nblock] && Bytes(b)
    modifies quadrant, ftab
    ensures forall i :: 0 <= i < nblock ==> quadrant[i] == 0
    ensures forall c :: 0 <= c <= PAIRS ==> ftab[c] == CountEq(Key2(b), c)
  {
    hide CountEq;
    ghost var key := Key2(b);
    forall c | 0 <= c <= PAIRS { ftab[c] := 0; }
    var j := block[0] * 256;
    var i := nblock - 1;
    assert b[0] == block[0];
    assert key[..nblock] == key;
    while i >= 0
      invariant -1 <= i < nblock
      invariant j / 256 == b[if i == nblock - 1 then 0 else i + 1]
      invariant forall x :: i < x < nblock ==> quadrant[x] == 0
      invariant forall c :: 0 <= c <= PAIRS ==> ftab[c] == CountEq(key, c) - CountEq(key[..i + 1], c)
    {
      quadrant[i] := 0;
      assert b[i] == block[i];
      j := j / 256 + block[i] * 256;
      assert j == key[i];
      PairBound(b, i);
      forall c | 0 <= c <= PAIRS
        ensures CountEq(key[..i + 1], c) == CountEq(key[..i], c) + (if key[i] == c then 1 else 0) {
        CountNext(key, i, c);
      }
      ftab[j] := ftab[j] + 1;
      i := i - 1;
    }
    forall c ensures CountEq(key[..0], c) == 0 { EmptyCount(key, c); }
  }

  /** Continues block and quadrant beyond the end of the block. */
  method ExtendBlock(block: array<int>, quadrant: array<int>, nblock: nat, ghost b: seq<int>)
    requires N_OVERSHOOT < nblock && block.Length >= nblock + N_OVERSHOOT && quadrant.Length >= nblock + N_OVERSHOOT
    requires block != quadrant && b == block[..nblock]
    requires forall i :: 0 <= i < nblock ==> quadrant[i] == 0
    modifies block, quadrant
    ensures block[..nblock] == b && Overshoot(block[..], quadrant[..], nblock)
    ensures forall i :: 0 <= i < nblock ==> quadrant[i] == 0
  {
    for k := 0 to N_OVERSHOOT
      invariant block[..nblock] == b
      invariant forall x :: 0 <= x < nblock ==> quadrant[x] == 0
      invariant forall x :: nblock <= x < nblock + k ==> block[x] == block[x - nblock] && quadrant[x] == 0
    {
      block[nblock + k] := block[k];
      quadrant[nblock + k] := 0;
    }
  }

  method Accumulate(ftab: array<int>, ghost b: seq<int>)
    requires ftab.Length == PAIRS + 1 && Bytes(b)
    requires forall c :: 0 <= c <= PAIRS ==> ftab[c] == CountEq(Key2(b), c)
    modifies ftab
    ensures forall c :: 0 <= c <= PAIRS ==> ftab[c] == S(b, c + 1)
  {
    hide CountEq, S;
    assert S(b, 0) == 0 by { SEnds(b); }
    SNext(b, 0);
    for i := 1 to PAIRS + 1
      invariant forall c :: 0 <= c < i ==> ftab[c] == S(b, c + 1)
      invariant forall c :: i <= c <= PAIRS ==> ftab[c] == CountEq(Key2(b), c)
    {
      SNext(b, i);
      ftab[i] := ftab[i] + ftab[i - 1];
    }
  }

  lemma SEnds(b: seq<int>)
    requires Bytes(b)
    ensures S(b, 0) == 0 && S(b, PAIRS) == |b|
  {
    forall i | 0 <= i < |b| ensures 0 <= Key2(b)[i] < PAIRS { PairBound(b, i); }
    BelowEnds(Key2(b), PAIRS);
  }

  /** Puts every position at the place of its byte pair. */
  method Place(ptr: array<int>, ftab: array<int>, block: seq<int>, nblock: nat, ghost b: seq<int>)
    requires 0 < nblock <= |block| && b == block[..nblock] && Bytes(b)
    requires ftab.Length == PAIRS + 1 && ptr.Length >= nblock && ptr != ftab
    requires forall c :: 0 <= c <= PAIRS ==> ftab[c] == S(b, c + 1)
    modifies ptr, ftab
    ensures forall i :: 0 <= i < nblock ==> 0 <= RankUp(Key2(b), i) < nblock && ptr[RankUp(Key2(b), i)] == i
    ensures forall c :: 0 <= c <= PAIRS ==> ftab[c] == S(b, c)
  {
    hide CountEq, S, RankUp, Below;
    ghost var key := Key2(b);
    ghost var rank := RanksUp(key);
    RanksUpPermute(key);
    assert key[..nblock] == key;
    forall c | 0 <= c <= PAIRS ensures ftab[c] == S(b, c) + CountEq(key, c) { SNext(b, c); }
    var s := block[0] * 256;
    var i := nblock - 1;
    while i >= 0
      invariant -1 <= i < nblock
      invariant s / 256 == b[if i == nblock - 1 then 0 else i + 1]
      invariant forall c :: 0 <= c <= PAIRS ==> ftab[c] == S(b, c) + CountEq(key[..i + 1], c)
      invariant forall x :: i < x < nblock ==> ptr[rank[x]] == x
    {
      assert b[i] == block[i];
      s := s / 256 + block[i] * 256;
      assert s == key[i];
      PairBound(b, i);
      forall c | 0 <= c <= PAIRS
        ensures CountEq(key[..i + 1], c) == CountEq(key[..i], c) + (if key[i] == c then 1 else 0) {
        CountNext(key, i, c);
      }
      var j := ftab[s] - 1;
      assert j == rank[i] by { RankUpIs(b, i); }
      ftab[s] := j;
      ptr[j] := i;
      i := i - 1;
    }
    forall c ensures CountEq(key[..0], c) == 0 { EmptyCount(key, c); }
    forall x | 0 <= x < nblock ensures 0 <= RankUp(key, x) < nblock && ptr[RankUp(key, x)] == x {
      assert rank[x] == RankUp(key, x);
    }
  }

  lemma RankUpIs(b: seq<int>, i: nat)
    requires i < |b|
    ensures RankUp(Key2(b), i) == S(b, Key2(b)[i]) + CountEq(Key2(b)[..i], Key2(b)[i])
  {
  }

  /** The small bucket of every position after the radix sort. */
  lemma PlaceLays(b: seq<int>, s: seq<int>) returns (code: seq<int>)
    requires Bytes(b) && |s| == |b|
    requires forall i :: 0 <= i < |b| ==> 0 <= RankUp(Key2(b), i) < |b| && s[RankUp(Key2(b), i)] == i
    ensures Laid(b, code, s)
  {
    hide RankUp, Below;
    var key := Key2(b);
    RanksUpPermute(key);
    InverseIsPermutation(s, RanksUp(key), |b|);
    code := seq(|b|, p requires 0 <= p < |b| => key[s[p]]);
    forall p | 0 <= p < |b| ensures 0 <= code[p] < PAIRS && S(b, code[p]) <= p < S(b, code[p] + 1) {
      PairBound(b, s[p]);
      assert RanksUp(key)[s[p]] == p;
      RankInBucket(key, s[p]);
    }
  }
}

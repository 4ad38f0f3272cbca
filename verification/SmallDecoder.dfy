/** BZ_GET_SMALL along a whole block: the bytes come off the links that pointer reversal has turned round. */
module SmallDecoder {

  import opened Rotations
  import opened Counting
  import opened InverseBwt
  import opened InverseBwtSmall

  /** ll16, ll4 and cftab, and the bound on places. */
  datatype Links = Links(ll16: seq<int>, ll4: seq<int>, cftab: seq<int>, blockSize100k: int)

  /** What the block is, and the cycle of m places on which it is found. */
  datatype Cycle = Cycle(b: seq<int>, l: seq<int>, origPtr: int, m: nat)

  ghost predicate Linked(t: Links, src: Cycle) {
    && Bytes(src.l) && |src.l| <= 100000 * t.blockSize100k && Bytes(src.b) && |src.b| == |src.l|
    && Shape(t.ll16, t.ll4, |src.l|) && |t.cftab| == 257
    && (forall c :: 0 <= c <= 256 ==> t.cftab[c] == Below(src.l, c))
    && IsPermutation(RanksUp(src.l), |src.l|) && src.m >= 1
    && Reversed(RanksUp(src.l), SmallEntries(t.ll16, t.ll4, |src.l|), src.origPtr, src.m)
  }

  /** The walk is at turn k of the cycle, and the next byte to be fetched is number used. */
  ghost predicate At(src: Cycle, tPos: int, used: int, k: int) {
    && |src.b| == |src.l| && 1 <= k <= src.m && 0 <= used && 0 <= src.origPtr < |src.l|
    && IsPermutation(RanksUp(src.l), |src.l|)
    && tPos == Orbit(RanksUp(src.l), src.origPtr, k)
    && |Inverse(src.l)| == |src.l| && (forall i :: 0 <= i < |src.l| ==> 0 <= Inverse(src.l)[i] < |src.l|)
    && (used <= |src.b| ==> Emit(src.l, Inverse(src.l), tPos, |src.b| - used) == src.b[used..])
  }

  lemma Front(b: seq<int>, used: int, first: int, rest: seq<int>)
    requires 0 <= used < |b| && [] + b[used..] == [] + [first] + rest
    ensures b[used] == first && b[used + 1..] == rest
  {
    assert [] + b[used..] == b[used..] && [] + [first] + rest == [first] + rest;
    assert b[used..][0] == first && b[used..][1..] == rest;
  }

  /** BZ_GET_SMALL along the cycle. */
  method Follow(t: Links, tPos: int, ghost used: int, ghost k: int, ghost src: Cycle)
      returns (error: bool, k1: int, tPos': int, ghost k': int)
    requires Linked(t, src) && At(src, tPos, used, k)
    ensures !error && 0 <= k1 < 256 && At(src, tPos', used + 1, k') && (used < |src.b| ==> k1 == src.b[used])
  {
    ghost var l, next, rank := src.l, Inverse(src.l), RanksUp(src.l);
    hide RankUp, Below, LL, Orbit, Inverts, Shape, Reversed, IsPermutation, Emit, RanksUp, Inverse;
    CycleEnds(rank, SmallEntries(t.ll16, t.ll4, |l|), src.origPtr, src.m);
    ReversedNext(l, next, SmallEntries(t.ll16, t.ll4, |l|), src.origPtr, src.m, k);
    if used < |src.b| {
      EmitNext(l, next, tPos, |src.b| - used, []);
      Front(src.b, used, l[next[tPos]], Emit(l, next, next[tPos], |src.b| - used - 1));
    }
    error, k1, tPos' := GetSmall(t.ll16, t.ll4, t.cftab, tPos, t.blockSize100k, |l|, l, next);
    k' := if k == 1 then src.m else k - 1;
  }

  lemma StartsAt(t: Links, src: Cycle)
    requires Bytes(src.l) && 0 <= src.origPtr < |src.l| <= 100000 * t.blockSize100k &&
      src.b == Unsort(src.l, src.origPtr) && Bytes(src.b)
    requires Shape(t.ll16, t.ll4, |src.l|) && |t.cftab| == 257 &&
      forall c :: 0 <= c <= 256 ==> t.cftab[c] == Below(src.l, c)
    requires IsPermutation(RanksUp(src.l), |src.l|)
    requires Reversed(RanksUp(src.l), SmallEntries(t.ll16, t.ll4, |src.l|), src.origPtr, src.m)
    ensures Linked(t, src) && At(src, src.origPtr, 0, src.m)
  {
    hide RankUp, Below, LL, Orbit, Inverts, Shape, Reversed, IsPermutation, RanksUp, Emit;
    CycleEnds(RanksUp(src.l), SmallEntries(t.ll16, t.ll4, |src.l|), src.origPtr, src.m);
    InvertsIs(src.l, Inverse(src.l));
    assert src.b[0..] == src.b;
  }
}

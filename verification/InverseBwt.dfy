/** The inverse of block sorting: from the last column of the sorted rotations back to the block. */
module InverseBwt {

  import opened Rotations
  import opened Counting

  /** The byte before every rotation, in sorted order: what the compressor sends. */
  function LastColumn(b: seq<int>, p: seq<int>): (r: seq<int>)
    requires IsPermutation(p, |b|)
    ensures |r| == |b| && forall k :: 0 <= k < |b| ==> r[k] == b[Prev(|b|, p[k])]
  {
    seq(|b|, k requires 0 <= k < |b| => b[Prev(|b|, p[k])])
  }

  /** next leads from the place of an entry of the last column in the first column back to the entry. */
  ghost predicate Inverts(l: seq<int>, next: seq<int>) {
    && |next| == |l|
    && (forall i :: 0 <= i < |l| ==> 0 <= RankUp(l, i) < |l| && next[RankUp(l, i)] == i)
  }

  /** The m bytes that a walk from place s emits. */
  ghost function Emit(l: seq<int>, next: seq<int>, s: int, m: nat): (r: seq<int>)
    requires |next| == |l| && (forall k :: 0 <= k < |l| ==> 0 <= next[k] < |l|) && 0 <= s < |l|
    ensures |r| == m
    decreases m
  {
    if m == 0 then [] else [l[next[s]]] + Emit(l, next, next[s], m - 1)
  }

  /** One byte off the walk. */
  lemma EmitNext(l: seq<int>, next: seq<int>, s: int, m: nat, out: seq<int>)
    requires |next| == |l| && (forall k :: 0 <= k < |l| ==> 0 <= next[k] < |l|) && 0 <= s < |l| && m > 0
    ensures out + Emit(l, next, s, m) == out + [l[next[s]]] + Emit(l, next, next[s], m - 1)
  {
  }

  lemma EmitStart(l: seq<int>, next: seq<int>, s: int, m: nat)
    requires |next| == |l| && (forall k :: 0 <= k < |l| ==> 0 <= next[k] < |l|) && 0 <= s < |l|
    ensures [] + Emit(l, next, s, m) == Emit(l, next, s, m) && Emit(l, next, s, 0) == []
  {
  }

  /** Such a next exists, is a permutation, and undoes the ranks both ways. */
  lemma InvertsIs(l: seq<int>, next: seq<int>)
    requires Inverts(l, next)
    ensures IsPermutation(next, |l|)
    ensures forall k :: 0 <= k < |l| ==> 0 <= next[k] < |l| && RankUp(l, next[k]) == k
  {
    hide RankUp;
    RanksUpPermute(l);
    InverseIsPermutation(next, RanksUp(l), |l|);
    forall k | 0 <= k < |l| ensures 0 <= next[k] < |l| && RankUp(l, next[k]) == k {
      assert RanksUp(l)[next[k]] == k;
    }
  }

  ghost function Inverse(l: seq<int>): (next: seq<int>)
    ensures Inverts(l, next) && IsPermutation(next, |l|)
  {
    var next := seq(|l|, k requires 0 <= k < |l| => PlaceOf(l, k));
    InverseHolds(l, next);
    next
  }

  lemma InverseHolds(l: seq<int>, next: seq<int>)
    requires |next| == |l| && forall k :: 0 <= k < |l| ==> 0 <= next[k] < |l| && RankUp(l, next[k]) == k
    ensures Inverts(l, next) && IsPermutation(next, |l|)
  {
    hide RankUp;
    RanksUpPermute(l);
    forall i | 0 <= i < |l| ensures 0 <= RankUp(l, i) < |l| && next[RankUp(l, i)] == i {
      var k := RanksUp(l)[i];
      RankInjective(l, next[k], i);
    }
    InvertsIs(l, next);
  }

  lemma InverseUnique(l: seq<int>, next: seq<int>)
    requires Inverts(l, next)
    ensures next == Inverse(l)
  {
    hide RankUp;
    InvertsIs(l, next);
    var inv := Inverse(l);
    forall k | 0 <= k < |l| ensures next[k] == inv[k] {
      assert inv[RankUp(l, next[k])] == next[k];
    }
  }

  /** What the decompressor makes of a last column and the place of the block among the rotations. */
  ghost function Unsort(l: seq<int>, origPtr: int): (r: seq<int>)
    requires 0 <= origPtr < |l|
    ensures |r| == |l|
  {
    Emit(l, Inverse(l), origPtr, |l|)
  }

  /** Inverse block sorting, for every block and every order of equal rotations. */
  lemma UnsortSorted(b: seq<int>, p: seq<int>, origPtr: int)
    requires b != [] && SortsRotations(b, p) && 0 <= origPtr < |b| && p[origPtr] == 0
    ensures Unsort(LastColumn(b, p), origPtr) == b
  {
    BlockComesBack(b, p, Inverse(LastColumn(b, p)), origPtr);
  }

  // ----- why the walk emits the block -----

  /** Two lists that sort the rotations show the same rotation at every place. */
  lemma SortedAgree(b: seq<int>, p: seq<int>, q: seq<int>, k: int)
    requires SortsRotations(b, p) && SortsRotations(b, q) && 0 <= k < |b|
    ensures Cmp(b, p[k], q[k], |b|) == 0
  {
    hide Cmp;
    CmpFlip(b, p[k], q[k], |b|);
    NotLess(b, p, q, k);
    NotLess(b, q, p, k);
  }

  /** If p[k] were smaller than q[k], the k + 1 entries p[..k + 1] would all be among q[..k]. */
  lemma NotLess(b: seq<int>, p: seq<int>, q: seq<int>, k: int)
    requires SortsRotations(b, p) && SortsRotations(b, q) && 0 <= k < |b|
    ensures Cmp(b, p[k], q[k], |b|) >= 0
  {
    hide Cmp;
    if Cmp(b, p[k], q[k], |b|) < 0 {
      forall i | 0 <= i <= k ensures p[i] in q[..k] {
        var j := Onto(q, |b|, p[i]);
        if j >= k { SmallerAbsent(b, p[i], p[k], q[k], q[j]); }
      }
      Pigeonhole(p[..k + 1], q[..k]);
    }
  }

  lemma SmallerAbsent(b: seq<int>, x: int, pk: int, qk: int, y: int)
    requires 0 <= x < |b| && 0 <= pk < |b| && 0 <= qk < |b| && 0 <= y < |b|
    requires Cmp(b, x, pk, |b|) <= 0 || x == pk
    requires Cmp(b, pk, qk, |b|) < 0
    requires Cmp(b, qk, y, |b|) <= 0 || qk == y
    ensures x != y
  {
    hide Cmp;
    CmpSelf(b, x, |b|);
    CmpSelf(b, qk, |b|);
    CmpTrans(b, x, pk, qk, |b|);
    CmpTrans(b, x, qk, y, |b|);
    CmpFlip(b, x, qk, |b|);
  }

  /** The rotations that start one byte earlier, in the order of the first column. */
  ghost function Earlier(b: seq<int>, p: seq<int>, next: seq<int>): (r: seq<int>)
    requires IsPermutation(p, |b|) && IsPermutation(next, |b|)
    ensures |r| == |b| && forall k :: 0 <= k < |b| ==> r[k] == Prev(|b|, p[next[k]])
  {
    seq(|b|, k requires 0 <= k < |b| => Prev(|b|, p[next[k]]))
  }

  lemma EarlierSorts(b: seq<int>, p: seq<int>, next: seq<int>)
    requires SortsRotations(b, p) && Inverts(LastColumn(b, p), next) && IsPermutation(next, |b|)
    ensures SortsRotations(b, Earlier(b, p, next))
  {
    hide Le, RankUp;
    var q := Earlier(b, p, next);
    forall i, j | 0 <= i < j < |b| ensures q[i] != q[j] {
      assert Next(|b|, q[i]) == p[next[i]] && Next(|b|, q[j]) == p[next[j]];
      Apart(p, |b|, next[i], next[j]);
      assert next[i] != next[j];
    }
    forall i, j | 0 <= i < j < |b| ensures Le(b, q[i], q[j]) {
      EarlierPair(b, p, next, i, j);
    }
  }

  lemma Apart(p: seq<int>, n: nat, i: int, j: int)
    requires IsPermutation(p, n) && 0 <= i < n && 0 <= j < n
    ensures i != j ==> p[i] != p[j]
  {
  }

  lemma EarlierPair(b: seq<int>, p: seq<int>, next: seq<int>, i: int, j: int)
    requires SortsRotations(b, p) && Inverts(LastColumn(b, p), next) && IsPermutation(next, |b|) && 0 <= i < j < |b|
    ensures Le(b, Prev(|b|, p[next[i]]), Prev(|b|, p[next[j]]))
  {
    hide RankUp, Inverts;
    var l := LastColumn(b, p);
    InvertsIs(l, next);
    var x, y := next[i], next[j];
    assert RankUp(l, x) == i && RankUp(l, y) == j;
    if l[y] < l[x] { RankByValue(l, y, x); }
    if l[x] == l[y] {
      if y < x { RankByOrder(l, y, x); }
      assert x < y;
      FrontByte(b, p[x], p[y]);
    } else {
      assert Cmp(b, Prev(|b|, p[x]), Prev(|b|, p[y]), |b|) < 0;
    }
  }

  /** The same byte in front of two ordered rotations keeps them in order. */
  lemma FrontByte(b: seq<int>, x: int, y: int)
    requires 0 <= x < |b| && 0 <= y < |b| && Le(b, x, y) && b[Prev(|b|, x)] == b[Prev(|b|, y)]
    ensures Le(b, Prev(|b|, x), Prev(|b|, y))
  {
    CmpPrefix(b, x, y, |b| - 1, |b|);
  }

  /** One step of the walk goes from a rotation to the one that starts a byte later. */
  lemma StepTurns(b: seq<int>, p: seq<int>, next: seq<int>, s: int, m: int)
    requires SortsRotations(b, p) && Inverts(LastColumn(b, p), next) && 0 <= s < |b| && 0 <= m < |b|
    requires Cmp(b, p[s], m, |b|) == 0
    ensures 0 <= next[s] < |b| && LastColumn(b, p)[next[s]] == b[m]
    ensures Cmp(b, p[next[s]], Next(|b|, m), |b|) == 0
  {
    hide Cmp, RankUp, Inverts;
    InvertsIs(LastColumn(b, p), next);
    EarlierSorts(b, p, next);
    var q := Earlier(b, p, next);
    SortedAgree(b, q, p, s);
    CmpTrans(b, q[s], p[s], m, |b|);
    CmpFlip(b, q[s], p[s], |b|);
    CmpFlip(b, p[s], m, |b|);
    CmpTrans(b, m, p[s], q[s], |b|);
    CmpFlip(b, q[s], m, |b|);
    EqualTurn(b, q[s], m);
  }

  /** Inverse block sorting, ties in any order: the walk from a place that shows rotation m emits the block from m
      on. */
  lemma {:induction false} WalkEmits(b: seq<int>, p: seq<int>, next: seq<int>, s: int, m: nat)
    requires SortsRotations(b, p) && Inverts(LastColumn(b, p), next)
    requires m < |b| && 0 <= s < |b| && Cmp(b, p[s], m, |b|) == 0
    requires forall k :: 0 <= k < |b| ==> 0 <= next[k] < |b|
    ensures Emit(LastColumn(b, p), next, s, |b| - m) == b[m..]
    decreases |b| - m
  {
    hide Cmp, RankUp;
    StepTurns(b, p, next, s, m);
    if m + 1 < |b| {
      WalkEmits(b, p, next, next[s], m + 1);
    }
    assert b[m..] == [b[m]] + b[m + 1..];
  }

  /** The walk from the place of the block itself emits the block. */
  lemma BlockComesBack(b: seq<int>, p: seq<int>, next: seq<int>, origPtr: int)
    requires b != [] && SortsRotations(b, p) && Inverts(LastColumn(b, p), next) && 0 <= origPtr < |b| && p[origPtr] == 0
    requires forall k :: 0 <= k < |b| ==> 0 <= next[k] < |b|
    ensures Emit(LastColumn(b, p), next, origPtr, |b|) == b
  {
    CmpSelf(b, 0, |b|);
    WalkEmits(b, p, next, origPtr, 0);
  }

  // ----- the fast form: next packed into the high 24 bits of the symbols -----

  /** Entry x of tt: the symbol in the low byte, the successor above it. */
  function Packed(sym: int, next: int): int { sym + 256 * next }

  /** w | (i << 8), for a word that holds nothing above its low byte. */
  function OrAbove(w: int, i: int): (r: int)
    requires 0 <= w < 256 && 0 <= i < 0x100_0000
    ensures 0 <= r < 0x1_0000_0000
  {
    Packed(w, i)
  }

  lemma Unpack(sym: int, next: int)
    requires 0 <= sym < 256
    ensures Packed(sym, next) / 256 == next && Packed(sym, next) % 256 == sym
  {
  }

  /** The places where the entries of every byte begin in the first column. */
  method Cftab(ghost l: seq<int>, unzftab: seq<int>) returns (cftab: array<int>)
    requires Bytes(l) && |unzftab| == 256 && forall c :: 0 <= c < 256 ==> unzftab[c] == CountEq(l, c)
    ensures fresh(cftab) && cftab.Length == 257 && forall c :: 0 <= c <= 256 ==> cftab[c] == Below(l, c)
  {
    hide Below, CountEq;
    cftab := new int[257];
    cftab[0] := 0;
    for i := 1 to 257
      invariant cftab[0] == 0 && forall c :: 0 < c < i ==> cftab[c] == CountEq(l, c - 1)
    {
      cftab[i] := unzftab[i - 1];
    }
    BelowEnds(l, 256);
    for i := 1 to 257
      invariant forall c :: 0 <= c < i ==> cftab[c] == Below(l, c)
      invariant forall c :: i <= c < 257 ==> cftab[c] == CountEq(l, c - 1)
    {
      BelowStep(l, i - 1);
      cftab[i] := cftab[i] + cftab[i - 1];
    }
  }

  /** The symbols of the last column below, and above them the successors of the places filled so far. */
  ghost predicate Filling(l: seq<int>, tt: seq<int>, i: int) {
    && |l| <= |tt| && 0 <= i <= |l|
    && (forall k :: 0 <= k < |l| ==> 0 <= RankUp(l, k) < |l|)
    && (forall k :: 0 <= k < i ==> tt[RankUp(l, k)] == Packed(l[RankUp(l, k)], k))
    && (forall k :: i <= k < |l| ==> tt[RankUp(l, k)] == l[RankUp(l, k)])
  }

  lemma FillingStart(l: seq<int>, tt: seq<int>)
    requires |l| <= |tt| && forall k :: 0 <= k < |l| ==> tt[k] == l[k]
    ensures Filling(l, tt, 0)
  {
    forall k | 0 <= k < |l| ensures 0 <= RankUp(l, k) < |l| { RankInBucket(l, k); }
  }

  lemma FillingStep(l: seq<int>, tt: seq<int>, i: int)
    requires Bytes(l) && 0 <= i < |l| <= 900000 && Filling(l, tt, i)
    ensures var x := RankUp(l, i); 0 <= x < |l| && 0 <= tt[x] < 256 && Filling(l, tt[x := OrAbove(tt[x], i)], i + 1)
  {
    hide RankUp;
    forall k | 0 <= k < |l| && k != i ensures RankUp(l, k) != RankUp(l, i) { RanksDiffer(l, k, i); }
  }

  /** The low byte of entry k is l[k], whatever has been put above it. */
  lemma FillingSymbol(l: seq<int>, tt: seq<int>, i: int, k: int)
    requires Bytes(l) && Filling(l, tt, i) && 0 <= i && 0 <= k < |l|
    ensures tt[k] % 256 == l[k]
  {
    hide RankUp;
    RanksUpPermute(l);
    var j := Onto(RanksUp(l), |l|, k);
    assert RankUp(l, j) == k;
    Unpack(l[k], j);
  }

  /** tt holds the symbols and, above them, an inverse. */
  ghost predicate FastTable(l: seq<int>, tt: seq<int>, next: seq<int>) {
    && |l| <= |tt| && Inverts(l, next)
    && (forall k :: 0 <= k < |l| ==> tt[k] == Packed(l[k], next[k]))
  }

  lemma FillingDone(l: seq<int>, tt: seq<int>) returns (next: seq<int>)
    requires Bytes(l) && Filling(l, tt, |l|)
    ensures FastTable(l, tt, next)
  {
    hide RankUp;
    next := seq(|l|, k requires 0 <= k < |l| => tt[k] / 256);
    RanksUpPermute(l);
    forall k | 0 <= k < |l| ensures next[RankUp(l, k)] == k { Unpack(l[RankUp(l, k)], k); }
    forall x | 0 <= x < |l| ensures tt[x] == Packed(l[x], next[x]) {
      var j := Onto(RanksUp(l), |l|, x);
      assert RankUp(l, j) == x;
    }
  }

  /** Builds the fast table in place. */
  method BuildFast(tt: array<int>, nblock: nat, cftab: array<int>, ghost l: seq<int>) returns (ghost next: seq<int>)
    requires tt != cftab && cftab.Length == 257 && nblock <= tt.Length && nblock <= 900000
    requires l == tt[..nblock] && Bytes(l) && forall c :: 0 <= c <= 256 ==> cftab[c] == Below(l, c)
    modifies tt, cftab
    ensures FastTable(l, tt[..], next)
  {
    hide Below, CountEq, Filling, FastTable, Packed;
    FillingStart(l, tt[..]);
    for i := 0 to nblock
      invariant Filling(l, tt[..], i)
      invariant forall c :: 0 <= c < 256 ==> cftab[c] == Below(l, c) + CountEq(l[..i], c)
    {
      FillingSymbol(l, tt[..], i, i);
      var uc := tt[i] % 256;
      FillingStep(l, tt[..], i);
      assert cftab[uc] == RankUp(l, i);
      forall c ensures CountEq(l[..i + 1], c) == CountEq(l[..i], c) + (if l[i] == c then 1 else 0) {
        CountNext(l, i, c);
      }
      tt[cftab[uc]] := OrAbove(tt[cftab[uc]], i);
      cftab[uc] := cftab[uc] + 1;
    }
    next := FillingDone(l, tt[..]);
  }

  /** BZ_GET_FAST: follows one link of the table. */
  method GetFast(tt: seq<int>, tPos: int, blockSize100k: int, ghost l: seq<int>, ghost next: seq<int>)
    returns (error: bool, ch: int, tPos': int)
    requires Bytes(l) && FastTable(l, tt, next) && 0 <= tPos < |l| <= 100000 * blockSize100k
    ensures !error && ch == l[tPos] && tPos' == next[tPos]
  {
    hide RankUp;
    error := tPos >= 100000 * blockSize100k;
    ch, tPos' := 0, tPos;
    if error { return; }
    Unpack(l[tPos], next[tPos]);
    tPos' := tt[tPos];
    ch := tPos' % 256;
    tPos' := tPos' / 256;
  }

  /** Reads n bytes off the table, as the decoder does from tPos = tt[origPtr] >> 8 on. */
  method WalkFast(tt: seq<int>, origPtr: int, blockSize100k: int, n: nat, ghost l: seq<int>, ghost next: seq<int>)
    returns (error: bool, out: seq<int>)
    requires Bytes(l) && FastTable(l, tt, next) && 0 <= origPtr < |l| <= 100000 * blockSize100k
    ensures forall k :: 0 <= k < |l| ==> 0 <= next[k] < |l|
    ensures !error && out == Emit(l, next, origPtr, n)
  {
    hide RankUp, Inverts, Emit;
    InvertsIs(l, next);
    Unpack(l[origPtr], next[origPtr]);
    var tPos := tt[origPtr] / 256;
    out := [];
    ghost var s := origPtr;
    EmitStart(l, next, s, n);
    for i := 0 to n
      invariant 0 <= s < |l| && tPos == next[s]
      invariant Emit(l, next, origPtr, n) == out + Emit(l, next, s, n - i)
    {
      var ch;
      EmitNext(l, next, s, n - i, out);
      error, ch, tPos := GetFast(tt, tPos, blockSize100k, l, next);
      s := next[s];
      out := out + [ch];
    }
    EmitStart(l, next, s, 0);
    error := false;
  }

  /** The fast form, from the symbols to the block. */
  method InvertFast(tt: array<int>, nblock: nat, unzftab: seq<int>, origPtr: int, blockSize100k: int)
      returns (error: bool, out: seq<int>)
    requires nblock <= tt.Length && Bytes(tt[..nblock]) && 0 <= origPtr < nblock <= 100000 * blockSize100k <= 900000
    requires |unzftab| == 256 && forall c :: 0 <= c < 256 ==> unzftab[c] == CountEq(tt[..nblock], c)
    modifies tt
    ensures !error && out == Unsort(old(tt[..nblock]), origPtr)
  {
    hide RankUp, Below, CountEq, FastTable;
    ghost var l := tt[..nblock];
    var cftab := Cftab(l, unzftab);
    ghost var next := BuildFast(tt, nblock, cftab, l);
    assert Inverts(l, next) by { TableInverts(l, tt[..], next); }
    InverseUnique(l, next);
    error, out := WalkFast(tt[..], origPtr, blockSize100k, nblock, l, next);
  }

  lemma TableInverts(l: seq<int>, tt: seq<int>, next: seq<int>)
    requires FastTable(l, tt, next)
    ensures Inverts(l, next)
  {
  }
}

/** The small form of the inverse: 20-bit links in ll16 and ll4, turned round by pointer reversal. */
module InverseBwtSmall {

  import opened Rotations
  import opened Counting
  import opened InverseBwt

  // ----- 20-bit entries -----

  function Nibble(v: int, high: bool): int { if high then v / 16 % 16 else v % 16 }

  /** Replaces one nibble of a byte. */
  function WithNibble(v: int, high: bool, n: int): (r: int)
    requires 0 <= v < 256 && 0 <= n < 16
    ensures 0 <= r < 256 && Nibble(r, high) == n && Nibble(r, !high) == Nibble(v, !high)
  {
    if high then v % 16 + 16 * n else v / 16 * 16 + n
  }

  ghost predicate Shape(ll16: seq<int>, ll4: seq<int>, n: int) {
    && 0 <= n <= |ll16| && n <= 2 * |ll4|
    && (forall i :: 0 <= i < n ==> 0 <= ll16[i] < 65536)
    && (forall i :: 0 <= i < |ll4| ==> 0 <= ll4[i] < 256)
  }

  /** GET_LL. */
  function LL(ll16: seq<int>, ll4: seq<int>, i: int): int
    requires 0 <= i < |ll16| && i < 2 * |ll4|
  {
    ll16[i] + 65536 * Nibble(ll4[i / 2], i % 2 == 1)
  }

  function SmallEntries(ll16: seq<int>, ll4: seq<int>, n: int): (r: seq<int>)
    requires Shape(ll16, ll4, n)
    ensures |r| == n && forall i :: 0 <= i < n ==> r[i] == LL(ll16, ll4, i)
  {
    seq(n, i requires 0 <= i < n => LL(ll16, ll4, i))
  }

  /** SET_LL: every 20-bit value comes back, and the other entries stay, also the one that shares the byte. */
  method SetLL(ll16: array<int>, ll4: array<int>, i: int, v: int, ghost n: int)
    requires ll16 != ll4 && Shape(ll16[..], ll4[..], n) && 0 <= i < n && 0 <= v < 0x10_0000
    modifies ll16, ll4
    ensures Shape(ll16[..], ll4[..], n)
    ensures SmallEntries(ll16[..], ll4[..], n) == old(SmallEntries(ll16[..], ll4[..], n))[i := v]
    ensures forall x :: 0 <= x < n && x != i ==> ll16[x] == old(ll16[x])
  {
    hide Nibble;
    ll16[i] := v % 65536;
    ll4[i / 2] := WithNibble(ll4[i / 2], i % 2 == 1, v / 65536);
  }

  // ----- the cycle of the origin -----

  /** The place reached from s by following t k times. */
  function Orbit(t: seq<int>, s: int, k: nat): (r: int)
    requires IsPermutation(t, |t|) && 0 <= s < |t|
    ensures 0 <= r < |t|
  {
    if k == 0 then s else t[Orbit(t, s, k - 1)]
  }

  /** A walk that has not come back to its start has not met itself. */
  lemma {:induction false} OrbitFresh(t: seq<int>, s: int, i: nat, j: nat)
    requires IsPermutation(t, |t|) && 0 <= s < |t| && i < j
    requires forall k :: 1 <= k <= j - i ==> Orbit(t, s, k) != s
    ensures Orbit(t, s, i) != Orbit(t, s, j)
    decreases i
  {
    if i > 0 { OrbitFresh(t, s, i - 1, j - 1); }
    else { assert Orbit(t, s, j) != s; }
  }

  /** Such a walk has at most |t| places. */
  lemma OrbitShort(t: seq<int>, s: int, m: nat)
    requires IsPermutation(t, |t|) && 0 <= s < |t|
    requires forall k :: 1 <= k <= m ==> Orbit(t, s, k) != s
    ensures m < |t|
  {
    hide Orbit;
    var w := seq(m + 1, k requires 0 <= k <= m => Orbit(t, s, k));
    forall i, j | 0 <= i < j < |w| ensures w[i] != w[j] { OrbitFresh(t, s, i, j); }
    forall i | 0 <= i < |w| ensures w[i] in t { var x := Onto(t, |t|, w[i]); }
    Pigeonhole(w, t);
  }

  function After(t: seq<int>, s: int, k: nat): (r: int)
    requires IsPermutation(t, |t|) && 0 <= s < |t|
    ensures 0 <= r < |t| && r == Orbit(t, s, k + 1)
  {
    t[Orbit(t, s, k)]
  }

  /** The first m links of the cycle have been turned round; the rest are as they were. */
  ghost predicate Reversing(t: seq<int>, a: seq<int>, s: int, m: nat) {
    && IsPermutation(t, |t|) && 0 <= s < |t| && |a| == |t|
    && (forall k :: 0 <= k < m ==> a[After(t, s, k)] == Orbit(t, s, k))
    && (forall x :: 0 <= x < |t| && (forall k :: 0 <= k < m ==> After(t, s, k) != x) ==> a[x] == t[x])
  }

  /** The next link to turn is still as it was, and turning it extends the part that is turned. */
  lemma ReversingStep(t: seq<int>, a: seq<int>, s: int, m: nat)
    requires Reversing(t, a, s, m) && forall k :: 1 <= k <= m ==> Orbit(t, s, k) != s
    ensures a[After(t, s, m)] == t[After(t, s, m)] == Orbit(t, s, m + 2)
    ensures Reversing(t, a[After(t, s, m) := Orbit(t, s, m)], s, m + 1)
  {
    hide Orbit, IsPermutation;
    forall k | 0 <= k < m ensures After(t, s, k) != After(t, s, m) { OrbitFresh(t, s, k + 1, m + 1); }
    assert After(t, s, m + 1) == t[Orbit(t, s, m + 1)];
    hide After;
  }

  /** The whole cycle through s has been turned round. */
  ghost predicate Reversed(t: seq<int>, a: seq<int>, s: int, m: nat) {
    m >= 1 && Reversing(t, a, s, m) && Orbit(t, s, m) == s
  }

  /** Turns round the links of the cycle through origPtr. */
  method ReverseCycle(ll16: array<int>, ll4: array<int>, origPtr: int, n: int, ghost t: seq<int>) returns (ghost m: nat)
    requires ll16 != ll4 && Shape(ll16[..], ll4[..], n) && 0 <= origPtr < n <= 900000
    requires IsPermutation(t, n) && SmallEntries(ll16[..], ll4[..], n) == t
    modifies ll16, ll4
    ensures Shape(ll16[..], ll4[..], n) && Reversed(t, SmallEntries(ll16[..], ll4[..], n), origPtr, m)
  {
    assert |t| == n;
    hide Orbit, IsPermutation, LL, Shape, Reversing;
    var i := origPtr;
    var j := GetLL(ll16[..], ll4[..], i, n);
    m := 0;
    Begun(t, origPtr);
    while true
      invariant Shape(ll16[..], ll4[..], n) && Reversing(t, SmallEntries(ll16[..], ll4[..], n), origPtr, m)
      invariant i == Orbit(t, origPtr, m) && j == After(t, origPtr, m) && 0 <= i < n
      invariant forall k :: 1 <= k <= m ==> Orbit(t, origPtr, k) != origPtr
      decreases n - m
    {
      OrbitShort(t, origPtr, m);
      ReversingStep(t, SmallEntries(ll16[..], ll4[..], n), origPtr, m);
      var tmp := GetLL(ll16[..], ll4[..], j, n);
      SetLL(ll16, ll4, j, i, n);
      i := j;
      j := tmp;
      m := m + 1;
      if i == origPtr { break; }
    }
  }

  method GetLL(ll16: seq<int>, ll4: seq<int>, i: int, ghost n: int) returns (v: int)
    requires Shape(ll16, ll4, n) && 0 <= i < n
    ensures v == SmallEntries(ll16, ll4, n)[i]
  {
    v := LL(ll16, ll4, i);
  }

  lemma Begun(t: seq<int>, s: int)
    requires IsPermutation(t, |t|) && 0 <= s < |t|
    ensures Reversing(t, t, s, 0) && Orbit(t, s, 0) == s && After(t, s, 0) == t[s]
  {
  }

  // ----- building T and walking its inverse -----

  /** The links of the places done, and the symbols of the others. */
  method BuildSmall(ll16: array<int>, ll4: array<int>, nblock: nat, cftab: seq<int>, ghost l: seq<int>)
    requires ll16 != ll4 && Shape(ll16[..], ll4[..], nblock) && |cftab| == 257 && nblock <= 900000
    requires l == ll16[..nblock] && Bytes(l) && forall c :: 0 <= c <= 256 ==> cftab[c] == Below(l, c)
    modifies ll16, ll4
    ensures Shape(ll16[..], ll4[..], nblock) && SmallEntries(ll16[..], ll4[..], nblock) == RanksUp(l)
  {
    assert |l| == nblock <= ll16.Length;
    hide Below, CountEq, LL, Shape, RankUp;
    var cftabCopy := new int[257](c requires 0 <= c < 257 => cftab[c]);
    ghost var rank := RanksUp(l);
    RanksUpPermute(l);
    for i := 0 to nblock
      invariant Shape(ll16[..], ll4[..], nblock) && fresh(cftabCopy)
      invariant forall k :: i <= k < nblock ==> ll16[k] == l[k]
      invariant forall k :: 0 <= k < i ==> SmallEntries(ll16[..], ll4[..], nblock)[k] == rank[k]
      invariant forall c :: 0 <= c < 256 ==> cftabCopy[c] == Below(l, c) + CountEq(l[..i], c)
    {
      var uc := ll16[i] % 256;
      assert uc == l[i];
      assert cftabCopy[uc] == rank[i] by { RankIs(l, i); }
      SetLL(ll16, ll4, i, cftabCopy[uc], nblock);
      forall c ensures CountEq(l[..i + 1], c) == CountEq(l[..i], c) + (if l[i] == c then 1 else 0) {
        CountNext(l, i, c);
      }
      cftabCopy[uc] := cftabCopy[uc] + 1;
    }
  }

  lemma RankIs(l: seq<int>, i: int)
    requires 0 <= i < |l|
    ensures RankUp(l, i) == Below(l, l[i]) + CountEq(l[..i], l[i])
  {
  }

  /** BZ2_indexIntoF: the byte whose stretch of the first column holds place indx. */
  method IndexIntoF(indx: int, cftab: seq<int>) returns (nb: int)
    requires |cftab| == 257 && cftab[0] <= indx < cftab[256]
    ensures 0 <= nb < 256 && cftab[nb] <= indx < cftab[nb + 1]
  {
    nb := 0;
    var na := 256;
    while true
      invariant 0 <= nb < na <= 256 && cftab[nb] <= indx < cftab[na] && na - nb > 1
      decreases na - nb
    {
      var mid := (nb + na) / 2;
      if indx >= cftab[mid] { nb := mid; } else { na := mid; }
      if na - nb == 1 { break; }
    }
  }

  lemma StretchIs(l: seq<int>, i: int, c: int)
    requires Bytes(l) && 0 <= i < |l| && 0 <= c < 256 && Below(l, c) <= RankUp(l, i) < Below(l, c + 1)
    ensures c == l[i]
  {
    hide Below, RankUp;
    RankInBucket(l, i);
    if c < l[i] { BelowMonotone(l, c + 1, l[i]); }
    if l[i] < c { BelowMonotone(l, l[i] + 1, c); }
  }

  /** On the cycle the turned links are those of the fast table. */
  lemma ReversedNext(l: seq<int>, next: seq<int>, a: seq<int>, s: int, m: nat, k: nat)
    requires Inverts(l, next) && IsPermutation(RanksUp(l), |l|) && Reversed(RanksUp(l), a, s, m) && 1 <= k <= m
    ensures a[Orbit(RanksUp(l), s, k)] == next[Orbit(RanksUp(l), s, k)] == Orbit(RanksUp(l), s, k - 1)
  {
    hide RankUp, Orbit;
    var x := Orbit(RanksUp(l), s, k - 1);
    assert After(RanksUp(l), s, k - 1) == RanksUp(l)[x] == RankUp(l, x);
  }

  /** BZ_GET_SMALL: the byte at a place of the first column and the place that follows. */
  method GetSmall(ll16: seq<int>, ll4: seq<int>, cftab: seq<int>, tPos: int, blockSize100k: int, ghost n: int,
      ghost l: seq<int>, ghost next: seq<int>)
    returns (error: bool, ch: int, tPos': int)
    requires Shape(ll16, ll4, n) && Bytes(l) && Inverts(l, next) && n == |l| <= 100000 * blockSize100k && 0 <= tPos < n
    requires |cftab| == 257 && forall c :: 0 <= c <= 256 ==> cftab[c] == Below(l, c)
    ensures !error && 0 <= next[tPos] < |l| && ch == l[next[tPos]] && tPos' == SmallEntries(ll16, ll4, n)[tPos]
  {
    hide Below, RankUp, LL;
    error := tPos >= 100000 * blockSize100k;
    ch, tPos' := 0, tPos;
    if error { return; }
    InvertsIs(l, next);
    BelowEnds(l, 256);
    ch := IndexIntoF(tPos, cftab);
    StretchIs(l, next[tPos], ch);
    tPos' := GetLL(ll16, ll4, tPos, n);
  }

  /** Whatever the symbols are, and wherever the origin points, the small form emits what the fast form does. */
  method WalkSmall(ll16: seq<int>, ll4: seq<int>, cftab: seq<int>, origPtr: int, blockSize100k: int, n: nat,
      ghost l: seq<int>, ghost next: seq<int>, ghost m: nat)
    returns (error: bool, out: seq<int>)
    requires Bytes(l) && Inverts(l, next) && Shape(ll16, ll4, |l|) && |cftab| == 257
    requires forall c :: 0 <= c <= 256 ==> cftab[c] == Below(l, c)
    requires 0 <= origPtr < |l| <= 100000 * blockSize100k
    requires IsPermutation(RanksUp(l), |l|) && Reversed(RanksUp(l), SmallEntries(ll16, ll4, |l|), origPtr, m)
    ensures forall k :: 0 <= k < |l| ==> 0 <= next[k] < |l|
    ensures !error && out == Emit(l, next, origPtr, n)
  {
    hide RankUp, Below, LL, Orbit;
    InvertsIs(l, next);
    assert |next| == |l|;
    hide Inverts, Shape, Reversed, IsPermutation, Emit;
    EmitStart(l, next, origPtr, n);
    ghost var k := m;
    CycleEnds(RanksUp(l), SmallEntries(ll16, ll4, |l|), origPtr, m);
    var tPos := origPtr;
    out := [];
    for i := 0 to n
      invariant 1 <= k <= m && tPos == Orbit(RanksUp(l), origPtr, k)
      invariant Emit(l, next, origPtr, n) == out + Emit(l, next, tPos, n - i)
    {
      var ch;
      ReversedNext(l, next, SmallEntries(ll16, ll4, |l|), origPtr, m, k);
      error, ch, tPos := GetSmall(ll16, ll4, cftab, tPos, blockSize100k, |l|, l, next);
      EmitNext(l, next, Orbit(RanksUp(l), origPtr, k), n - i, out);
      out := out + [ch];
      k := if k == 1 then m else k - 1;
    }
    EmitStart(l, next, tPos, 0);
    error := false;
  }

  lemma CycleEnds(t: seq<int>, a: seq<int>, s: int, m: nat)
    requires Reversed(t, a, s, m)
    ensures m >= 1 && 0 <= s < |t| && IsPermutation(t, |t|) && Orbit(t, s, m) == s == Orbit(t, s, 0)
  {
  }

  /** What BZ2_decompress does for the small form: links in place of the symbols, turned round along the cycle of the
      origin. */
  method Prepare(ll16: array<int>, ll4: array<int>, nblock: nat, unzftab: seq<int>, origPtr: int)
      returns (cftab: array<int>, ghost m: nat)
    requires ll16 != ll4 && Shape(ll16[..], ll4[..], nblock) && Bytes(ll16[..nblock]) && 0 <= origPtr < nblock <= 900000
    requires |unzftab| == 256 && forall c :: 0 <= c < 256 ==> unzftab[c] == CountEq(ll16[..nblock], c)
    modifies ll16, ll4
    ensures fresh(cftab) && cftab.Length == 257 &&
      forall c :: 0 <= c <= 256 ==> cftab[c] == Below(old(ll16[..nblock]), c)
    ensures Shape(ll16[..], ll4[..], nblock) && IsPermutation(RanksUp(old(ll16[..nblock])), nblock)
    ensures Reversed(RanksUp(old(ll16[..nblock])), SmallEntries(ll16[..], ll4[..], nblock), origPtr, m)
  {
    ghost var l := ll16[..nblock];
    assert |l| == nblock;
    hide RankUp, Below, CountEq, Shape, LL, Reversed;
    cftab := Cftab(l, unzftab);
    m := Link(ll16, ll4, nblock, cftab[..], origPtr);
  }

  /** Bytes in ll16, and nothing in ll4 yet. */
  lemma StartShape(ll16: seq<int>, ll4: seq<int>, n: nat)
    requires n <= |ll16| && n <= 2 * |ll4| && Bytes(ll16[..n]) && forall i :: 0 <= i < |ll4| ==> ll4[i] == 0
    ensures Shape(ll16, ll4, n)
  {
    forall i | 0 <= i < n ensures 0 <= ll16[i] < 65536 { assert ll16[..n][i] == ll16[i]; }
  }

  /** The same, when cftab is there. */
  method Link(ll16: array<int>, ll4: array<int>, nblock: nat, cftab: seq<int>, origPtr: int) returns (ghost m: nat)
    requires ll16 != ll4 && Shape(ll16[..], ll4[..], nblock) && Bytes(ll16[..nblock]) && 0 <= origPtr < nblock <= 900000
    requires |cftab| == 257 && forall c :: 0 <= c <= 256 ==> cftab[c] == Below(ll16[..nblock], c)
    modifies ll16, ll4
    ensures Shape(ll16[..], ll4[..], nblock) && IsPermutation(RanksUp(old(ll16[..nblock])), nblock)
    ensures Reversed(RanksUp(old(ll16[..nblock])), SmallEntries(ll16[..], ll4[..], nblock), origPtr, m)
  {
    ghost var l := ll16[..nblock];
    assert |l| == nblock;
    hide RankUp, Below, CountEq, Shape, LL, Reversed;
    BuildSmall(ll16, ll4, nblock, cftab, l);
    RanksUpPermute(l);
    m := ReverseCycle(ll16, ll4, origPtr, nblock, RanksUp(l));
  }

  /** The small form, from the symbols to the block: the same bytes as the fast form. */
  method InvertSmall(ll16: array<int>, ll4: array<int>, nblock: nat, unzftab: seq<int>, origPtr: int,
      blockSize100k: int)
    returns (error: bool, out: seq<int>)
    requires ll16 != ll4 && Shape(ll16[..], ll4[..], nblock) && Bytes(ll16[..nblock])
    requires 0 <= origPtr < nblock <= 100000 * blockSize100k <= 900000
    requires |unzftab| == 256 && forall c :: 0 <= c < 256 ==> unzftab[c] == CountEq(ll16[..nblock], c)
    modifies ll16, ll4
    ensures !error && out == Unsort(old(ll16[..nblock]), origPtr)
  {
    ghost var l := ll16[..nblock];
    assert |l| == nblock;
    hide RankUp, Below, CountEq, Shape, LL, Reversed, Inverts;
    var cftab, m := Prepare(ll16, ll4, nblock, unzftab, origPtr);
    error, out := WalkSmall(ll16[..], ll4[..], cftab[..], origPtr, blockSize100k, nblock, l, Inverse(l), m);
  }
}

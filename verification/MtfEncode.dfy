/** generateMTFValues: from the sorted rotations to the symbols of a block, in the memory that held the rotations. */
module MtfEncode {

  import opened Rotations
  import opened Counting
  import opened Mtf
  import InverseBwt

  // ----- the bytes in use -----

  /** The bytes below i that are in use, in order. */
  function InUseList(inUse: seq<bool>, i: nat): (r: seq<int>)
    requires i <= |inUse|
    ensures |r| <= i && forall k :: 0 <= k < |r| ==> 0 <= r[k] < i && inUse[r[k]]
  {
    if i == 0 then []
    else if inUse[i - 1] then InUseList(inUse, i - 1) + [i - 1]
    else InUseList(inUse, i - 1)
  }

  lemma {:induction false} InUsePrefix(inUse: seq<bool>, i: nat, j: nat)
    requires i <= j <= |inUse|
    ensures |InUseList(inUse, i)| <= |InUseList(inUse, j)|
    ensures InUseList(inUse, j)[..|InUseList(inUse, i)|] == InUseList(inUse, i)
    decreases j
  {
    if i < j { InUsePrefix(inUse, i, j - 1); }
  }

  /** The number given to a byte in use leads back to it. */
  lemma InUseBack(inUse: seq<bool>, c: nat)
    requires c < |inUse| && inUse[c]
    ensures |InUseList(inUse, c)| < |InUseList(inUse, |inUse|)|
    ensures InUseList(inUse, |inUse|)[|InUseList(inUse, c)|] == c
  {
    InUsePrefix(inUse, c + 1, |inUse|);
    var all, upTo := InUseList(inUse, |inUse|), InUseList(inUse, c + 1);
    assert all[|upTo| - 1] == all[..|upTo|][|upTo| - 1];
  }

  method MakeMaps(inUse: seq<bool>) returns (nInUse: int, toSeq: seq<int>)
    requires |inUse| == 256
    ensures |toSeq| == 256 && nInUse == |InUseList(inUse, 256)|
    ensures forall c :: 0 <= c < 256 && inUse[c] ==> toSeq[c] == |InUseList(inUse, c)|
  {
    var unseqToSeq := new int[256];
    nInUse := 0;
    for i := 0 to 256
      invariant nInUse == |InUseList(inUse, i)|
      invariant forall c :: 0 <= c < i && inUse[c] ==> unseqToSeq[c] == |InUseList(inUse, c)|
    {
      if inUse[i] {
        unseqToSeq[i] := nInUse;
        nInUse := nInUse + 1;
      }
    }
    toSeq := unseqToSeq[..];
  }

  // ----- the list of the encoder -----

  function Identity(n: nat): (r: seq<int>)
    ensures |r| == n && forall i :: 0 <= i < n ==> r[i] == i
  {
    seq(n, i => i)
  }

  lemma IndexIs(list: seq<int>, x: int, j: int)
    requires 0 <= j < |list| && list[j] == x && forall k :: 0 <= k < j ==> list[k] != x
    ensures x in list && IndexOf(list, x) == j
  {
  }

  /** Moves x from wherever it is in yy to the front, shifting what it passes. */
  method MoveToFront(yy: array<int>, n: nat, x: int) returns (j: int)
    requires n <= yy.Length && x in yy[..n] && yy[0] != x
    modifies yy
    ensures 0 < j < n && j == old(IndexOf(yy[..n], x)) && yy[..n] == old(ToFront(yy[..n], j))
  {
    ghost var was := yy[..n];
    ghost var at := IndexOf(was, x);
    hide IndexOf, ToFront;
    var rtmp := yy[1];
    yy[1] := yy[0];
    j := 1;
    while x != rtmp
      invariant 1 <= j <= at && rtmp == was[j] && yy[0] == was[0]
      invariant forall k :: 1 <= k <= j ==> yy[k] == was[k - 1]
      invariant forall k :: j < k < n ==> yy[k] == was[k]
      decreases at - j
    {
      j := j + 1;
      var rtmp2 := rtmp;
      rtmp := yy[j];
      yy[j] := rtmp2;
    }
    IndexIs(was, x, j);
    yy[0] := rtmp;
    assert forall k :: 0 <= k < n ==> yy[k] == ToFront(was, j)[k];
  }

  // ----- writing symbols -----

  /** What has been written so far and how often each of m symbols is in it. */
  ghost predicate Tally(arr1: seq<int>, wr: int, mtfFreq: seq<int>, m: int) {
    && 0 <= wr <= |arr1| && 2 <= m <= |mtfFreq|
    && (forall c :: 0 <= c < m ==> mtfFreq[c] == CountEq(arr1[..wr], c))
  }

  method Put(arr1: array<int>, wr: int, v: int, mtfFreq: array<int>, ghost m: int) returns (wr': int)
    requires arr1 != mtfFreq && 0 <= wr < arr1.Length && 0 <= v < m && Tally(arr1[..], wr, mtfFreq[..], m)
    modifies arr1, mtfFreq
    ensures wr' == wr + 1 && Tally(arr1[..], wr', mtfFreq[..], m)
    ensures arr1[..wr'] == old(arr1[..wr]) + [v]
    ensures forall k :: wr' <= k < arr1.Length ==> arr1[k] == old(arr1[k])
  {
    arr1[wr] := v;
    wr' := wr + 1;
    mtfFreq[v] := mtfFreq[v] + 1;
    assert arr1[..wr'][..wr] == old(arr1[..wr]);
  }

  lemma TallyTwo(arr1: seq<int>, wr: int, mtfFreq: seq<int>, m: int)
    requires Tally(arr1, wr, mtfFreq, m)
    ensures m >= 2
  {
  }

  /** Writes the digits of a run of zPend zeros. */
  method PutRun(arr1: array<int>, wr0: int, zPend0: int, mtfFreq: array<int>, ghost m: int) returns (wr: int)
    requires arr1 != mtfFreq && 0 <= wr0 && 0 < zPend0 && wr0 + zPend0 <= arr1.Length &&
      Tally(arr1[..], wr0, mtfFreq[..], m)
    modifies arr1, mtfFreq
    ensures wr0 <= wr <= wr0 + zPend0 && Tally(arr1[..], wr, mtfFreq[..], m)
    ensures arr1[..wr] == old(arr1[..wr0]) + Digits(zPend0)
    ensures forall k :: wr <= k < arr1.Length ==> arr1[k] == old(arr1[k])
  {
    hide Tally, Digits;
    TallyTwo(arr1[..], wr0, mtfFreq[..], m);
    wr := wr0;
    var zPend := zPend0 - 1;
    ghost var was := arr1[..wr];
    while true
      invariant zPend >= 0 && wr0 <= wr && wr + zPend + 1 <= wr0 + zPend0 && Tally(arr1[..], wr, mtfFreq[..], m)
      invariant arr1[..wr] + Digits(zPend + 1) == was + Digits(zPend0)
      invariant forall k :: wr <= k < arr1.Length ==> arr1[k] == old(arr1[k])
      decreases zPend
    {
      ghost var done := arr1[..wr];
      if zPend % 2 == 1 {
        wr := Put(arr1, wr, RUNB, mtfFreq, m);
      } else {
        wr := Put(arr1, wr, RUNA, mtfFreq, m);
      }
      PendStep(done, zPend);
      if zPend < 2 { break; }
      zPend := (zPend - 2) / 2;
    }
  }

  lemma PendStep(done: seq<int>, zPend: int)
    requires zPend >= 0
    ensures done + Digits(zPend + 1) == (done + [if zPend % 2 == 1 then RUNB else RUNA]) + Digits(zPend / 2)
    ensures zPend < 2 ==> Digits(zPend / 2) == []
    ensures zPend >= 2 ==> zPend / 2 == (zPend - 2) / 2 + 1
  {
  }

  // ----- the whole block -----

  /** Entry i of the sorted order: 32 bits in two halves of the memory that the symbols share. */
  function PtrAt(arr1: seq<int>, i: int): int
    requires 0 <= i && 2 * i + 1 < |arr1|
  {
    arr1[2 * i] + 65536 * arr1[2 * i + 1]
  }

  /** What the compressor codes: the last column, as numbers of bytes in use. */
  function Ranked(b: seq<int>, p: seq<int>, inUse: seq<bool>): (r: seq<int>)
    requires Bytes(b) && IsPermutation(p, |b|) && |inUse| == 256
    ensures |r| == |b| && forall k :: 0 <= k < |b| ==> r[k] == |InUseList(inUse, InverseBwt.LastColumn(b, p)[k])|
  {
    seq(|b|, k requires 0 <= k < |b| => |InUseList(inUse, InverseBwt.LastColumn(b, p)[k])|)
  }

  ghost predicate UsesAll(b: seq<int>, inUse: seq<bool>) {
    Bytes(b) && |inUse| == 256 && forall i :: 0 <= i < |b| ==> inUse[b[i]]
  }

  lemma RankedListed(b: seq<int>, p: seq<int>, inUse: seq<bool>)
    requires UsesAll(b, inUse) && IsPermutation(p, |b|)
    ensures var n := |InUseList(inUse, 256)|;
            forall i :: 0 <= i < |b| ==> 0 <= Ranked(b, p, inUse)[i] < n && Ranked(b, p, inUse)[i] in Identity(n)
  {
    hide InUseList;
    var n := |InUseList(inUse, 256)|;
    forall i | 0 <= i < |b| ensures 0 <= Ranked(b, p, inUse)[i] < n && Ranked(b, p, inUse)[i] in Identity(n) {
      InUseBack(inUse, b[Prev(|b|, p[i])]);
      assert Identity(n)[Ranked(b, p, inUse)[i]] == Ranked(b, p, inUse)[i];
    }
  }

  /** The symbols of a block, with the end marker. */
  function BlockSymbols(b: seq<int>, p: seq<int>, inUse: seq<bool>): seq<int>
    requires UsesAll(b, inUse) && IsPermutation(p, |b|)
  {
    RankedListed(b, p, inUse);
    var n := |InUseList(inUse, 256)|;
    Symbols(Positions(Identity(n), Ranked(b, p, inUse)), 0) + [n + 1]
  }

  /** Where the coding stands: xs are still to come, z zeros are pending, and all of it adds up to the total. */
  ghost predicate Coding(done: seq<int>, list: seq<int>, xs: seq<int>, z: int, total: seq<int>) {
    && z >= 0 && (forall i :: 0 <= i < |xs| ==> xs[i] in list)
    && done + Symbols(Positions(list, xs), z) == total
  }

  lemma CodingZero(done: seq<int>, list: seq<int>, xs: seq<int>, z: int, total: seq<int>)
    requires Coding(done, list, xs, z, total) && xs != [] && xs[0] == list[0]
    ensures Coding(done, list, xs[1..], z + 1, total)
  {
    assert ToFront(list, 0) == list;
    assert Positions(list, xs)[1..] == Positions(list, xs[1..]);
  }

  lemma CodingOther(done: seq<int>, list: seq<int>, xs: seq<int>, z: int, total: seq<int>)
    requires Coding(done, list, xs, z, total) && xs != [] && list != [] && xs[0] != list[0]
    ensures xs[0] in list
    ensures var j := IndexOf(list, xs[0]);
            0 < j < |list| && Coding(done + Digits(z) + [j + 1], ToFront(list, j), xs[1..], 0, total)
  {
    hide ToFront, Digits;
    var j := IndexOf(list, xs[0]);
    forall i | 0 <= i < |xs[1..]| ensures xs[1..][i] in ToFront(list, j) {
      assert xs[1..][i] == xs[i + 1];
      ToFrontKeeps(list, j, xs[i + 1]);
    }
    var rest := Positions(ToFront(list, j), xs[1..]);
    assert Positions(list, xs) == [j] + rest;
    assert ([j] + rest)[1..] == rest;
    assert done + (Digits(z) + [j + 1] + Symbols(rest, 0)) == done + Digits(z) + [j + 1] + Symbols(rest, 0);
  }

  lemma CodingEnd(done: seq<int>, list: seq<int>, z: int, total: seq<int>)
    requires Coding(done, list, [], z, total)
    ensures done + Digits(z) == total
  {
  }

  /** Replaces the sorted order in arr1 by the symbols of the block, without running into entries still to be read. */
  method GenerateMtfValues(arr1: array<int>, block: seq<int>, nblock: nat, inUse: seq<bool>, mtfFreq: array<int>,
      ghost p: seq<int>)
    returns (nMTF: int, nInUse: int)
    requires arr1 != mtfFreq && mtfFreq.Length == 258 && 0 < nblock <= |block| && 2 * nblock <= arr1.Length
    requires UsesAll(block[..nblock], inUse) && IsPermutation(p, nblock)
    requires forall i :: 0 <= i < nblock ==> PtrAt(arr1[..], i) == p[i]
    modifies arr1, mtfFreq
    ensures 0 <= nMTF <= nblock + 1 <= arr1.Length && nInUse == |InUseList(inUse, 256)|
    ensures arr1[..nMTF] == BlockSymbols(block[..nblock], p, inUse)
    ensures forall c :: 0 <= c <= nInUse + 1 ==> mtfFreq[c] == CountEq(arr1[..nMTF], c)
  {
    hide Tally, ToFront, Digits, Coding, InUseList, Symbols, IndexOf, Positions, CountEq;
    ghost var b := block[..nblock];
    ghost var xs := Ranked(b, p, inUse);
    ghost var arr0 := arr1[..];
    var unseqToSeq;
    nInUse, unseqToSeq := MakeMaps(inUse);
    SomeUsed(b, inUse);
    var EOB := nInUse + 1;
    ClearFreq(mtfFreq, EOB);
    var wr, zPend := 0, 0;
    var yy := StartList(nInUse);
    RankedListed(b, p, inUse);
    ghost var total := Symbols(Positions(Identity(nInUse), xs), 0);
    assert arr1[..] == arr0;
    TallyStart(arr1[..], mtfFreq[..], EOB + 1);
    CodingStart(Identity(nInUse), xs);
    assert arr1[..wr] == [] && xs[0..] == xs;
    for i := 0 to nblock
      invariant zPend >= 0 && 0 <= wr && wr + zPend <= i && fresh(yy)
      invariant Tally(arr1[..], wr, mtfFreq[..], EOB + 1)
      invariant forall k :: 2 * i <= k < 2 * nblock ==> arr1[k] == arr0[k]
      invariant Coding(arr1[..wr], yy[..nInUse], xs[i..], zPend, total)
    {
      assert PtrAt(arr1[..], i) == PtrAt(arr0, i) == p[i];
      var j := PtrAt(arr1[..], i) - 1;
      if j < 0 { j := j + nblock; }
      assert j == Prev(nblock, p[i]) && block[j] == b[j];
      var ll_i := unseqToSeq[block[j]];
      LastByteIs(b, p, inUse, i);
      assert ll_i == xs[i] == xs[i..][0] && xs[i..][1..] == xs[i + 1..];
      if yy[0] == ll_i {
        CodingZero(arr1[..wr], yy[..nInUse], xs[i..], zPend, total);
        zPend := zPend + 1;
      } else {
        wr := PutPosition(arr1, wr, mtfFreq, zPend, yy, nInUse, ll_i, xs[i..], total);
        zPend := 0;
      }
    }
    assert xs[nblock..] == [];
    CodingEnd(arr1[..wr], yy[..nInUse], zPend, total);
    if zPend > 0 {
      wr := PutRun(arr1, wr, zPend, mtfFreq, EOB + 1);
      zPend := 0;
    }
    wr := Put(arr1, wr, EOB, mtfFreq, EOB + 1);
    TallyIs(arr1[..], wr, mtfFreq[..], EOB + 1);
    nMTF := wr;
  }

  method ClearFreq(mtfFreq: array<int>, EOB: int)
    requires 0 <= EOB < mtfFreq.Length
    modifies mtfFreq
    ensures forall c :: 0 <= c <= EOB ==> mtfFreq[c] == 0
  {
    for i := 0 to EOB + 1
      invariant forall c :: 0 <= c < i ==> mtfFreq[c] == 0
    {
      mtfFreq[i] := 0;
    }
  }

  method StartList(nInUse: int) returns (yy: array<int>)
    requires 0 <= nInUse <= 256
    ensures fresh(yy) && yy.Length == 256 && yy[..nInUse] == Identity(nInUse)
  {
    yy := new int[256];
    for i := 0 to nInUse
      invariant forall k :: 0 <= k < i ==> yy[k] == k
    {
      yy[i] := i;
    }
  }

  /** Writes the pending run and then the position of a byte that is not at the front. */
  method PutPosition(arr1: array<int>, wr0: int, mtfFreq: array<int>, zPend: int, yy: array<int>, nInUse: int, x: int,
      ghost xs: seq<int>, ghost total: seq<int>) returns (wr: int)
    requires arr1 != mtfFreq && yy != arr1 && yy != mtfFreq && 0 < nInUse <= yy.Length
    requires 0 <= wr0 && 0 <= zPend && wr0 + zPend < arr1.Length && Tally(arr1[..], wr0, mtfFreq[..], nInUse + 2)
    requires xs != [] && x == xs[0] && yy[0] != x && Coding(arr1[..wr0], yy[..nInUse], xs, zPend, total)
    modifies arr1, mtfFreq, yy
    ensures wr0 <= wr <= wr0 + zPend + 1 && Tally(arr1[..], wr, mtfFreq[..], nInUse + 2)
    ensures Coding(arr1[..wr], yy[..nInUse], xs[1..], 0, total)
    ensures forall k :: wr <= k < arr1.Length ==> arr1[k] == old(arr1[k])
  {
    hide Tally, ToFront, Digits, Coding, IndexOf;
    CodingOther(arr1[..wr0], yy[..nInUse], xs, zPend, total);
    ghost var done := arr1[..wr0];
    NoDigits();
    wr := wr0;
    if zPend > 0 {
      wr := PutRun(arr1, wr, zPend, mtfFreq, nInUse + 2);
    }
    assert arr1[..wr] == done + Digits(zPend);
    var j := MoveToFront(yy, nInUse, x);
    wr := Put(arr1, wr, j + 1, mtfFreq, nInUse + 2);
  }

  lemma NoDigits()
    ensures Digits(0) == []
  {
  }

  lemma LastByteIs(b: seq<int>, p: seq<int>, inUse: seq<bool>, i: int)
    requires UsesAll(b, inUse) && IsPermutation(p, |b|) && 0 <= i < |b|
    ensures inUse[b[Prev(|b|, p[i])]] && Ranked(b, p, inUse)[i] == |InUseList(inUse, b[Prev(|b|, p[i])])|
  {
  }

  lemma SomeUsed(b: seq<int>, inUse: seq<bool>)
    requires b != [] && UsesAll(b, inUse)
    ensures 0 < |InUseList(inUse, 256)| <= 256
  {
    InUseBack(inUse, b[0]);
  }

  lemma TallyStart(arr1: seq<int>, mtfFreq: seq<int>, m: int)
    requires 2 <= m <= |mtfFreq| && forall c :: 0 <= c < m ==> mtfFreq[c] == 0
    ensures Tally(arr1, 0, mtfFreq, m)
  {
  }

  lemma TallyIs(arr1: seq<int>, wr: int, mtfFreq: seq<int>, m: int)
    requires Tally(arr1, wr, mtfFreq, m)
    ensures 0 <= wr <= |arr1| && m <= |mtfFreq| && forall c :: 0 <= c < m ==> mtfFreq[c] == CountEq(arr1[..wr], c)
  {
  }

  lemma CodingStart(list: seq<int>, xs: seq<int>)
    requires forall i :: 0 <= i < |xs| ==> xs[i] in list
    ensures Coding([], list, xs, 0, Symbols(Positions(list, xs), 0))
  {
  }
}

/** mainSort: the main loop over the big buckets. */
module MainSort {

  import opened Rotations
  import opened Rearrange
  import opened Counting
  import opened MainOrder
  import opened MainSimpleSort
  import opened InducedSort
  import opened MainScan
  import opened MainStep2
  import opened MainRadix
  import opened Descriptors
  import MainQSort

  /** Bit 21 of a table entry marks a small bucket that is done; entries without it are at most 900000. */
  const SETMASK := 0x20_0000

  predicate Marked(v: int) { v >= SETMASK }

  function Clear(v: int): int { if v >= SETMASK then v - SETMASK else v }

  function WithMark(v: int): int { if v >= SETMASK then v else v + SETMASK }

  /** The table tells where the small buckets begin and which of them are in order. */
  ghost predicate Table(b: seq<int>, s: seq<int>, ft: seq<int>) {
    && |ft| == PAIRS + 1
    && (forall c :: 0 <= c <= PAIRS ==> Clear(ft[c]) == S(b, c))
    && (forall c :: 0 <= c < PAIRS && Marked(ft[c]) ==> SmallSorted(b, s, c))
  }

  /** What holds between the steps. */
  ghost predicate Progress(b: seq<int>, code: seq<int>, s: seq<int>, ft: seq<int>) {
    && 0 < |b| <= 900000 && Bytes(b) && Laid(b, code, s) && Table(b, s, ft)
  }

  // ----- what the sort may cost -----

  /** Every small bucket [t, u] with t != u has at most two rotations. */
  ghost predicate SmallPairs(b: seq<int>) {
    forall c :: 0 <= c < PAIRS && c / 256 != c % 256 ==> S(b, c + 1) <= S(b, c) + 2
  }

  /** Small bucket c may still have to be sorted by comparing. */
  ghost predicate Unsorted(b: seq<int>, ft: seq<int>, c: int)
    requires 0 <= c < |ft|
  {
    !Marked(ft[c]) && c / 256 != c % 256 && S(b, c + 1) > S(b, c) + 1
  }

  /** Eight times what these comparisons may take from the budget, if each bucket needs only one. */
  ghost function Due(b: seq<int>, ft: seq<int>, k: nat): (r: nat)
    requires k <= |ft|
  {
    if k == 0 then 0 else Due(b, ft, k - 1) + (if Unsorted(b, ft, k - 1) then |b| + 16 else 0)
  }

  /** The budget suffices for them. */
  ghost predicate Enough(b: seq<int>, budget: int, ft: seq<int>) {
    SmallPairs(b) && |ft| >= PAIRS && 8 * budget >= Due(b, ft, PAIRS)
  }

  /** Marks lower what is due. */
  lemma {:induction false} DueMarked(b: seq<int>, ft: seq<int>, ft': seq<int>, k: nat)
    requires k <= |ft| && k <= |ft'| && forall c :: 0 <= c < k && Marked(ft[c]) ==> Marked(ft'[c])
    ensures Due(b, ft', k) <= Due(b, ft, k)
  {
    hide S;
    if k > 0 { DueMarked(b, ft, ft', k - 1); }
  }

  lemma {:induction false} DueOne(b: seq<int>, ft: seq<int>, ft': seq<int>, k: nat, c: int)
    requires k <= |ft| && k <= |ft'| && forall d :: 0 <= d < k && Marked(ft[d]) ==> Marked(ft'[d])
    requires 0 <= c < k && Unsorted(b, ft, c)
    ensures |b| + 16 <= Due(b, ft, k)
    ensures Marked(ft'[c]) ==> Due(b, ft', k) + |b| + 16 <= Due(b, ft, k)
  {
    hide S;
    if c == k - 1 { DueMarked(b, ft, ft', k - 1); } else { DueOne(b, ft, ft', k - 1, c); }
  }

  /** One small bucket has been sorted and marked. */
  lemma EnoughStill(b: seq<int>, budget0: int, budget: int, ft: seq<int>, ft': seq<int>, c: int)
    requires |ft| == |ft'| == PAIRS + 1 && forall d :: 0 <= d < PAIRS && Marked(ft[d]) ==> Marked(ft'[d])
    requires 0 <= c < PAIRS && c / 256 != c % 256
    requires SmallPairs(b) ==> 8 * (budget0 - budget) <= if Unsorted(b, ft, c) then |b| + 16 else 0
    requires Unsorted(b, ft, c) && budget >= 0 ==> Marked(ft'[c])
    ensures Enough(b, budget0, ft) ==> Enough(b, budget, ft') && budget >= 0
  {
    hide S, SmallPairs;
    DueMarked(b, ft, ft', PAIRS);
    if Unsorted(b, ft, c) { DueOne(b, ft, ft', PAIRS, c); }
  }

  lemma EnoughMarked(b: seq<int>, budget: int, ft: seq<int>, ft': seq<int>)
    requires |ft| == |ft'| == PAIRS + 1 && forall d :: 0 <= d < PAIRS && Marked(ft[d]) ==> Marked(ft'[d])
    ensures Enough(b, budget, ft) ==> Enough(b, budget, ft')
  {
    hide S, SmallPairs;
    DueMarked(b, ft, ft', PAIRS);
  }

  // ----- order across small buckets -----

  lemma KeyOrder(b: seq<int>, x: int, y: int)
    requires Bytes(b) && 0 <= x < |b| && 0 <= y < |b| && Key2(b)[x] < Key2(b)[y]
    ensures NotAfter(b, x, y)
  {
    var n := |b|;
    if b[x] == b[y] {
      assert b[Next(n, x)] < b[Next(n, y)];
      assert n > 1;
      assert Cmp(b, Next(n, x), Next(n, y), n - 1) < 0;
    } else {
      assert b[x] < b[y];
    }
  }

  lemma CodesGrow(b: seq<int>, code: seq<int>, p: int, q: int)
    requires Codes(b, code) && 0 <= p <= q < |b|
    ensures code[p] <= code[q]
  {
    if code[q] < code[p] { SGrows(b, code[q] + 1, code[p]); }
  }

  /** Positions whose small buckets are in order are in order among each other. */
  lemma AcrossBuckets(b: seq<int>, code: seq<int>, s: seq<int>, p: int, q: int)
    requires Bytes(b) && Laid(b, code, s) && 0 <= p < q < |b|
    requires code[p] == code[q] ==> SmallSorted(b, s, code[p])
    ensures NotAfter(b, s[p], s[q])
  {
    hide NotAfter, Key2, Below;
    CodesGrow(b, code, p, q);
    if code[p] < code[q] { KeyOrder(b, s[p], s[q]); }
  }

  lemma AllSorted(b: seq<int>, code: seq<int>, s: seq<int>)
    requires Bytes(b) && Laid(b, code, s) && forall c :: 0 <= c < PAIRS ==> SmallSorted(b, s, c)
    ensures SortsRotations(b, s)
  {
    hide S, SmallSorted;
    forall p, q | 0 <= p < q < |b| ensures Le(b, s[p], s[q]) {
      AcrossBuckets(b, code, s, p, q);
    }
  }

  // ----- step 1 -----

  /** The rotations of one small bucket agree on two bytes. */
  lemma SmallAlike(b: seq<int>, code: seq<int>, s: seq<int>, t: seq<int>, c: int)
    requires Bytes(b) && Laid(b, code, s) && |b| <= |t| && t[..|b|] == s
    ensures Alike(b, t, S(b, c), S(b, c + 1), 2)
  {
    hide Below;
    forall p | 0 <= p < |t| && S(b, c) <= p < S(b, c + 1) ensures 0 <= t[p] < |b| && Key2(b)[t[p]] == c {
      assert t[p] == s[p];
      CodeUnique(b, code, p, c);
    }
    forall p, q | 0 <= p < |t| && 0 <= q < |t| && S(b, c) <= p < S(b, c + 1) && S(b, c) <= q < S(b, c + 1)
      ensures Cmp(b, t[p], t[q], 2) == 0
    {
      SameKeyAlike(b, t[p], t[q]);
    }
  }

  lemma SameKeyAlike(b: seq<int>, x: int, y: int)
    requires Bytes(b) && 0 <= x < |b| && 0 <= y < |b| && Key2(b)[x] == Key2(b)[y]
    ensures Cmp(b, x, y, 2) == 0
  {
    assert b[x] == b[y] && b[Next(|b|, x)] == b[Next(|b|, y)];
    assert Cmp(b, Next(|b|, Next(|b|, x)), Next(|b|, Next(|b|, y)), 0) == 0;
  }

  /** Sorting one small bucket leaves the others as they are. */
  lemma SmallDone(b: seq<int>, code: seq<int>, s: seq<int>, t: seq<int>, c: int)
    requires Bytes(b) && Laid(b, code, s) && Permuted(s, t, S(b, c), S(b, c + 1)) && InOrder(b, t, S(b, c), S(b, c + 1))
    ensures Laid(b, code, t) && SmallSorted(b, t, c)
    ensures forall d :: SmallSorted(b, s, d) ==> SmallSorted(b, t, d)
  {
    hide Below, NotAfter, Key2;
    StaysPermutation(s, t, |b|);
    SGrows(b, c, c + 1);
    forall p | 0 <= p < |b| ensures Key2(b)[t[p]] == code[p] {
      if S(b, c) <= p < S(b, c + 1) {
        var q := PermutedSource(s, t, S(b, c), S(b, c + 1), p);
        CodeUnique(b, code, p, c);
        CodeUnique(b, code, q, c);
      }
    }
    forall d | SmallSorted(b, s, d) ensures SmallSorted(b, t, d) {
      if d != c {
        forall p | S(b, d) <= p < S(b, d + 1) ensures t[p] == s[p] {
          if S(b, c) <= p < S(b, c + 1) {
            CodeUnique(b, code, p, c);
            CodeUnique(b, code, p, d);
          }
        }
      }
    }
  }

  /** Sorts small bucket sb unless it is in order already, and marks it. */
  method SortSmall(ptr: array<int>, block: seq<int>, quadrant: seq<int>, nblock: nat, ftab: array<int>, sb: int,
      budget0: int, ghost b: seq<int>, ghost code: seq<int>)
    returns (budget: int)
    requires Overshoot(block, quadrant, nblock) && b == block[..nblock] && QuadrantMeaning(b, quadrant)
    requires nblock <= ptr.Length && ptr != ftab && 0 <= sb < PAIRS && sb / 256 != sb % 256 && budget0 >= 0 &&
      ftab.Length == PAIRS + 1
    requires Progress(b, code, ptr[..nblock], ftab[..])
    modifies ptr, ftab
    ensures ftab.Length == PAIRS + 1
    ensures budget >= 0 ==> Progress(b, code, ptr[..nblock], ftab[..]) && Marked(ftab[sb])
    ensures forall c :: 0 <= c < PAIRS && old(Marked(ftab[c])) ==> Marked(ftab[c])
    ensures old(Enough(b, budget0, ftab[..])) ==> Enough(b, budget, ftab[..]) && budget >= 0
  {
    hide S, Laid, SmallSorted, Overshoot, QuadrantMeaning, Alike, InOrder, Permuted, Bytes, Enough;
    budget := budget0;
    MainQSort.SameLength(block, quadrant, nblock);
    ghost var s, ft, whole := ptr[..nblock], ftab[..], ptr[..];
    assert Clear(ft[sb]) == S(b, sb) && Clear(ft[sb + 1]) == S(b, sb + 1);
    if !Marked(ftab[sb]) {
      var lo := Clear(ftab[sb]);
      var hi := Clear(ftab[sb + 1]) - 1;
      if hi > lo {
        SmallAlike(b, code, s, whole, sb);
        budget := MainQSort.QSort3(ptr, block, quadrant, nblock, lo, hi, 2, budget, b);
        if budget < 0 {
          EnoughStill(b, budget0, budget, ft, ftab[..], sb);
          return;
        }
        SmallSlice(b, code, s, whole, ptr[..], sb, nblock);
      } else {
        SmallTrivial(b, s, sb);
      }
    }
    ftab[sb] := WithMark(ftab[sb]);
    EnoughStill(b, budget0, budget, ft, ftab[..], sb);
  }

  lemma SmallSlice(b: seq<int>, code: seq<int>, s: seq<int>, whole: seq<int>, whole': seq<int>, c: int, n: nat)
    requires Bytes(b) && Laid(b, code, s) && |b| == n <= |whole| && whole[..n] == s
    requires Permuted(whole, whole', S(b, c), S(b, c + 1)) && InOrder(b, whole', S(b, c), S(b, c + 1))
    ensures |whole'| == |whole| && Laid(b, code, whole'[..n]) && SmallSorted(b, whole'[..n], c)
    ensures forall d :: SmallSorted(b, s, d) ==> SmallSorted(b, whole'[..n], d)
  {
    hide S, Laid, SmallSorted, Permuted, NotAfter;
    PermutedLength(whole, whole', S(b, c), S(b, c + 1));
    SGrows(b, c, c + 1);
    PermutedPrefix(whole, whole', S(b, c), S(b, c + 1), n);
    assert InOrder(b, whole'[..n], S(b, c), S(b, c + 1));
    SmallDone(b, code, s, whole'[..n], c);
  }

  lemma SmallTrivial(b: seq<int>, s: seq<int>, c: int)
    requires S(b, c + 1) <= S(b, c) + 1
    ensures SmallSorted(b, s, c)
  {
  }

  /** Step 1: sorts the small buckets [ss, j], j != ss, that are not in order yet. */
  method Step1(ptr: array<int>, block: seq<int>, quadrant: seq<int>, nblock: nat, ftab: array<int>, ss: int,
      budget0: int, ghost b: seq<int>, ghost code: seq<int>)
    returns (budget: int)
    requires Overshoot(block, quadrant, nblock) && b == block[..nblock] && QuadrantMeaning(b, quadrant)
    requires nblock <= ptr.Length && ptr != ftab && 0 <= ss < 256 && budget0 >= 0 && ftab.Length == PAIRS + 1
    requires Progress(b, code, ptr[..nblock], ftab[..])
    modifies ptr, ftab
    ensures budget >= 0 ==> Progress(b, code, ptr[..nblock], ftab[..])
    ensures budget >= 0 ==> forall u :: 0 <= u < 256 && u != ss ==> Marked(ftab[Reg(ss, u)])
    ensures forall c :: 0 <= c < PAIRS && old(Marked(ftab[c])) ==> Marked(ftab[c])
    ensures old(Enough(b, budget0, ftab[..])) ==> Enough(b, budget, ftab[..]) && budget >= 0
  {
    hide Progress, Overshoot, QuadrantMeaning, Enough;
    budget := budget0;
    for j := 0 to 256
      invariant budget >= 0 && Progress(b, code, ptr[..nblock], ftab[..])
      invariant forall u :: 0 <= u < j && u != ss ==> Marked(ftab[Reg(ss, u)])
      invariant forall c :: 0 <= c < PAIRS && old(Marked(ftab[c])) ==> Marked(ftab[c])
      invariant old(Enough(b, budget0, ftab[..])) ==> Enough(b, budget, ftab[..])
    {
      if j != ss {
        assert (ss * 256 + j) / 256 == ss && (ss * 256 + j) % 256 == j;
        budget := SortSmall(ptr, block, quadrant, nblock, ftab, ss * 256 + j, budget, b, code);
        if budget < 0 { return; }
      }
    }
  }

  // ----- step 2 -----

  /** The rotations on one side of [ss, ss] within big bucket ss, in the order in which a scan reads them. */
  ghost function NearFirst(b: seq<int>, up: bool, ss: int, base: seq<int>): (first: seq<int>)
    requires |base| == |b| && 0 <= ss < 256
    ensures FirstIs(b, up, ss, base, first)
  {
    RegInBig(b, ss, ss);
    var size := if up then S(b, Reg(ss, ss)) - S(b, 256 * ss) else S(b, 256 * (ss + 1)) - S(b, Reg(ss, ss) + 1);
    seq(size, k requires 0 <= k < size => base[ReadAt(b, up, ss, k)])
  }

  /** A position on the near side of [ss, ss] and what is there. */
  lemma NearCode(b: seq<int>, up: bool, ss: int, code: seq<int>, s: seq<int>, k: int)
    requires Bytes(b) && Laid(b, code, s) && 0 <= ss < 256
    requires 0 <= k < (if up then S(b, Reg(ss, ss)) - S(b, 256 * ss) else S(b, 256 * (ss + 1)) - S(b, Reg(ss, ss) + 1))
    ensures var p := ReadAt(b, up, ss, k);
            0 <= p < |b| && 256 * ss <= code[p] < 256 * (ss + 1) && code[p] != Reg(ss, ss) && code[p] % 256 != ss &&
            b[s[p]] == ss && Toward(up, b[Next(|b|, s[p])], ss)
  {
    hide Below;
    var p := ReadAt(b, up, ss, k);
    RegInBig(b, ss, ss);
    NearSide(b, up, ss, code, p);
    if code[p] < 256 * ss { SGrows(b, code[p] + 1, 256 * ss); }
    if code[p] >= 256 * (ss + 1) { SGrows(b, 256 * (ss + 1), code[p]); }
    if up { if code[p] >= Reg(ss, ss) { SGrows(b, Reg(ss, ss), code[p]); } }
    else { if code[p] <= Reg(ss, ss) { SGrows(b, code[p] + 1, Reg(ss, ss) + 1); } }
    assert Key2(b)[s[p]] == 256 * b[s[p]] + b[Next(|b|, s[p])];
  }

  /** Where on the near side a rotation is found that belongs there. */
  lemma NearFound(b: seq<int>, up: bool, ss: int, code: seq<int>, s: seq<int>, x: int) returns (k: int)
    requires Bytes(b) && Laid(b, code, s) && 0 <= ss < 256 && 0 <= x < |b| && b[x] == ss &&
      Toward(up, b[Next(|b|, x)], ss)
    ensures 0 <= k < (if up then S(b, Reg(ss, ss)) - S(b, 256 * ss) else S(b, 256 * (ss + 1)) - S(b, Reg(ss, ss) + 1))
    ensures 0 <= ReadAt(b, up, ss, k) < |b| && s[ReadAt(b, up, ss, k)] == x
  {
    hide Below;
    var p := Onto(s, |b|, x);
    var c := code[p];
    assert c == 256 * b[x] + b[Next(|b|, x)];
    RegInBig(b, ss, ss);
    if up {
      SGrows(b, 256 * ss, c);
      SGrows(b, c + 1, Reg(ss, ss));
      k := p - S(b, 256 * ss);
    } else {
      SGrows(b, Reg(ss, ss) + 1, c);
      SGrows(b, c + 1, 256 * (ss + 1));
      k := S(b, 256 * (ss + 1)) - 1 - p;
    }
  }

  lemma NearSeed(b: seq<int>, up: bool, ss: int, code: seq<int>, s: seq<int>)
    requires Bytes(b) && Laid(b, code, s) && 0 <= ss < 256
    requires forall u :: 0 <= u < 256 && u != ss ==> SmallSorted(b, s, Reg(ss, u))
    ensures Seed(b, up, NearFirst(b, up, ss, s), ss)
  {
    hide S, SmallSorted, Laid, NotAfter, Toward;
    LaidPermutation(b, code, s);
    var first := NearFirst(b, up, ss, s);
    forall i | 0 <= i < |first|
      ensures 0 <= first[i] < |b| && b[first[i]] == ss && Toward(up, b[Next(|b|, first[i])], ss) {
      NearCode(b, up, ss, code, s, i);
    }
    forall i, j | 0 <= i < j < |first| ensures Ahead(b, up, first[i], first[j]) && first[i] != first[j] {
      NearPair(b, up, ss, code, s, i, j);
    }
    forall x | 0 <= x < |b| && b[x] == ss && Toward(up, b[Next(|b|, x)], ss) ensures x in first {
      var k := NearFound(b, up, ss, code, s, x);
      assert first[k] == x;
    }
  }

  lemma LaidPermutation(b: seq<int>, code: seq<int>, s: seq<int>)
    requires Laid(b, code, s)
    ensures IsPermutation(s, |b|)
  {
  }

  lemma NearPair(b: seq<int>, up: bool, ss: int, code: seq<int>, s: seq<int>, i: int, j: int)
    requires Bytes(b) && Laid(b, code, s) && 0 <= ss < 256
    requires forall u :: 0 <= u < 256 && u != ss ==> SmallSorted(b, s, Reg(ss, u))
    requires 0 <= i < j < |NearFirst(b, up, ss, s)|
    ensures var first := NearFirst(b, up, ss, s); Ahead(b, up, first[i], first[j]) && first[i] != first[j]
  {
    hide S, SmallSorted, NotAfter, Toward;
    NearCode(b, up, ss, code, s, i);
    NearCode(b, up, ss, code, s, j);
    var p, q := ReadAt(b, up, ss, i), ReadAt(b, up, ss, j);
    var c := code[p];
    assert c == Reg(ss, c - 256 * ss);
    if up { AcrossBuckets(b, code, s, p, q); } else { AcrossBuckets(b, code, s, q, p); }
  }

  /** The near side is the same after the scan upward. */
  lemma NearKept(b: seq<int>, ss: int, code: seq<int>, s: seq<int>, s': seq<int>, first: seq<int>, v: seq<int>,
      copy: seq<int>, bigDone: seq<bool>)
    requires Laid(b, code, s) && Scanned(b, true, ss, code, s, s', first, v, copy, bigDone)
    ensures NearFirst(b, false, ss, s') == NearFirst(b, false, ss, s)
  {
    hide S, Seed, Fed, Collect;
    var f, f' := NearFirst(b, false, ss, s), NearFirst(b, false, ss, s');
    forall k | 0 <= k < |f| ensures f[k] == f'[k] {
      NearCode(b, false, ss, code, s, k);
      Kept(b, true, ss, code, s, s', first, v, copy, bigDone, ReadAt(b, false, ss, k));
    }
  }

  /** Assertion 1007 of the original, and what the two scans leave. */
  lemma Step2End(b: seq<int>, ss: int, code: seq<int>, s0: seq<int>, s1: seq<int>, s2: seq<int>,
      first: seq<int>, v: seq<int>, copy: seq<int>, first': seq<int>, v': seq<int>, copy': seq<int>, bigDone: seq<bool>)
    requires Laid(b, code, s0)
    requires Scanned(b, true, ss, code, s0, s1, first, v, copy, bigDone) && v == first + Collect(b, v, ss)
    requires Scanned(b, false, ss, code, s1, s2, first', v', copy', bigDone) && v' == first' + Collect(b, v', ss)
    ensures Step2Done(b, ss, code, s0, s2, bigDone)
    ensures copy[ss] - 1 == copy'[ss] || (copy[ss] == 0 && copy'[ss] == |b| - 1)
  {
    hide Seed, Fed, Collect, S, CountEq, RegDone, FirstIs, FilledAt, Framed, Laid, Bytes;
    if other :| 0 <= other < |b| && b[other] != ss {
      ScansDone(b, ss, code, s0, s1, s2, first, v, copy, first', v', copy', bigDone, other);
      BothComplete(b, ss, first, v, first', v', ss, other);
      SNext(b, Reg(ss, ss));
    } else {
      assert forall i :: 0 <= i < |b| ==> b[i] == ss;
      UniformScan(b, true, ss, code, s0, s1, first, v, copy, bigDone);
      UniformScan(b, false, ss, code, s1, s2, first', v', copy', bigDone);
      UniformDone(b, ss, code, s0, bigDone);
      UniformEnds(b, ss, first, v, first', v');
    }
  }

  lemma UniformEmpty(b: seq<int>, up: bool, ss: int, first: seq<int>, v: seq<int>)
    requires Positions(b, v) && Seed(b, up, first, ss) && Fed(b, first, v, ss)
    requires forall i :: 0 <= i < |b| ==> b[i] == ss
    ensures Collect(b, v, ss) == []
  {
    if first != [] { SeedEntry(b, up, first, ss, 0); }
    assert v != [] ==> FedAt(b, first, v, ss, 0);
  }

  lemma UniformEnds(b: seq<int>, ss: int, first: seq<int>, v: seq<int>, first': seq<int>, v': seq<int>)
    requires TwoScans(b, ss, first, v, first', v') && forall i :: 0 <= i < |b| ==> b[i] == ss
    ensures Collect(b, v, ss) == [] && Collect(b, v', ss) == []
    ensures S(b, Reg(ss, ss)) == 0 && S(b, Reg(ss, ss) + 1) == |b|
  {
    hide Seed, Fed, Collect, Below;
    UniformEmpty(b, true, ss, first, v);
    UniformEmpty(b, false, ss, first', v');
    NoneBelow(Key2(b), Reg(ss, ss));
    AllSmaller(Key2(b), Reg(ss, ss) + 1);
  }

  lemma CursorEntry(b: seq<int>, s: seq<int>, ft: seq<int>, t: int, ss: int)
    requires Table(b, s, ft) && 0 <= t < 256 && 0 <= ss < 256
    ensures |ft| == PAIRS + 1
    ensures Clear(ft[256 * t + ss]) == Slot(b, true, Reg(t, ss), 0) &&
      Clear(ft[256 * t + ss + 1]) - 1 == Slot(b, false, Reg(t, ss), 0)
  {
    hide S;
    assert Clear(ft[Reg(t, ss)]) == S(b, Reg(t, ss)) && Clear(ft[Reg(t, ss) + 1]) == S(b, Reg(t, ss) + 1);
  }

  /** The cursors of the two scans, set to the ends of the small buckets [j, ss]. */
  method Cursors(ftab: array<int>, ss: int, ghost b: seq<int>, ghost s: seq<int>)
      returns (copyStart: array<int>, copyEnd: array<int>)
    requires Table(b, s, ftab[..]) && 0 <= ss < 256
    ensures fresh(copyStart) && fresh(copyEnd) && copyStart != copyEnd && copyStart.Length == copyEnd.Length == 256
    ensures forall t :: 0 <= t < 256 ==> copyStart[t] == Slot(b, true, Reg(t, ss), 0)
    ensures forall t :: 0 <= t < 256 ==> copyEnd[t] == Slot(b, false, Reg(t, ss), 0)
  {
    hide Slot, Reg, Table, Clear;
    CursorEntry(b, s, ftab[..], 0, ss);
    copyStart, copyEnd := new int[256], new int[256];
    ghost var ft := ftab[..];
    for j := 0 to 256
      invariant ftab[..] == ft
      invariant forall t :: 0 <= t < j ==> copyStart[t] == Slot(b, true, Reg(t, ss), 0)
      invariant forall t :: 0 <= t < j ==> copyEnd[t] == Slot(b, false, Reg(t, ss), 0)
    {
      CursorEntry(b, s, ft, j, ss);
      copyStart[j] := Clear(ftab[256 * j + ss]);
      copyEnd[j] := Clear(ftab[256 * j + ss + 1]) - 1;
    }
  }

  method MarkColumn(ftab: array<int>, ss: int)
    requires ftab.Length == PAIRS + 1 && 0 <= ss < 256
    modifies ftab
    ensures forall c :: 0 <= c <= PAIRS ==>
      ftab[c] == if c % 256 == ss && c < PAIRS then WithMark(old(ftab[c])) else old(ftab[c])
  {
    for j := 0 to 256
      invariant forall c :: 0 <= c <= PAIRS ==>
        ftab[c] == if c % 256 == ss && c < PAIRS && c / 256 < j then WithMark(old(ftab[c])) else old(ftab[c])
    {
      assert (256 * j + ss) / 256 == j && (256 * j + ss) % 256 == ss;
      ftab[256 * j + ss] := WithMark(ftab[256 * j + ss]);
    }
  }

  /** Step 2: derives the order of the small buckets [t, ss] from that of big bucket ss. */
  method Step2(ptr: array<int>, block: seq<int>, nblock: nat, ftab: array<int>, bigDone: seq<bool>, ss: int,
      ghost b: seq<int>, ghost code: seq<int>)
    requires nblock <= |block| && b == block[..nblock] && nblock <= ptr.Length && ptr != ftab
    requires 0 <= ss < 256 && |bigDone| == 256 && !bigDone[ss] && ftab.Length == PAIRS + 1
    requires Progress(b, code, ptr[..nblock], ftab[..])
    requires forall u :: 0 <= u < 256 && u != ss ==> Marked(ftab[Reg(ss, u)])
    requires forall t :: 0 <= t < 256 && bigDone[t] ==> Marked(ftab[Reg(t, ss)])
    modifies ptr, ftab
    ensures Progress(b, code, ptr[..nblock], ftab[..])
    ensures forall u :: 0 <= u < 256 ==> Marked(ftab[Reg(ss, u)])
    ensures forall c :: 0 <= c < PAIRS && old(Marked(ftab[c])) ==> Marked(ftab[c])
  {
    hide S, Laid, SmallSorted, Scanned, Seed, Fed, Collect, Bytes, FirstIs, RegDone, Step2Done;
    ghost var s0, ft := ptr[..nblock], ftab[..];
    var copyStart, copyEnd := Cursors(ftab, ss, b, s0);
    assert Clear(ft[256 * ss]) == S(b, 256 * ss) && Clear(ft[256 * (ss + 1)]) == S(b, 256 * (ss + 1));
    forall u | 0 <= u < 256 && u != ss ensures SmallSorted(b, s0, Reg(ss, u)) { assert Marked(ft[Reg(ss, u)]); }
    NearSeed(b, true, ss, code, s0);
    NearSeed(b, false, ss, code, s0);
    ghost var first := NearFirst(b, true, ss, s0);
    ghost var first' := NearFirst(b, false, ss, s0);
    LaidCodes(b, code, s0);
    ScanStart(b, true, ss, code, s0, first, copyStart[..], bigDone);
    var from := Clear(ftab[256 * ss]);
    ghost var v := ScanUp(ptr, block, copyStart, bigDone, nblock, ss, from, b, code, s0, first);
    ghost var s1 := ptr[..nblock];
    NearKept(b, ss, code, s0, s1, first, v, copyStart[..], bigDone);
    ScanStart(b, false, ss, code, s1, first', copyEnd[..], bigDone);
    ScannedFacts(b, ss, code, s0, s1, first, v, copyStart[..], bigDone);
    from := Clear(ftab[256 * (ss + 1)]) - 1;
    ghost var v' := ScanDown(ptr, block, copyEnd, bigDone, nblock, ss, from, b, code, s1, first', v, first);
    ghost var s2 := ptr[..nblock];
    Step2End(b, ss, code, s0, s1, s2, first, v, copyStart[..], first', v', copyEnd[..], bigDone);
    assert copyStart[ss] - 1 == copyEnd[ss] || (copyStart[ss] == 0 && copyEnd[ss] == nblock - 1);  // assertion 1007
    Step2Laid(b, ss, code, s0, s2, bigDone);
    MarkColumn(ftab, ss);
    Step2Table(b, ss, code, s0, s2, bigDone, ft, ftab[..]);
  }

  lemma LaidCodes(b: seq<int>, code: seq<int>, s: seq<int>)
    requires Laid(b, code, s)
    ensures Codes(b, code) && |s| == |b|
  {
  }

  lemma ScannedFacts(b: seq<int>, ss: int, code: seq<int>, base: seq<int>, s: seq<int>, first: seq<int>, v: seq<int>,
      copy: seq<int>, bigDone: seq<bool>)
    requires Scanned(b, true, ss, code, base, s, first, v, copy, bigDone)
    ensures Positions(b, v) && Seed(b, true, first, ss) && Fed(b, first, v, ss)
  {
  }

  lemma Step2Table(b: seq<int>, ss: int, code: seq<int>, s0: seq<int>, s: seq<int>, bigDone: seq<bool>, ft: seq<int>,
      ft': seq<int>)
    requires Laid(b, code, s0) && |s| == |b| && |bigDone| == 256 && 0 <= ss < 256 &&
      Step2Done(b, ss, code, s0, s, bigDone)
    requires Table(b, s0, ft) && |ft'| == PAIRS + 1
    requires forall t :: 0 <= t < 256 && bigDone[t] ==> Marked(ft[Reg(t, ss)])
    requires forall c :: 0 <= c <= PAIRS ==> ft'[c] == if c % 256 == ss && c < PAIRS then WithMark(ft[c]) else ft[c]
    requires |b| <= 900000
    ensures Table(b, s, ft')
    ensures forall u :: 0 <= u < 256 && Marked(ft[Reg(ss, u)]) ==> Marked(ft'[Reg(ss, u)])
    ensures Marked(ft'[Reg(ss, ss)])
  {
    hide Laid, SmallSorted, Step2Done, Below;
    forall c | 0 <= c < PAIRS && Marked(ft'[c]) ensures SmallSorted(b, s, c) {
      Step2Sorted(b, ss, code, s0, s, bigDone, c);
      var t := c / 256;
      if c % 256 == ss && bigDone[t] {
        assert c == Reg(t, ss);
      }
    }
    assert Reg(ss, ss) % 256 == ss;
  }

  // ----- step 3 -----

  lemma BigInOrder(b: seq<int>, code: seq<int>, s: seq<int>, ss: int)
    requires Bytes(b) && Laid(b, code, s) && 0 <= ss < 256
    requires forall u :: 0 <= u < 256 ==> SmallSorted(b, s, Reg(ss, u))
    ensures InOrder(b, s, S(b, 256 * ss), S(b, 256 * (ss + 1)))
    ensures forall p :: 0 <= p < |b| ==> (S(b, 256 * ss) <= p < S(b, 256 * (ss + 1)) <==> b[s[p]] == ss)
  {
    hide Below, SmallSorted, NotAfter;
    forall p | 0 <= p < |b|
      ensures S(b, 256 * ss) <= p < S(b, 256 * (ss + 1)) <==> 256 * ss <= code[p] < 256 * (ss + 1)
      ensures b[s[p]] == ss <==> 256 * ss <= code[p] < 256 * (ss + 1)
    {
      var c := code[p];
      if c < 256 * ss { SGrows(b, c + 1, 256 * ss); }
      else if c < 256 * (ss + 1) { SGrows(b, 256 * ss, c); SGrows(b, c + 1, 256 * (ss + 1)); }
      else { SGrows(b, 256 * (ss + 1), c); }
      assert Key2(b)[s[p]] == 256 * b[s[p]] + b[Next(|b|, s[p])];
    }
    forall p, q | 0 <= p < q < |b| && S(b, 256 * ss) <= p && q < S(b, 256 * (ss + 1)) ensures NotAfter(b, s[p], s[q]) {
      assert code[p] == Reg(ss, code[p] - 256 * ss);
      AcrossBuckets(b, code, s, p, q);
    }
  }

  lemma Distinct(s: seq<int>, n: nat, p: int, q: int)
    requires IsPermutation(s, n) && 0 <= p < n && 0 <= q < n && p != q
    ensures s[p] != s[q]
  {
  }

  lemma QuadrantLength(block: seq<int>, quadrant: seq<int>, n: nat)
    requires Overshoot(block, quadrant, n)
    ensures 0 < n <= |quadrant|
  {
  }

  lemma InRange(s: seq<int>, n: nat, p: int)
    requires IsPermutation(s, n) && 0 <= p < n
    ensures 0 <= s[p] < n
  {
  }

  /** Sets the descriptor of one position, and its copy beyond the block if there is one. */
  method SetDescriptor(quadrant: array<int>, a2update: int, qVal: int, nblock: nat, ghost block: seq<int>)
    requires 0 <= a2update < nblock && Overshoot(block, quadrant[..], nblock)
    modifies quadrant
    ensures Overshoot(block, quadrant[..], nblock) && quadrant[a2update] == qVal
    ensures forall x :: 0 <= x < nblock && x != a2update ==> quadrant[x] == old(quadrant[x])
  {
    quadrant[a2update] := qVal;
    if a2update < N_OVERSHOOT {
      quadrant[a2update + nblock] := qVal;
    }
  }

  /** Gives the positions of big bucket ss their descriptors, from the last to the first. */
  method WriteDescriptors(ptr: seq<int>, quadrant: array<int>, nblock: nat, lo: int, size: int, shifts: nat,
      ghost block: seq<int>)
    requires nblock <= |ptr| && Overshoot(block, quadrant[..], nblock) && IsPermutation(ptr[..nblock], nblock)
    requires 0 <= lo && 0 <= size && lo + size <= nblock && Descriptor(size, shifts) <= 65534
    modifies quadrant
    ensures Overshoot(block, quadrant[..], nblock) && nblock <= quadrant.Length
    ensures forall i :: 0 <= i < size ==> quadrant[ptr[..nblock][lo + i]] == Descriptor(i, shifts)
    ensures forall x :: 0 <= x < nblock && x !in ptr[..nblock][lo..lo + size] ==> quadrant[x] == old(quadrant[x])
  {
    hide IsPermutation, Descriptor, Overshoot;
    QuadrantLength(block, quadrant[..], nblock);
    ghost var s := ptr[..nblock];
    ghost var big := s[lo..lo + size];
    forall i, j | 0 <= i < j < size ensures big[i] != big[j] { Distinct(s, nblock, lo + i, lo + j); }
    forall i | 0 <= i < size ensures 0 <= big[i] < nblock { InRange(s, nblock, lo + i); }
    var j := size - 1;
    while j >= 0
      invariant -1 <= j < size
      invariant Overshoot(block, quadrant[..], nblock)
      invariant forall i :: j < i < size ==> quadrant[big[i]] == Descriptor(i, shifts)
      invariant forall x :: 0 <= x < nblock && x !in big ==> quadrant[x] == old(quadrant[x])
    {
      var a2update := ptr[lo + j];
      assert a2update == big[j];
      DescriptorGrows(j, size, shifts);
      var qVal := Descriptor(j, shifts);
      assert 0 <= qVal <= 65535;  // assertion 1002
      SetDescriptor(quadrant, a2update, qVal, nblock, block);
      j := j - 1;
    }
    forall i | 0 <= i < size ensures quadrant[s[lo + i]] == Descriptor(i, shifts) { assert s[lo + i] == big[i]; }
  }

  /** Step 3: the rotation at place j of big bucket ss gets j shifted right until 16 bits are enough, and all others
      keep what they have. The new descriptors mean what comparisons rely on; they are as strict as the comment says
      exactly if the number of repeats of the block divides 2^shifts. */
  method UpdateQuadrant(ptr: seq<int>, quadrant: array<int>, nblock: nat, lo: int, size: int, ghost block: seq<int>,
      ghost b: seq<int>, ss: int)
    requires nblock <= |ptr| && Overshoot(block, quadrant[..], nblock) && b == block[..nblock]
    requires IsPermutation(ptr[..nblock], nblock) && 0 <= lo && 0 <= size && lo + size <= nblock <= 900000
    requires InOrder(b, ptr[..nblock], lo, lo + size)
    requires forall p :: 0 <= p < nblock ==> (lo <= p < lo + size <==> b[ptr[..nblock][p]] == ss)
    requires QuadrantMeaning(b, quadrant[..])
    modifies quadrant
    ensures Overshoot(block, quadrant[..], nblock) && QuadrantMeaning(b, quadrant[..])
    ensures forall j :: 0 <= j < size ==> quadrant[ptr[..nblock][lo + j]] == Descriptor(j, ShiftsFor(size))
    ensures forall x :: 0 <= x < nblock && b[x] != ss ==> quadrant[x] == old(quadrant[x])
    ensures StrictAt(b, quadrant[..], ss) <==> Fine(b, size)
  {
    hide InOrder, QuadrantMeaning, IsPermutation, Descriptor, Overshoot, StrictAt, Fine, ShiftsFor;
    MainQSort.SameLength(block, quadrant[..], nblock);
    QuadrantLength(block, quadrant[..], nblock);
    ghost var s, q := ptr[..nblock], quadrant[..];
    var shifts := 0;
    while Descriptor(size, shifts) > 65534
      invariant 0 <= shifts <= ShiftsFor(size) && quadrant[..] == q
      decreases ShiftsFor(size) - shifts
    {
      ShiftsEnough(size);
      shifts := shifts + 1;
    }
    ShiftsLeast(size, shifts);
    Outside(b, s, ss, lo, size);
    WriteDescriptors(ptr, quadrant, nblock, lo, size, shifts, block);
    forall x | 0 <= x < nblock && b[x] != ss ensures quadrant[x] == q[x] { assert x !in s[lo..lo + size]; }
    forall p | lo <= p < lo + size ensures 0 <= s[p] < nblock { InRange(s, nblock, p); }
    assert forall j :: 0 <= j < size ==> quadrant[..][s[lo + j]] == Descriptor(j, shifts);
    MeaningKept(b, s, ss, lo, size, shifts, q, quadrant[..]);
    StrictExactly(b, s, ss, lo, size, quadrant[..]);
  }

  lemma Outside(b: seq<int>, s: seq<int>, ss: int, lo: int, size: int)
    requires IsPermutation(s, |b|) && 0 <= lo && 0 <= size && lo + size <= |b|
    requires forall p :: 0 <= p < |b| ==> (lo <= p < lo + size <==> b[s[p]] == ss)
    ensures forall x :: 0 <= x < |b| && b[x] != ss ==> x !in s[lo..lo + size]
  {
    forall x | 0 <= x < |b| && x in s[lo..lo + size] ensures b[x] == ss {
      var k :| 0 <= k < size && s[lo..lo + size][k] == x;
      assert s[lo + k] == x;
    }
  }

  // ----- the running order -----

  /** The number of rotations in big bucket t, as long as nothing is marked. */
  function BigFreq(ftab: seq<int>, t: int): int
    requires |ftab| == PAIRS + 1 && 0 <= t < 256
  {
    ftab[256 * (t + 1)] - ftab[256 * t]
  }

  /** The first n buckets are listed from the smallest to the largest. */
  ghost predicate Ascending(ftab: seq<int>, order: seq<int>, n: int)
    requires |ftab| == PAIRS + 1 && IsPermutation(order, 256)
  {
    forall x, y :: 0 <= x < y < 256 && y < n ==> BigFreq(ftab, order[x]) <= BigFreq(ftab, order[y])
  }

  /** All of the first i + 1 but the one at j are listed that way, and it comes before those that follow it. */
  ghost predicate Settling(ftab: seq<int>, order: seq<int>, i: int, j: int)
    requires |ftab| == PAIRS + 1 && IsPermutation(order, 256)
  {
    && 0 <= j <= i < 256
    && (forall x, y :: 0 <= x < y <= i && x != j && y != j ==> BigFreq(ftab, order[x]) <= BigFreq(ftab, order[y]))
    && (forall y :: j < y <= i ==> BigFreq(ftab, order[j]) <= BigFreq(ftab, order[y]))
  }

  lemma SettleOne(ftab: seq<int>, was: seq<int>, now: seq<int>, i: int, j: int)
    requires |ftab| == PAIRS + 1 && IsPermutation(was, 256) && 0 < j && Settling(ftab, was, i, j)
    requires BigFreq(ftab, was[j - 1]) > BigFreq(ftab, was[j]) && now == was[j := was[j - 1]][j - 1 := was[j]]
    ensures IsPermutation(now, 256) && Settling(ftab, now, i, j - 1)
  {
    hide BigFreq;
  }

  lemma ColumnDone(ftab: seq<int>, order: seq<int>, i: int, j: int)
    requires |ftab| == PAIRS + 1 && IsPermutation(order, 256) && Settling(ftab, order, i, j)
    requires 0 < j ==> BigFreq(ftab, order[j - 1]) <= BigFreq(ftab, order[j])
    ensures Ascending(ftab, order, i + 1)
  {
    hide BigFreq;
    forall x, y | 0 <= x < y <= i ensures BigFreq(ftab, order[x]) <= BigFreq(ftab, order[y]) {
      if y == j { assert BigFreq(ftab, order[x]) <= BigFreq(ftab, order[j - 1]) || x == j - 1; }
    }
  }

  lemma Swapped(was: seq<int>, i: int, j: int)
    requires IsPermutation(was, 256) && 0 <= i < 256 && 0 <= j < 256
    ensures IsPermutation(was[j := was[i]][i := was[j]], 256)
  {
  }

  /** Moves runningOrder[i] down its column of step h to its place by size of big bucket. */
  method ColumnInsert(runningOrder: array<int>, ftab: seq<int>, h: int, i: int)
    requires 1 <= h <= i < 256 && |ftab| == PAIRS + 1 && IsPermutation(runningOrder[..], 256)
    requires h == 1 ==> Ascending(ftab, runningOrder[..], i)
    modifies runningOrder
    ensures IsPermutation(runningOrder[..], 256)
    ensures h == 1 ==> Ascending(ftab, runningOrder[..], i + 1)
  {
    hide Settling, Ascending, BigFreq;
    var vv := runningOrder[i];
    var j := i;
    assert runningOrder[..][j := vv] == runningOrder[..];
    if h == 1 { SettleStart(ftab, runningOrder[..], i); }
    while BigFreq(ftab, runningOrder[j - h]) > BigFreq(ftab, vv)
      invariant h <= j <= i && 0 <= vv < 256 && IsPermutation(runningOrder[..][j := vv], 256)
      invariant forall x :: 0 <= x < 256 ==> 0 <= runningOrder[x] < 256
      invariant h == 1 ==> Settling(ftab, runningOrder[..][j := vv], i, j)
      decreases j
    {
      ghost var was := runningOrder[..][j := vv];
      if h == 1 { SettleOne(ftab, was, was[j := was[j - 1]][j - 1 := was[j]], i, j); }
      Swapped(was, j - h, j);
      runningOrder[j] := runningOrder[j - h];
      j := j - h;
      assert runningOrder[..][j := vv] == was[j + h := was[j]][j := was[j + h]];
      if j <= h - 1 { break; }
    }
    if h == 1 { ColumnDone(ftab, runningOrder[..][j := vv], i, j); }
    runningOrder[j] := vv;
  }

  lemma SettleStart(ftab: seq<int>, order: seq<int>, i: int)
    requires |ftab| == PAIRS + 1 && IsPermutation(order, 256) && 0 <= i < 256 && Ascending(ftab, order, i)
    ensures Settling(ftab, order, i, i)
  {
    hide BigFreq;
  }

  /** The big buckets, each once, from the smallest to the largest. */
  method RunningOrder(ftab: seq<int>) returns (order: seq<int>)
    requires |ftab| == PAIRS + 1
    ensures IsPermutation(order, 256) && Ascending(ftab, order, 256)
  {
    hide Ascending;
    var runningOrder := new int[256](i => i);
    var h := 4;
    while h <= 256
      invariant h == 4 || h == 13 || h == 40 || h == 121 || h == 364
      decreases 256 - h
    {
      h := 3 * h + 1;
    }
    while h != 1
      invariant h == 1 || h == 4 || h == 13 || h == 40 || h == 121 || h == 364
      invariant fresh(runningOrder) && IsPermutation(runningOrder[..], 256)
      invariant h == 1 ==> Ascending(ftab, runningOrder[..], 256)
      decreases h
    {
      h := h / 3;
      FirstAscends(ftab, runningOrder[..]);
      for i := h to 256
        invariant IsPermutation(runningOrder[..], 256)
        invariant h == 1 ==> Ascending(ftab, runningOrder[..], i)
      {
        ColumnInsert(runningOrder, ftab, h, i);
      }
    }
    order := runningOrder[..];
  }

  lemma FirstAscends(ftab: seq<int>, order: seq<int>)
    requires |ftab| == PAIRS + 1 && IsPermutation(order, 256)
    ensures Ascending(ftab, order, 1)
  {
    hide BigFreq;
  }
}

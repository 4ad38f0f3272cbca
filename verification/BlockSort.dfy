/** The main loop of mainSort, and BZ2_blockSort, which chooses between the two sorts. */
module BlockSort {

  import opened Rotations
  import opened Rearrange
  import opened Counting
  import opened MainOrder
  import opened MainSimpleSort
  import opened MainScan
  import opened MainStep2
  import opened MainRadix
  import opened MainSort
  import opened Roots
  import opened Descriptors
  import FallbackSort
  import MainQSort

  /** The big buckets that are done are the first i of the running order, and their small buckets are in order. */
  ghost predicate Done(order: seq<int>, bigDone: seq<bool>, ft: seq<int>, i: int) {
    && IsPermutation(order, 256) && |bigDone| == 256 && |ft| == PAIRS + 1
    && (forall x :: 0 <= x < 256 ==> (bigDone[order[x]] <==> x < i))
    && (forall t, u :: 0 <= t < 256 && 0 <= u < 256 && bigDone[t] ==> Marked(ft[Reg(t, u)]))
  }

  /** Marks are never taken back, so what was done stays done. */
  lemma DoneKept(order: seq<int>, bigDone: seq<bool>, ft: seq<int>, ft': seq<int>, i: int)
    requires Done(order, bigDone, ft, i) && |ft'| == PAIRS + 1
    requires forall c :: 0 <= c < PAIRS && Marked(ft[c]) ==> Marked(ft'[c])
    ensures Done(order, bigDone, ft', i)
  {
  }

  lemma DoneNext(order: seq<int>, bigDone: seq<bool>, ft: seq<int>, i: int)
    requires 0 <= i < 256 && Done(order, bigDone, ft, i)
    requires forall u :: 0 <= u < 256 ==> Marked(ft[Reg(order[i], u)])
    ensures Done(order, bigDone[order[i] := true], ft, i + 1)
  {
    forall x | 0 <= x < 256 && x != i ensures order[x] != order[i] {}
  }

  lemma DoneAt(order: seq<int>, bigDone: seq<bool>, ft: seq<int>, i: int)
    requires 0 <= i < 256 && Done(order, bigDone, ft, i)
    ensures 0 <= order[i] < 256 && !bigDone[order[i]]
    ensures forall t :: 0 <= t < 256 && bigDone[t] ==> Marked(ft[Reg(t, order[i])])
  {
  }

  lemma DoneStart(order: seq<int>, bigDone: seq<bool>, ft: seq<int>)
    requires IsPermutation(order, 256) && |bigDone| == 256 && |ft| == PAIRS + 1
    requires forall t :: 0 <= t < 256 ==> !bigDone[t]
    ensures Done(order, bigDone, ft, 0)
  {
  }

  lemma DoneAll(b: seq<int>, code: seq<int>, s: seq<int>, order: seq<int>, bigDone: seq<bool>, ft: seq<int>)
    requires Progress(b, code, s, ft) && Done(order, bigDone, ft, 256)
    ensures SortsRotations(b, s)
  {
    hide SmallSorted, Laid, S, SortsRotations;
    forall c | 0 <= c < PAIRS ensures SmallSorted(b, s, c) {
      var x := Onto(order, 256, c / 256);
      assert bigDone[order[x]];
      assert c == Reg(c / 256, c % 256);
    }
    AllSorted(b, code, s);
  }

  // ----- descriptors over the whole run -----

  /** The buckets among the first i of the running order are strict if they are fine; the others have had no
      descriptors. */
  ghost predicate StrictSoFar(b: seq<int>, quadrant: seq<int>, order: seq<int>, i: int) {
    && b != [] && IsPermutation(order, 256)
    && (forall x :: 0 <= x < 256 ==> (StrictAt(b, quadrant, order[x]) <==> x >= i || Fine(b, CountEq(b, order[x]))))
  }

  /** Whether the comment about descriptors holds throughout: a condition on the bytes of the block and on how often it
      repeats. The largest bucket is not asked for, for it comes last and gets no descriptors. */
  ghost predicate AllFine(b: seq<int>)
    requires b != []
  {
    forall t, u :: 0 <= t < 256 && 0 <= u < 256 && t != u && CountEq(b, t) <= CountEq(b, u) ==> Fine(b, CountEq(b, t))
  }

  lemma StrictStart(b: seq<int>, quadrant: seq<int>, order: seq<int>)
    requires b != [] && IsPermutation(order, 256) && |b| <= |quadrant| && forall i :: 0 <= i < |b| ==> quadrant[i] == 0
    ensures StrictSoFar(b, quadrant, order, 0)
  {
  }

  /** Positions with another byte keep their descriptors. */
  lemma StrictElsewhere(b: seq<int>, q: seq<int>, q': seq<int>, ss: int, c: int)
    requires |b| <= |q| && |b| <= |q'| && c != ss && forall x :: 0 <= x < |b| && b[x] != ss ==> q'[x] == q[x]
    ensures StrictAt(b, q', c) <==> StrictAt(b, q, c)
  {
    hide Cmp;
  }

  lemma StrictNext(b: seq<int>, q: seq<int>, q': seq<int>, order: seq<int>, i: int)
    requires 0 <= i < 255 && StrictSoFar(b, q, order, i) && |b| <= |q| && |b| <= |q'|
    requires forall x :: 0 <= x < |b| && b[x] != order[i] ==> q'[x] == q[x]
    requires StrictAt(b, q', order[i]) <==> Fine(b, CountEq(b, order[i]))
    ensures StrictSoFar(b, q', order, i + 1)
  {
    hide StrictAt, Fine, CountEq;
    forall x | 0 <= x < 256 && x != i ensures StrictAt(b, q', order[x]) <==> StrictAt(b, q, order[x]) {
      assert order[x] != order[i];
      StrictElsewhere(b, q, q', order[i], order[x]);
    }
  }

  /** When all buckets but the last have their descriptors. */
  lemma StrictEnd(b: seq<int>, q: seq<int>, order: seq<int>, ft: seq<int>)
    requires StrictSoFar(b, q, order, 255) && |ft| == PAIRS + 1 && Ascending(ft, order, 256)
    requires forall t :: 0 <= t < 256 ==> BigFreq(ft, t) == CountEq(b, t)
    ensures StrictMeaning(b, q) <==> AllFine(b)
  {
    hide StrictAt, Fine, CountEq, BigFreq;
    if StrictMeaning(b, q) {
      forall t, u | 0 <= t < 256 && 0 <= u < 256 && t != u && CountEq(b, t) <= CountEq(b, u)
        ensures Fine(b, CountEq(b, t)) {
        var x := Onto(order, 256, t);
        var y := Onto(order, 256, u);
        assert StrictAt(b, q, order[x]) && StrictAt(b, q, order[y]);
        if x == 255 { assert BigFreq(ft, order[y]) <= BigFreq(ft, order[x]); }
      }
    }
    if AllFine(b) {
      forall c | 0 <= c < 256 ensures StrictAt(b, q, c) {
        var x := Onto(order, 256, c);
        if x < 255 { assert BigFreq(ft, order[x]) <= BigFreq(ft, order[255]) && order[x] != order[255]; }
      }
    }
  }

  /** The size of a big bucket is how often its byte occurs. */
  lemma {:induction false} BigSize(b: seq<int>, t: int, n: nat)
    requires Bytes(b) && 0 <= t < 256 && n <= |b|
    ensures Below(Key2(b)[..n], 256 * (t + 1)) - Below(Key2(b)[..n], 256 * t) == CountEq(b[..n], t)
  {
    if n > 0 {
      BigSize(b, t, n - 1);
      var k := Key2(b);
      assert k[..n][..n - 1] == k[..n - 1] && b[..n][..n - 1] == b[..n - 1];
      assert k[n - 1] == 256 * b[n - 1] + b[Next(|b|, n - 1)];
    }
  }

  lemma BigCount(b: seq<int>, t: int)
    requires Bytes(b) && 0 <= t < 256
    ensures S(b, 256 * (t + 1)) - S(b, 256 * t) == CountEq(b, t)
  {
    hide Below, CountEq;
    BigSize(b, t, |b|);
    assert Key2(b)[..|b|] == Key2(b) && b[..|b|] == b;
  }

  lemma BigCounts(b: seq<int>, ft: seq<int>)
    requires Bytes(b) && |ft| == PAIRS + 1 && forall c :: 0 <= c <= PAIRS ==> ft[c] == S(b, c)
    ensures forall t :: 0 <= t < 256 ==> BigFreq(ft, t) == CountEq(b, t)
  {
    hide S, CountEq;
    forall t | 0 <= t < 256 ensures BigFreq(ft, t) == CountEq(b, t) { BigCount(b, t); }
  }

  // ----- the main loop -----

  lemma BigBucket(b: seq<int>, code: seq<int>, s: seq<int>, ft: seq<int>, ss: int)
    requires Progress(b, code, s, ft) && 0 <= ss < 256
    requires forall u :: 0 <= u < 256 ==> Marked(ft[Reg(ss, u)])
    ensures IsPermutation(s, |b|)
    ensures var lo, hi := Clear(ft[256 * ss]), Clear(ft[256 * (ss + 1)]);
            0 <= lo <= hi <= |b| && hi - lo == CountEq(b, ss) && InOrder(b, s, lo, hi) &&
              forall p :: 0 <= p < |b| ==> (lo <= p < hi <==> b[s[p]] == ss)
  {
    hide SmallSorted, Laid, S, InOrder, IsPermutation, CountEq;
    LaidPermutation(b, code, s);
    BigCount(b, ss);
    forall u | 0 <= u < 256 ensures SmallSorted(b, s, Reg(ss, u)) { assert Marked(ft[Reg(ss, u)]); }
    BigInOrder(b, code, s, ss);
    SEnds(b);
    SGrows(b, 0, 256 * ss);
    SGrows(b, 256 * ss, 256 * (ss + 1));
    SGrows(b, 256 * (ss + 1), PAIRS);
  }

  /** One turn of the main loop: big bucket ss is sorted and the rest of its column derived from it. */
  method SortBig(ptr: array<int>, block: seq<int>, quadrant: array<int>, nblock: nat, ftab: array<int>,
      bigDone: seq<bool>, order: seq<int>, i: int, budget0: int, ghost b: seq<int>, ghost code: seq<int>)
    returns (budget: int, bigDone': seq<bool>)
    requires Overshoot(block, quadrant[..], nblock) && b == block[..nblock] && QuadrantMeaning(b, quadrant[..])
    requires nblock <= ptr.Length && ptr != ftab && ptr != quadrant && ftab != quadrant && budget0 >= 0 &&
      ftab.Length == PAIRS + 1
    requires 0 <= i < 256 && Done(order, bigDone, ftab[..], i) && Progress(b, code, ptr[..nblock], ftab[..])
    modifies ptr, quadrant, ftab
    ensures budget >= 0 ==> Progress(b, code, ptr[..nblock], ftab[..]) && Done(order, bigDone', ftab[..], i + 1)
    ensures budget >= 0 ==> Overshoot(block, quadrant[..], nblock) && QuadrantMeaning(b, quadrant[..])
    ensures budget >= 0 && old(StrictSoFar(b, quadrant[..], order, i)) ==>
      StrictSoFar(b, quadrant[..], order, if i < 255 then i + 1 else i)
    ensures old(Enough(b, budget0, ftab[..])) ==> Enough(b, budget, ftab[..]) && budget >= 0
  {
    hide Progress, Done, Overshoot, QuadrantMeaning, InOrder, IsPermutation, StrictSoFar, StrictAt, Fine, CountEq,
      Enough;
    DoneAt(order, bigDone, ftab[..], i);
    assert |order| == 256 && |bigDone| == 256 by { DoneLengths(order, bigDone, ftab[..], i); }
    MainQSort.SameLength(block, quadrant[..], nblock);
    bigDone' := bigDone;
    var ss := order[i];
    ghost var ft0, q := ftab[..], quadrant[..];
    budget := Step1(ptr, block, quadrant[..], nblock, ftab, ss, budget0, b, code);
    if budget < 0 { return; }
    DoneKept(order, bigDone, ft0, ftab[..], i);
    DoneAt(order, bigDone, ftab[..], i);
    assert !bigDone[ss];  // assertion 1006
    ghost var ft1 := ftab[..];
    Step2(ptr, block, nblock, ftab, bigDone, ss, b, code);
    EnoughMarked(b, budget, ft1, ftab[..]);
    DoneKept(order, bigDone, ft1, ftab[..], i);
    DoneNext(order, bigDone, ftab[..], i);
    bigDone' := bigDone[ss := true];
    if i < 255 {
      BigBucket(b, code, ptr[..nblock], ftab[..], ss);
      ProgressSize(b, code, ptr[..nblock], ftab[..]);
      var bbStart := Clear(ftab[256 * ss]);
      var bbSize := Clear(ftab[256 * (ss + 1)]) - bbStart;
      UpdateQuadrant(ptr[..], quadrant, nblock, bbStart, bbSize, block, b, ss);
      QuadrantLength(block, q, nblock);
      if StrictSoFar(b, q, order, i) { StrictNext(b, q, quadrant[..], order, i); }
    }
  }

  lemma DoneLengths(order: seq<int>, bigDone: seq<bool>, ft: seq<int>, i: int)
    requires Done(order, bigDone, ft, i)
    ensures |order| == 256 && |bigDone| == 256
  {
  }

  lemma ProgressSize(b: seq<int>, code: seq<int>, s: seq<int>, ft: seq<int>)
    requires Progress(b, code, s, ft)
    ensures |b| <= 900000
  {
  }

  /** mainSort: sorts the rotations, unless the budget runs out first. */
  method SortMain(ptr: array<int>, block: array<int>, quadrant: array<int>, ftab: array<int>, nblock: nat, budget0: int)
    returns (budget: int)
    requires N_OVERSHOOT < nblock <= 900000 && nblock <= ptr.Length && ftab.Length == PAIRS + 1 && budget0 >= 0
    requires block.Length >= nblock + N_OVERSHOOT && quadrant.Length >= nblock + N_OVERSHOOT
    requires ptr != block && ptr != quadrant && ptr != ftab && block != quadrant && block != ftab && quadrant != ftab
    requires Bytes(block[..nblock])
    modifies ptr, block, quadrant, ftab
    ensures block[..nblock] == old(block[..nblock])
    ensures budget >= 0 ==> SortsRotations(old(block[..nblock]), ptr[..nblock])
    ensures budget >= 0 ==> (StrictMeaning(old(block[..nblock]), quadrant[..]) <==> AllFine(old(block[..nblock])))
    ensures Enough(old(block[..nblock]), budget0, Blank()) ==> budget >= 0
  {
    hide Progress, Done, Overshoot, QuadrantMeaning, RankUp, SortsRotations, Laid, CountEq, S, IsPermutation,
      StrictSoFar, Enough, AllFine, StrictMeaning, Ascending;
    budget := budget0;
    ghost var b := block[..nblock];
    CountPairs(block[..], quadrant, ftab, nblock, b);
    ExtendBlock(block, quadrant, nblock, b);
    Accumulate(ftab, b);
    Place(ptr, ftab, block[..], nblock, b);
    ghost var code := PlaceLays(b, ptr[..nblock]);
    NoMeaning(b, quadrant[..]);
    Begin(b, code, ptr[..nblock], ftab[..]);
    ghost var ft0 := ftab[..];
    var order := RunningOrder(ftab[..]);
    var bigDone := seq(256, t => false);
    DoneStart(order, bigDone, ftab[..]);
    BigCounts(b, ft0);
    StrictStart(b, quadrant[..], order);
    EnoughBlank(b, budget, ft0);
    for i := 0 to 256
      invariant block[..nblock] == b && budget >= 0
      invariant Progress(b, code, ptr[..nblock], ftab[..]) && Done(order, bigDone, ftab[..], i)
      invariant Overshoot(block[..], quadrant[..], nblock) && QuadrantMeaning(b, quadrant[..])
      invariant StrictSoFar(b, quadrant[..], order, if i < 255 then i else 255)
      invariant Enough(b, budget0, Blank()) ==> Enough(b, budget, ftab[..])
    {
      budget, bigDone := SortBig(ptr, block[..], quadrant, nblock, ftab, bigDone, order, i, budget, b, code);
      if budget < 0 { return; }
    }
    DoneAll(b, code, ptr[..nblock], order, bigDone, ftab[..]);
    StrictEnd(b, quadrant[..], order, ft0);
  }

  /** A table in which nothing is marked. */
  ghost function Blank(): (r: seq<int>)
    ensures |r| == PAIRS + 1 && forall c :: 0 <= c <= PAIRS ==> r[c] == 0
  {
    seq(PAIRS + 1, c => 0)
  }

  lemma EnoughBlank(b: seq<int>, budget: int, ft: seq<int>)
    requires |ft| == PAIRS + 1
    ensures Enough(b, budget, Blank()) ==> Enough(b, budget, ft)
  {
    hide Enough;
    EnoughMarked(b, budget, Blank(), ft);
  }

  /** Before anything is sorted the descriptors say nothing. */
  lemma NoMeaning(b: seq<int>, quadrant: seq<int>)
    requires |b| <= |quadrant| && forall i :: 0 <= i < |b| ==> quadrant[i] == 0
    ensures QuadrantMeaning(b, quadrant)
  {
  }

  lemma Begin(b: seq<int>, code: seq<int>, s: seq<int>, ft: seq<int>)
    requires 0 < |b| <= 900000 && Bytes(b) && Laid(b, code, s) && |ft| == PAIRS + 1
    requires forall c :: 0 <= c <= PAIRS ==> ft[c] == S(b, c)
    ensures Progress(b, code, s, ft)
  {
    hide Laid, SmallSorted, S;
    forall c | 0 <= c <= PAIRS ensures 0 <= S(b, c) <= 900000 {
      SEnds(b);
      SGrows(b, 0, c);
      SGrows(b, c, PAIRS);
    }
  }

  /** BZ2_blockSort: leaves in ptr the sorted order of the rotations, finds the one that is the block
      itself, and keeps the block, whatever the work factor. */
  method BlockSort(ptr: array<int>, eclass: array<int>, block: array<int>, quadrant: array<int>, ftab: array<int>,
      bhtab: array<bv32>, nblock: int, workFactor: int) returns (origPtr: int)
    requires 0 < nblock <= 900000 && nblock <= ptr.Length && nblock <= eclass.Length
    requires block.Length >= nblock + N_OVERSHOOT && quadrant.Length >= nblock + N_OVERSHOOT
    requires ftab.Length == PAIRS + 1 && bhtab.Length >= 3 + nblock / 32
    requires ptr != block && ptr != quadrant && ptr != ftab && block != quadrant && block != ftab && quadrant != ftab
    requires ptr != eclass && block != eclass && quadrant != eclass && ftab != eclass
    requires bhtab as object != ptr && bhtab as object != eclass && bhtab as object != block
    requires Bytes(block[..nblock])
    modifies ptr, eclass, block, quadrant, ftab, bhtab
    ensures SortsRotations(old(block[..nblock]), ptr[..nblock])
    ensures block[..nblock] == old(block[..nblock])
    ensures 0 <= origPtr < nblock && ptr[origPtr] == 0
  {
    hide SortsRotations;
    ghost var b := block[..nblock];
    if nblock < 10000 {
      FallbackSort.SortBlock(ptr, eclass, block, bhtab, nblock);
    } else {
      var wfact := workFactor;
      if wfact < 1 { wfact := 1; }
      if wfact > 100 { wfact := 100; }
      var budgetInit := nblock * ((wfact - 1) / 3);
      var budget := SortMain(ptr, block, quadrant, ftab, nblock, budgetInit);
      if budget < 0 {
        FallbackSort.SortBlock(ptr, eclass, block, bhtab, nblock);
      }
    }
    origPtr := FindZero(ptr[..nblock], b);
    assert origPtr != -1;  // assertion 1003
  }

  method FindZero(ptr: seq<int>, ghost b: seq<int>) returns (origPtr: int)
    requires b != [] && SortsRotations(b, ptr)
    ensures 0 <= origPtr < |ptr| && ptr[origPtr] == 0
  {
    ghost var at := Onto(ptr, |b|, 0);
    origPtr := -1;
    for i := 0 to |ptr|
      invariant origPtr == -1 && i <= at
    {
      if ptr[i] == 0 { origPtr := i; break; }
    }
  }
}

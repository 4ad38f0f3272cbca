/** Step 2 of mainSort: the two scans as loops, and what they leave. */
module MainStep2 {

  import opened Rotations
  import opened Counting
  import opened MainSimpleSort
  import opened InducedSort
  import opened MainScan

  /** s is a permutation that has every rotation in its small bucket. */
  ghost predicate Laid(b: seq<int>, code: seq<int>, s: seq<int>) {
    && Codes(b, code) && IsPermutation(s, |b|)
    && (forall p :: 0 <= p < |b| ==> Key2(b)[s[p]] == code[p])
  }

  /** Small bucket c is in order. */
  ghost predicate SmallSorted(b: seq<int>, s: seq<int>, c: int) {
    InOrder(b, s, S(b, c), S(b, c + 1))
  }

  /** The queue of a scan has run empty. */
  lemma QueueEmpty(b: seq<int>, first: seq<int>, v: seq<int>, c: int)
    requires Positions(b, v) && Fed(b, first, v, c) && |v| == |first| + |Collect(b, v, c)|
    ensures v == first + Collect(b, v, c)
  {
    hide Collect;
    forall m | 0 <= m < |v| ensures v[m] == (first + Collect(b, v, c))[m] {
      assert FedAt(b, first, v, c, m);
      if m >= |first| { FedEntry(b, first, v, c, m); }
    }
  }

  lemma ScanEnd(b: seq<int>, up: bool, ss: int, code: seq<int>, base: seq<int>, s: seq<int>, first: seq<int>,
      v: seq<int>, copy: seq<int>, bigDone: seq<bool>)
    requires Scanned(b, up, ss, code, base, s, first, v, copy, bigDone)
    requires ReadAt(b, up, ss, |v|) == copy[ss]
    ensures v == first + Collect(b, v, ss)
  {
    hide Seed, Fed, Collect, S;
    assert copy[ss] == Slot(b, up, Reg(ss, ss), |Collect(b, v, ss)|);
    QueueEmpty(b, first, v, ss);
  }

  lemma AllFitUp(b: seq<int>, ss: int, first: seq<int>, v: seq<int>)
    requires Positions(b, v) && Seed(b, true, first, ss) && Fed(b, first, v, ss)
    ensures Fits(b, ss, v)
  {
    forall t | 0 <= t < 256 ensures |Collect(b, v, t)| <= CountEq(Key2(b), Reg(t, ss)) {
      UpFits(b, ss, first, v, t);
    }
  }

  lemma AllFitDown(b: seq<int>, ss: int, first: seq<int>, v: seq<int>, first': seq<int>, v': seq<int>)
    requires Positions(b, v) && Seed(b, true, first, ss) && Fed(b, first, v, ss)
    requires Positions(b, v') && Seed(b, false, first', ss) && Fed(b, first', v', ss)
    ensures Fits(b, ss, v')
  {
    forall t | 0 <= t < 256 ensures |Collect(b, v', t)| <= CountEq(Key2(b), Reg(t, ss)) {
      DownFits(b, ss, first, v, first', v', t);
    }
  }

  lemma ScanBounds(b: seq<int>, up: bool, ss: int, code: seq<int>, base: seq<int>, s: seq<int>, first: seq<int>,
      v: seq<int>, copy: seq<int>, bigDone: seq<bool>)
    requires Scanned(b, up, ss, code, base, s, first, v, copy, bigDone) && Fits(b, ss, v)
    ensures 0 <= ss < 256 && |copy| == |bigDone| == 256 && Seed(b, up, first, ss) && Fed(b, first, v, ss) && Bytes(b)
    ensures Positions(b, v)
    ensures -1 <= copy[ss] <= |b|
    ensures if up then ReadAt(b, up, ss, |v|) <= copy[ss] else ReadAt(b, up, ss, |v|) >= copy[ss]
  {
    hide Seed, Collect, S, CountEq;
    RegInBig(b, ss, ss);
    SNext(b, Reg(ss, ss));
    if |v| > |first| { FedEntry(b, first, v, ss, |v| - 1); }
  }

  /** Reads big bucket ss upward and places the predecessors at the fronts of their small buckets. */
  method ScanUp(ptr: array<int>, block: seq<int>, copyStart: array<int>, bigDone: seq<bool>, nblock: nat, ss: int,
      from: int, ghost b: seq<int>, ghost code: seq<int>, ghost base: seq<int>, ghost first: seq<int>)
    returns (ghost v: seq<int>)
    requires nblock <= ptr.Length && nblock <= |block| && b == block[..nblock] && ptr != copyStart &&
      copyStart.Length == 256
    requires Scanned(b, true, ss, code, base, ptr[..nblock], first, [], copyStart[..], bigDone)
    requires from == S(b, 256 * ss)
    modifies ptr, copyStart
    ensures Scanned(b, true, ss, code, base, ptr[..nblock], first, v, copyStart[..], bigDone)
    ensures v == first + Collect(b, v, ss)
  {
    hide Scanned, Fed, Seed, Collect, S, Codes, Bytes, Fits;
    v := [];
    var j := from;
    EmptyFits(b, ss);
    ScanBounds(b, true, ss, code, base, ptr[..nblock], first, v, copyStart[..], bigDone);
    while j < copyStart[ss]
      invariant Positions(b, v) && j == ReadAt(b, true, ss, |v|) <= copyStart[ss] <= nblock
      invariant Scanned(b, true, ss, code, base, ptr[..nblock], first, v, copyStart[..], bigDone) && Fits(b, ss, v)
      decreases nblock - j
    {
      ghost var s, copy := ptr[..nblock], copyStart[..];
      ReadNext(b, true, ss, code, base, s, first, v, copy, bigDone, j);
      ghost var x := s[j];
      AllFitUp(b, ss, first, v + [x]);
      var k := ptr[j] - 1;
      if k < 0 { k := k + nblock; }
      assert k == Prev(nblock, x);
      var c1 := block[k];
      ByteAt(b, k);
      if !bigDone[c1] {
        WriteStep(b, true, ss, code, base, s, first, v, copy, bigDone, x);
        ptr[copyStart[c1]] := k;
        copyStart[c1] := copyStart[c1] + 1;
        assert ptr[..nblock] == s[copy[c1] := k];
        assert copyStart[..] == Advance(true, copy, c1);
      } else {
        SkipStep(b, true, ss, code, base, s, first, v, copy, bigDone, x);
      }
      v := v + [x];
      j := j + 1;
      ScanBounds(b, true, ss, code, base, ptr[..nblock], first, v, copyStart[..], bigDone);
    }
    ScanEnd(b, true, ss, code, base, ptr[..nblock], first, v, copyStart[..], bigDone);
  }

  lemma EmptyFits(b: seq<int>, ss: int)
    ensures Fits(b, ss, [])
  {
  }

  lemma ByteAt(b: seq<int>, k: int)
    requires Bytes(b) && 0 <= k < |b|
    ensures 0 <= b[k] < 256
  {
  }

  /** Reads big bucket ss downward and places the predecessors at the backs of their small buckets. */
  method ScanDown(ptr: array<int>, block: seq<int>, copyEnd: array<int>, bigDone: seq<bool>, nblock: nat, ss: int,
      from: int, ghost b: seq<int>, ghost code: seq<int>, ghost base: seq<int>, ghost first: seq<int>,
      ghost up: seq<int>, ghost upFirst: seq<int>)
    returns (ghost v: seq<int>)
    requires nblock <= ptr.Length && nblock <= |block| && b == block[..nblock] && ptr != copyEnd &&
      copyEnd.Length == 256
    requires Scanned(b, false, ss, code, base, ptr[..nblock], first, [], copyEnd[..], bigDone)
    requires Positions(b, up) && Seed(b, true, upFirst, ss) && Fed(b, upFirst, up, ss)
    requires from == S(b, 256 * (ss + 1)) - 1
    modifies ptr, copyEnd
    ensures Scanned(b, false, ss, code, base, ptr[..nblock], first, v, copyEnd[..], bigDone)
    ensures v == first + Collect(b, v, ss)
  {
    hide Scanned, Fed, Seed, Collect, S, Codes, Bytes, Fits;
    v := [];
    var j := from;
    EmptyFits(b, ss);
    ScanBounds(b, false, ss, code, base, ptr[..nblock], first, v, copyEnd[..], bigDone);
    while j > copyEnd[ss]
      invariant Positions(b, v) && j == ReadAt(b, false, ss, |v|) >= copyEnd[ss] >= -1
      invariant Scanned(b, false, ss, code, base, ptr[..nblock], first, v, copyEnd[..], bigDone) && Fits(b, ss, v)
      decreases j + 1
    {
      ghost var s, copy := ptr[..nblock], copyEnd[..];
      ReadNext(b, false, ss, code, base, s, first, v, copy, bigDone, j);
      ghost var x := s[j];
      AllFitDown(b, ss, upFirst, up, first, v + [x]);
      var k := ptr[j] - 1;
      if k < 0 { k := k + nblock; }
      assert k == Prev(nblock, x);
      var c1 := block[k];
      ByteAt(b, k);
      if !bigDone[c1] {
        WriteStep(b, false, ss, code, base, s, first, v, copy, bigDone, x);
        ptr[copyEnd[c1]] := k;
        copyEnd[c1] := copyEnd[c1] - 1;
        assert ptr[..nblock] == s[copy[c1] := k];
        assert copyEnd[..] == Advance(false, copy, c1);
      } else {
        SkipStep(b, false, ss, code, base, s, first, v, copy, bigDone, x);
      }
      v := v + [x];
      j := j - 1;
      ScanBounds(b, false, ss, code, base, ptr[..nblock], first, v, copyEnd[..], bigDone);
    }
    ScanEnd(b, false, ss, code, base, ptr[..nblock], first, v, copyEnd[..], bigDone);
  }

  // ----- what the two scans leave -----

  /** Small bucket c holds rotations of its key, each once and in order. */
  ghost predicate RegDone(b: seq<int>, s: seq<int>, c: int)
    requires |s| == |b|
  {
    && (forall p :: S(b, c) <= p < S(b, c + 1) ==> 0 <= s[p] < |b| && Key2(b)[s[p]] == c)
    && (forall p, q :: S(b, c) <= p < q < S(b, c + 1) ==> NotAfter(b, s[p], s[q]) && s[p] != s[q])
  }

  /** What two scans with empty queues have in common. */
  ghost predicate TwoScans(b: seq<int>, ss: int, first: seq<int>, v: seq<int>, first': seq<int>, v': seq<int>) {
    && Bytes(b) && 0 <= ss < 256
    && Positions(b, v) && Seed(b, true, first, ss) && Fed(b, first, v, ss) && v == first + Collect(b, v, ss)
    && Positions(b, v') && Seed(b, false, first', ss) && Fed(b, first', v', ss) && v' == first' + Collect(b, v', ss)
  }

  lemma CollectedPair(b: seq<int>, up: bool, ss: int, first: seq<int>, v: seq<int>, t: int, i: int, j: int)
    requires Positions(b, v) && Seed(b, up, first, ss) && Fed(b, first, v, ss) && 0 <= i < j < |Collect(b, v, t)|
    ensures var r := Collect(b, v, t); Ahead(b, up, r[i], r[j]) && r[i] != r[j]
  {
    FedSorted(b, up, first, v, ss);
    CollectSorted(b, up, v, t);
    CollectDistinct(b, v, t);
  }

  lemma CollectedKey(b: seq<int>, up: bool, ss: int, first: seq<int>, v: seq<int>, t: int, i: int)
    requires Positions(b, v) && Seed(b, up, first, ss) && Fed(b, first, v, ss) && 0 <= i < |Collect(b, v, t)|
    ensures var r := Collect(b, v, t); 0 <= r[i] < |b| && Key2(b)[r[i]] == Reg(t, ss)
  {
    CollectedKeys(b, up, ss, first, v, t);
    assert Collect(b, v, t)[i] in AsSet(Collect(b, v, t));
  }

  lemma CollectedMember(b: seq<int>, up: bool, ss: int, first: seq<int>, v: seq<int>, t: int, i: int)
    requires Positions(b, v) && Seed(b, up, first, ss) && Fed(b, first, v, ss) && 0 <= i < |Collect(b, v, t)|
    ensures var x := Collect(b, v, t)[i]; 0 <= x < |b| && b[x] == t && Member(b, up, ss, Next(|b|, x))
  {
    var y := Next(|b|, Collect(b, v, t)[i]);
    var m :| 0 <= m < |v| && v[m] == y;
    FedMembers(b, up, first, v, ss, m);
  }

  lemma CollectedAcross(b: seq<int>, ss: int, first: seq<int>, v: seq<int>, first': seq<int>, v': seq<int>, t: int,
      i: int, j: int)
    requires TwoScans(b, ss, first, v, first', v') && 0 <= i < |Collect(b, v, t)| && 0 <= j < |Collect(b, v', t)|
    ensures var x, y := Collect(b, v, t)[i], Collect(b, v', t)[j]; NotAfter(b, x, y) && x != y
  {
    hide Seed, Fed, Collect, Member;
    CollectedMember(b, true, ss, first, v, t, i);
    CollectedMember(b, false, ss, first', v', t, j);
    var x, y := Collect(b, v, t)[i], Collect(b, v', t)[j];
    MembersOrder(b, ss, Next(|b|, x), Next(|b|, y));
    AheadPrev(b, true, Next(|b|, x), Next(|b|, y));
  }

  /** Entry i of a small bucket that was filled with r from the front and with r' from the back. */
  function Met(r: seq<int>, r': seq<int>, i: int): int
    requires 0 <= i < |r| + |r'|
  {
    if i < |r| then r[i] else r'[|r| + |r'| - 1 - i]
  }

  lemma MetPair(b: seq<int>, ss: int, first: seq<int>, v: seq<int>, first': seq<int>, v': seq<int>, t: int, i: int,
      j: int)
    requires TwoScans(b, ss, first, v, first', v') && 0 <= i < j < |Collect(b, v, t)| + |Collect(b, v', t)|
    ensures var r, r' := Collect(b, v, t), Collect(b, v', t);
      NotAfter(b, Met(r, r', i), Met(r, r', j)) && Met(r, r', i) != Met(r, r', j)
  {
    hide Seed, Fed, Collect, S, NotAfter;
    var r := Collect(b, v, t);
    var size := |r| + |Collect(b, v', t)|;
    if j < |r| { CollectedPair(b, true, ss, first, v, t, i, j); }
    else if i < |r| { CollectedAcross(b, ss, first, v, first', v', t, i, size - 1 - j); }
    else { CollectedPair(b, false, ss, first', v', t, size - 1 - j, size - 1 - i); }
  }

  lemma MetKey(b: seq<int>, ss: int, first: seq<int>, v: seq<int>, first': seq<int>, v': seq<int>, t: int, i: int)
    requires TwoScans(b, ss, first, v, first', v') && 0 <= i < |Collect(b, v, t)| + |Collect(b, v', t)|
    ensures var x := Met(Collect(b, v, t), Collect(b, v', t), i); 0 <= x < |b| && Key2(b)[x] == Reg(t, ss)
  {
    hide Seed, Fed, Collect, S;
    var r := Collect(b, v, t);
    if i < |r| { CollectedKey(b, true, ss, first, v, t, i); }
    else { CollectedKey(b, false, ss, first', v', t, |r| + |Collect(b, v', t)| - 1 - i); }
  }

  lemma MetAt(b: seq<int>, ss: int, v: seq<int>, v': seq<int>, s: seq<int>, t: int, p: int)
    requires Positions(b, v) && Positions(b, v') && |s| == |b|
    requires FilledAt(b, true, ss, s, v, t) && FilledAt(b, false, ss, s, v', t)
    requires S(b, Reg(t, ss)) <= p < S(b, Reg(t, ss) + 1) == S(b, Reg(t, ss)) + |Collect(b, v, t)| + |Collect(b, v', t)|
    ensures s[p] == Met(Collect(b, v, t), Collect(b, v', t), p - S(b, Reg(t, ss)))
  {
    hide Collect, S;
    var c := Reg(t, ss);
    var r, r' := Collect(b, v, t), Collect(b, v', t);
    var i := p - S(b, c);
    if i < |r| { assert Slot(b, true, c, i) == p; } else { assert Slot(b, false, c, |r| + |r'| - 1 - i) == p; }
  }

  /** Filled from both ends, small bucket [t, ss] is complete and in order. */
  lemma RegFilled(b: seq<int>, ss: int, first: seq<int>, v: seq<int>, first': seq<int>, v': seq<int>, s: seq<int>,
      t: int, other: int)
    requires TwoScans(b, ss, first, v, first', v') && |s| == |b| && 0 <= t < 256
    requires FilledAt(b, true, ss, s, v, t) && FilledAt(b, false, ss, s, v', t)
    requires 0 <= other < |b| && b[other] != ss
    ensures RegDone(b, s, Reg(t, ss))
  {
    BothComplete(b, ss, first, v, first', v', t, other);
    SNext(b, Reg(t, ss));
    RegFilledOrder(b, ss, first, v, first', v', s, t);
  }

  lemma RegFilledOrder(b: seq<int>, ss: int, first: seq<int>, v: seq<int>, first': seq<int>, v': seq<int>, s: seq<int>,
      t: int)
    requires TwoScans(b, ss, first, v, first', v') && |s| == |b| && 0 <= t < 256
    requires FilledAt(b, true, ss, s, v, t) && FilledAt(b, false, ss, s, v', t)
    requires S(b, Reg(t, ss) + 1) == S(b, Reg(t, ss)) + |Collect(b, v, t)| + |Collect(b, v', t)|
    ensures RegDone(b, s, Reg(t, ss))
  {
    hide Seed, Fed, Collect, S, NotAfter, FilledAt, Met, Reg, Key2;
    var c := Reg(t, ss);
    forall p | S(b, c) <= p < S(b, c + 1) ensures 0 <= s[p] < |b| && Key2(b)[s[p]] == c {
      MetAt(b, ss, v, v', s, t, p);
      MetKey(b, ss, first, v, first', v', t, p - S(b, c));
    }
    forall p, q | S(b, c) <= p < q < S(b, c + 1) ensures NotAfter(b, s[p], s[q]) && s[p] != s[q] {
      MetAt(b, ss, v, v', s, t, p);
      MetAt(b, ss, v, v', s, t, q);
      MetPair(b, ss, first, v, first', v', t, p - S(b, c), q - S(b, c));
    }
  }

  /** In a block of one byte value only, all rotations are equal. */
  lemma {:induction false} UniformEqual(b: seq<int>, c: int, x: int, y: int, h: nat)
    requires (forall i :: 0 <= i < |b| ==> b[i] == c) && 0 <= x < |b| && 0 <= y < |b|
    ensures Cmp(b, x, y, h) == 0
    decreases h
  {
    if h > 0 { UniformEqual(b, c, Next(|b|, x), Next(|b|, y), h - 1); }
  }

  /** The scan downward, over what the scan upward left, changes nothing that that scan has written. */
  lemma UpKept(b: seq<int>, ss: int, code: seq<int>, s1: seq<int>, s2: seq<int>, first: seq<int>, v: seq<int>,
      first': seq<int>, v': seq<int>, copy': seq<int>, bigDone: seq<bool>, t: int)
    requires Scanned(b, false, ss, code, s1, s2, first', v', copy', bigDone)
    requires TwoScans(b, ss, first, v, first', v') && 0 <= t < 256 && !bigDone[t]
    requires FilledAt(b, true, ss, s1, v, t)
    ensures FilledAt(b, true, ss, s2, v, t)
  {
    hide Seed, Fed, Collect, S, CountEq, Filled, FirstIs;
    var c := Reg(t, ss);
    DownFits(b, ss, first, v, first', v', t);
    SNext(b, c);
    forall k | 0 <= k < |Collect(b, v, t)| ensures s2[Slot(b, true, c, k)] == s1[Slot(b, true, c, k)] {
      var p := Slot(b, true, c, k);
      CodeUnique(b, code, p, c);
      assert copy'[t] == Slot(b, false, c, |Collect(b, v', t)|) >= p;
      assert code[p] / 256 == t;
      assert !PutDown(b, false, ss, copy', bigDone, code, p);
    }
  }

  /** A position outside the small buckets [t, ss] that were to be filled keeps its rotation. */
  lemma Kept(b: seq<int>, up: bool, ss: int, code: seq<int>, base: seq<int>, s: seq<int>, first: seq<int>, v: seq<int>,
      copy: seq<int>, bigDone: seq<bool>, p: int)
    requires Scanned(b, up, ss, code, base, s, first, v, copy, bigDone) && 0 <= p < |b|
    requires code[p] % 256 != ss || bigDone[code[p] / 256]
    ensures s[p] == base[p]
  {
    assert !PutDown(b, up, ss, copy, bigDone, code, p);
  }

  /** What step 2 leaves: small buckets [t, ss] complete and in order, everything else as it was. */
  ghost predicate Step2Done(b: seq<int>, ss: int, code: seq<int>, s0: seq<int>, s: seq<int>, bigDone: seq<bool>)
    requires Codes(b, code) && |s| == |s0| == |b| && |bigDone| == 256
  {
    && (forall t :: 0 <= t < 256 && !bigDone[t] ==> RegDone(b, s, Reg(t, ss)))
    && (forall p :: 0 <= p < |b| && (code[p] % 256 != ss || bigDone[code[p] / 256]) ==> s[p] == s0[p])
  }

  lemma ScansDone(b: seq<int>, ss: int, code: seq<int>, s0: seq<int>, s1: seq<int>, s2: seq<int>, first: seq<int>,
      v: seq<int>, copy: seq<int>, first': seq<int>, v': seq<int>, copy': seq<int>, bigDone: seq<bool>, other: int)
    requires Scanned(b, true, ss, code, s0, s1, first, v, copy, bigDone) && v == first + Collect(b, v, ss)
    requires Scanned(b, false, ss, code, s1, s2, first', v', copy', bigDone) && v' == first' + Collect(b, v', ss)
    requires 0 <= other < |b| && b[other] != ss
    ensures Step2Done(b, ss, code, s0, s2, bigDone)
  {
    hide Seed, Fed, Collect, S, CountEq, RegDone, FirstIs, FilledAt, Framed;
    forall t | 0 <= t < 256 && !bigDone[t] ensures RegDone(b, s2, Reg(t, ss)) {
      UpKept(b, ss, code, s1, s2, first, v, first', v', copy', bigDone, t);
      RegFilled(b, ss, first, v, first', v', s2, t, other);
    }
    forall p | 0 <= p < |b| && (code[p] % 256 != ss || bigDone[code[p] / 256]) ensures s2[p] == s0[p] {
      Kept(b, true, ss, code, s0, s1, first, v, copy, bigDone, p);
      Kept(b, false, ss, code, s1, s2, first', v', copy', bigDone, p);
    }
  }

  /** In a block of one byte value the scans read nothing and write nothing. */
  lemma UniformScan(b: seq<int>, up: bool, ss: int, code: seq<int>, base: seq<int>, s: seq<int>, first: seq<int>,
      v: seq<int>, copy: seq<int>, bigDone: seq<bool>)
    requires Scanned(b, up, ss, code, base, s, first, v, copy, bigDone) && v == first + Collect(b, v, ss)
    requires forall i :: 0 <= i < |b| ==> b[i] == ss
    ensures s == base
  {
    hide S, CountEq;
    if first != [] { SeedEntry(b, up, first, ss, 0); }
    assert v != [] ==> FedAt(b, first, v, ss, 0);
    assert v == [];
    forall p | 0 <= p < |b| ensures s[p] == base[p] {
      var t := code[p] / 256;
      if code[p] % 256 == ss {
        assert copy[t] == Slot(b, up, Reg(t, ss), 0);
        assert code[p] == Reg(t, ss);
      }
      assert !PutDown(b, up, ss, copy, bigDone, code, p);
    }
  }

  lemma UniformReg(b: seq<int>, ss: int, code: seq<int>, s: seq<int>, c: int)
    requires Laid(b, code, s) && forall i :: 0 <= i < |b| ==> b[i] == ss
    ensures RegDone(b, s, c)
  {
    hide NotAfter, Key2, Below;
    SGrows(b, c, c + 1);
    forall p | S(b, c) <= p < S(b, c + 1) ensures 0 <= s[p] < |b| && Key2(b)[s[p]] == c {
      CodeUnique(b, code, p, c);
    }
    forall p, q | S(b, c) <= p < q < S(b, c + 1) ensures NotAfter(b, s[p], s[q]) && s[p] != s[q] {
      UniformNotAfter(b, ss, s[p], s[q]);
    }
  }

  lemma UniformDone(b: seq<int>, ss: int, code: seq<int>, s: seq<int>, bigDone: seq<bool>)
    requires Laid(b, code, s) && |bigDone| == 256 && forall i :: 0 <= i < |b| ==> b[i] == ss
    ensures Step2Done(b, ss, code, s, s, bigDone)
  {
    hide RegDone;
    forall t | 0 <= t < 256 && !bigDone[t] ensures RegDone(b, s, Reg(t, ss)) {
      UniformReg(b, ss, code, s, Reg(t, ss));
    }
  }

  lemma UniformNotAfter(b: seq<int>, c: int, x: int, y: int)
    requires (forall i :: 0 <= i < |b| ==> b[i] == c) && 0 <= x < |b| && 0 <= y < |b|
    ensures NotAfter(b, x, y)
  {
    UniformEqual(b, c, x, y, |b|);
  }

  /** After step 2 every rotation is again in its small bucket, once. */
  lemma Step2Laid(b: seq<int>, ss: int, code: seq<int>, s0: seq<int>, s: seq<int>, bigDone: seq<bool>)
    requires Laid(b, code, s0) && |s| == |b| && |bigDone| == 256 && 0 <= ss < 256 &&
      Step2Done(b, ss, code, s0, s, bigDone)
    ensures Laid(b, code, s)
  {
    hide S, NotAfter;
    forall p | 0 <= p < |b| ensures 0 <= s[p] < |b| && Key2(b)[s[p]] == code[p] {
      var t := code[p] / 256;
      if code[p] % 256 == ss && !bigDone[t] {
        assert code[p] == Reg(t, ss);
        assert RegDone(b, s, Reg(t, ss));
      }
    }
    forall p, q | 0 <= p < q < |b| ensures s[p] != s[q] {
      var t := code[p] / 256;
      if code[p] == code[q] && code[p] % 256 == ss && !bigDone[t] {
        assert code[p] == Reg(t, ss);
        assert RegDone(b, s, Reg(t, ss));
      }
    }
  }

  lemma Step2Sorted(b: seq<int>, ss: int, code: seq<int>, s0: seq<int>, s: seq<int>, bigDone: seq<bool>, c: int)
    requires Laid(b, code, s0) && |s| == |b| && |bigDone| == 256 && 0 <= ss < 256 &&
      Step2Done(b, ss, code, s0, s, bigDone)
    requires 0 <= c < 65536
    ensures SmallSorted(b, s0, c) ==> SmallSorted(b, s, c)
    ensures c % 256 == ss && !bigDone[c / 256] ==> SmallSorted(b, s, c)
  {
    hide S, NotAfter;
    if c % 256 == ss && !bigDone[c / 256] {
      assert c == Reg(c / 256, ss);
      assert RegDone(b, s, c);
    } else {
      forall p | S(b, c) <= p < S(b, c + 1) ensures s[p] == s0[p] { CodeUnique(b, code, p, c); }
    }
  }
}

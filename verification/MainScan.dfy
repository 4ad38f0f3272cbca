/** Step 2 of mainSort: two scans over a sorted big bucket fill the small buckets that precede it. */
module MainScan {

  import opened Rotations
  import opened Counting
  import opened MainSimpleSort
  import opened InducedSort

  /** The two-byte key of every position. */
  function Key2(b: seq<int>): (r: seq<int>)
    ensures |r| == |b| && forall i :: 0 <= i < |b| ==> r[i] == 256 * b[i] + b[Next(|b|, i)]
  {
    seq(|b|, i requires 0 <= i < |b| => 256 * b[i] + b[Next(|b|, i)])
  }

  /** Where small bucket c begins. */
  function S(b: seq<int>, c: int): (r: nat)
    ensures r <= |b|
  {
    Below(Key2(b), c)
  }

  lemma SGrows(b: seq<int>, c: int, d: int)
    requires c <= d
    ensures S(b, c) <= S(b, d)
  {
    BelowMonotone(Key2(b), c, d);
  }

  lemma SNext(b: seq<int>, c: int)
    ensures S(b, c + 1) == S(b, c) + CountEq(Key2(b), c)
  {
    BelowStep(Key2(b), c);
  }

  /** code[p] is the small bucket that position p of ptr belongs to. */
  ghost predicate Codes(b: seq<int>, code: seq<int>) {
    && |code| == |b|
    && (forall p :: 0 <= p < |b| ==> 0 <= code[p] < 65536 && S(b, code[p]) <= p < S(b, code[p] + 1))
  }

  lemma CodeUnique(b: seq<int>, code: seq<int>, p: int, c: int)
    requires Codes(b, code) && 0 <= p < |b| && S(b, c) <= p < S(b, c + 1)
    ensures code[p] == c
  {
    if code[p] < c { SGrows(b, code[p] + 1, c); }
    if code[p] > c { SGrows(b, c + 1, code[p]); }
  }

  /** Small bucket [t, ss]. */
  function Reg(t: int, ss: int): int { 256 * t + ss }

  /** Where the k-th rotation goes that a scan puts into small bucket c. */
  function Slot(b: seq<int>, up: bool, c: int, k: int): int {
    if up then S(b, c) + k else S(b, c + 1) - 1 - k
  }

  /** Where a scan of big bucket ss reads its k-th rotation. */
  function ReadAt(b: seq<int>, up: bool, ss: int, k: int): int {
    if up then S(b, 256 * ss) + k else S(b, 256 * (ss + 1)) - 1 - k
  }

  /** The scan has written position p. */
  predicate PutDown(b: seq<int>, up: bool, ss: int, copy: seq<int>, bigDone: seq<bool>, code: seq<int>, p: int)
    requires |copy| == |bigDone| == 256 && 0 <= p < |code| && 0 <= code[p] < 65536
  {
    code[p] % 256 == ss && !bigDone[code[p] / 256] && (if up then p < copy[code[p] / 256] else p > copy[code[p] / 256])
  }

  /** The rotations with which a scan starts: those of big bucket ss on the near side of [ss, ss]. */
  ghost predicate FirstIs(b: seq<int>, up: bool, ss: int, base: seq<int>, first: seq<int>)
    requires |base| == |b|
  {
    && |first| == (if up then S(b, Reg(ss, ss)) - S(b, 256 * ss) else S(b, 256 * (ss + 1)) - S(b, Reg(ss, ss) + 1))
    && (forall k :: 0 <= k < |first| ==> 0 <= ReadAt(b, up, ss, k) < |b| && first[k] == base[ReadAt(b, up, ss, k)])
  }

  /** What has been written so far into small bucket [t, ss]. */
  ghost predicate FilledAt(b: seq<int>, up: bool, ss: int, s: seq<int>, v: seq<int>, t: int)
    requires Positions(b, v) && |s| == |b|
  {
    forall k :: 0 <= k < |Collect(b, v, t)| ==>
      0 <= Slot(b, up, Reg(t, ss), k) < |s| && s[Slot(b, up, Reg(t, ss), k)] == Collect(b, v, t)[k]
  }

  ghost predicate Filled(b: seq<int>, up: bool, ss: int, s: seq<int>, v: seq<int>, bigDone: seq<bool>)
    requires |bigDone| == 256 && Positions(b, v) && |s| == |b|
  {
    forall t :: 0 <= t < 256 && !bigDone[t] ==> FilledAt(b, up, ss, s, v, t)
  }

  /** The next free place of every small bucket [t, ss]. */
  ghost predicate CopyIs(b: seq<int>, up: bool, ss: int, v: seq<int>, copy: seq<int>, bigDone: seq<bool>)
    requires |copy| == |bigDone| == 256 && Positions(b, v)
  {
    forall t :: 0 <= t < 256 ==> copy[t] == Slot(b, up, Reg(t, ss), if bigDone[t] then 0 else |Collect(b, v, t)|)
  }

  /** Only positions of the small buckets that are being filled have changed. */
  ghost predicate Framed(b: seq<int>, up: bool, ss: int, code: seq<int>, base: seq<int>, s: seq<int>, copy: seq<int>,
      bigDone: seq<bool>)
    requires Codes(b, code) && |base| == |s| == |b| && |copy| == |bigDone| == 256
  {
    forall p :: 0 <= p < |b| && !PutDown(b, up, ss, copy, bigDone, code, p) ==> s[p] == base[p]
  }

  /** v has been read by the scan, in this order, and its predecessors have been put in their places. */
  ghost predicate Scanned(b: seq<int>, up: bool, ss: int, code: seq<int>, base: seq<int>, s: seq<int>, first: seq<int>,
      v: seq<int>, copy: seq<int>, bigDone: seq<bool>)
  {
    && Bytes(b) && Codes(b, code) && |base| == |s| == |b| && |copy| == |bigDone| == 256
    && 0 <= ss < 256 && !bigDone[ss]
    && FirstIs(b, up, ss, base, first) && Seed(b, up, first, ss)
    && Positions(b, v) && Fed(b, first, v, ss)
    && CopyIs(b, up, ss, v, copy, bigDone) && Filled(b, up, ss, s, v, bigDone)
    && Framed(b, up, ss, code, base, s, copy, bigDone)
  }

  lemma ScanStart(b: seq<int>, up: bool, ss: int, code: seq<int>, base: seq<int>, first: seq<int>, copy: seq<int>,
      bigDone: seq<bool>)
    requires Bytes(b) && Codes(b, code) && |base| == |b| && |copy| == |bigDone| == 256 && 0 <= ss < 256 && !bigDone[ss]
    requires FirstIs(b, up, ss, base, first) && Seed(b, up, first, ss)
    requires forall t :: 0 <= t < 256 ==> copy[t] == Slot(b, up, Reg(t, ss), 0)
    ensures Scanned(b, up, ss, code, base, base, first, [], copy, bigDone)
  {
  }

  /** The next rotation that is read is the next one of the queue. */
  lemma ReadNext(b: seq<int>, up: bool, ss: int, code: seq<int>, base: seq<int>, s: seq<int>, first: seq<int>,
      v: seq<int>, copy: seq<int>, bigDone: seq<bool>, j: int)
    requires Scanned(b, up, ss, code, base, s, first, v, copy, bigDone)
    requires j == ReadAt(b, up, ss, |v|)
    requires if up then j < copy[ss] else j > copy[ss]
    ensures 0 <= j < |b| && 0 <= s[j] < |b| && Positions(b, v + [s[j]]) && Fed(b, first, v + [s[j]], ss)
  {
    hide Seed, Collect, S;
    var m := |v|;
    RegInBig(b, ss, ss);
    if m < |first| {
      var p := ReadAt(b, up, ss, m);
      assert first[m] == base[p];
      NearSide(b, up, ss, code, p);
      assert !PutDown(b, up, ss, copy, bigDone, code, p);
      SeedPositions(b, up, first, ss, m);
    } else {
      var k := m - |first|;
      assert copy[ss] == Slot(b, up, Reg(ss, ss), |Collect(b, v, ss)|);
      assert j == Slot(b, up, Reg(ss, ss), k);
      assert k < |Collect(b, v, ss)|;
    }
    FedLonger(b, first, v, ss, s[j]);
  }

  lemma SeedPositions(b: seq<int>, up: bool, first: seq<int>, c: int, m: int)
    requires Seed(b, up, first, c) && 0 <= m < |first|
    ensures 0 <= first[m] < |b|
  {
  }

  lemma RegInBig(b: seq<int>, t: int, ss: int)
    requires 0 <= ss < 256
    ensures S(b, 256 * t) <= S(b, Reg(t, ss)) <= S(b, Reg(t, ss) + 1) <= S(b, 256 * (t + 1)) <= |b|
  {
    SGrows(b, 256 * t, Reg(t, ss));
    SGrows(b, Reg(t, ss), Reg(t, ss) + 1);
    SGrows(b, Reg(t, ss) + 1, 256 * (t + 1));
  }

  /** The part of big bucket ss from which a scan starts is not written by it. */
  lemma NearSide(b: seq<int>, up: bool, ss: int, code: seq<int>, p: int)
    requires Codes(b, code) && 0 <= ss < 256 && 0 <= p < |b|
    requires if up then S(b, 256 * ss) <= p < S(b, Reg(ss, ss)) else S(b, Reg(ss, ss) + 1) <= p < S(b, 256 * (ss + 1))
    ensures code[p] % 256 != ss
  {
    hide S;
    var c := code[p];
    if up {
      if c < 256 * ss { SGrows(b, c + 1, 256 * ss); }
      if c >= Reg(ss, ss) { SGrows(b, Reg(ss, ss), c); }
    } else {
      if c <= Reg(ss, ss) { SGrows(b, c + 1, Reg(ss, ss) + 1); }
      if c >= 256 * (ss + 1) { SGrows(b, 256 * (ss + 1), c); }
    }
  }

  lemma FedLonger(b: seq<int>, first: seq<int>, v: seq<int>, c: int, x: int)
    requires Positions(b, v) && Fed(b, first, v, c) && 0 <= x < |b|
    requires if |v| < |first| then x == first[|v|]
      else |v| - |first| < |Collect(b, v, c)| && x == Collect(b, v, c)[|v| - |first|]
    ensures Positions(b, v + [x]) && Fed(b, first, v + [x], c)
  {
    hide Collect;
    var w := v + [x];
    forall m | 0 <= m < |w| ensures FedAt(b, first, w, c, m) {
      if m < |v| { assert FedAt(b, first, v, c, m); assert w[..m] == v[..m]; } else { assert w[..m] == v; }
    }
  }

  // ----- how many can be collected -----

  ghost function AsSet(v: seq<int>): set<int> {
    set i | 0 <= i < |v| :: v[i]
  }

  /** What a scan collects for byte t are positions of small bucket [t, ss]. */
  lemma CollectedKeys(b: seq<int>, up: bool, ss: int, first: seq<int>, v: seq<int>, t: int)
    requires Positions(b, v) && Seed(b, up, first, ss) && Fed(b, first, v, ss)
    ensures AsSet(Collect(b, v, t)) <= Places(Key2(b), Reg(t, ss))
    ensures |AsSet(Collect(b, v, t))| == |Collect(b, v, t)| && Distinct(Collect(b, v, t))
  {
    var r := Collect(b, v, t);
    FedSorted(b, up, first, v, ss);
    CollectDistinct(b, v, t);
    ValuesSize(r);
    forall x | x in AsSet(r) ensures x in Places(Key2(b), Reg(t, ss)) {
      var p :| 0 <= p < |r| && r[p] == x;
      FedBytes(b, up, first, v, ss, Next(|b|, x));
    }
  }

  /** Both scans together collect a rotation at most once. */
  lemma CollectedApart(b: seq<int>, ss: int, first: seq<int>, v: seq<int>, first': seq<int>, v': seq<int>, t: int)
    requires Positions(b, v) && Seed(b, true, first, ss) && Fed(b, first, v, ss)
    requires Positions(b, v') && Seed(b, false, first', ss) && Fed(b, first', v', ss)
    ensures AsSet(Collect(b, v, t)) * AsSet(Collect(b, v', t)) == {}
  {
    forall x | x in AsSet(Collect(b, v, t)) && x in AsSet(Collect(b, v', t)) ensures false {
      var p :| 0 <= p < |Collect(b, v, t)| && Collect(b, v, t)[p] == x;
      var q :| 0 <= q < |Collect(b, v', t)| && Collect(b, v', t)[q] == x;
      var y := Next(|b|, x);
      var i :| 0 <= i < |v| && v[i] == y;
      var j :| 0 <= j < |v'| && v'[j] == y;
      FedMembers(b, true, first, v, ss, i);
      FedMembers(b, false, first', v', ss, j);
      MembersOrder(b, ss, y, y);
    }
  }

  /** The scan upward never runs past the end of a small bucket. */
  lemma UpFits(b: seq<int>, ss: int, first: seq<int>, v: seq<int>, t: int)
    requires Positions(b, v) && Seed(b, true, first, ss) && Fed(b, first, v, ss)
    ensures |Collect(b, v, t)| <= CountEq(Key2(b), Reg(t, ss))
  {
    hide Seed, Fed, Collect;
    CollectedKeys(b, true, ss, first, v, t);
    CountIsSize(Key2(b), Reg(t, ss));
    SubsetSize(AsSet(Collect(b, v, t)), Places(Key2(b), Reg(t, ss)));
  }

  /** The scan downward never runs into what the scan upward has written. */
  lemma DownFits(b: seq<int>, ss: int, first: seq<int>, v: seq<int>, first': seq<int>, v': seq<int>, t: int)
    requires Positions(b, v) && Seed(b, true, first, ss) && Fed(b, first, v, ss)
    requires Positions(b, v') && Seed(b, false, first', ss) && Fed(b, first', v', ss)
    ensures |Collect(b, v, t)| + |Collect(b, v', t)| <= CountEq(Key2(b), Reg(t, ss))
  {
    hide Seed, Fed, Collect;
    CollectedKeys(b, true, ss, first, v, t);
    CollectedKeys(b, false, ss, first', v', t);
    CollectedApart(b, ss, first, v, first', v', t);
    CountIsSize(Key2(b), Reg(t, ss));
    var u := AsSet(Collect(b, v, t)) + AsSet(Collect(b, v', t));
    assert |u| == |Collect(b, v, t)| + |Collect(b, v', t)|;
    SubsetSize(u, Places(Key2(b), Reg(t, ss)));
  }

  /** When both queues have run empty, every small bucket [t, ss] has been filled. */
  lemma BothComplete(b: seq<int>, ss: int, first: seq<int>, v: seq<int>, first': seq<int>, v': seq<int>, t: int,
      other: int)
    requires Positions(b, v) && Seed(b, true, first, ss) && Fed(b, first, v, ss) && v == first + Collect(b, v, ss)
    requires Positions(b, v') && Seed(b, false, first', ss) && Fed(b, first', v', ss) &&
      v' == first' + Collect(b, v', ss)
    requires Bytes(b) && 0 <= t < 256 && 0 <= ss < 256 && 0 <= other < |b| && b[other] != ss
    ensures |Collect(b, v, t)| + |Collect(b, v', t)| == CountEq(Key2(b), Reg(t, ss))
  {
    DownFits(b, ss, first, v, first', v', t);
    CollectedKeys(b, true, ss, first, v, t);
    CollectedKeys(b, false, ss, first', v', t);
    CollectedApart(b, ss, first, v, first', v', t);
    CountIsSize(Key2(b), Reg(t, ss));
    var u := AsSet(Collect(b, v, t)) + AsSet(Collect(b, v', t));
    forall x | x in Places(Key2(b), Reg(t, ss)) ensures x in u {
      AllCollected(b, ss, first, v, first', v', t, other, x);
    }
    SubsetSize(Places(Key2(b), Reg(t, ss)), u);
  }

  lemma AllCollected(b: seq<int>, ss: int, first: seq<int>, v: seq<int>, first': seq<int>, v': seq<int>, t: int,
      other: int, x: int)
    requires Positions(b, v) && Seed(b, true, first, ss) && v == first + Collect(b, v, ss)
    requires Positions(b, v') && Seed(b, false, first', ss) && v' == first' + Collect(b, v', ss)
    requires Bytes(b) && 0 <= t < 256 && 0 <= ss < 256 && 0 <= other < |b| && b[other] != ss
    requires x in Places(Key2(b), Reg(t, ss))
    ensures x in AsSet(Collect(b, v, t)) || x in AsSet(Collect(b, v', t))
  {
    hide Seed;
    var y := Next(|b|, x);
    assert b[x] == t && b[y] == ss by {
      assert 256 * b[x] + b[y] == 256 * t + ss;
    }
    MemberOfEither(b, ss, y, other);
    if Member(b, true, ss, y) {
      var m: nat :| m >= 1 && Leads(b, true, ss, y, m);
      ScanComplete(b, true, first, v, ss, y, m);
      CollectAll(b, v, t, x);
    } else {
      var m: nat :| m >= 1 && Leads(b, false, ss, y, m);
      ScanComplete(b, false, first', v', ss, y, m);
      CollectAll(b, v', t, x);
    }
  }

  // ----- one step of a scan -----

  lemma SlotInReg(b: seq<int>, up: bool, c: int, k: int)
    requires 0 <= k < CountEq(Key2(b), c)
    ensures S(b, c) <= Slot(b, up, c, k) < S(b, c + 1) <= |b|
  {
    hide S, CountEq;
    SNext(b, c);
  }

  /** Slots of different small buckets, and different slots of one, are different positions. */
  lemma SlotsApart(b: seq<int>, code: seq<int>, up: bool, c: int, k: int, c': int, k': int)
    requires Codes(b, code) && 0 <= k < CountEq(Key2(b), c) && 0 <= k' < CountEq(Key2(b), c')
    requires c != c' || k != k'
    ensures Slot(b, up, c, k) != Slot(b, up, c', k')
  {
    hide S, CountEq;
    SlotInReg(b, up, c, k);
    SlotInReg(b, up, c', k');
    CodeUnique(b, code, Slot(b, up, c, k), c);
    CodeUnique(b, code, Slot(b, up, c', k'), c');
  }

  function Advance(up: bool, copy: seq<int>, t: int): seq<int>
    requires 0 <= t < |copy|
  {
    copy[t := if up then copy[t] + 1 else copy[t] - 1]
  }

  /** None of the small buckets [t, ss] is given more than it has room for. */
  ghost predicate Fits(b: seq<int>, ss: int, v: seq<int>)
    requires Positions(b, v)
  {
    forall t :: 0 <= t < 256 ==> |Collect(b, v, t)| <= CountEq(Key2(b), Reg(t, ss))
  }

  lemma FilledStep(b: seq<int>, up: bool, ss: int, code: seq<int>, s: seq<int>, v: seq<int>, copy: seq<int>,
      bigDone: seq<bool>, x: int, t: int)
    requires Codes(b, code) && |copy| == |bigDone| == 256 && |s| == |b| && 0 <= x < |b| && Positions(b, v)
    requires CopyIs(b, up, ss, v, copy, bigDone) && FilledAt(b, up, ss, s, v, t) && 0 <= t < 256
    requires var c1 := b[Prev(|b|, x)]; 0 <= c1 < 256 && !bigDone[c1] && 0 <= copy[c1] < |s|
    requires Fits(b, ss, v + [x])
    ensures FilledAt(b, up, ss, s[copy[b[Prev(|b|, x)]] := Prev(|b|, x)], v + [x], t)
  {
    hide Collect, S, CountEq, Codes;
    var k := Prev(|b|, x);
    var c1 := b[k];
    var w := v + [x];
    var n1 := |Collect(b, v, c1)|;
    CollectNext(b, v, x, t);
    CollectNext(b, v, x, c1);
    assert copy[c1] == Slot(b, up, Reg(c1, ss), n1);
    var r := Collect(b, w, t);
    var s' := s[copy[c1] := k];
    forall i | 0 <= i < |r|
      ensures 0 <= Slot(b, up, Reg(t, ss), i) < |s'| && s'[Slot(b, up, Reg(t, ss), i)] == r[i]
    {
      if t != c1 || i != n1 {
        SlotsApart(b, code, up, Reg(t, ss), i, Reg(c1, ss), n1);
      }
    }
  }

  lemma CopyStep(b: seq<int>, up: bool, ss: int, v: seq<int>, copy: seq<int>, bigDone: seq<bool>, x: int)
    requires |copy| == |bigDone| == 256 && 0 <= x < |b| && Positions(b, v) && CopyIs(b, up, ss, v, copy, bigDone)
    requires 0 <= b[Prev(|b|, x)] < 256
    ensures CopyIs(b, up, ss, v + [x], if bigDone[b[Prev(|b|, x)]] then copy else Advance(up, copy, b[Prev(|b|, x)]),
      bigDone)
  {
    hide Collect, S;
    forall t | 0 <= t < 256
      ensures Collect(b, v + [x], t) == if t == b[Prev(|b|, x)] then Collect(b, v, t) + [Prev(|b|, x)]
        else Collect(b, v, t) {
      CollectNext(b, v, x, t);
    }
  }

  lemma FramedStep(b: seq<int>, up: bool, ss: int, code: seq<int>, base: seq<int>, s: seq<int>, copy: seq<int>,
      bigDone: seq<bool>, c1: int, k: int)
    requires Codes(b, code) && |base| == |s| == |b| && |copy| == |bigDone| == 256 &&
      Framed(b, up, ss, code, base, s, copy, bigDone)
    requires 0 <= c1 < 256 && 0 <= ss < 256 && !bigDone[c1] && 0 <= copy[c1] < |b| && code[copy[c1]] == Reg(c1, ss)
    ensures Framed(b, up, ss, code, base, s[copy[c1] := k], Advance(up, copy, c1), bigDone)
  {
    hide S;
    var s', copy' := s[copy[c1] := k], Advance(up, copy, c1);
    assert Reg(c1, ss) / 256 == c1 && Reg(c1, ss) % 256 == ss;
    forall p | 0 <= p < |b| && !PutDown(b, up, ss, copy', bigDone, code, p) ensures s'[p] == base[p] {
      assert p != copy[c1];
      assert !PutDown(b, up, ss, copy, bigDone, code, p);
    }
  }

  /** The predecessor of a rotation that is read, but belongs to a big bucket that is done, is left alone. */
  lemma SkipStep(b: seq<int>, up: bool, ss: int, code: seq<int>, base: seq<int>, s: seq<int>, first: seq<int>,
      v: seq<int>, copy: seq<int>, bigDone: seq<bool>, x: int)
    requires Scanned(b, up, ss, code, base, s, first, v, copy, bigDone)
    requires 0 <= x < |b| && Positions(b, v + [x]) && Fed(b, first, v + [x], ss)
    requires bigDone[b[Prev(|b|, x)]]
    ensures Scanned(b, up, ss, code, base, s, first, v + [x], copy, bigDone)
  {
    hide Seed, Fed, Collect, S, FirstIs, Framed, CopyIs, Codes;
    CopyStep(b, up, ss, v, copy, bigDone, x);
    forall t | 0 <= t < 256 && !bigDone[t] ensures FilledAt(b, up, ss, s, v + [x], t) {
      CollectNext(b, v, x, t);
      assert FilledAt(b, up, ss, s, v, t);
    }
  }

  /** The predecessor k of the rotation just read goes to the next place of its small bucket. */
  lemma WriteStep(b: seq<int>, up: bool, ss: int, code: seq<int>, base: seq<int>, s: seq<int>, first: seq<int>,
      v: seq<int>, copy: seq<int>, bigDone: seq<bool>, x: int)
    requires Scanned(b, up, ss, code, base, s, first, v, copy, bigDone)
    requires 0 <= x < |b| && Positions(b, v + [x]) && Fed(b, first, v + [x], ss) && Fits(b, ss, v + [x])
    requires !bigDone[b[Prev(|b|, x)]]
    ensures 0 <= copy[b[Prev(|b|, x)]] < |s|
    ensures var k := Prev(|b|, x); var c1 := b[k];
            Scanned(b, up, ss, code, base, s[copy[c1] := k], first, v + [x], Advance(up, copy, c1), bigDone)
  {
    hide Seed, Fed, Collect, S, CountEq, FirstIs, Codes, FilledAt, Framed;
    var k := Prev(|b|, x);
    var c1 := b[k];
    var n1 := |Collect(b, v, c1)|;
    CollectNext(b, v, x, c1);
    SlotInReg(b, up, Reg(c1, ss), n1);
    CodeUnique(b, code, copy[c1], Reg(c1, ss));
    CopyStep(b, up, ss, v, copy, bigDone, x);
    FramedStep(b, up, ss, code, base, s, copy, bigDone, c1, k);
    forall t | 0 <= t < 256 && !bigDone[t] ensures FilledAt(b, up, ss, s[copy[c1] := k], v + [x], t) {
      assert FilledAt(b, up, ss, s, v, t);
      FilledStep(b, up, ss, code, s, v, copy, bigDone, x, t);
    }
  }
}

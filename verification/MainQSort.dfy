/** mainQSort3: three-way radix quicksort of rotations, with an explicit stack of pending ranges. */
module MainQSort {

  import opened Rotations
  import opened Rearrange
  import opened Partition
  import opened PendingRanges
  import opened MainOrder
  import opened MainSimpleSort

  const SMALL_THRESH := 20
  const DEPTH_THRESH := 14
  const STACK_SIZE := 100

  /** A pending range and the number of bytes its rotations are known to agree on. */
  datatype Part = Part(lo: int, hi: int, d: int)

  function Size(p: Part): int { p.hi - p.lo + 1 }

  // ----- order between settled positions and different ranges -----

  ghost predicate Ordered(b: seq<int>, s: seq<int>, own: seq<int>, loSt: int, hiSt: int)
    requires |own| == |s|
  {
    forall p, q :: 0 <= loSt <= p < q <= hiSt && q < |s| && (own[p] != own[q] || own[p] == -1) ==>
      NotAfter(b, s[p], s[q])
  }

  lemma Refine(b: seq<int>, s: seq<int>, t: seq<int>, own: seq<int>, own': seq<int>, loSt: int, hiSt: int, lo: int,
      hi: int, k: int)
    requires |own| == |own'| == |s| && 0 <= loSt <= lo && hi <= hiSt < |s|
    requires Permuted(s, t, lo, hi + 1)
    requires Ordered(b, s, own, loSt, hiSt) && k != -1
    requires forall p :: loSt <= p <= hiSt ==> (own[p] == k <==> lo <= p <= hi)
    requires forall p :: loSt <= p <= hiSt && !(lo <= p <= hi) ==> own'[p] == own[p]
    requires forall p, q :: lo <= p < q <= hi && (own'[p] != own'[q] || own'[p] == -1) ==> NotAfter(b, t[p], t[q])
    ensures Ordered(b, t, own', loSt, hiSt)
  {
    hide NotAfter;
    forall p, q | loSt <= p < q <= hiSt && (own'[p] != own'[q] || own'[p] == -1)
      ensures NotAfter(b, t[p], t[q])
    {
      if lo <= p <= hi && !(lo <= q <= hi) {
        var p' := PermutedSource(s, t, lo, hi + 1, p);
        assert own[p'] == k && own[q] != k;
      } else if lo <= q <= hi && !(lo <= p <= hi) {
        var q' := PermutedSource(s, t, lo, hi + 1, q);
        assert own[q'] == k && own[p] != k;
      }
    }
  }

  // ----- what the byte at depth d decides -----

  /** The key of an entry is the byte d places into its rotation. */
  lemma KeyIsByte(block: seq<int>, quadrant: seq<int>, b: seq<int>, n: nat, x: int, d: nat)
    requires Overshoot(block, quadrant, n) && b == block[..n] && 0 <= x < n && d <= DEPTH_THRESH
    ensures x + d < |block| && K(block, d, x) == b[Adv(n, x, d)]
  {
    AdvOnce(n, x, d);
  }

  lemma SmallerKey(block: seq<int>, quadrant: seq<int>, b: seq<int>, n: nat, x: int, y: int, d: nat)
    requires Overshoot(block, quadrant, n) && b == block[..n] && 0 <= x < n && 0 <= y < n && d <= DEPTH_THRESH
    requires Cmp(b, x, y, d) == 0 && K(block, d, x) < K(block, d, y)
    ensures NotAfter(b, x, y)
  {
    KeyIsByte(block, quadrant, b, n, x, d);
    KeyIsByte(block, quadrant, b, n, y, d);
    Continuation(b, x, y, d);
  }

  lemma EqualKey(block: seq<int>, quadrant: seq<int>, b: seq<int>, n: nat, x: int, y: int, d: nat)
    requires Overshoot(block, quadrant, n) && b == block[..n] && 0 <= x < n && 0 <= y < n && d <= DEPTH_THRESH
    requires Cmp(b, x, y, d) == 0 && K(block, d, x) == K(block, d, y)
    ensures Cmp(b, x, y, d + 1) == 0
  {
    KeyIsByte(block, quadrant, b, n, x, d);
    KeyIsByte(block, quadrant, b, n, y, d);
    OneMore(b, x, y, d);
  }

  /** Entries of equal key agree on one byte more. */
  lemma AlikeDeeper(block: seq<int>, quadrant: seq<int>, b: seq<int>, n: nat, t: seq<int>, lo: int, hi: int, d: nat,
      med: int)
    requires Overshoot(block, quadrant, n) && b == block[..n] && d <= DEPTH_THRESH
    requires Alike(b, t, lo, hi, d) && AllEqual(t, block, d, med, lo, hi)
    ensures Alike(b, t, lo, hi, d + 1)
  {
    assert |b| == n;
    forall p, q | 0 <= p < |t| && 0 <= q < |t| && lo <= p < hi && lo <= q < hi ensures Cmp(b, t[p], t[q], d + 1) == 0 {
      EqualKey(block, quadrant, b, n, t[p], t[q], d);
    }
  }

  lemma AlikeKeyed(block: seq<int>, quadrant: seq<int>, b: seq<int>, n: nat, s: seq<int>, lo: int, hi: int, d: nat)
    requires Overshoot(block, quadrant, n) && b == block[..n] && d <= DEPTH_THRESH && Alike(b, s, lo, hi, d)
    ensures Keyed(s, block, d, lo, hi)
  {
  }

  // ----- the stack -----

  function W(k: nat): (r: nat)
    ensures r >= 1
  {
    if k == 0 then 1 else if k == 1 then 2 else 3 * W(k - 2)
  }

  ghost function Los(st: seq<Part>): (r: seq<int>)
    ensures |r| == |st| && forall k :: 0 <= k < |st| ==> r[k] == st[k].lo
  {
    seq(|st|, k requires 0 <= k < |st| => st[k].lo)
  }

  ghost function His(st: seq<Part>): (r: seq<int>)
    ensures |r| == |st| && forall k :: 0 <= k < |st| ==> r[k] == st[k].hi
  {
    seq(|st|, k requires 0 <= k < |st| => st[k].hi)
  }

  /** Every range holds rotations that agree on d bytes, and slot k holds no more than 1/W(k) of all. */
  ghost predicate Sound(b: seq<int>, s: seq<int>, st: seq<Part>, size: int) {
    forall k :: 0 <= k < |st| ==>
      && 0 <= st[k].d <= DEPTH_THRESH + 1
      && Alike(b, s, st[k].lo, st[k].hi + 1, st[k].d)
      && Size(st[k]) * W(k) <= size
  }

  ghost predicate Pending(b: seq<int>, s: seq<int>, own: seq<int>, st: seq<Part>, loSt: int, hiSt: int) {
    && 0 <= loSt <= hiSt < |s| && |own| == |s|
    && Slots(Los(st), His(st), own, loSt, hiSt)
    && Ordered(b, s, own, loSt, hiSt)
    && Sound(b, s, st, hiSt - loSt + 1)
  }

  /** A measure of what is left to be done; deeper ranges count less. */
  ghost function Work(st: seq<Part>): int {
    if st == [] then 0
    else
      var p := st[|st| - 1];
      Work(st[..|st| - 1]) + 3 * Size(p) * (17 - p.d) + 1
  }

  lemma {:induction false} WorkNat(st: seq<Part>)
    requires forall k :: 0 <= k < |st| ==> Size(st[k]) >= 0 && st[k].d <= 15
    ensures Work(st) >= 0
  {
    if st != [] {
      WorkNat(st[..|st| - 1]);
      var p := st[|st| - 1];
      assert Size(p) * (17 - p.d) >= 0;
    }
  }

  /** Rearranging the top range leaves the other ranges as they are. */
  lemma OthersSound(b: seq<int>, s: seq<int>, t: seq<int>, own: seq<int>, st: seq<Part>, loSt: int, hiSt: int)
    requires |st| > 0 && Pending(b, s, own, st, loSt, hiSt)
    requires var top := st[|st| - 1]; Permuted(s, t, top.lo, top.hi + 1)
    ensures Sound(b, t, st[..|st| - 1], hiSt - loSt + 1)
  {
    hide Ordered, W;
    var e := |st| - 1;
    forall k | 0 <= k < e ensures Alike(b, t, st[k].lo, st[k].hi + 1, st[k].d) {
      assert Los(st)[k] == st[k].lo && His(st)[k] == st[k].hi && Los(st)[e] == st[e].lo && His(st)[e] == st[e].hi;
      forall p | st[k].lo <= p <= st[k].hi ensures t[p] == s[p] {
        assert own[p] == k;
        assert own[p] == e <==> st[e].lo <= p <= st[e].hi;
      }
    }
  }

  lemma PendingTop(b: seq<int>, s: seq<int>, own: seq<int>, st: seq<Part>, loSt: int, hiSt: int)
    requires |st| > 0 && Pending(b, s, own, st, loSt, hiSt)
    ensures var e := |st| - 1; var top := st[e];
            loSt <= top.lo <= top.hi + 1 <= hiSt + 1 && 0 <= top.d <= DEPTH_THRESH + 1 &&
              Alike(b, s, top.lo, top.hi + 1, top.d)
  {
    var e := |st| - 1;
    assert Los(st)[e] == st[e].lo && His(st)[e] == st[e].hi;
  }

  lemma PendingWork(b: seq<int>, s: seq<int>, own: seq<int>, st: seq<Part>, loSt: int, hiSt: int)
    requires Pending(b, s, own, st, loSt, hiSt)
    ensures Work(st) >= 0
  {
    forall k | 0 <= k < |st| ensures Size(st[k]) >= 0 && st[k].d <= 15 {
      assert Los(st)[k] == st[k].lo && His(st)[k] == st[k].hi;
    }
    WorkNat(st);
  }

  lemma SlotsPart(st: seq<Part>, own: seq<int>, loSt: int, hiSt: int)
    requires |st| > 0 && Slots(Los(st), His(st), own, loSt, hiSt)
    ensures var e := |st| - 1; Slots(Los(st[..e]), His(st[..e]), Paint(own, st[e].lo, st[e].hi, -1), loSt, hiSt)
  {
    hide Slots;
    var e := |st| - 1;
    SlotsPop(Los(st), His(st), own, loSt, hiSt);
    assert Los(st)[..e] == Los(st[..e]) && His(st)[..e] == His(st[..e]);
  }

  lemma SettleOrdered(b: seq<int>, s: seq<int>, t: seq<int>, own: seq<int>, st: seq<Part>, loSt: int, hiSt: int)
    requires |st| > 0 && Pending(b, s, own, st, loSt, hiSt)
    requires var top := st[|st| - 1]; Permuted(s, t, top.lo, top.hi + 1) && InOrder(b, t, top.lo, top.hi + 1)
    ensures var top := st[|st| - 1]; Ordered(b, t, Paint(own, top.lo, top.hi, -1), loSt, hiSt)
  {
    hide Sound, Slots, Permuted;
    var e := |st| - 1;
    var top := st[e];
    PendingTop(b, s, own, st, loSt, hiSt);
    TopOwned(b, s, own, st, loSt, hiSt);
    PermutedLength(s, t, top.lo, top.hi + 1);
    Refine(b, s, t, own, Paint(own, top.lo, top.hi, -1), loSt, hiSt, top.lo, top.hi, e);
  }

  lemma WorkPush(st: seq<Part>, p: Part)
    ensures Work(st + [p]) == Work(st) + 3 * Size(p) * (17 - p.d) + 1
  {
    assert (st + [p])[..|st|] == st;
  }

  lemma WorkSettled(st: seq<Part>, top: Part)
    requires Size(top) >= 0 && top.d <= 15
    ensures Work(st) < Work(st + [top])
  {
    WorkPush(st, top);
    assert Size(top) * (17 - top.d) >= 0;
  }

  /** The whole range goes back at one byte more. */
  lemma WorkDeeper(st: seq<Part>, top: Part)
    requires Size(top) > 0
    ensures Work(st + [Part(top.lo, top.hi, top.d + 1)]) < Work(st + [top])
  {
    WorkPush(st, top);
    WorkPush(st, Part(top.lo, top.hi, top.d + 1));
    assert 3 * Size(top) * (17 - top.d) == 3 * Size(top) * (16 - top.d) + 3 * Size(top);
  }

  lemma WorkThree(st: seq<Part>, x: Part, y: Part, z: Part)
    ensures Work(st + [x, y, z]) == Work(st) + 3 * Size(x) * (17 - x.d) + 3 * Size(y) * (17 - y.d) +
      3 * Size(z) * (17 - z.d) + 3
  {
    WorkPush(st, x);
    WorkPush(st + [x], y);
    WorkPush(st + [x] + [y], z);
    assert st + [x] + [y] + [z] == st + [x, y, z];
  }

  /** The top range has been sorted and leaves the stack. */
  lemma SettleTop(b: seq<int>, s: seq<int>, t: seq<int>, own: seq<int>, st: seq<Part>, loSt: int, hiSt: int)
    requires |st| > 0 && Pending(b, s, own, st, loSt, hiSt)
    requires var top := st[|st| - 1]; Permuted(s, t, top.lo, top.hi + 1) && InOrder(b, t, top.lo, top.hi + 1)
    ensures var e := |st| - 1; Pending(b, t, Paint(own, st[e].lo, st[e].hi, -1), st[..e], loSt, hiSt)
  {
    hide Sound, Slots, Ordered, InOrder, Permuted, Work, Alike, W, Los, His, Paint;
    var e := |st| - 1;
    PendingTop(b, s, own, st, loSt, hiSt);
    PermutedLength(s, t, st[e].lo, st[e].hi + 1);
    OthersSound(b, s, t, own, st, loSt, hiSt);
    SlotsPart(st, own, loSt, hiSt);
    SettleOrdered(b, s, t, own, st, loSt, hiSt);
  }

  lemma TopOwned(b: seq<int>, s: seq<int>, own: seq<int>, st: seq<Part>, loSt: int, hiSt: int)
    requires |st| > 0 && Pending(b, s, own, st, loSt, hiSt)
    ensures var e := |st| - 1; forall p :: loSt <= p <= hiSt ==> (own[p] == e <==> st[e].lo <= p <= st[e].hi)
  {
    var e := |st| - 1;
    assert Los(st)[e] == st[e].lo && His(st)[e] == st[e].hi;
  }

  // ----- splitting a range in three -----

  /** x, y and z are the parts u, v and w in some order. */
  predicate Arranged(x: Part, y: Part, z: Part, u: Part, v: Part, w: Part) {
    || (x == u && y == v && z == w) || (x == u && y == w && z == v) || (x == v && y == u && z == w)
    || (x == v && y == w && z == u) || (x == w && y == u && z == v) || (x == w && y == v && z == u)
  }

  /** The lower, middle and upper part of [lo, hi], split at n and m at depth d. */
  function Lower(lo: int, n: int, d: int): Part { Part(lo, n, d) }
  function Middle(n: int, m: int, d: int): Part { Part(n + 1, m - 1, d + 1) }
  function Upper(m: int, hi: int, d: int): Part { Part(m, hi, d) }

  predicate Parts(x: Part, y: Part, z: Part, lo: int, n: int, m: int, hi: int, d: int) {
    lo - 1 <= n < m - 1 && m <= hi + 1 && Arranged(x, y, z, Lower(lo, n, d), Middle(n, m, d), Upper(m, hi, d))
  }

  lemma WorkSplit(st: seq<Part>, top: Part, x: Part, y: Part, z: Part, n: int, m: int)
    requires Parts(x, y, z, top.lo, n, m, top.hi, top.d)
    ensures Work(st + [x, y, z]) < Work(st + [top])
  {
    hide Work;
    WorkPush(st, top);
    WorkThree(st, x, y, z);
    Weights(n - top.lo + 1, m - n - 1, top.hi - m + 1, 17 - top.d);
  }

  lemma Weights(u: int, v: int, w: int, k: int)
    requires v >= 1
    ensures 3 * u * k + 3 * v * (k - 1) + 3 * w * k + 3 <= 3 * (u + v + w) * k
  {
  }

  /** Slot numbers after the top range, in slot e, was split into three. */
  function SplitOwn(own: seq<int>, lo: int, hi: int, e: int, x: Part, y: Part, z: Part): (r: seq<int>)
    ensures |r| == |own|
  {
    Paint(Paint(Paint(Paint(own, lo, hi, -1), x.lo, x.hi, e), y.lo, y.hi, e + 1), z.lo, z.hi, e + 2)
  }

  /** In each part all positions have the slot number of that part. */
  lemma SplitOwnIs(own: seq<int>, lo: int, n: int, m: int, hi: int, d: int, e: int, x: Part, y: Part, z: Part, p: int)
    requires Parts(x, y, z, lo, n, m, hi, d) && 0 <= p < |own|
    ensures var r := SplitOwn(own, lo, hi, e, x, y, z)[p];
            if x.lo <= p <= x.hi then r == e else if y.lo <= p <= y.hi then r == e + 1
            else if z.lo <= p <= z.hi then r == e + 2 else r == own[p] && !(lo <= p <= hi)
  {
  }

  lemma SplitOrdered(block: seq<int>, quadrant: seq<int>, b: seq<int>, nb: nat, s: seq<int>, t: seq<int>, own: seq<int>,
      loSt: int, hiSt: int, lo: int, n: int, m: int, hi: int, d: nat, e: nat, med: int, x: Part, y: Part, z: Part)
    requires Overshoot(block, quadrant, nb) && b == block[..nb] && d <= DEPTH_THRESH
    requires |own| == |s| && 0 <= loSt <= lo && hi <= hiSt < |s|
    requires Permuted(s, t, lo, hi + 1) && Ordered(b, s, own, loSt, hiSt)
    requires forall p :: loSt <= p <= hiSt ==> (own[p] == e <==> lo <= p <= hi)
    requires Alike(b, t, lo, hi + 1, d) && Split3(t, block, d, med, lo, n, m, hi)
    requires Parts(x, y, z, lo, n, m, hi, d)
    ensures Ordered(b, t, SplitOwn(own, lo, hi, e, x, y, z), loSt, hiSt)
  {
    hide NotAfter, Permuted, Ordered, Overshoot, SplitOwn;
    var own' := SplitOwn(own, lo, hi, e, x, y, z);
    PermutedLength(s, t, lo, hi + 1);
    SameLength(block, quadrant, nb);
    forall p, q | lo <= p < q <= hi && (own'[p] != own'[q] || own'[p] == -1) ensures NotAfter(b, t[p], t[q]) {
      SplitOwnIs(own, lo, n, m, hi, d, e, x, y, z, p);
      SplitOwnIs(own, lo, n, m, hi, d, e, x, y, z, q);
      assert (p <= n < q) || (p < m <= q);
      SmallerKey(block, quadrant, b, nb, t[p], t[q], d);
    }
    forall p | loSt <= p <= hiSt && !(lo <= p <= hi) ensures own'[p] == own[p] {
      SplitOwnIs(own, lo, n, m, hi, d, e, x, y, z, p);
    }
    Refine(b, s, t, own, own', loSt, hiSt, lo, hi, e);
  }

  lemma SameLength(block: seq<int>, quadrant: seq<int>, n: nat)
    requires Overshoot(block, quadrant, n)
    ensures n <= |block| && |block[..n]| == n
  {
  }

  lemma SlotsAdd(st: seq<Part>, own: seq<int>, loSt: int, hiSt: int, p: Part)
    requires Slots(Los(st), His(st), own, loSt, hiSt) && loSt <= p.lo <= p.hi + 1 <= hiSt + 1
    requires forall x :: 0 <= x < |own| && p.lo <= x <= p.hi ==> own[x] == -1
    ensures Slots(Los(st + [p]), His(st + [p]), Paint(own, p.lo, p.hi, |st|), loSt, hiSt)
  {
    hide Slots;
    SlotsPush(Los(st), His(st), own, loSt, hiSt, p.lo, p.hi);
    assert Los(st + [p]) == Los(st) + [p.lo] && His(st + [p]) == His(st) + [p.hi];
  }

  lemma SplitSlots(st: seq<Part>, own: seq<int>, loSt: int, hiSt: int, n: int, m: int, x: Part, y: Part, z: Part)
    requires |st| > 0 && Slots(Los(st), His(st), own, loSt, hiSt)
    requires var top := st[|st| - 1];
      loSt <= top.lo <= top.hi + 1 <= hiSt + 1 && Parts(x, y, z, top.lo, n, m, top.hi, top.d)
    ensures var e := |st| - 1;
      Slots(Los(st[..e] + [x, y, z]), His(st[..e] + [x, y, z]), SplitOwn(own, st[e].lo, st[e].hi, e, x, y, z), loSt,
      hiSt)
  {
    hide Slots, Los, His;
    var e := |st| - 1;
    var rest := st[..e];
    SlotsPart(st, own, loSt, hiSt);
    var own0 := Paint(own, st[e].lo, st[e].hi, -1);
    SlotsAdd(rest, own0, loSt, hiSt, x);
    var own1 := Paint(own0, x.lo, x.hi, e);
    SlotsAdd(rest + [x], own1, loSt, hiSt, y);
    var own2 := Paint(own1, y.lo, y.hi, e + 1);
    SlotsAdd(rest + [x] + [y], own2, loSt, hiSt, z);
    assert rest + [x] + [y] + [z] == rest + [x, y, z];
  }

  lemma {:induction false} WStep(k: nat)
    ensures W(k + 1) <= 2 * W(k) && W(k + 2) == 3 * W(k) && 2 * W(k + 1) >= 3 * W(k)
  {
    if k >= 2 { WStep(k - 2); }
  }

  lemma SplitSizes(size: int, total: int, e: nat, a: int, c: int, f: int)
    requires a >= c >= f >= 0 && a + c + f == size && size * W(e) <= total
    ensures a * W(e) <= total && c * W(e + 1) <= total && f * W(e + 2) <= total
  {
    hide W;
    WStep(e);
    var w, w1 := W(e), W(e + 1);
    MulMonotone(a, size, w);
    MulMonotone(w1, 2 * w, c);
    MulMonotone(2 * c, size, w);
    MulMonotone(3 * f, size, w);
    Associate(c, 2, w);
    Associate(f, 3, w);
  }

  lemma MulMonotone(a: int, b: int, w: int)
    requires a <= b && w >= 0
    ensures a * w <= b * w && w * a <= w * b
  {
  }

  lemma Associate(a: int, k: int, w: int)
    ensures a * (k * w) == (k * a) * w && (k * w) * a == (k * a) * w
  {
  }

  /** What a part holds after the partition. */
  ghost predicate PartSound(b: seq<int>, t: seq<int>, p: Part) {
    0 <= p.d <= DEPTH_THRESH + 1 && Alike(b, t, p.lo, p.hi + 1, p.d)
  }

  lemma PartsSound(block: seq<int>, quadrant: seq<int>, b: seq<int>, nb: nat, t: seq<int>,
      lo: int, n: int, m: int, hi: int, d: nat, med: int, x: Part, y: Part, z: Part)
    requires Overshoot(block, quadrant, nb) && b == block[..nb] && d <= DEPTH_THRESH
    requires Alike(b, t, lo, hi + 1, d) && Split3(t, block, d, med, lo, n, m, hi) && Parts(x, y, z, lo, n, m, hi, d)
    ensures PartSound(b, t, x) && PartSound(b, t, y) && PartSound(b, t, z)
  {
    hide Alike, Overshoot, AllBelow, AllEqual, AllAbove;
    AlikeSub(b, t, lo, hi + 1, d, lo, n + 1);
    AlikeSub(b, t, lo, hi + 1, d, n + 1, m);
    AlikeSub(b, t, lo, hi + 1, d, m, hi + 1);
    AlikeDeeper(block, quadrant, b, nb, t, n + 1, m, d, med);
  }

  lemma AlikeSub(b: seq<int>, t: seq<int>, lo: int, hi: int, d: nat, lo': int, hi': int)
    requires Alike(b, t, lo, hi, d) && lo <= lo' && hi' <= hi
    ensures Alike(b, t, lo', hi', d)
  {
  }

  lemma SoundAdd(b: seq<int>, t: seq<int>, st: seq<Part>, size: int, p: Part)
    requires Sound(b, t, st, size) && PartSound(b, t, p) && Size(p) * W(|st|) <= size
    ensures Sound(b, t, st + [p], size)
  {
    hide Alike, W, Size;
    var st' := st + [p];
    forall k | 0 <= k < |st'| ensures PartSound(b, t, st'[k]) && Size(st'[k]) * W(k) <= size {
      if k < |st| { assert st'[k] == st[k]; }
    }
  }

  /** The top range has been partitioned; its parts go onto the stack, the largest first. */
  lemma SplitTop(block: seq<int>, quadrant: seq<int>, b: seq<int>, nb: nat, s: seq<int>, t: seq<int>, own: seq<int>,
      st: seq<Part>, loSt: int, hiSt: int, med: int, n: int, m: int, x: Part, y: Part, z: Part)
    requires Overshoot(block, quadrant, nb) && b == block[..nb]
    requires |st| > 0 && Pending(b, s, own, st, loSt, hiSt)
    requires var top := st[|st| - 1]; top.d <= DEPTH_THRESH && Permuted(s, t, top.lo, top.hi + 1)
    requires var top := st[|st| - 1];
      Split3(t, block, top.d, med, top.lo, n, m, top.hi) && Parts(x, y, z, top.lo, n, m, top.hi, top.d)
    requires Size(x) >= Size(y) >= Size(z)
    ensures var e := |st| - 1; var top := st[e];
            Pending(b, t, SplitOwn(own, top.lo, top.hi, e, x, y, z), st[..e] + [x, y, z], loSt, hiSt)
  {
    hide Sound, Slots, Ordered, Permuted, Alike, W, Los, His, Paint, SplitOwn, Split3, Overshoot;
    var e := |st| - 1;
    var top := st[e];
    var size := hiSt - loSt + 1;
    PendingTop(b, s, own, st, loSt, hiSt);
    PendingSize(b, s, own, st, loSt, hiSt);
    TopOwned(b, s, own, st, loSt, hiSt);
    PermutedLength(s, t, top.lo, top.hi + 1);
    AlikePermuted(b, s, t, top.lo, top.hi + 1, top.d);
    SplitOrdered(block, quadrant, b, nb, s, t, own, loSt, hiSt, top.lo, n, m, top.hi, top.d, e, med, x, y, z);
    SplitSlots(st, own, loSt, hiSt, n, m, x, y, z);
    OthersSound(b, s, t, own, st, loSt, hiSt);
    PartsSound(block, quadrant, b, nb, t, top.lo, n, m, top.hi, top.d, med, x, y, z);
    SplitSizes(Size(top), size, e, Size(x), Size(y), Size(z));
    SoundAdd(b, t, st[..e], size, x);
    SoundAdd(b, t, st[..e] + [x], size, y);
    SoundAdd(b, t, st[..e] + [x] + [y], size, z);
    assert st[..e] + [x] + [y] + [z] == st[..e] + [x, y, z];
  }

  lemma PendingSize(b: seq<int>, s: seq<int>, own: seq<int>, st: seq<Part>, loSt: int, hiSt: int)
    requires |st| > 0 && Pending(b, s, own, st, loSt, hiSt)
    ensures Size(st[|st| - 1]) * W(|st| - 1) <= hiSt - loSt + 1
  {
  }

  /** A whole range of equal keys goes back onto the stack at one byte more. */
  lemma DeepenTop(block: seq<int>, quadrant: seq<int>, b: seq<int>, nb: nat, s: seq<int>, t: seq<int>, own: seq<int>,
      st: seq<Part>, loSt: int, hiSt: int, med: int)
    requires Overshoot(block, quadrant, nb) && b == block[..nb]
    requires |st| > 0 && Pending(b, s, own, st, loSt, hiSt)
    requires var top := st[|st| - 1]; top.d <= DEPTH_THRESH && Permuted(s, t, top.lo, top.hi + 1)
    requires var top := st[|st| - 1]; AllEqual(t, block, top.d, med, top.lo, top.hi + 1)
    ensures var e := |st| - 1; var top := st[e];
      Pending(b, t, own, st[..e] + [Part(top.lo, top.hi, top.d + 1)], loSt, hiSt)
  {
    hide Sound, Slots, Permuted, Alike, W, AllEqual, Overshoot, Ordered;
    var e := |st| - 1;
    var top := st[e];
    var deeper := Part(top.lo, top.hi, top.d + 1);
    PendingTop(b, s, own, st, loSt, hiSt);
    PendingSize(b, s, own, st, loSt, hiSt);
    PermutedLength(s, t, top.lo, top.hi + 1);
    AlikePermuted(b, s, t, top.lo, top.hi + 1, top.d);
    AlikeDeeper(block, quadrant, b, nb, t, top.lo, top.hi + 1, top.d, med);
    OthersSound(b, s, t, own, st, loSt, hiSt);
    SoundAdd(b, t, st[..e], hiSt - loSt + 1, deeper);
    DeepenOrdered(b, s, t, own, st, loSt, hiSt);
    assert Los(st[..e] + [deeper]) == Los(st) && His(st[..e] + [deeper]) == His(st);
  }

  lemma DeepenOrdered(b: seq<int>, s: seq<int>, t: seq<int>, own: seq<int>, st: seq<Part>, loSt: int, hiSt: int)
    requires |st| > 0 && Pending(b, s, own, st, loSt, hiSt)
    requires var top := st[|st| - 1]; Permuted(s, t, top.lo, top.hi + 1)
    ensures |s| == |t| && Ordered(b, t, own, loSt, hiSt)
  {
    hide Sound, Slots, Permuted;
    var e := |st| - 1;
    PendingTop(b, s, own, st, loSt, hiSt);
    TopOwned(b, s, own, st, loSt, hiSt);
    PermutedLength(s, t, st[e].lo, st[e].hi + 1);
    Refine(b, s, t, own, own, loSt, hiSt, st[e].lo, st[e].hi, e);
  }

  function Med3(a: int, b: int, c: int): (m: int)
    ensures m == a || m == b || m == c
    ensures (a <= m || b <= m) && (a <= m || c <= m) && (b <= m || c <= m)
    ensures (a >= m || b >= m) && (a >= m || c >= m) && (b >= m || c >= m)
  {
    var (x, y) := if a > b then (b, a) else (a, b);
    if y > c then (if x > c then x else c) else y
  }

  /** Puts the three parts in order of size, the largest first. */
  method BySize(lo: int, n: int, m: int, hi: int, d: int) returns (x: Part, y: Part, z: Part)
    requires lo - 1 <= n < m - 1 && m <= hi + 1
    ensures Parts(x, y, z, lo, n, m, hi, d) && Size(x) >= Size(y) >= Size(z)
  {
    x, y, z := Part(lo, n, d), Part(m, hi, d), Part(n + 1, m - 1, d + 1);
    if x.hi - x.lo < y.hi - y.lo { x, y := y, x; }
    if y.hi - y.lo < z.hi - z.lo { y, z := z, y; }
    if x.hi - x.lo < y.hi - y.lo { x, y := y, x; }
  }

  /** The stack of the original: three arrays, filled up to sp. */
  class Stack {
    const stackLo: array<int>
    const stackHi: array<int>
    const stackD: array<int>
    var sp: nat

    ghost predicate Valid()
      reads this
    {
      && stackLo.Length == stackHi.Length == stackD.Length == STACK_SIZE && sp <= STACK_SIZE
      && stackLo != stackHi && stackLo != stackD && stackHi != stackD
    }

    ghost function Contents(): (st: seq<Part>)
      reads this, stackLo, stackHi, stackD
      requires Valid()
      ensures |st| == sp
    {
      seq(sp, k requires 0 <= k < sp reads this, stackLo, stackHi,
        stackD requires Valid() => Part(stackLo[k], stackHi[k], stackD[k]))
    }

    constructor ()
      ensures Valid() && Contents() == [] && fresh(stackLo) && fresh(stackHi) && fresh(stackD)
    {
      stackLo := new int[STACK_SIZE];
      stackHi := new int[STACK_SIZE];
      stackD := new int[STACK_SIZE];
      sp := 0;
    }

    method Push(p: Part)
      requires Valid() && sp < STACK_SIZE
      modifies this`sp, stackLo, stackHi, stackD
      ensures Valid() && Contents() == old(Contents()) + [p]
    {
      stackLo[sp], stackHi[sp], stackD[sp] := p.lo, p.hi, p.d;
      sp := sp + 1;
    }

    method Pop() returns (p: Part)
      requires Valid() && sp > 0
      modifies this`sp
      ensures Valid() && old(Contents()) == Contents() + [p]
    {
      sp := sp - 1;
      p := Part(stackLo[sp], stackHi[sp], stackD[sp]);
    }
  }

  lemma WOf20()
    ensures W(20) == 59049
  {
    assert W(6) == 27;
    assert W(12) == 729;
    assert W(16) == 6561;
  }

  lemma {:induction false} WGrows(j: nat, k: nat)
    requires j <= k
    ensures W(j) <= W(k)
  {
    if j < k {
      WStep(k - 1);
      WGrows(j, k - 1);
    }
  }

  /** The depth of the stack stays logarithmic. */
  lemma SlotBound(k: nat, width: int, size: int)
    requires width > SMALL_THRESH && width * W(k) <= size <= 900000
    ensures k <= 19
  {
    hide W;
    assert width * W(k) >= 21 * W(k);
    WOf20();
    if k >= 20 { WGrows(20, k); }
  }

  /** Partitions the range taken off the stack, by the byte at its depth. */
  method SplitPart(ptr: array<int>, block: seq<int>, ghost quadrant: seq<int>, nblock: nat, top: Part,
      ghost b: seq<int>)
    returns (allEqual: bool, n: int, m: int, ghost med: int)
    requires Overshoot(block, quadrant, nblock) && b == block[..nblock]
    requires 0 <= top.lo <= top.hi < ptr.Length && 0 <= top.d <= DEPTH_THRESH
    requires Alike(b, ptr[..], top.lo, top.hi + 1, top.d)
    modifies ptr
    ensures Permuted(old(ptr[..]), ptr[..], top.lo, top.hi + 1)
    ensures Split3(ptr[..], block, top.d, med, top.lo, n, m, top.hi)
    ensures allEqual ==> AllEqual(ptr[..], block, top.d, med, top.lo, top.hi + 1)
  {
    var lo, hi, d := top.lo, top.hi, top.d;
    AlikeKeyed(block, quadrant, b, nblock, ptr[..], lo, hi + 1, d);
    hide Overshoot, Alike;
    var mid := (lo + hi) / 2;
    assert K(block, d, ptr[lo]) == block[ptr[lo] + d];
    assert K(block, d, ptr[hi]) == block[ptr[hi] + d];
    assert K(block, d, ptr[mid]) == block[ptr[mid] + d];
    var pivot := Med3(block[ptr[lo] + d], block[ptr[hi] + d], block[ptr[mid] + d]);
    med := pivot;
    allEqual, n, m := Partition3(ptr, block, d, pivot, lo, hi);
  }

  /** One round: takes a range off the stack and sorts it, or splits it and pushes its parts. */
  method Round(ptr: array<int>, block: seq<int>, quadrant: seq<int>, nblock: nat, stack: Stack, budget0: int,
      ghost b: seq<int>, ghost own0: seq<int>, ghost loSt: int, ghost hiSt: int)
    returns (budget: int, ghost own: seq<int>)
    requires Overshoot(block, quadrant, nblock) && b == block[..nblock] && QuadrantMeaning(b, quadrant)
    requires stack.Valid() && 0 < stack.sp <= 22
    requires ptr != stack.stackLo && ptr != stack.stackHi && ptr != stack.stackD
    requires 0 <= loSt <= hiSt < ptr.Length && hiSt - loSt < 900000
    requires Pending(b, ptr[..], own0, stack.Contents(), loSt, hiSt)
    modifies ptr, stack`sp, stack.stackLo, stack.stackHi, stack.stackD
    ensures stack.Valid() && stack.sp <= 22
    ensures Permuted(old(ptr[..]), ptr[..], loSt, hiSt + 1)
    ensures budget <= budget0
    ensures budget >= 0 ==> Pending(b, ptr[..], own, stack.Contents(), loSt, hiSt)
    ensures budget >= 0 ==> 0 <= Work(stack.Contents()) < Work(old(stack.Contents()))
    ensures old(stack.Contents()) == [Part(loSt, hiSt, old(stack.Contents())[0].d)] && hiSt == loSt + 1 ==>
              stack.Contents() == [] && 8 * (budget0 - budget) <= nblock + 16
  {
    hide Pending, Slots, Ordered, InOrder, Permuted, Alike, Work, W, Overshoot, QuadrantMeaning, Split3, AllEqual,
      Paint, SplitOwn;
    assert stack.sp < STACK_SIZE - 2;  // assertion 1001 of the original
    budget := budget0;
    ghost var s, st := ptr[..], stack.Contents();
    PendingTop(b, s, own0, st, loSt, hiSt);
    PendingSize(b, s, own0, st, loSt, hiSt);
    var top := stack.Pop();
    ghost var rest := stack.Contents();
    assert st == rest + [top] && st[..|rest|] == rest;
    own := own0;
    if top.hi - top.lo < SMALL_THRESH || top.d > DEPTH_THRESH {
      budget := SimpleSort(ptr, block, quadrant, nblock, top.lo, top.hi, top.d, budget, b);
      PermutedWiden(s, ptr[..], top.lo, top.hi + 1, loSt, hiSt + 1);
      if budget < 0 { return; }
      SettleTop(b, s, ptr[..], own0, st, loSt, hiSt);
      WorkSettled(rest, top);
      own := Paint(own0, top.lo, top.hi, -1);
    } else {
      var allEqual, n, m;
      ghost var med;
      allEqual, n, m, med := SplitPart(ptr, block, quadrant, nblock, top, b);
      PermutedWiden(s, ptr[..], top.lo, top.hi + 1, loSt, hiSt + 1);
      if allEqual {
        stack.Push(Part(top.lo, top.hi, top.d + 1));
        DeepenTop(block, quadrant, b, nblock, s, ptr[..], own0, st, loSt, hiSt, med);
        WorkDeeper(rest, top);
      } else {
        SlotBound(|rest|, top.hi - top.lo + 1, hiSt - loSt + 1);
        own := PushParts(ptr, block, quadrant, nblock, stack, top, n, m, b, s, own0, rest, loSt, hiSt, med);
      }
    }
    PendingWork(b, ptr[..], own, stack.Contents(), loSt, hiSt);
  }

  /** Pushes the three parts of a range that was split, the largest first. */
  method PushParts(ghost ptr: array<int>, ghost block: seq<int>, ghost quadrant: seq<int>, ghost nblock: nat,
      stack: Stack, top: Part, n: int, m: int, ghost b: seq<int>, ghost s: seq<int>, ghost own0: seq<int>,
      ghost rest: seq<Part>, ghost loSt: int, ghost hiSt: int, ghost med: int)
    returns (ghost own: seq<int>)
    requires Overshoot(block, quadrant, nblock) && b == block[..nblock]
    requires stack.Valid() && stack.sp <= 19 && stack.Contents() == rest
    requires ptr != stack.stackLo && ptr != stack.stackHi && ptr != stack.stackD
    requires Pending(b, s, own0, rest + [top], loSt, hiSt) && top.d <= DEPTH_THRESH
    requires Permuted(s, ptr[..], top.lo, top.hi + 1) && Split3(ptr[..], block, top.d, med, top.lo, n, m, top.hi)
    modifies stack`sp, stack.stackLo, stack.stackHi, stack.stackD
    ensures stack.Valid() && stack.sp <= 22
    ensures Pending(b, ptr[..], own, stack.Contents(), loSt, hiSt)
    ensures Work(stack.Contents()) < Work(rest + [top])
  {
    hide Pending, Slots, Ordered, InOrder, Permuted, Alike, Work, W, Overshoot, AllBelow, AllEqual, AllAbove, Paint,
      SplitOwn;
    var x, y, z := BySize(top.lo, n, m, top.hi, top.d);
    hide Parts, Size;
    stack.Push(x);
    stack.Push(y);
    stack.Push(z);
    assert rest + [x] + [y] + [z] == rest + [x, y, z];
    ghost var st := rest + [top];
    assert st[|st| - 1] == top && st[..|st| - 1] == rest;
    SplitTop(block, quadrant, b, nblock, s, ptr[..], own0, st, loSt, hiSt, med, n, m, x, y, z);
    WorkSplit(rest, top, x, y, z, n, m);
    own := SplitOwn(own0, top.lo, top.hi, |rest|, x, y, z);
  }

  lemma PendingStart(b: seq<int>, s: seq<int>, loSt: int, hiSt: int, dSt: int)
    requires 0 <= loSt <= hiSt < |s| && 0 <= dSt <= DEPTH_THRESH && Alike(b, s, loSt, hiSt + 1, dSt)
    ensures Pending(b, s, Paint(seq(|s|, _ => -1), loSt, hiSt, 0), [Part(loSt, hiSt, dSt)], loSt, hiSt)
  {
    hide Alike;
  }

  lemma PendingEnd(b: seq<int>, s: seq<int>, own: seq<int>, loSt: int, hiSt: int)
    requires Pending(b, s, own, [], loSt, hiSt)
    ensures InOrder(b, s, loSt, hiSt + 1)
  {
    hide NotAfter;
  }

  /** Sorts ptr[loSt..hiSt], whose rotations agree on their first dSt bytes; when the budget runs out
      the range is left as some rearrangement of itself. */
  method QSort3(ptr: array<int>, block: seq<int>, quadrant: seq<int>, nblock: nat, loSt: int, hiSt: int, dSt: nat,
      budget0: int, ghost b: seq<int>)
    returns (budget: int)
    requires Overshoot(block, quadrant, nblock) && b == block[..nblock] && QuadrantMeaning(b, quadrant)
    requires 0 <= loSt <= hiSt < ptr.Length && hiSt - loSt < 900000 && dSt <= DEPTH_THRESH && budget0 >= 0
    requires Alike(b, ptr[..], loSt, hiSt + 1, dSt)
    modifies ptr
    ensures Permuted(old(ptr[..]), ptr[..], loSt, hiSt + 1)
    ensures budget >= 0 ==> InOrder(b, ptr[..], loSt, hiSt + 1)
    ensures budget <= budget0 && (hiSt == loSt + 1 ==> 8 * (budget0 - budget) <= nblock + 16)
  {
    hide Pending, InOrder, Permuted, Alike, Work, Overshoot, QuadrantMeaning, Paint;
    budget := budget0;
    var stack := new Stack();
    stack.Push(Part(loSt, hiSt, dSt));
    assert stack.Contents() == [Part(loSt, hiSt, dSt)];
    ghost var own := Paint(seq(ptr.Length, _ => -1), loSt, hiSt, 0);
    PendingStart(b, ptr[..], loSt, hiSt, dSt);
    PermutedSelf(ptr[..], loSt, hiSt + 1);
    PendingWork(b, ptr[..], own, stack.Contents(), loSt, hiSt);
    while stack.sp > 0
      invariant stack.Valid() && stack.sp <= 22 && fresh(stack) && fresh(stack.stackLo) && fresh(stack.stackHi) &&
        fresh(stack.stackD)
      invariant Permuted(old(ptr[..]), ptr[..], loSt, hiSt + 1)
      invariant Pending(b, ptr[..], own, stack.Contents(), loSt, hiSt)
      invariant 0 <= budget <= budget0
      invariant hiSt == loSt + 1 ==>
        if stack.sp > 0 then stack.Contents() == [Part(loSt, hiSt, dSt)] && budget == budget0
        else 8 * (budget0 - budget) <= nblock + 16
      invariant Work(stack.Contents()) >= 0
      decreases Work(stack.Contents())
    {
      ghost var s := ptr[..];
      budget, own := Round(ptr, block, quadrant, nblock, stack, budget, b, own, loSt, hiSt);
      PermutedThen(old(ptr[..]), s, ptr[..], loSt, hiSt + 1, loSt, hiSt + 1);
      if budget < 0 { return; }
    }
    PendingEnd(b, ptr[..], own, loSt, hiSt);
  }
}

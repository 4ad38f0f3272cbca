/** Why step 2 of mainSort works: one sorted big bucket tells the order of the rotations that come one place earlier. */
module InducedSort {

  import opened Rotations
  import opened MainSimpleSort

  /** y does not come ahead of x, in the direction of the scan. */
  predicate Ahead(b: seq<int>, up: bool, x: int, y: int) {
    if up then NotAfter(b, x, y) else NotAfter(b, y, x)
  }

  predicate Toward(up: bool, v: int, c: int) {
    if up then v < c else v > c
  }

  ghost predicate Positions(b: seq<int>, v: seq<int>) {
    forall i :: 0 <= i < |v| ==> 0 <= v[i] < |b|
  }

  ghost predicate Sorted(b: seq<int>, up: bool, v: seq<int>) {
    forall i, j :: 0 <= i < j < |v| ==> Ahead(b, up, v[i], v[j])
  }

  ghost predicate Distinct(v: seq<int>) {
    forall i, j :: 0 <= i < j < |v| ==> v[i] != v[j]
  }

  /** The predecessors, among the positions v, that hold byte t, in the order of v. */
  function Collect(b: seq<int>, v: seq<int>, t: int): (r: seq<int>)
    requires Positions(b, v)
    ensures Positions(b, r) && |r| <= |v|
    ensures forall p :: 0 <= p < |r| ==> b[r[p]] == t && Next(|b|, r[p]) in v
  {
    if v == [] then []
    else
      var rest := v[..|v| - 1];
      var k := Prev(|b|, v[|v| - 1]);
      var r := Collect(b, rest, t);
      assert forall p :: 0 <= p < |r| ==> Next(|b|, r[p]) in rest;
      if b[k] == t then r + [k] else r
  }

  lemma CollectNext(b: seq<int>, v: seq<int>, x: int, t: int)
    requires Positions(b, v) && 0 <= x < |b|
    ensures var k := Prev(|b|, x);
      Collect(b, v + [x], t) == if b[k] == t then Collect(b, v, t) + [k] else Collect(b, v, t)
  {
    assert (v + [x])[..|v|] == v;
  }

  lemma {:induction false} CollectPrefix(b: seq<int>, v: seq<int>, m: nat, t: int)
    requires Positions(b, v) && m <= |v|
    ensures Collect(b, v[..m], t) <= Collect(b, v, t)
  {
    if m < |v| {
      var rest := v[..|v| - 1];
      CollectPrefix(b, rest, m, t);
      assert rest[..m] == v[..m];
      assert v == rest + [v[|v| - 1]];
      CollectNext(b, rest, v[|v| - 1], t);
    } else {
      assert v[..m] == v;
    }
  }

  /** Nothing is missed: every predecessor with byte t is collected. */
  lemma {:induction false} CollectAll(b: seq<int>, v: seq<int>, t: int, x: int)
    requires Positions(b, v) && 0 <= x < |b| && b[x] == t && Next(|b|, x) in v
    ensures x in Collect(b, v, t)
  {
    var last := v[|v| - 1];
    var rest := v[..|v| - 1];
    assert v == rest + [last];
    CollectNext(b, rest, last, t);
    if last == Next(|b|, x) {
      assert Prev(|b|, last) == x;
      assert Collect(b, v, t)[|Collect(b, v, t)| - 1] == x;
    } else {
      CollectAll(b, rest, t, x);
      var p :| 0 <= p < |Collect(b, rest, t)| && Collect(b, rest, t)[p] == x;
      assert Collect(b, v, t)[p] == x;
    }
  }

  /** Order is inherited: same byte in front, ordered continuations. */
  lemma AheadPrev(b: seq<int>, up: bool, x: int, y: int)
    requires 0 <= x < |b| && 0 <= y < |b| && Ahead(b, up, x, y) && b[Prev(|b|, x)] == b[Prev(|b|, y)]
    ensures Ahead(b, up, Prev(|b|, x), Prev(|b|, y))
  {
    if up { LePrev(b, x, y); } else { LePrev(b, y, x); }
  }

  lemma LePrev(b: seq<int>, x: int, y: int)
    requires 0 <= x < |b| && 0 <= y < |b| && Le(b, x, y) && b[Prev(|b|, x)] == b[Prev(|b|, y)]
    ensures Le(b, Prev(|b|, x), Prev(|b|, y))
  {
    CmpPrefix(b, x, y, |b| - 1, |b|);
  }

  /** What was collected before the last rotation is read stays ahead of what that rotation adds. */
  lemma CollectAhead(b: seq<int>, up: bool, v: seq<int>, t: int, x: int)
    requires v != [] && Positions(b, v) && Sorted(b, up, v) && b[Prev(|b|, v[|v| - 1])] == t
    requires 0 <= x < |b| && b[x] == t && Next(|b|, x) in v[..|v| - 1]
    ensures Ahead(b, up, x, Prev(|b|, v[|v| - 1]))
  {
    hide Ahead;
    var i :| 0 <= i < |v| - 1 && v[..|v| - 1][i] == Next(|b|, x);
    assert Ahead(b, up, v[i], v[|v| - 1]);
    assert Prev(|b|, v[i]) == x;
    AheadPrev(b, up, v[i], v[|v| - 1]);
  }

  lemma {:induction false} CollectSorted(b: seq<int>, up: bool, v: seq<int>, t: int)
    requires Positions(b, v) && Sorted(b, up, v)
    ensures Sorted(b, up, Collect(b, v, t))
  {
    hide Ahead;
    if v != [] {
      var last := v[|v| - 1];
      var rest := v[..|v| - 1];
      assert v == rest + [last];
      CollectSorted(b, up, rest, t);
      CollectNext(b, rest, last, t);
      var k := Prev(|b|, last);
      var r := Collect(b, rest, t);
      if b[k] == t {
        forall p | 0 <= p < |r| ensures Ahead(b, up, r[p], k) {
          CollectAhead(b, up, v, t, r[p]);
        }
      }
    }
  }

  lemma {:induction false} CollectDistinct(b: seq<int>, v: seq<int>, t: int)
    requires Positions(b, v) && Distinct(v)
    ensures Distinct(Collect(b, v, t))
  {
    if v != [] {
      var last := v[|v| - 1];
      var rest := v[..|v| - 1];
      assert v == rest + [last];
      CollectDistinct(b, rest, t);
      CollectNext(b, rest, last, t);
      assert last !in rest;
      assert Next(|b|, Prev(|b|, last)) == last;
    }
  }

  // ----- the queue of the scan -----

  /** v is read from first and, after that, from what was collected for byte c before it is read. */
  ghost predicate Fed(b: seq<int>, first: seq<int>, v: seq<int>, c: int)
    requires Positions(b, v)
  {
    forall m :: 0 <= m < |v| ==> FedAt(b, first, v, c, m)
  }

  ghost predicate FedAt(b: seq<int>, first: seq<int>, v: seq<int>, c: int, m: int)
    requires Positions(b, v) && 0 <= m < |v|
  {
    if m < |first| then v[m] == first[m]
    else m - |first| < |Collect(b, v[..m], c)| && v[m] == Collect(b, v[..m], c)[m - |first|]
  }

  /** What the scan starts from: the rotations of byte c whose second byte lies toward the start of the scan. */
  ghost predicate Seed(b: seq<int>, up: bool, first: seq<int>, c: int) {
    && Positions(b, first) && Sorted(b, up, first) && Distinct(first)
    && (forall i :: 0 <= i < |first| ==> b[first[i]] == c && Toward(up, b[Next(|b|, first[i])], c))
    && (forall x :: 0 <= x < |b| && b[x] == c && Toward(up, b[Next(|b|, x)], c) ==> x in first)
  }

  /** Rotation x is m bytes c and then a byte toward the start of the scan. */
  ghost predicate Leads(b: seq<int>, up: bool, c: int, x: int, m: nat)
    requires 0 <= x < |b|
    decreases m
  {
    if m == 0 then Toward(up, b[x], c) else b[x] == c && Leads(b, up, c, Next(|b|, x), m - 1)
  }

  ghost predicate Member(b: seq<int>, up: bool, c: int, x: int)
    requires 0 <= x < |b|
  {
    exists m: nat :: m >= 1 && Leads(b, up, c, x, m)
  }

  lemma SecondByte(b: seq<int>, up: bool, c: int, x: int, y: int)
    requires 0 <= x < |b| && 0 <= y < |b| && b[x] == b[y] == c
    requires Toward(up, b[Next(|b|, x)], c) && b[Next(|b|, y)] == c
    ensures Ahead(b, up, x, y)
  {
    var n := |b|;
    if n == 1 {
    } else if up {
      assert Cmp(b, Next(n, x), Next(n, y), n - 1) < 0;
    } else {
      assert Cmp(b, Next(n, y), Next(n, x), n - 1) < 0;
    }
  }

  lemma FedShorter(b: seq<int>, first: seq<int>, v: seq<int>, c: int)
    requires Positions(b, v) && |v| > 0 && Fed(b, first, v, c)
    ensures Fed(b, first, v[..|v| - 1], c)
  {
    var w := v[..|v| - 1];
    forall m | 0 <= m < |w| ensures FedAt(b, first, w, c, m) {
      assert FedAt(b, first, v, c, m);
      assert w[..m] == v[..m];
    }
  }

  /** An entry that came through the queue is what the scan collected at that place. */
  lemma FedEntry(b: seq<int>, first: seq<int>, v: seq<int>, c: int, m: nat)
    requires Positions(b, v) && Fed(b, first, v, c) && |first| <= m < |v|
    ensures m - |first| < |Collect(b, v, c)| && v[m] == Collect(b, v, c)[m - |first|]
  {
    assert FedAt(b, first, v, c, m);
    CollectPrefix(b, v, m, c);
  }

  /** Everything the scan reads is in order and is read once. */
  lemma {:induction false} FedSorted(b: seq<int>, up: bool, first: seq<int>, v: seq<int>, c: int)
    requires Positions(b, v) && Seed(b, up, first, c) && Fed(b, first, v, c)
    ensures Sorted(b, up, v) && Distinct(v)
  {
    hide Ahead, Toward, FedAt;
    if v != [] {
      var m := |v| - 1;
      var w := v[..m];
      FedShorter(b, first, v, c);
      FedSorted(b, up, first, w, c);
      forall i | 0 <= i < m ensures Ahead(b, up, v[i], v[m]) && v[i] != v[m] {
        FedPair(b, up, first, v, c, i);
      }
      assert forall i :: 0 <= i < m ==> w[i] == v[i];
    }
  }

  lemma FedPair(b: seq<int>, up: bool, first: seq<int>, v: seq<int>, c: int, i: nat)
    requires Positions(b, v) && |v| > 0 && Seed(b, up, first, c) && Fed(b, first, v, c) && i < |v| - 1
    requires Sorted(b, up, v[..|v| - 1]) && Distinct(v[..|v| - 1])
    ensures Ahead(b, up, v[i], v[|v| - 1]) && v[i] != v[|v| - 1]
  {
    hide Ahead, Collect, Sorted, Distinct;
    var m := |v| - 1;
    var w := v[..m];
    assert FedAt(b, first, v, c, i) && FedAt(b, first, v, c, m);
    if m < |first| {
      assert Ahead(b, up, first[i], first[m]) && first[i] != first[m] by { SeedPair(b, up, first, c, i, m); }
    } else {
      var r := Collect(b, w, c);
      assert v[m] == r[m - |first|];
      var y := Next(|b|, v[m]);
      assert y in w && b[v[m]] == c;
      assert b[y] == c by { FedBytes(b, up, first, v, c, y); }
      if i < |first| {
        SeedEntry(b, up, first, c, i);
        SecondByte(b, up, c, v[i], v[m]);
        assert Toward(up, b[Next(|b|, v[i])], c) && !Toward(up, b[Next(|b|, v[m])], c);
      } else {
        FedShorter(b, first, v, c);
        FedEntry(b, first, w, c, i);
        CollectSorted(b, up, w, c);
        CollectDistinct(b, w, c);
        SortedPair(b, up, r, i - |first|, m - |first|);
      }
    }
  }

  lemma SortedPair(b: seq<int>, up: bool, r: seq<int>, i: int, j: int)
    requires Sorted(b, up, r) && Distinct(r) && 0 <= i < j < |r|
    ensures Ahead(b, up, r[i], r[j]) && r[i] != r[j]
  {
  }

  lemma SeedPair(b: seq<int>, up: bool, first: seq<int>, c: int, i: int, j: int)
    requires Seed(b, up, first, c) && 0 <= i < j < |first|
    ensures Ahead(b, up, first[i], first[j]) && first[i] != first[j]
  {
  }

  lemma SeedEntry(b: seq<int>, up: bool, first: seq<int>, c: int, i: int)
    requires Seed(b, up, first, c) && 0 <= i < |first|
    ensures 0 <= first[i] < |b| && b[first[i]] == c && Toward(up, b[Next(|b|, first[i])], c)
  {
  }

  /** Everything the scan reads begins with byte c. */
  lemma FedBytes(b: seq<int>, up: bool, first: seq<int>, v: seq<int>, c: int, x: int)
    requires Positions(b, v) && Seed(b, up, first, c) && Fed(b, first, v, c) && x in v
    ensures 0 <= x < |b| && b[x] == c
  {
    var m :| 0 <= m < |v| && v[m] == x;
    assert FedAt(b, first, v, c, m);
  }

  /** Everything the scan reads is a run of byte c that leads toward the start of the scan. */
  lemma {:induction false} FedMembers(b: seq<int>, up: bool, first: seq<int>, v: seq<int>, c: int, i: nat)
    requires Positions(b, v) && Seed(b, up, first, c) && Fed(b, first, v, c) && i < |v|
    ensures Member(b, up, c, v[i])
    decreases i
  {
    assert FedAt(b, first, v, c, i);
    if i < |first| {
      assert Leads(b, up, c, Next(|b|, v[i]), 0);
      assert Leads(b, up, c, v[i], 1);
    } else {
      var y := Next(|b|, v[i]);
      assert y in v[..i];
      var j :| 0 <= j < i && v[..i][j] == y;
      FedMembers(b, up, first, v, c, j);
      var m: nat :| m >= 1 && Leads(b, up, c, y, m);
      assert Leads(b, up, c, v[i], m + 1);
    }
  }

  /** When the queue has run empty, every such run has been read. */
  lemma {:induction false} ScanComplete(b: seq<int>, up: bool, first: seq<int>, v: seq<int>, c: int, x: int, m: nat)
    requires Positions(b, v) && Seed(b, up, first, c) && v == first + Collect(b, v, c)
    requires 0 <= x < |b| && m >= 1 && Leads(b, up, c, x, m)
    ensures x in v
    decreases m
  {
    var y := Next(|b|, x);
    if m == 1 {
      assert Leads(b, up, c, y, 0);
      assert x in first;
    } else {
      assert Leads(b, up, c, y, m - 1);
      ScanComplete(b, up, first, v, c, y, m - 1);
      CollectAll(b, v, c, x);
    }
  }

  /** A run that leads down comes before a run that leads up. */
  lemma {:induction false} KindsOrder(b: seq<int>, c: int, x: int, y: int, m: nat, k: nat)
    requires 0 <= x < |b| && 0 <= y < |b| && Leads(b, true, c, x, m) && Leads(b, false, c, y, k)
    ensures Cmp(b, x, y, m + k + 1) < 0
    decreases m + k
  {
    if m > 0 && k > 0 {
      KindsOrder(b, c, Next(|b|, x), Next(|b|, y), m - 1, k - 1);
      CmpPrefix(b, Next(|b|, x), Next(|b|, y), m + k - 1, m + k);
    }
  }

  lemma MembersOrder(b: seq<int>, c: int, x: int, y: int)
    requires 0 <= x < |b| && 0 <= y < |b| && Member(b, true, c, x) && Member(b, false, c, y)
    ensures NotAfter(b, x, y) && x != y
  {
    var m: nat :| m >= 1 && Leads(b, true, c, x, m);
    var k: nat :| k >= 1 && Leads(b, false, c, y, k);
    KindsOrder(b, c, x, y, m, k);
    CmpDecided(b, x, y, m + k + 1);
    CmpSelf(b, x, m + k + 1);
  }

  /** Unless the whole block is byte c, every rotation that begins with it is a run of one kind or the other. */
  lemma {:induction false} SomeKind(b: seq<int>, c: int, x: int, h: nat)
    requires 0 <= x < |b| && b[Adv(|b|, x, h)] != c
    ensures exists m: nat, up: bool :: Leads(b, up, c, x, m)
    decreases h
  {
    if b[x] != c {
      assert Leads(b, b[x] < c, c, x, 0);
    } else {
      SomeKind(b, c, Next(|b|, x), h - 1);
      var m: nat, up: bool :| Leads(b, up, c, Next(|b|, x), m);
      assert Leads(b, up, c, x, m + 1);
    }
  }

  lemma MemberOfEither(b: seq<int>, c: int, x: int, other: int)
    requires 0 <= x < |b| && b[x] == c && 0 <= other < |b| && b[other] != c
    ensures Member(b, true, c, x) || Member(b, false, c, x)
  {
    var h := if other >= x then other - x else other - x + |b|;
    AdvOnce(|b|, x, h);
    SomeKind(b, c, x, h);
    var m: nat, up: bool :| Leads(b, up, c, x, m);
    assert m >= 1;
  }
}

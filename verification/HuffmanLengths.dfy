/** BZ2_hbMakeCodeLengths: code lengths from frequencies, by joining the lightest nodes and, when a length comes
    out too great, by flattening the weights and starting over. */
module HuffmanLengths {

  import opened Powers
  import opened Counting
  import opened HuffmanHeap
  import opened HuffmanTree

  // ----- packed weights: the weight proper above, the height of the node in the low byte -----

  function WeightOf(x: int): int { x / 256 }

  function HeightOf(x: int): (d: nat)
    ensures d < 256
  {
    x % 256
  }

  function Max(x: int, y: int): int { if x > y then x else y }

  /** ADDWEIGHTS. The two fields do not run into each other as long as the height fits in its byte. */
  function AddWeights(x: int, y: int): (r: int)
    requires Max(HeightOf(x), HeightOf(y)) < 255
    ensures WeightOf(r) == WeightOf(x) + WeightOf(y) && HeightOf(r) == 1 + Max(HeightOf(x), HeightOf(y))
  {
    256 * (WeightOf(x) + WeightOf(y)) + (1 + Max(HeightOf(x), HeightOf(y)))
  }

  lemma LighterWeight(x: int, y: int)
    requires x <= y
    ensures WeightOf(x) <= WeightOf(y)
  {
  }

  /** The weight of all trees in the forest. */
  function RootSum(parent: seq<int>, w: seq<int>, n: int): int
    requires 0 <= n < |parent| && n < |w|
    decreases n
  {
    if n == 0 then 0 else RootSum(parent, w, n - 1) + (if parent[n] == -1 then WeightOf(w[n]) else 0)
  }

  lemma {:induction false} RootSumMark(parent: seq<int>, w: seq<int>, n: int, i: int, m: int)
    requires 0 <= n < |parent| && n < |w| && 1 <= i < |parent| && i < |w| && parent[i] == -1 && m != -1
    ensures RootSum(parent[i := m], w, n) == RootSum(parent, w, n) - (if i <= n then WeightOf(w[i]) else 0)
    decreases n
  {
    if n > 0 { RootSumMark(parent, w, n - 1, i, m); }
  }

  lemma {:induction false} RootSumFrame(parent: seq<int>, w: seq<int>, parent': seq<int>, w': seq<int>, n: int)
    requires 0 <= n < |parent| && n < |w| && n < |parent'| && n < |w'|
    requires forall i :: 1 <= i <= n ==> parent'[i] == parent[i] && w'[i] == w[i]
    ensures RootSum(parent', w', n) == RootSum(parent, w, n)
    decreases n
  {
    if n > 0 { RootSumFrame(parent, w, parent', w', n - 1); }
  }

  lemma {:induction false} RootPart(parent: seq<int>, w: seq<int>, n: int, i: int)
    requires 1 <= i <= n < |parent| && n < |w| && parent[i] == -1
    requires forall k :: 1 <= k <= n ==> WeightOf(w[k]) >= 0
    ensures WeightOf(w[i]) <= RootSum(parent, w, n)
    decreases n
  {
    if i < n { RootPart(parent, w, n - 1, i); } else { RootSumPositive(parent, w, n - 1); }
  }

  lemma {:induction false} RootSumPositive(parent: seq<int>, w: seq<int>, n: int)
    requires 0 <= n < |parent| && n < |w| && forall k :: 1 <= k <= n ==> WeightOf(w[k]) >= 0
    ensures RootSum(parent, w, n) >= 0
    decreases n
  {
    if n > 0 { RootSumPositive(parent, w, n - 1); }
  }

  // ----- what holds of the weights while nodes are joined -----

  /** A node of height d weighs at least Least(d), and low bounds what is left in the heap: no root is lighter,
      and the child that gives a root its height is not heavier. */
  ghost predicate Weighed(parent: seq<int>, w: seq<int>, n: int, low: int, total: int) {
    && 0 <= n < |parent| && n < |w| && low >= 1
    && (forall i :: 1 <= i <= n ==> NodeWeighed(parent, w, n, low, i))
    && RootSum(parent, w, n) == total
  }

  ghost predicate NodeWeighed(parent: seq<int>, w: seq<int>, n: int, low: int, i: int)
    requires 1 <= i <= n < |parent| && n < |w|
  {
    && Least(HeightOf(w[i])) <= WeightOf(w[i])
    && (parent[i] == -1 ==> WeightOf(w[i]) >= low && (HeightOf(w[i]) >= 1 ==> Least(HeightOf(w[i]) - 1) <= low))
    && (parent[i] != -1 ==> 1 <= parent[i] <= n && HeightOf(w[parent[i]]) >= HeightOf(w[i]) + 1)
  }

  lemma WeighedAt(parent: seq<int>, w: seq<int>, n: int, low: int, total: int, i: int)
    requires Weighed(parent, w, n, low, total) && 1 <= i <= n
    ensures NodeWeighed(parent, w, n, low, i) && WeightOf(w[i]) >= 1
    ensures parent[i] == -1 ==> WeightOf(w[i]) <= total
  {
    if parent[i] == -1 {
      forall k | 1 <= k <= n ensures WeightOf(w[k]) >= 0 { assert NodeWeighed(parent, w, n, low, k); }
      RootPart(parent, w, n, i);
    }
  }

  /** The joined node is heavy enough for its height. */
  lemma JoinedHeavy(x: int, y: int, low: int)
    requires Max(HeightOf(x), HeightOf(y)) < 255 && x <= y && low >= 1
    requires Least(HeightOf(x)) <= WeightOf(x) && WeightOf(x) >= low &&
      (HeightOf(x) >= 1 ==> Least(HeightOf(x) - 1) <= low)
    requires Least(HeightOf(y)) <= WeightOf(y) && WeightOf(y) >= low &&
      (HeightOf(y) >= 1 ==> Least(HeightOf(y) - 1) <= low)
    ensures var v := AddWeights(x, y);
            Least(HeightOf(v)) <= WeightOf(v) && WeightOf(v) >= WeightOf(y) && Least(HeightOf(v) - 1) <= WeightOf(y)
  {
    var v := AddWeights(x, y);
    var d := Max(HeightOf(x), HeightOf(y));
    LighterWeight(x, y);
    hide WeightOf, HeightOf, AddWeights;
    if d > 0 { assert Least(d + 1) == Least(d) + Least(d - 1); }
  }

  /** n1 and n2 are two roots and no other root is lighter than the heavier of them, n2. */
  ghost predicate TwoLightest(parent: seq<int>, w: seq<int>, n: int, n1: int, n2: int) {
    && n < |parent| && n < |w| && 1 <= n1 <= n && 1 <= n2 <= n && n1 != n2 && parent[n1] == -1 && parent[n2] == -1
    && w[n1] <= w[n2]
    && (forall i :: 1 <= i <= n && parent[i] == -1 && i != n1 ==> w[n2] <= w[i])
  }

  /** The two nodes to be joined are light enough for their heights to fit. */
  lemma JoinFits(parent: seq<int>, w: seq<int>, n: int, low: int, total: int, n1: int, n2: int)
    requires Weighed(parent, w, n, low, total) && total < 0x80_0000
    requires 1 <= n1 <= n && 1 <= n2 <= n && parent[n1] == -1 && parent[n2] == -1 && w[n1] <= w[n2]
    ensures Max(HeightOf(w[n1]), HeightOf(w[n2])) <= 32
    ensures var v := AddWeights(w[n1], w[n2]);
            Least(HeightOf(v)) <= WeightOf(v) && WeightOf(v) >= WeightOf(w[n2]) >= 1 &&
              Least(HeightOf(v) - 1) <= WeightOf(w[n2])
    ensures low <= WeightOf(w[n2])
  {
    hide WeightOf, HeightOf, AddWeights, Least, Weighed;
    assert low >= 1 && n < |parent| && n < |w| by { WeighedLow(parent, w, n, low, total); }
    WeighedAt(parent, w, n, low, total, n1);
    WeighedAt(parent, w, n, low, total, n2);
    HeightBounded(HeightOf(w[n1]), WeightOf(w[n1]));
    HeightBounded(HeightOf(w[n2]), WeightOf(w[n2]));
    JoinedHeavy(w[n1], w[n2], low);
  }

  lemma WeighedLow(parent: seq<int>, w: seq<int>, n: int, low: int, total: int)
    requires Weighed(parent, w, n, low, total)
    ensures low >= 1 && 0 <= n < |parent| && n < |w|
  {
  }

  lemma JoinNode(parent: seq<int>, w: seq<int>, n: int, low: int, n1: int, n2: int, v: int, low': int, i: int)
    requires 1 <= n1 <= n && 1 <= n2 <= n && n1 != n2 && n + 1 < |parent| && n + 1 < |w| && 1 <= i <= n
    requires parent[n1] == -1 && parent[n2] == -1 && NodeWeighed(parent, w, n, low, i)
    requires HeightOf(v) == 1 + Max(HeightOf(w[n1]), HeightOf(w[n2])) && low <= low'
    requires parent[i] == -1 && i != n1 && i != n2 ==> low' <= WeightOf(w[i])
    ensures NodeWeighed(Joined(parent, n1, n2, n + 1), w[n + 1 := v], n + 1, low', i)
  {
    hide WeightOf, HeightOf, Least;
  }

  lemma JoinWeighed(parent: seq<int>, w: seq<int>, a: int, n: int, low: int, total: int, n1: int, n2: int)
    requires Forest(parent, a, n) && Weighed(parent, w, n, low, total) && n + 1 < |parent| && n + 1 < |w| &&
      total < 0x80_0000
    requires TwoLightest(parent, w, n, n1, n2)
    ensures Max(HeightOf(w[n1]), HeightOf(w[n2])) <= 32
    ensures Weighed(Joined(parent, n1, n2, n + 1), w[n + 1 := AddWeights(w[n1], w[n2])], n + 1, WeightOf(w[n2]), total)
  {
    JoinFits(parent, w, n, low, total, n1, n2);
    var m, x := n + 1, AddWeights(w[n1], w[n2]);
    var p, v, low' := Joined(parent, n1, n2, m), w[m := x], WeightOf(w[n2]);
    hide WeightOf, HeightOf, AddWeights, Least;
    forall i | 1 <= i <= m ensures NodeWeighed(p, v, m, low', i) {
      if i <= n {
        if i != n1 { if parent[i] == -1 { LighterWeight(w[n2], w[i]); } }
        JoinNode(parent, w, n, low, n1, n2, x, low', i);
      }
    }
    JoinSum(parent, w, n, n1, n2, v);
  }

  lemma JoinSum(parent: seq<int>, w: seq<int>, n: int, n1: int, n2: int, v: seq<int>)
    requires 1 <= n1 <= n && 1 <= n2 <= n && n1 != n2 && n + 1 < |parent| && n + 1 < |w| == |v|
    requires parent[n1] == -1 && parent[n2] == -1
    requires (forall i :: 1 <= i <= n ==> v[i] == w[i]) && WeightOf(v[n + 1]) == WeightOf(w[n1]) + WeightOf(w[n2])
    ensures RootSum(Joined(parent, n1, n2, n + 1), v, n + 1) == RootSum(parent, w, n)
  {
    var m := n + 1;
    RootSumMark(parent, w, n, n1, m);
    RootSumMark(parent[n1 := m], w, n, n2, m);
    RootSumFrame(parent[n1 := m][n2 := m], w, Joined(parent, n1, n2, m), v, n);
  }

  // ----- one round -----

  /** The heap holds exactly the roots. */
  ghost predicate HoldsRoots(w: seq<int>, h: seq<int>, nHeap: int, parent: seq<int>, n: int) {
    Ordered(w, h, nHeap) && AreRoots(Held(h, nHeap), parent, n)
  }

  ghost predicate AreRoots(held: multiset<int>, parent: seq<int>, n: int) {
    0 <= n < |parent| && forall x :: held[x] == if 1 <= x <= n && parent[x] == -1 then 1 else 0
  }

  /** A round of joining, with n nodes so far. */
  ghost predicate Joining(w: seq<int>, parent: seq<int>, h: seq<int>, nHeap: int, a: int, n: int, low: int,
      total: int) {
    && |w| == |parent| == 516 && |h| == 260 && 2 <= a <= 258 && nHeap == 2 * a - n
    && Forest(parent, a, n) && parent[n] == -1 && HoldsRoots(w, h, nHeap, parent, n)
    && Weighed(parent, w, n, low, total)
    && total < 0x80_0000 && w[0] == 0
  }

  lemma PickedTwo(w: seq<int>, held: multiset<int>, parent: seq<int>, n: int, n1: int, n2: int)
    requires AreRoots(held, parent, n) && n < |w| && Lightest(w, held, n1) && Lightest(w, held - multiset{n1}, n2)
    ensures TwoLightest(parent, w, n, n1, n2)
  {
    assert n2 in held;
    forall i | 1 <= i <= n && parent[i] == -1 && i != n1 ensures i < |w| && w[n2] <= w[i] {
      assert i in held && i in held - multiset{n1};
    }
  }

  lemma JoinedRoots(held: multiset<int>, parent: seq<int>, n: int, n1: int, n2: int)
    requires 0 <= n && n + 1 < |parent| && 1 <= n1 <= n && 1 <= n2 <= n && n1 != n2
    requires AreRoots(held, parent, n) && parent[n1] == -1 && parent[n2] == -1
    ensures AreRoots(held - multiset{n1} - multiset{n2} + multiset{n + 1}, Joined(parent, n1, n2, n + 1), n + 1)
  {
  }

  lemma NotHeldYet(held: multiset<int>, parent: seq<int>, n: int)
    requires AreRoots(held, parent, n)
    ensures n + 1 !in held
  {
  }

  /** Takes out the two lightest roots. */
  method PopTwo(heap: array<int>, weight: seq<int>, nHeap0: int, ghost parent: seq<int>, ghost n: int)
      returns (n1: int, n2: int, nHeap: int)
    requires nHeap0 > 1 && HoldsRoots(weight, heap[..], nHeap0, parent, n) && n + 1 < |parent| && n < |weight|
    modifies heap
    ensures nHeap == nHeap0 - 2 && Ordered(weight, heap[..], nHeap) && n + 1 !in Held(heap[..], nHeap)
    ensures TwoLightest(parent, weight, n, n1, n2)
    ensures AreRoots(Held(heap[..], nHeap) + multiset{n + 1}, Joined(parent, n1, n2, n + 1), n + 1)
  {
    OrderedNodes(weight, heap[..], nHeap0);
    ghost var held := Held(heap[..], nHeap0);
    hide Ordered, Held, AreRoots, Lightest, TwoLightest;
    n1, nHeap := PopLeast(heap, weight, nHeap0);
    n2, nHeap := PopLeast(heap, weight, nHeap);
    PickedTwo(weight, held, parent, n, n1, n2);
    JoinedRoots(held, parent, n, n1, n2);
    NotHeldYet(held, parent, n);
  }

  /** Joins the two lightest trees. */
  method JoinTwo(heap: array<int>, weight: array<int>, parent: array<int>, nHeap0: int, nNodes0: int, ghost a: int,
      ghost low: int, ghost total: int)
    returns (nHeap: int, nNodes: int, ghost low': int)
    requires heap != weight && heap != parent && weight != parent && nHeap0 > 1
    requires Joining(weight[..], parent[..], heap[..], nHeap0, a, nNodes0, low, total)
    modifies heap, weight, parent
    ensures nHeap == nHeap0 - 1 && nNodes == nNodes0 + 1
    ensures Joining(weight[..], parent[..], heap[..], nHeap, a, nNodes, low', total)
    ensures forall i :: 0 <= i <= nNodes0 < weight.Length ==> weight[i] == old(weight[i])
  {
    ghost var w0, p0 := weight[..], parent[..];
    assert 2 <= nNodes0 && nNodes0 + 1 < 516;
    hide Ordered, Held, Weighed, Forest, AddWeights, HeightOf, WeightOf, AreRoots, Max, Joined;
    var n1, n2;
    n1, n2, nHeap := PopTwo(heap, weight[..], nHeap0, p0, nNodes0);
    ghost var h := heap[..];
    assert weight[..] == w0 && parent[..] == p0;
    JoinWeighed(p0, w0, a, nNodes0, low, total, n1, n2);
    JoinedForest(p0, a, nNodes0, n1, n2);
    low' := WeightOf(w0[n2]);
    nNodes := nNodes0 + 1;
    NewNode(weight, parent, n1, n2, nNodes);
    ghost var w, p := weight[..], parent[..];
    assert heap[..] == h;
    OrderedFrame(w0, w, h, nHeap, nNodes);
    PositiveWeight(p, w, nNodes, low', total);
    nHeap := Push(heap, weight[..], nHeap, nNodes);
    assert weight[..] == w && parent[..] == p;
  }

  method NewNode(weight: array<int>, parent: array<int>, n1: int, n2: int, nNodes: int)
    requires weight != parent && 1 <= n1 < nNodes < weight.Length && 1 <= n2 < nNodes < parent.Length
    requires Max(HeightOf(weight[n1]), HeightOf(weight[n2])) < 255
    modifies weight, parent
    ensures parent[..] == old(Joined(parent[..], n1, n2, nNodes)) && parent[nNodes] == -1
    ensures weight[..] == old(weight[..][nNodes := AddWeights(weight[n1], weight[n2])])
  {
    hide AddWeights, HeightOf;
    parent[n1] := nNodes;
    parent[n2] := nNodes;
    weight[nNodes] := AddWeights(weight[n1], weight[n2]);
    parent[nNodes] := -1;
  }

  lemma PositiveWeight(parent: seq<int>, w: seq<int>, n: int, low: int, total: int)
    requires Weighed(parent, w, n, low, total) && n >= 1
    ensures w[n] >= 0
  {
    WeighedAt(parent, w, n, low, total, n);
  }

  /** The weights of the leaves: no heights yet, and every weight at least one. */
  ghost predicate Leaves(w: seq<int>, a: int) {
    && |w| == 516 && 2 <= a <= 258 && w[0] == 0
    && (forall i :: 1 <= i <= a ==> HeightOf(w[i]) == 0 && WeightOf(w[i]) >= 1)
  }

  function LeafSum(w: seq<int>, a: int): int
    requires 0 <= a < |w|
    decreases a
  {
    if a == 0 then 0 else LeafSum(w, a - 1) + WeightOf(w[a])
  }

  lemma {:induction false} LeafRoots(parent: seq<int>, w: seq<int>, a: int)
    requires 0 <= a < |w| && a < |parent| && forall i :: 1 <= i <= a ==> parent[i] == -1
    ensures RootSum(parent, w, a) == LeafSum(w, a)
    decreases a
  {
    if a > 0 { LeafRoots(parent, w, a - 1); }
  }

  lemma RoundStarts(w: seq<int>, parent: seq<int>, h: seq<int>, a: int)
    requires Leaves(w, a) && LeafSum(w, a) < 0x80_0000 && |parent| == 516 && |h| == 260
    requires (forall i :: 1 <= i <= a ==> parent[i] == -1) && HoldsRoots(w, h, a, parent, a)
    ensures Joining(w, parent, h, a, a, a, 1, LeafSum(w, a))
  {
    LeafRoots(parent, w, a);
    hide HeightOf, WeightOf, HoldsRoots;
    forall i | 1 <= i <= a ensures NodeWeighed(parent, w, a, 1, i) { }
  }

  /** Puts the leaves into the heap. */
  method StartRound(heap: array<int>, weight: array<int>, parent: array<int>, alphaSize: int)
    returns (nHeap: int)
    requires heap != weight && heap != parent && weight != parent && heap.Length == 260 && parent.Length == 516
    requires Leaves(weight[..], alphaSize) && LeafSum(weight[..], alphaSize) < 0x80_0000
    modifies heap, parent
    ensures nHeap == alphaSize
    ensures Joining(weight[..], parent[..], heap[..], nHeap, alphaSize, alphaSize, 1, LeafSum(weight[..], alphaSize))
  {
    hide Ordered, Held, HeightOf, WeightOf, LeafSum;
    nHeap := 0;
    heap[0] := 0;
    parent[0] := -2;
    EmptyHeap(weight[..], heap[..], parent[..]);
    for i := 1 to alphaSize + 1
      invariant nHeap == i - 1 && HoldsRoots(weight[..], heap[..], nHeap, parent[..], i - 1)
      invariant forall k :: 1 <= k < i ==> parent[k] == -1
    {
      ghost var held, p0 := Held(heap[..], nHeap), parent[..];
      parent[i] := -1;
      assert weight[i] >= 0 by { LeafPositive(weight[..], alphaSize, i); }
      nHeap := Push(heap, weight[..], nHeap, i);
      OneMoreRoot(held, p0, parent[..], i - 1);
    }
    assert nHeap < 260;  // assertion 2001
    RoundStarts(weight[..], parent[..], heap[..], alphaSize);
  }

  lemma EmptyHeap(w: seq<int>, h: seq<int>, parent: seq<int>)
    requires |w| > 0 && w[0] == 0 && |h| > 0 && h[0] == 0 && |parent| > 0
    ensures HoldsRoots(w, h, 0, parent, 0)
  {
    assert h[1..1] == [];
  }

  lemma LeafPositive(w: seq<int>, a: int, i: int)
    requires Leaves(w, a) && 1 <= i <= a
    ensures w[i] >= 0
  {
  }

  lemma OneMoreRoot(held: multiset<int>, parent: seq<int>, parent': seq<int>, n: int)
    requires 0 <= n && n + 1 < |parent| == |parent'| && parent' == parent[n + 1 := -1]
    requires AreRoots(held, parent, n)
    ensures AreRoots(held + multiset{n + 1}, parent', n + 1)
  {
  }

  /** When one tree is left it is full, and the height of its root bounds every length. */
  lemma RoundEnds(w: seq<int>, parent: seq<int>, h: seq<int>, a: int, n: int, low: int, total: int)
    requires Joining(w, parent, h, 1, a, n, low, total)
    ensures Tree(parent, a, n) && n == 2 * a - 1
    ensures forall i :: 1 <= i <= n ==> Depth(parent, n, i) <= HeightOf(w[n])
    ensures Least(HeightOf(w[n])) <= total
  {
    assert Held(h, 1) == multiset{h[1]} by { assert h[1..2] == [h[1]]; }
    hide Held, Ordered;
    assert h[1] == n by { assert Held(h, 1)[n] == 1; }
    forall i | 1 <= i < n ensures parent[i] != -1 { assert Held(h, 1)[i] == 0; }
    forall i | 1 <= i <= n ensures Depth(parent, n, i) <= HeightOf(w[n]) {
      LowerIsSmaller(parent, w, a, n, low, total, i);
    }
    WeighedAt(parent, w, n, low, total, n);
  }

  lemma {:induction false} LowerIsSmaller(parent: seq<int>, w: seq<int>, a: int, n: int, low: int, total: int, i: int)
    requires Tree(parent, a, n) && Weighed(parent, w, n, low, total) && 1 <= i <= n
    ensures Depth(parent, n, i) + HeightOf(w[i]) <= HeightOf(w[n])
    decreases n - i
  {
    WeighedAt(parent, w, n, low, total, i);
    if i < n { LowerIsSmaller(parent, w, a, n, low, total, parent[i]); }
  }

  /** One round: joins all leaves into one tree. */
  method Round(heap: array<int>, weight: array<int>, parent: array<int>, alphaSize: int) returns (nNodes: int)
    requires heap != weight && heap != parent && weight != parent && heap.Length == 260 && parent.Length == 516
    requires Leaves(weight[..], alphaSize) && LeafSum(weight[..], alphaSize) < 0x80_0000
    modifies heap, weight, parent
    ensures forall i :: 0 <= i <= alphaSize < weight.Length ==> weight[i] == old(weight[i])
    ensures nNodes == 2 * alphaSize - 1 && Tree(parent[..], alphaSize, nNodes) && weight.Length == 516
    ensures forall i :: 1 <= i <= nNodes ==> Depth(parent[..], nNodes, i) <= HeightOf(weight[nNodes])
    ensures Least(HeightOf(weight[nNodes])) <= old(LeafSum(weight[..], alphaSize))
  {
    ghost var w0, total := weight[..], LeafSum(weight[..], alphaSize);
    nNodes := alphaSize;
    var nHeap := StartRound(heap, weight, parent, alphaSize);
    ghost var low := 1;
    assert alphaSize >= 2;
    hide Joining, Leaves, LeafSum, HeightOf;
    while nHeap > 1
      invariant 1 <= nHeap && alphaSize <= nNodes
      invariant Joining(weight[..], parent[..], heap[..], nHeap, alphaSize, nNodes, low, total)
      invariant forall i :: 0 <= i <= alphaSize < weight.Length ==> weight[i] == w0[i]
      decreases nHeap
    {
      nHeap, nNodes, low := JoinTwo(heap, weight, parent, nHeap, nNodes, alphaSize, low, total);
    }
    JoiningSizes(weight[..], parent[..], heap[..], nHeap, alphaSize, nNodes, low, total);
    assert nNodes < 516;  // assertion 2002
    RoundEnds(weight[..], parent[..], heap[..], alphaSize, nNodes, low, total);
  }

  lemma JoiningSizes(w: seq<int>, parent: seq<int>, h: seq<int>, nHeap: int, a: int, n: int, low: int, total: int)
    requires Joining(w, parent, h, nHeap, a, n, low, total)
    ensures nHeap == 2 * a - n && |w| == |parent| == 516 && a <= 258
  {
  }

  /** The lengths, read off the parents. */
  method ReadLengths(parent: seq<int>, len: array<int>, alphaSize: int, maxLen: int, ghost n: int)
      returns (tooLong: bool)
    requires Tree(parent, alphaSize, n) && alphaSize <= len.Length
    modifies len
    ensures forall i :: 0 <= i < alphaSize ==> len[i] == Depth(parent, n, i + 1)
    ensures tooLong <==> exists i :: 0 <= i < alphaSize && len[i] > maxLen
  {
    ghost var at := 0;
    tooLong := false;
    for i := 1 to alphaSize + 1
      invariant forall x :: 0 <= x < i - 1 ==> len[x] == Depth(parent, n, x + 1)
      invariant tooLong ==> 0 <= at < i - 1 && len[at] > maxLen
      invariant !tooLong ==> forall x :: 0 <= x < i - 1 ==> len[x] <= maxLen
    {
      var j := 0;
      var k := i;
      while parent[k] >= 0
        invariant 1 <= k <= n && j >= 0 && j + Depth(parent, n, k) == Depth(parent, n, i)
        decreases n - k
      {
        k := parent[k];
        j := j + 1;
      }
      len[i - 1] := j;
      if j > maxLen {
        tooLong := true;
        at := i - 1;
      }
    }
  }

  /** 1 + j / 2, as a weight without height. */
  function Halved(x: int): (r: int)
    ensures HeightOf(r) == 0 && WeightOf(r) == 1 + WeightOf(x) / 2
  {
    (1 + WeightOf(x) / 2) * 256
  }

  lemma {:induction false} HalvedSum(w: seq<int>, w': seq<int>, a: int)
    requires 0 <= a < |w| == |w'| && forall i :: 1 <= i <= a ==> WeightOf(w[i]) >= 1 && w'[i] == Halved(w[i])
    ensures LeafSum(w', a) <= LeafSum(w, a) && LeafSum(w, a) >= a
    ensures LeafSum(w, a) > 2 * a ==> LeafSum(w', a) < LeafSum(w, a)
    decreases a
  {
    hide WeightOf, Halved;
    if a > 0 { HalvedSum(w, w', a - 1); }
  }

  method Flatten(weight: array<int>, alphaSize: int)
    requires Leaves(weight[..], alphaSize)
    modifies weight
    ensures Leaves(weight[..], alphaSize) && LeafSum(weight[..], alphaSize) <= old(LeafSum(weight[..], alphaSize))
    ensures old(LeafSum(weight[..], alphaSize)) > 2 * alphaSize ==>
      LeafSum(weight[..], alphaSize) < old(LeafSum(weight[..], alphaSize))
  {
    ghost var w0 := weight[..];
    hide HeightOf, WeightOf, Halved;
    for i := 1 to alphaSize + 1
      invariant weight[0] == 0
      invariant forall k :: 1 <= k < i ==> weight[k] == Halved(w0[k])
      invariant forall k :: i <= k <= alphaSize ==> weight[k] == w0[k]
    {
      weight[i] := Halved(weight[i]);
    }
    HalvedSum(w0, weight[..], alphaSize);
  }

  /** The frequencies with zeros counted as ones. */
  function Total(freq: seq<int>, a: int): int
    requires 0 <= a <= |freq|
    decreases a
  {
    if a == 0 then 0 else Total(freq, a - 1) + (if freq[a - 1] == 0 then 1 else freq[a - 1])
  }

  method StartWeights(freq: seq<int>, alphaSize: int) returns (weight: array<int>)
    requires 2 <= alphaSize <= 258 && alphaSize <= |freq| && forall i :: 0 <= i < alphaSize ==> freq[i] >= 0
    ensures fresh(weight) && Leaves(weight[..], alphaSize) && LeafSum(weight[..], alphaSize) == Total(freq, alphaSize)
  {
    weight := new int[516];
    weight[0] := 0;
    for i := 0 to alphaSize
      invariant weight[0] == 0
      invariant forall k :: 1 <= k <= i ==> weight[k] == (if freq[k - 1] == 0 then 1 else freq[k - 1]) * 256
    {
      weight[i + 1] := (if freq[i] == 0 then 1 else freq[i]) * 256;
    }
    StartSum(freq, weight[..], alphaSize);
  }

  lemma {:induction false} StartSum(freq: seq<int>, w: seq<int>, a: int)
    requires 0 <= a <= |freq| && a < |w| &&
      forall k :: 1 <= k <= a ==> w[k] == (if freq[k - 1] == 0 then 1 else freq[k - 1]) * 256
    ensures LeafSum(w, a) == Total(freq, a)
    decreases a
  {
    if a > 0 { StartSum(freq, w, a - 1); }
  }

  /** A length above twelve cannot come from weights of one and two, so flattening makes the weights smaller. */
  lemma TooLongIsHeavy(parent: seq<int>, n: int, a: int, h: nat, total: int, i: int, maxLen: int)
    requires Tree(parent, a, n) && 1 <= i <= n && Depth(parent, n, i) <= h && Least(h) <= total && maxLen >= 12
    requires Depth(parent, n, i) > maxLen && a <= 258
    ensures total > 2 * a
  {
    hide Least, Depth;
    LeastSmall();
    LeastGrows(13, h);
  }

  lemma AtMostMax(parent: seq<int>, a: int, n: int, len: seq<int>, maxLen: int)
    requires Tree(parent, a, n) && |len| == a && maxLen >= 0
    requires forall i :: 0 <= i < a ==> len[i] == Depth(parent, n, i + 1) && len[i] <= maxLen
    ensures forall i :: 1 <= i <= n ==> Depth(parent, n, i) <= maxLen
  {
    forall i | 1 <= i <= n ensures Depth(parent, n, i) <= maxLen {
      var k := LeafBelow(parent, a, n, i);
      assert len[k - 1] == Depth(parent, n, k);
    }
  }

  /** Below every node there is a leaf. */
  lemma {:induction false} LeafBelow(parent: seq<int>, a: int, n: int, i: int) returns (k: int)
    requires Tree(parent, a, n) && 1 <= i <= n
    ensures 1 <= k <= a && Depth(parent, n, k) >= Depth(parent, n, i)
    decreases i
  {
    if i <= a { k := i; }
    else {
      var c := InnerHasChild(parent, n, i, n);
      assert Depth(parent, n, c) == 1 + Depth(parent, n, i);
      k := LeafBelow(parent, a, n, c);
    }
  }

  /** Code lengths for every alphabet and every frequencies that fit: between one and maxLen, with Kraft sum exactly
      one. */
  method MakeCodeLengths(len: array<int>, freq: seq<int>, alphaSize: int, maxLen: int)
    requires 2 <= alphaSize <= 258 && alphaSize <= len.Length && alphaSize <= |freq| && maxLen >= 12
    requires (forall i :: 0 <= i < alphaSize ==> freq[i] >= 0) && Total(freq, alphaSize) < 0x80_0000
    modifies len
    ensures forall i :: 0 <= i < alphaSize ==> 1 <= len[i] <= maxLen
    ensures Kraft(len[..alphaSize], maxLen) == Pow2(maxLen)
  {
    hide Leaves, LeafSum, HeightOf, Tree, Depth, Least, Kraft, Total;
    var heap, parent := new int[260], new int[516];
    var weight := StartWeights(freq, alphaSize);
    while true
      invariant fresh(heap) && fresh(parent) && fresh(weight) && heap != parent && heap != weight && parent != weight
      invariant Leaves(weight[..], alphaSize) && LeafSum(weight[..], alphaSize) < 0x80_0000
      decreases LeafSum(weight[..], alphaSize)
    {
      ghost var w0, total := weight[..], LeafSum(weight[..], alphaSize);
      var nNodes := Round(heap, weight, parent, alphaSize);
      SameLeaves(w0, weight[..], alphaSize);
      var tooLong := ReadLengths(parent[..], len, alphaSize, maxLen, nNodes);
      if !tooLong {
        LengthsAreGood(parent[..], alphaSize, nNodes, len[..alphaSize], maxLen);
        break;
      }
      ghost var i :| 0 <= i < alphaSize && len[i] > maxLen;
      TooLongIsHeavy(parent[..], nNodes, alphaSize, HeightOf(weight[nNodes]), total, i + 1, maxLen);
      Flatten(weight, alphaSize);
    }
  }

  lemma SameLeaves(w: seq<int>, w': seq<int>, a: int)
    requires Leaves(w, a) && |w'| == 516 && forall i :: 0 <= i <= a ==> w'[i] == w[i]
    ensures Leaves(w', a) && LeafSum(w', a) == LeafSum(w, a)
  {
    SameSum(w, w', a);
  }

  lemma {:induction false} SameSum(w: seq<int>, w': seq<int>, a: int)
    requires 0 <= a < |w| && a < |w'| && forall i :: 0 <= i <= a ==> w'[i] == w[i]
    ensures LeafSum(w', a) == LeafSum(w, a)
    decreases a
  {
    if a > 0 { SameSum(w, w', a - 1); }
  }

  lemma LengthsAreGood(parent: seq<int>, a: int, n: int, len: seq<int>, maxLen: int)
    requires Tree(parent, a, n) && |len| == a && a < n && maxLen >= 0
    requires forall i :: 0 <= i < a ==> len[i] == Depth(parent, n, i + 1) && len[i] <= maxLen
    ensures forall i :: 0 <= i < a ==> 1 <= len[i] <= maxLen
    ensures Kraft(len, maxLen) == Pow2(maxLen)
  {
    AtMostMax(parent, a, n, len, maxLen);
    KraftIsOne(parent, a, n, len, maxLen);
    forall i | 0 <= i < a ensures 1 <= len[i] { DepthBounded(parent, a, n, i + 1); }
  }
}

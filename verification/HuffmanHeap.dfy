/** The priority queue of the Huffman construction: nodes in an array heap, ordered by packed weight. */
module HuffmanHeap {

  /** Entry k is not before its parent; entries run from 1. */
  ghost predicate Ordered(w: seq<int>, h: seq<int>, n: int) {
    && Nodes(w, h, n)
    && (forall k :: 2 <= k <= n ==> w[h[k / 2]] <= w[h[k]])
  }

  /** Entry 0 is a sentinel that is not heavier than any. */
  ghost predicate Nodes(w: seq<int>, h: seq<int>, n: int) {
    && 0 <= n < |h| && 0 < |w| && h[0] == 0 && w[0] == 0
    && (forall k :: 1 <= k <= n ==> 0 <= h[k] < |w| && w[h[k]] >= 0)
  }

  /** What the heap holds. */
  ghost function Held(h: seq<int>, n: int): multiset<int>
    requires 0 <= n < |h|
  {
    multiset(h[1..n + 1])
  }

  lemma {:induction false} TopIsLeast(w: seq<int>, h: seq<int>, n: int, k: int)
    requires Ordered(w, h, n) && 1 <= k <= n
    ensures w[h[1]] <= w[h[k]]
    decreases k
  {
    if k > 1 { TopIsLeast(w, h, n, k / 2); }
  }

  /** Ordered but for entry z, which may be too light for its place. */
  ghost predicate Rising(w: seq<int>, h: seq<int>, n: int, z: int) {
    && Nodes(w, h, n) && 1 <= z <= n
    && (forall k :: 2 <= k <= n && k != z ==> w[h[k / 2]] <= w[h[k]])
    && (forall k :: 2 <= k <= n && k / 2 == z && z > 1 ==> w[h[z / 2]] <= w[h[k]])
  }

  /** Ordered but for entry z, which may be too heavy for its place. */
  ghost predicate Sinking(w: seq<int>, h: seq<int>, n: int, z: int) {
    && Nodes(w, h, n) && 1 <= z <= n
    && (forall k :: 2 <= k <= n && k / 2 != z ==> w[h[k / 2]] <= w[h[k]])
    && (forall k :: 2 <= k <= n && k / 2 == z && z > 1 ==> w[h[z / 2]] <= w[h[k]])
  }

  /** Exchanging two entries keeps what is held. */
  lemma HeldExchange(h: seq<int>, n: int, i: int, j: int)
    requires 0 <= n < |h| && 1 <= i <= n && 1 <= j <= n
    ensures Held(h[i := h[j]][j := h[i]], n) == Held(h, n)
  {
    var s := h[1..n + 1];
    assert h[i := h[j]][j := h[i]][1..n + 1] == s[i - 1 := s[j - 1]][j - 1 := s[i - 1]];
  }

  lemma RisingStep(w: seq<int>, h: seq<int>, n: int, z: int)
    requires Rising(w, h, n, z) && z > 1 && w[h[z]] < w[h[z / 2]]
    ensures Rising(w, h[z := h[z / 2]][z / 2 := h[z]], n, z / 2)
    ensures Held(h[z := h[z / 2]][z / 2 := h[z]], n) == Held(h, n)
  {
    HeldExchange(h, n, z, z / 2);
  }

  lemma RisingDone(w: seq<int>, h: seq<int>, n: int, z: int)
    requires Rising(w, h, n, z) && (z > 1 ==> w[h[z / 2]] <= w[h[z]])
    ensures Ordered(w, h, n)
  {
  }

  /** g with tmp in its hole at z; moving the entry at y into the hole exchanges the two. */
  lemma HoleMoves(g: seq<int>, z: int, y: int, tmp: int)
    requires 0 <= z < |g| && 0 <= y < |g| && z != y
    ensures var h := g[z := tmp]; g[z := g[y]][y := tmp] == h[z := h[y]][y := h[z]] && h[z] == tmp && h[y] == g[y]
  {
  }

  lemma NodeAt(w: seq<int>, h: seq<int>, n: int, k: int)
    requires Nodes(w, h, n) && 0 <= k <= n
    ensures n < |h| && 0 <= h[k] < |w| && w[h[k]] >= 0
    ensures k == 0 ==> w[h[k]] == 0
  {
  }

  /** UPHEAP: entry z rises to its place. */
  method UpHeap(heap: array<int>, weight: seq<int>, nHeap: int, z: int)
    requires Rising(weight, heap[..], nHeap, z)
    modifies heap
    ensures Ordered(weight, heap[..], nHeap)
    ensures Held(heap[..], nHeap) == old(Held(heap[..], nHeap))
  {
    hide Rising, Ordered, Nodes, Held;
    RisingNodes(weight, heap[..], nHeap, z);
    NodeAt(weight, heap[..], nHeap, z);
    var zz := z;
    var tmp := heap[zz];
    ghost var h := heap[..];
    ghost var held := Held(h, nHeap);
    NodeAt(weight, h, nHeap, zz / 2);
    while weight[tmp] < weight[heap[zz / 2]]
      invariant 1 <= zz <= nHeap < heap.Length && 0 <= tmp < |weight| && weight[tmp] >= 0
      invariant h == heap[..][zz := tmp] && Rising(weight, h, nHeap, zz) && Held(h, nHeap) == held
      invariant 0 <= heap[zz / 2] < |weight| && (zz == 1 ==> weight[heap[zz / 2]] == 0)
      decreases zz
    {
      RisingStep(weight, h, nHeap, zz);
      HoleMoves(heap[..], zz, zz / 2, tmp);
      heap[zz] := heap[zz / 2];
      zz := zz / 2;
      h := heap[..][zz := tmp];
      RisingNodes(weight, h, nHeap, zz);
      NodeAt(weight, h, nHeap, zz / 2);
    }
    RisingDone(weight, h, nHeap, zz);
    heap[zz] := tmp;
    assert heap[..] == h;
  }

  lemma RisingNodes(w: seq<int>, h: seq<int>, n: int, z: int)
    requires Rising(w, h, n, z)
    ensures Nodes(w, h, n) && 1 <= z <= n
  {
  }

  lemma SinkingNodes(w: seq<int>, h: seq<int>, n: int, z: int)
    requires Sinking(w, h, n, z)
    ensures Nodes(w, h, n) && 1 <= z <= n
  {
  }

  lemma SinkingStep(w: seq<int>, h: seq<int>, n: int, z: int, y: int)
    requires Sinking(w, h, n, z) && (y == 2 * z || y == 2 * z + 1) && y <= n
    requires w[h[y]] <= w[h[z]] && w[h[y]] <= w[h[2 * z]] && (2 * z + 1 <= n ==> w[h[y]] <= w[h[2 * z + 1]])
    ensures Sinking(w, h[z := h[y]][y := h[z]], n, y)
    ensures Held(h[z := h[y]][y := h[z]], n) == Held(h, n)
  {
    HeldExchange(h, n, z, y);
  }

  lemma SinkingDone(w: seq<int>, h: seq<int>, n: int, z: int)
    requires Sinking(w, h, n, z)
    requires (2 * z <= n ==> w[h[z]] <= w[h[2 * z]]) && (2 * z + 1 <= n ==> w[h[z]] <= w[h[2 * z + 1]])
    ensures Ordered(w, h, n)
  {
  }

  /** DOWNHEAP: the top entry sinks to its place. */
  method DownHeap(heap: array<int>, weight: seq<int>, nHeap: int)
    requires nHeap >= 1 && Sinking(weight, heap[..], nHeap, 1)
    modifies heap
    ensures Ordered(weight, heap[..], nHeap)
    ensures Held(heap[..], nHeap) == old(Held(heap[..], nHeap))
  {
    hide Sinking, Ordered, Nodes, Held;
    SinkingNodes(weight, heap[..], nHeap, 1);
    NodeAt(weight, heap[..], nHeap, 1);
    var zz := 1;
    var tmp := heap[zz];
    ghost var h := heap[..];
    ghost var held := Held(h, nHeap);
    while true
      invariant 1 <= zz <= nHeap < heap.Length && 0 <= tmp < |weight|
      invariant h == heap[..][zz := tmp] && Sinking(weight, h, nHeap, zz) && Held(h, nHeap) == held
      decreases nHeap - zz
    {
      var yy := 2 * zz;
      if yy > nHeap { break; }
      SinkingNodes(weight, h, nHeap, zz);
      NodeAt(weight, h, nHeap, yy);
      if yy < nHeap { NodeAt(weight, h, nHeap, yy + 1); }
      if yy < nHeap && weight[heap[yy + 1]] < weight[heap[yy]] { yy := yy + 1; }
      if weight[tmp] < weight[heap[yy]] { break; }
      SinkingStep(weight, h, nHeap, zz, yy);
      HoleMoves(heap[..], zz, yy, tmp);
      heap[zz] := heap[yy];
      zz := yy;
      h := heap[..][zz := tmp];
    }
    SinkingDone(weight, h, nHeap, zz);
    heap[zz] := tmp;
    assert heap[..] == h;
  }

  lemma OrderedNodes(w: seq<int>, h: seq<int>, n: int)
    requires Ordered(w, h, n)
    ensures Nodes(w, h, n)
  {
  }

  lemma TopLeaves(w: seq<int>, h: seq<int>, n: int)
    requires Ordered(w, h, n) && n >= 1
    ensures n >= 2 ==> Sinking(w, h[1 := h[n]], n - 1, 1)
    ensures n == 1 ==> Ordered(w, h[1 := h[n]], 0)
    ensures Held(h[1 := h[n]], n - 1) == Held(h, n) - multiset{h[1]}
  {
    assert h[1..n + 1] == h[1..n] + [h[n]];
    if n >= 2 {
      assert h[1..n] == [h[1]] + h[2..n];
      assert h[1 := h[n]][1..n] == [h[n]] + h[2..n];
    }
  }

  /** x is held, and nothing that is held is lighter. */
  ghost predicate Lightest(w: seq<int>, held: multiset<int>, x: int) {
    x in held && 0 <= x < |w| && forall y :: y in held ==> 0 <= y < |w| && w[x] <= w[y]
  }

  lemma TopLightest(w: seq<int>, h: seq<int>, n: int)
    requires Ordered(w, h, n) && n >= 1
    ensures Lightest(w, Held(h, n), h[1])
  {
    assert h[1..n + 1][0] == h[1];
    forall x | x in Held(h, n) ensures 0 <= x < |w| && w[h[1]] <= w[x] {
      var k :| 0 <= k < n && h[1..n + 1][k] == x;
      assert h[k + 1] == x;
      TopIsLeast(w, h, n, k + 1);
    }
  }

  /** Takes out the lightest node. */
  method PopLeast(heap: array<int>, weight: seq<int>, nHeap0: int) returns (least: int, nHeap: int)
    requires nHeap0 >= 1 && Ordered(weight, heap[..], nHeap0)
    modifies heap
    ensures nHeap == nHeap0 - 1 && Ordered(weight, heap[..], nHeap)
    ensures Lightest(weight, old(Held(heap[..], nHeap0)), least)
    ensures Held(heap[..], nHeap) == old(Held(heap[..], nHeap0)) - multiset{least}
  {
    hide Ordered, Sinking, Held, Nodes, Lightest;
    ghost var h := heap[..];
    OrderedNodes(weight, h, nHeap0);
    NodeAt(weight, h, nHeap0, nHeap0);
    TopLeaves(weight, h, nHeap0);
    TopLightest(weight, h, nHeap0);
    ghost var h' := h[1 := h[nHeap0]];
    least := heap[1];
    heap[1] := heap[nHeap0];
    assert heap[..] == h';
    nHeap := nHeap0 - 1;
    // With nothing left the loop of DOWNHEAP ends before it moves anything.
    if nHeap > 0 { DownHeap(heap, weight, nHeap); }
  }

  lemma LastJoins(w: seq<int>, h: seq<int>, n: int, x: int)
    requires Ordered(w, h, n) && n + 1 < |h| && 0 <= x < |w| && w[x] >= 0
    ensures Rising(w, h[n + 1 := x], n + 1, n + 1) && Held(h[n + 1 := x], n + 1) == Held(h, n) + multiset{x}
  {
    assert h[n + 1 := x][1..n + 2] == h[1..n + 1] + [x];
  }

  /** Puts a node in. */
  method Push(heap: array<int>, weight: seq<int>, nHeap0: int, x: int) returns (nHeap: int)
    requires Ordered(weight, heap[..], nHeap0) && nHeap0 + 1 < heap.Length && 0 <= x < |weight| && weight[x] >= 0
    modifies heap
    ensures nHeap == nHeap0 + 1 && Ordered(weight, heap[..], nHeap)
    ensures Held(heap[..], nHeap) == old(Held(heap[..], nHeap0)) + multiset{x}
  {
    LastJoins(weight, heap[..], nHeap0, x);
    assert nHeap0 >= 0;
    hide Ordered, Rising, Held;
    nHeap := nHeap0 + 1;
    heap[nHeap] := x;
    UpHeap(heap, weight, nHeap, nHeap);
  }

  /** Weights of nodes that are not in the heap may change. */
  lemma OrderedFrame(w: seq<int>, w': seq<int>, h: seq<int>, n: int, m: int)
    requires Ordered(w, h, n) && 0 < m < |w| && m !in Held(h, n) && |w'| == |w| &&
             forall i :: 0 <= i < |w| && i != m ==> w'[i] == w[i]
    ensures Ordered(w', h, n)
  {
    forall k | 1 <= k <= n ensures h[k] != m { assert h[1..n + 1][k - 1] == h[k]; }
  }
}

/** The forest that the Huffman construction joins into one tree: parents, Kraft sum, heights. */
module HuffmanTree {

  import opened Powers
  import opened Counting

  // ----- the forest -----

  /** Nodes 1..a are leaves, nodes a+1..n have exactly two children each, and children come before parents. */
  ghost predicate Forest(parent: seq<int>, a: int, n: int) {
    && 2 <= a <= n < |parent|
    && (forall i :: 1 <= i <= n ==> parent[i] == -1 || (i < parent[i] <= n && a < parent[i]))
    && (forall m :: a < m <= n ==> Children(parent, n, m) == 2)
  }

  function Children(parent: seq<int>, n: int, m: int): nat
    requires 0 <= n < |parent|
  {
    CountEq(parent[1..n + 1], m)
  }

  /** Joining two roots under a new one. */
  function Joined(parent: seq<int>, n1: int, n2: int, m: int): (r: seq<int>)
    requires 0 <= n1 < |parent| && 0 <= n2 < |parent| && 0 <= m < |parent|
    ensures |r| == |parent|
  {
    parent[n1 := m][n2 := m][m := -1]
  }

  lemma JoinedChildren(parent: seq<int>, n: int, n1: int, n2: int, c: int)
    requires 1 <= n1 <= n && 1 <= n2 <= n && n1 != n2 && n + 1 < |parent| && parent[n1] == -1 && parent[n2] == -1 &&
      c != -1
    ensures Children(Joined(parent, n1, n2, n + 1), n + 1, c) == Children(parent, n, c) + (if c == n + 1 then 2 else 0)
  {
    var m := n + 1;
    var s := parent[1..m];
    var q1 := parent[n1 := m];
    var q2 := q1[n2 := m];
    hide CountEq, Children, Joined;
    SliceUpdate(parent, n1, m, m);
    SliceUpdate(q1, n2, m, m);
    assert Children(parent, n, c) == CountEq(s, c) by { ChildrenOf(parent, n, c); }
    CountSnoc(q2[1..m], -1, c);
    assert s[n1 - 1] == -1 && s[n1 - 1 := m][n2 - 1] == s[n2 - 1] == -1;
    ChildrenAre(parent, n1, n2, n, c);
    CountUpdate(s, n1 - 1, m, c);
    CountUpdate(s[n1 - 1 := m], n2 - 1, m, c);
  }

  lemma ChildrenOf(parent: seq<int>, n: int, m: int)
    requires 0 <= n < |parent|
    ensures Children(parent, n, m) == CountEq(parent[1..n + 1], m)
  {
  }

  lemma ChildrenAre(parent: seq<int>, n1: int, n2: int, n: int, c: int)
    requires 1 <= n1 <= n && 1 <= n2 <= n && n + 1 < |parent|
    ensures Children(Joined(parent, n1, n2, n + 1), n + 1, c) ==
      CountEq(parent[n1 := n + 1][n2 := n + 1][1..n + 1] + [-1], c)
  {
    hide CountEq;
    assert parent[n1 := n + 1][n2 := n + 1][n + 1 := -1][1..n + 2] == parent[n1 := n + 1][n2 := n + 1][1..n + 1] + [-1];
  }

  lemma SliceUpdate(p: seq<int>, i: int, v: int, hi: int)
    requires 1 <= i < hi <= |p|
    ensures p[i := v][1..hi] == p[1..hi][i - 1 := v]
  {
  }

  lemma JoinedForest(parent: seq<int>, a: int, n: int, n1: int, n2: int)
    requires Forest(parent, a, n) && n + 1 < |parent| && 1 <= n1 <= n && 1 <= n2 <= n && n1 != n2
    requires parent[n1] == -1 && parent[n2] == -1
    ensures Forest(Joined(parent, n1, n2, n + 1), a, n + 1)
  {
    hide CountEq;
    var p, n' := Joined(parent, n1, n2, n + 1), n + 1;
    assert Children(parent, n, n + 1) == 0 by { NoneEqual(parent[1..n + 1], n + 1); }
    hide Children;
    forall c | a < c <= n' ensures Children(p, n', c) == 2 {
      JoinedChildren(parent, n, n1, n2, c);
    }
  }

  // ----- lengths -----

  /** Steps from node k to the root of its tree. */
  function Depth(parent: seq<int>, n: int, k: int): (d: nat)
    requires n < |parent| && 1 <= k <= n && forall i :: 1 <= i <= n ==> parent[i] == -1 || i < parent[i] <= n
    decreases n - k
  {
    if parent[k] == -1 then 0 else 1 + Depth(parent, n, parent[k])
  }

  /** The nodes up to k that are below m while their parents are not: a cut through the tree. Each counts as 2^(l -
      depth). */
  ghost function Cut(parent: seq<int>, n: int, m: int, l: nat, k: int): int
    requires n < |parent| && 0 <= k <= n && forall i :: 1 <= i <= n ==> parent[i] == -1 || i < parent[i] <= n
    requires forall i :: 1 <= i <= n ==> Depth(parent, n, i) <= l
    decreases k
  {
    if k == 0 then 0
    else Cut(parent, n, m, l, k - 1) +
         (if k < m && (parent[k] == -1 || parent[k] >= m) then Pow2(l - Depth(parent, n, k)) else 0)
  }

  /** Lowering the cut below node m replaces it by its children. */
  lemma {:induction false} CutLowered(parent: seq<int>, n: int, m: int, l: nat, k: int)
    requires 1 <= m <= n < |parent| && 0 <= k <= n && forall i :: 1 <= i <= n ==> parent[i] == -1 || i < parent[i] <= n
    requires forall i :: 1 <= i <= n ==> Depth(parent, n, i) <= l
    requires Depth(parent, n, m) < l
    ensures Cut(parent, n, m, l, k) ==
      Cut(parent, n, m + 1, l, k) - (if m <= k then Pow2(l - Depth(parent, n, m)) else 0)
                                       + Children(parent, k, m) * Pow2(l - Depth(parent, n, m) - 1)
    decreases k
  {
    if k > 0 {
      CutLowered(parent, n, m, l, k - 1);
      ChildrenStep(parent, k, m);
      DepthStep(parent, n, k);
      MulNext(Children(parent, k - 1, m), Pow2(l - Depth(parent, n, m) - 1));
      hide Depth, Children, Pow2;
    }
  }

  lemma ChildrenStep(parent: seq<int>, k: int, m: int)
    requires 1 <= k < |parent|
    ensures Children(parent, k, m) == Children(parent, k - 1, m) + (if parent[k] == m then 1 else 0)
  {
    assert parent[1..k + 1] == parent[1..k] + [parent[k]];
    CountSnoc(parent[1..k], parent[k], m);
  }

  /** The cut at a node of a full binary tree keeps its sum when the node gives way to its two children. */
  lemma CutStep(parent: seq<int>, a: int, n: int, m: int, l: nat)
    requires Forest(parent, a, n) && a < m <= n && forall i :: 1 <= i <= n ==> Depth(parent, n, i) <= l
    requires Depth(parent, n, m) < l
    ensures Cut(parent, n, m, l, n) == Cut(parent, n, m + 1, l, n)
  {
    CutLowered(parent, n, m, l, n);
    assert Pow2(l - Depth(parent, n, m)) == 2 * Pow2(l - Depth(parent, n, m) - 1);
  }

  lemma DepthStep(parent: seq<int>, n: int, k: int)
    requires n < |parent| && 1 <= k <= n && forall i :: 1 <= i <= n ==> parent[i] == -1 || i < parent[i] <= n
    ensures Depth(parent, n, k) == if parent[k] == -1 then 0 else 1 + Depth(parent, n, parent[k])
  {
  }

  // ----- the Kraft sum -----

  /** One root, at the top. */
  ghost predicate Tree(parent: seq<int>, a: int, n: int) {
    Forest(parent, a, n) && parent[n] == -1 && forall i :: 1 <= i < n ==> parent[i] != -1
  }

  lemma {:induction false} DepthBounded(parent: seq<int>, a: int, n: int, k: int)
    requires Tree(parent, a, n) && 1 <= k <= n
    ensures Depth(parent, n, k) <= n - k && (k < n ==> Depth(parent, n, k) > 0)
    decreases n - k
  {
    if k < n { DepthBounded(parent, a, n, parent[k]); }
  }

  /** An inner node is never as deep as the deepest node. */
  lemma {:induction false} InnerHasChild(parent: seq<int>, n: int, m: int, k: int) returns (i: int)
    requires 0 <= k <= n < |parent| && Children(parent, k, m) > 0
    ensures 1 <= i <= k && parent[i] == m
    decreases k
  {
    ChildrenStep(parent, k, m);
    if parent[k] == m { i := k; } else { i := InnerHasChild(parent, n, m, k - 1); }
  }

  lemma {:induction false} CutTop(parent: seq<int>, a: int, n: int, l: nat, k: int)
    requires Tree(parent, a, n) && 0 <= k <= n && forall i :: 1 <= i <= n ==> Depth(parent, n, i) <= l
    ensures Cut(parent, n, n + 1, l, k) == if k == n then Pow2(l) else 0
    decreases k
  {
    if k > 0 { CutTop(parent, a, n, l, k - 1); }
  }

  lemma {:induction false} CutBelow(parent: seq<int>, a: int, n: int, l: nat, m: int)
    requires Tree(parent, a, n) && a < m <= n + 1 && forall i :: 1 <= i <= n ==> Depth(parent, n, i) <= l
    ensures Cut(parent, n, m, l, n) == Pow2(l)
    decreases n - m
  {
    hide Cut, Pow2;
    if m == n + 1 {
      CutTop(parent, a, n, l, n);
    } else {
      CutBelow(parent, a, n, l, m + 1);
      var i := InnerHasChild(parent, n, m, n);
      assert Depth(parent, n, i) == 1 + Depth(parent, n, m);
      CutStep(parent, a, n, m, l);
    }
  }

  /** The lowest cut consists of the leaves. */
  lemma {:induction false} CutLeaves(parent: seq<int>, a: int, n: int, l: nat, len: seq<int>, k: int)
    requires Tree(parent, a, n) && 0 <= k <= n && |len| == a && forall i :: 1 <= i <= n ==> Depth(parent, n, i) <= l
    requires forall i :: 0 <= i < a ==> len[i] == Depth(parent, n, i + 1)
    ensures forall i :: 0 <= i < a ==> 0 <= len[i] <= l
    ensures Cut(parent, n, a + 1, l, k) == Kraft(len[..if k < a then k else a], l)
    decreases k
  {
    hide Depth;
    forall i | 0 <= i < a ensures 0 <= len[i] <= l { assert Depth(parent, n, i + 1) <= l; }
    if k > 0 {
      CutLeaves(parent, a, n, l, len, k - 1);
      if k <= a { assert len[..k][..k - 1] == len[..k - 1]; }
    }
  }

  /** The code lengths of a full tree have Kraft sum one, at any scale that is deep enough. */
  lemma KraftIsOne(parent: seq<int>, a: int, n: int, len: seq<int>, l: nat)
    requires Tree(parent, a, n) && |len| == a && forall i :: 1 <= i <= n ==> Depth(parent, n, i) <= l
    requires forall i :: 0 <= i < a ==> len[i] == Depth(parent, n, i + 1)
    ensures forall i :: 0 <= i < a ==> 0 <= len[i] <= l
    ensures Kraft(len, l) == Pow2(l)
  {
    hide Cut, Depth, Kraft;
    CutBelow(parent, a, n, l, a + 1);
    CutLeaves(parent, a, n, l, len, n);
    assert len[..a] == len;
  }

  // ----- heights -----

  /** The least weight that a node of height d can have, when the two lightest nodes are always joined. */
  function Least(d: nat): (r: nat)
    ensures r >= 1
  {
    if d == 0 then 1 else if d == 1 then 2 else Least(d - 1) + Least(d - 2)
  }

  lemma {:induction false} LeastGrows(d: nat, e: nat)
    ensures d <= e ==> Least(d) <= Least(e)
    decreases e
  {
    if d < e { LeastGrows(d, e - 1); }
  }

  lemma LeastSmall()
    ensures Least(10) == 144 && Least(11) == 233 && Least(12) == 377 && Least(13) == 610
  {
    assert Least(2) == 3 && Least(3) == 5 && Least(4) == 8 && Least(5) == 13;
    assert Least(6) == 21 && Least(7) == 34 && Least(8) == 55 && Least(9) == 89;
  }

  /** No node of a tree that weighs less than 2^23 is higher than 32. */
  lemma LeastLarge()
    ensures Least(33) == 9227465
  {
    LeastSmall();
    assert Least(14) == 987 && Least(15) == 1597 && Least(16) == 2584 && Least(17) == 4181;
    assert Least(18) == 6765 && Least(19) == 10946 && Least(20) == 17711 && Least(21) == 28657;
    assert Least(22) == 46368 && Least(23) == 75025 && Least(24) == 121393 && Least(25) == 196418;
    assert Least(26) == 317811 && Least(27) == 514229 && Least(28) == 832040 && Least(29) == 1346269;
    assert Least(30) == 2178309 && Least(31) == 3524578 && Least(32) == 5702887;
  }

  lemma HeightBounded(d: nat, w: int)
    requires Least(d) <= w < 0x80_0000
    ensures d <= 32
  {
    hide Least;
    LeastLarge();
    LeastGrows(33, d);
  }
}

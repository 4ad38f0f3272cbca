/** mainSimpleSort: a shell sort of part of ptr, by rotations that are known to agree on d bytes. */
module MainSimpleSort {

  import opened Rotations
  import opened Rearrange
  import opened MainOrder

  const INCS := [1, 4, 13, 40, 121, 364, 1093, 3280, 9841, 29524, 88573, 265720, 797161, 2391484]

  /** x and y are positions of b, and rotation x precedes or equals rotation y. */
  predicate NotAfter(b: seq<int>, x: int, y: int) {
    0 <= x < |b| && 0 <= y < |b| && Le(b, x, y)
  }

  lemma NotAfterTrans(b: seq<int>, x: int, y: int, z: int)
    requires NotAfter(b, x, y) && NotAfter(b, y, z)
    ensures NotAfter(b, x, z)
  {
    CmpTrans(b, x, y, z, |b|);
  }

  ghost predicate InOrder(b: seq<int>, s: seq<int>, lo: int, hi: int) {
    forall p, q :: 0 <= p < q < |s| && lo <= p && q < hi ==> NotAfter(b, s[p], s[q])
  }

  /** The rotations in s[lo..hi] agree on their first d bytes. */
  ghost predicate Alike(b: seq<int>, s: seq<int>, lo: int, hi: int, d: nat) {
    && (forall p :: 0 <= p < |s| && lo <= p < hi ==> 0 <= s[p] < |b|)
    && (forall p, q :: 0 <= p < |s| && 0 <= q < |s| && lo <= p < hi && lo <= q < hi ==> Cmp(b, s[p], s[q], d) == 0)
  }

  lemma AlikePermuted(b: seq<int>, s: seq<int>, t: seq<int>, lo: int, hi: int, d: nat)
    requires Alike(b, s, lo, hi, d) && Permuted(s, t, lo, hi) && 0 <= lo <= hi <= |s|
    ensures Alike(b, t, lo, hi, d)
  {
    forall p | lo <= p < hi ensures 0 <= t[p] < |b| {
      var p' := PermutedSource(s, t, lo, hi, p);
    }
    forall p, q | lo <= p < hi && lo <= q < hi ensures Cmp(b, t[p], t[q], d) == 0 {
      var p' := PermutedSource(s, t, lo, hi, p);
      var q' := PermutedSource(s, t, lo, hi, q);
    }
  }

  lemma AlikeExchange(b: seq<int>, s: seq<int>, t: seq<int>, lo: int, hi: int, d: nat, i: int, j: int)
    requires Alike(b, s, lo, hi, d) && 0 <= lo <= i < j < hi <= |s| && t == s[i := s[j]][j := s[i]]
    ensures Alike(b, t, lo, hi, d)
  {
  }

  /** A comparison that starts d bytes in decides for rotations that agree on d bytes. */
  lemma AnswerAlike(b: seq<int>, x: int, y: int, d: nat, gt: bool)
    requires 0 <= x < |b| && 0 <= y < |b| && d <= |b| && Cmp(b, x, y, d) == 0
    requires Wrap(|b|, x + d) < |b| && Wrap(|b|, y + d) < |b|
    requires Answer(b, Wrap(|b|, x + d), Wrap(|b|, y + d), gt)
    ensures gt ==> NotAfter(b, y, x)
    ensures !gt ==> NotAfter(b, x, y)
  {
    AdvOnce(|b|, x, d);
    AdvOnce(|b|, y, d);
    Continuation(b, x, y, d);
  }

  /** All but the entry at j are in order, and it comes before those that follow it. */
  ghost predicate Sifted(b: seq<int>, s: seq<int>, lo: int, i: int, j: int)
    requires 0 <= lo <= j <= i < |s|
  {
    && (forall p, q :: lo <= p < q <= i && p != j && q != j ==> NotAfter(b, s[p], s[q]))
    && (forall p :: j < p <= i ==> NotAfter(b, s[j], s[p]))
  }

  lemma SiftStep(b: seq<int>, s: seq<int>, t: seq<int>, lo: int, i: int, j: int)
    requires 0 <= lo < j <= i < |s| && Sifted(b, s, lo, i, j) && NotAfter(b, s[j], s[j - 1])
    requires |t| == |s| && t[j] == s[j - 1] && t[j - 1] == s[j]
    requires forall p :: 0 <= p < |s| && p != j && p != j - 1 ==> t[p] == s[p]
    ensures Sifted(b, t, lo, i, j - 1)
  {
    hide NotAfter;
  }

  /** Entry i is on its way down and would now be put down at j, which gives s. */
  ghost predicate Inserting(b: seq<int>, was: seq<int>, s: seq<int>, lo: int, hi: int, i: int, j: int, d: nat, h: int) {
    && 0 <= lo <= j <= i <= hi < |s| && h >= 1 && |was| == |s|
    && Permuted(was, s, lo, hi + 1) && Alike(b, s, lo, hi + 1, d)
    && (h == 1 ==> Sifted(b, s, lo, i, j))
  }

  lemma InsertStart(b: seq<int>, s: seq<int>, lo: int, hi: int, i: int, d: nat, h: int)
    requires 0 <= lo <= i <= hi < |s| && h >= 1 && Alike(b, s, lo, hi + 1, d)
    requires h == 1 ==> InOrder(b, s, lo, i)
    ensures Inserting(b, s, s, lo, hi, i, i, d, h)
  {
  }

  lemma InsertStep(b: seq<int>, was: seq<int>, s: seq<int>, t: seq<int>, lo: int, hi: int, i: int, j: int, d: nat,
      h: int)
    requires Inserting(b, was, s, lo, hi, i, j, d, h) && lo <= j - h && NotAfter(b, s[j], s[j - h])
    requires t == s[j := s[j - h]][j - h := s[j]]
    ensures Inserting(b, was, t, lo, hi, i, j - h, d, h)
  {
    hide Alike, NotAfter, Permuted, Sifted;
    if h == 1 { SiftStep(b, s, t, lo, i, j); }
    assert t == s[j - h := s[j]][j := s[j - h]];
    PermutedExchange(was, s, lo, hi + 1, j - h, j);
    AlikeExchange(b, s, t, lo, hi + 1, d, j - h, j);
  }

  lemma InsertEnd(b: seq<int>, was: seq<int>, s: seq<int>, lo: int, hi: int, i: int, j: int, d: nat, h: int)
    requires Inserting(b, was, s, lo, hi, i, j, d, h)
    requires h == 1 && lo < j ==> NotAfter(b, s[j - 1], s[j])
    ensures Permuted(was, s, lo, hi + 1) && Alike(b, s, lo, hi + 1, d)
    ensures h == 1 ==> InOrder(b, s, lo, i + 1)
  {
    hide Alike, NotAfter, Permuted;
    if h == 1 {
      forall p, q | lo <= p < q <= i ensures NotAfter(b, s[p], s[q]) {
        if q == j && p < j - 1 { NotAfterTrans(b, s[p], s[j - 1], s[j]); }
      }
    }
  }

  lemma InsertingPair(b: seq<int>, was: seq<int>, s: seq<int>, lo: int, hi: int, i: int, j: int, d: nat, h: int, p: int)
    requires Inserting(b, was, s, lo, hi, i, j, d, h) && lo <= p <= hi
    ensures 0 <= s[p] < |b| && 0 <= s[j] < |b| && Cmp(b, s[p], s[j], d) == 0
  {
  }

  /** Inserts entry i into the entries at i - h, i - 2h, ... before it. */
  method InsertDown(ptr: array<int>, block: seq<int>, quadrant: seq<int>, nblock: nat, lo: int, hi: int, i: int, d: nat,
      h: int, budget0: int, ghost b: seq<int>)
    returns (budget: int)
    requires Overshoot(block, quadrant, nblock) && b == block[..nblock] && QuadrantMeaning(b, quadrant)
    requires 0 <= lo && lo + h <= i <= hi < ptr.Length && h >= 1 && d <= 15
    requires Alike(b, ptr[..], lo, hi + 1, d)
    requires h == 1 ==> InOrder(b, ptr[..], lo, i)
    modifies ptr
    ensures Permuted(old(ptr[..]), ptr[..], lo, hi + 1) && Alike(b, ptr[..], lo, hi + 1, d)
    ensures h == 1 ==> InOrder(b, ptr[..], lo, i + 1)
    ensures budget <= budget0 && (i < lo + 2 * h ==> 8 * (budget0 - budget) <= nblock + 16)
  {
    hide Inserting, Permuted, Alike, InOrder, Answer, QuadrantMeaning, NotAfter;
    ghost var s := ptr[..];
    InsertStart(b, s, lo, hi, i, d, h);
    budget := budget0;
    var v := ptr[i];
    var j := i;
    while true
      invariant lo <= j <= i && lo + h <= j
      invariant |s| == ptr.Length && s[j] == v && forall p :: 0 <= p < |s| && p != j ==> ptr[p] == s[p]
      invariant Inserting(b, old(ptr[..]), s, lo, hi, i, j, d, h)
      invariant budget <= budget0 && (i < lo + 2 * h ==> budget == budget0)
      decreases j
    {
      InsertingPair(b, old(ptr[..]), s, lo, hi, i, j, d, h, j - h);
      var gt;
      gt, budget := GtU(ptr[j - h] + d, v + d, block, quadrant, nblock, budget, b);
      AnswerAlike(b, s[j - h], v, d, gt);
      if !gt { break; }
      ghost var t := s[j := s[j - h]][j - h := s[j]];
      InsertStep(b, old(ptr[..]), s, t, lo, hi, i, j, d, h);
      s := t;
      ptr[j] := ptr[j - h];
      j := j - h;
      if j <= lo + h - 1 { break; }
    }
    InsertEnd(b, old(ptr[..]), s, lo, hi, i, j, d, h);
    ptr[j] := v;
    assert ptr[..] == s;
  }

  /** One pass of the shell sort with increment h; it is abandoned when the budget is spent. */
  method Pass(ptr: array<int>, block: seq<int>, quadrant: seq<int>, nblock: nat, lo: int, hi: int, d: nat, h: int,
      budget0: int, ghost b: seq<int>)
    returns (budget: int, abandoned: bool)
    requires Overshoot(block, quadrant, nblock) && b == block[..nblock] && QuadrantMeaning(b, quadrant)
    requires 0 <= lo < hi < ptr.Length && h >= 1 && d <= 15
    requires Alike(b, ptr[..], lo, hi + 1, d)
    modifies ptr
    ensures Permuted(old(ptr[..]), ptr[..], lo, hi + 1) && Alike(b, ptr[..], lo, hi + 1, d)
    ensures abandoned ==> budget < 0
    ensures !abandoned && h == 1 ==> InOrder(b, ptr[..], lo, hi + 1)
    ensures budget <= budget0 && (hi == lo + h ==> 8 * (budget0 - budget) <= nblock + 16)
  {
    hide Permuted, Alike, InOrder, QuadrantMeaning, Overshoot;
    budget, abandoned := budget0, false;
    var i := lo + h;
    PermutedSelf(ptr[..], lo, hi + 1);
    InOrderOne(b, ptr[..], lo);
    while true
      invariant lo + h <= i && (i <= hi + 1 || i == lo + h)
      invariant Permuted(old(ptr[..]), ptr[..], lo, hi + 1) && Alike(b, ptr[..], lo, hi + 1, d)
      invariant h == 1 ==> InOrder(b, ptr[..], lo, i)
      invariant budget <= budget0 && (hi == lo + h ==> 8 * (budget0 - budget) <= if i == hi then 0 else nblock + 16)
      decreases hi + 1 - i
    {
      var copies := 0;
      ghost var i0 := i;
      while copies < 3 && i <= hi
        invariant lo + h <= i && (i <= hi + 1 || i == lo + h) && 0 <= copies <= 3
        invariant i == i0 + copies
        invariant Permuted(old(ptr[..]), ptr[..], lo, hi + 1) && Alike(b, ptr[..], lo, hi + 1, d)
        invariant h == 1 ==> InOrder(b, ptr[..], lo, i)
        invariant budget <= budget0 && (hi == lo + h ==> 8 * (budget0 - budget) <= if i == hi then 0 else nblock + 16)
        decreases hi + 1 - i
      {
        ghost var s := ptr[..];
        budget := InsertDown(ptr, block, quadrant, nblock, lo, hi, i, d, h, budget, b);
        PermutedThen(old(ptr[..]), s, ptr[..], lo, hi + 1, lo, hi + 1);
        i, copies := i + 1, copies + 1;
      }
      if copies < 3 { break; }
      if budget < 0 { abandoned := true; return; }
    }
  }

  lemma InOrderOne(b: seq<int>, s: seq<int>, lo: int)
    ensures InOrder(b, s, lo, lo + 1)
  {
  }

  /** Sorts ptr[lo..hi], entries that agree on their first d bytes. */
  method SimpleSort(ptr: array<int>, block: seq<int>, quadrant: seq<int>, nblock: nat, lo: int, hi: int, d: nat,
      budget0: int, ghost b: seq<int>)
    returns (budget: int)
    requires Overshoot(block, quadrant, nblock) && b == block[..nblock] && QuadrantMeaning(b, quadrant)
    requires 0 <= lo <= hi + 1 <= ptr.Length && d <= 15 && hi - lo < 900000
    requires Alike(b, ptr[..], lo, hi + 1, d)
    modifies ptr
    ensures Permuted(old(ptr[..]), ptr[..], lo, hi + 1)
    ensures budget >= 0 ==> InOrder(b, ptr[..], lo, hi + 1)
    ensures budget <= budget0 && (hi == lo + 1 ==> 8 * (budget0 - budget) <= nblock + 16)
  {
    hide Permuted, Alike, QuadrantMeaning, Overshoot;
    budget := budget0;
    PermutedSelf(ptr[..], lo, hi + 1);
    var bigN := hi - lo + 1;
    if bigN < 2 { return; }
    var hp := 0;
    while INCS[hp] < bigN
      invariant 0 <= hp < |INCS| && (bigN == 2 ==> hp <= 1)
      decreases |INCS| - hp
    {
      hp := hp + 1;
    }
    hp := hp - 1;
    while hp >= 0
      invariant -1 <= hp < |INCS|
      invariant Permuted(old(ptr[..]), ptr[..], lo, hi + 1) && Alike(b, ptr[..], lo, hi + 1, d)
      invariant hp == -1 ==> InOrder(b, ptr[..], lo, hi + 1)
      invariant budget <= budget0
      invariant hi == lo + 1 ==> hp <= 0 && 8 * (budget0 - budget) <= if hp == 0 then 0 else nblock + 16
    {
      ghost var s := ptr[..];
      var abandoned;
      budget, abandoned := Pass(ptr, block, quadrant, nblock, lo, hi, d, INCS[hp], budget, b);
      PermutedThen(old(ptr[..]), s, ptr[..], lo, hi + 1, lo, hi + 1);
      if abandoned { return; }
      hp := hp - 1;
    }
  }
}

/** mainGtU: comparing two rotations with the help of the quadrant descriptors. */
module MainOrder {

  import opened Rotations

  const N_OVERSHOOT := 34

  /** Block and quadrant are continued by a copy of their first few entries. */
  ghost predicate Overshoot(block: seq<int>, quadrant: seq<int>, n: nat) {
    && N_OVERSHOOT < n && |block| >= n + N_OVERSHOOT && |quadrant| >= n + N_OVERSHOOT
    && (forall i :: n <= i < n + N_OVERSHOOT ==> block[i] == block[i - n] && quadrant[i] == quadrant[i - n])
  }

  /** What the quadrant descriptors say: among positions with the same byte, a smaller descriptor
      is never given to a greater rotation. */
  ghost predicate QuadrantMeaning(b: seq<int>, quadrant: seq<int>) {
    && |b| <= |quadrant|
    && (forall i, j :: 0 <= i < |b| && 0 <= j < |b| && b[i] == b[j] && quadrant[i] < quadrant[j] ==> Le(b, i, j))
  }

  /** What the comment beside the original says, for the positions with byte c: the rotation with the smaller descriptor
      comes first, strictly. */
  ghost predicate StrictAt(b: seq<int>, quadrant: seq<int>, c: int) {
    && |b| <= |quadrant|
    && (forall i, j :: 0 <= i < |b| && 0 <= j < |b| && b[i] == b[j] == c && quadrant[i] < quadrant[j] ==>
         Cmp(b, i, j, |b|) < 0)
  }

  ghost predicate StrictMeaning(b: seq<int>, quadrant: seq<int>) {
    forall c :: 0 <= c < 256 ==> StrictAt(b, quadrant, c)
  }

  /** The position in the ring of an index that may lie in the overshoot area. */
  function Wrap(n: nat, x: nat): nat {
    if x >= n then x - n else x
  }

  lemma WrapNext(n: nat, x: nat)
    requires x + 1 < 2 * n
    ensures Wrap(n, x) < n && Wrap(n, x + 1) == Next(n, Wrap(n, x))
  {
  }

  /** Rotations that agree on t bytes compare as their continuations do. */
  lemma Continuation(b: seq<int>, i: nat, j: nat, t: nat)
    requires i < |b| && j < |b| && Cmp(b, i, j, t) == 0
    ensures Le(b, Adv(|b|, i, t), Adv(|b|, j, t)) ==> Le(b, i, j)
    ensures Le(b, Adv(|b|, j, t), Adv(|b|, i, t)) ==> Le(b, j, i)
  {
    var n := |b|;
    var i', j' := Adv(n, i, t), Adv(n, j, t);
    CmpSplit(b, i, j, t, n);
    CmpFlip(b, i, j, n);
    CmpFlip(b, i', j', n);
    if Cmp(b, i, j, t + n) == 0 {
      CmpPrefix(b, i, j, n, t + n);
    } else {
      CmpDecided(b, i, j, t + n);
    }
  }

  lemma OneMore(b: seq<int>, i: nat, j: nat, t: nat)
    requires i < |b| && j < |b| && Cmp(b, i, j, t) == 0
    requires b[Adv(|b|, i, t)] == b[Adv(|b|, j, t)]
    ensures Cmp(b, i, j, t + 1) == 0
    ensures Adv(|b|, i, t + 1) == Next(|b|, Adv(|b|, i, t)) && Adv(|b|, j, t + 1) == Next(|b|, Adv(|b|, j, t))
  {
    var n := |b|;
    var i', j' := Adv(n, i, t), Adv(n, j, t);
    CmpSplit(b, i, j, t, 1);
    AdvAdd(n, i, t, 1);
    AdvAdd(n, j, t, 1);
    assert Cmp(b, i', j', 1) == 0 by { assert Cmp(b, Next(n, i'), Next(n, j'), 0) == 0; }
    assert Adv(n, i', 1) == Adv(n, Next(n, i'), 0);
    assert Adv(n, j', 1) == Adv(n, Next(n, j'), 0);
  }

  /** Rotations i and j agree on t bytes, and x and y are where these bytes end. */
  ghost predicate Agree(b: seq<int>, i: nat, j: nat, t: nat, x: nat, y: nat)
    requires i < |b| && j < |b|
  {
    && x < 2 * |b| && y < 2 * |b|
    && Wrap(|b|, x) == Adv(|b|, i, t) && Wrap(|b|, y) == Adv(|b|, j, t)
    && Cmp(b, i, j, t) == 0
  }

  lemma AgreeOneMore(b: seq<int>, i: nat, j: nat, t: nat, x: nat, y: nat)
    requires i < |b| && j < |b| && Agree(b, i, j, t, x, y) && x + 1 < 2 * |b| && y + 1 < 2 * |b|
    requires b[Wrap(|b|, x)] == b[Wrap(|b|, y)]
    ensures Agree(b, i, j, t + 1, x + 1, y + 1)
  {
    OneMore(b, i, j, t);
    WrapNext(|b|, x);
    WrapNext(|b|, y);
  }

  /** The answer gt is right for rotations i and j: equal rotations may be given either answer. */
  ghost predicate Answer(b: seq<int>, i: nat, j: nat, gt: bool)
    requires i < |b| && j < |b|
  {
    if gt then Le(b, j, i) else Le(b, i, j)
  }

  lemma AnswerByByte(b: seq<int>, i: nat, j: nat, t: nat, x: nat, y: nat)
    requires i < |b| && j < |b| && Agree(b, i, j, t, x, y) && b[Wrap(|b|, x)] != b[Wrap(|b|, y)]
    ensures Answer(b, i, j, b[Wrap(|b|, x)] > b[Wrap(|b|, y)])
  {
    Continuation(b, i, j, t);
  }

  lemma AnswerByQuadrant(b: seq<int>, i: nat, j: nat, t: nat, x: nat, y: nat, quadrant: seq<int>)
    requires i < |b| && j < |b| && Agree(b, i, j, t, x, y) && QuadrantMeaning(b, quadrant)
    requires b[Wrap(|b|, x)] == b[Wrap(|b|, y)] && quadrant[Wrap(|b|, x)] != quadrant[Wrap(|b|, y)]
    ensures Answer(b, i, j, quadrant[Wrap(|b|, x)] > quadrant[Wrap(|b|, y)])
  {
    Continuation(b, i, j, t);
  }

  /** Is rotation i1 greater than rotation i2?  Both may start in the overshoot area. */
  method GtU(i1_: nat, i2_: nat, block: seq<int>, quadrant: seq<int>, nblock: nat, budget0: int, ghost b: seq<int>)
    returns (gt: bool, budget: int)
    requires Overshoot(block, quadrant, nblock) && b == block[..nblock] && QuadrantMeaning(b, quadrant)
    requires i1_ < nblock + 15 && i2_ < nblock + 15
    ensures Answer(b, Wrap(nblock, i1_), Wrap(nblock, i2_), gt)
    ensures budget <= budget0 && 8 * (budget0 - budget) <= nblock + 16
  {
    hide Answer, Agree, QuadrantMeaning, Cmp, Adv;
    var i1, i2 := i1_, i2_;
    ghost var r1, r2, t := Wrap(nblock, i1), Wrap(nblock, i2), 0;
    budget := budget0;
    AgreeStart(b, i1, i2);
    for step := 0 to 12
      invariant i1 == i1_ + step && i2 == i2_ + step
      invariant t == step && Agree(b, r1, r2, t, i1, i2)
    {
      var c1, c2 := block[i1], block[i2];
      assert c1 == b[Wrap(nblock, i1)] && c2 == b[Wrap(nblock, i2)];
      if c1 != c2 {
        AnswerByByte(b, r1, r2, t, i1, i2);
        return c1 > c2, budget;
      }
      AgreeOneMore(b, r1, r2, t, i1, i2);
      i1, i2, t := i1 + 1, i2 + 1, t + 1;
    }
    var k := nblock + 8;
    while true
      invariant 0 <= i1 < nblock + 27 && 0 <= i2 < nblock + 27
      invariant Agree(b, r1, r2, t, i1, i2)
      invariant t == 12 + (nblock + 8 - k) && k >= 0
      invariant budget <= budget0 && 8 * (budget0 - budget) == nblock + 8 - k
      decreases k
    {
      var decided := false;
      decided, gt := GtU8(i1, i2, block, quadrant, nblock, b, r1, r2, t);
      if decided { return; }
      i1, i2, t := i1 + 8, i2 + 8, t + 8;
      AgreeWrap(b, r1, r2, t, i1, i2);
      if i1 >= nblock { i1 := i1 - nblock; }
      if i2 >= nblock { i2 := i2 - nblock; }
      k := k - 8;
      budget := budget - 1;
      if k < 0 { break; }
    }
    AnswerEqual(b, r1, r2, t, i1, i2);
    gt := false;
  }

  lemma AgreeStart(b: seq<int>, x: nat, y: nat)
    requires x < 2 * |b| && y < 2 * |b|
    ensures Agree(b, Wrap(|b|, x), Wrap(|b|, y), 0, x, y)
  {
  }

  lemma AgreeWrap(b: seq<int>, i: nat, j: nat, t: nat, x: nat, y: nat)
    requires i < |b| && j < |b| && Agree(b, i, j, t, x, y)
    ensures Agree(b, i, j, t, Wrap(|b|, x), Wrap(|b|, y))
  {
  }

  lemma AnswerEqual(b: seq<int>, i: nat, j: nat, t: nat, x: nat, y: nat)
    requires i < |b| && j < |b| && Agree(b, i, j, t, x, y) && t >= |b|
    ensures Answer(b, i, j, false)
  {
    CmpPrefix(b, i, j, |b|, t);
  }

  /** Eight positions, comparing bytes and then quadrants. */
  method GtU8(i1_: nat, i2_: nat, block: seq<int>, quadrant: seq<int>, nblock: nat, ghost b: seq<int>,
      ghost r1: nat, ghost r2: nat, ghost t0: nat)
    returns (decided: bool, gt: bool)
    requires Overshoot(block, quadrant, nblock) && b == block[..nblock] && QuadrantMeaning(b, quadrant)
    requires i1_ < nblock + 27 && i2_ < nblock + 27 && r1 < nblock && r2 < nblock
    requires Agree(b, r1, r2, t0, i1_, i2_)
    ensures decided ==> Answer(b, r1, r2, gt)
    ensures !decided ==> Agree(b, r1, r2, t0 + 8, i1_ + 8, i2_ + 8)
  {
    hide Answer, Agree, QuadrantMeaning;
    var i1, i2 := i1_, i2_;
    for step := 0 to 8
      invariant i1 == i1_ + step && i2 == i2_ + step
      invariant Agree(b, r1, r2, t0 + step, i1, i2)
    {
      var c1, c2 := block[i1], block[i2];
      assert c1 == b[Wrap(nblock, i1)] && c2 == b[Wrap(nblock, i2)];
      if c1 != c2 {
        AnswerByByte(b, r1, r2, t0 + step, i1, i2);
        return true, c1 > c2;
      }
      var s1, s2 := quadrant[i1], quadrant[i2];
      assert s1 == quadrant[Wrap(nblock, i1)] && s2 == quadrant[Wrap(nblock, i2)];
      if s1 != s2 {
        AnswerByQuadrant(b, r1, r2, t0 + step, i1, i2, quadrant);
        return true, s1 > s2;
      }
      AgreeOneMore(b, r1, r2, t0 + step, i1, i2);
      i1, i2 := i1 + 1, i2 + 1;
    }
    decided, gt := false, false;
  }
}

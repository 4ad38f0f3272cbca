/** Cyclic rotations of a block and the order in which block sorting puts them. */
module Rotations {

  type byte = b: int | 0 <= b < 256

  /** Every entry is a byte. */
  ghost predicate Bytes(b: seq<int>) {
    forall i :: 0 <= i < |b| ==> 0 <= b[i] < 256
  }

  /** The position that follows i in a block of n bytes, read as a ring. */
  function Next(n: nat, i: nat): (r: nat)
    requires i < n
    ensures r < n
  {
    if i + 1 == n then 0 else i + 1
  }

  /** The position that precedes i. */
  function Prev(n: nat, i: nat): (r: nat)
    requires i < n
    ensures r < n && Next(n, r) == i
  {
    if i == 0 then n - 1 else i - 1
  }

  /** The position h places after i. */
  function Adv(n: nat, i: nat, h: nat): (r: nat)
    requires i < n
    ensures r < n
    decreases h
  {
    if h == 0 then i else Adv(n, Next(n, i), h - 1)
  }

  lemma {:induction false} AdvOnce(n: nat, i: nat, h: nat)
    requires i < n && h <= n
    ensures Adv(n, i, h) == if i + h < n then i + h else i + h - n
    decreases h
  {
    if h > 0 {
      if h < n || i != n - 1 {
        AdvOnce(n, Next(n, i), h - 1);
      } else {
        AdvOnce(n, 0, n - 1);
      }
    }
  }

  lemma {:induction false} AdvAdd(n: nat, i: nat, h: nat, k: nat)
    requires i < n
    ensures Adv(n, i, h + k) == Adv(n, Adv(n, i, h), k)
    decreases h
  {
    if h > 0 {
      AdvAdd(n, Next(n, i), h - 1, k);
    }
  }

  /** Compares the first h bytes of the rotations that start at i and at j:
      negative, zero or positive as the first is smaller, equal or greater. */
  function Cmp(b: seq<int>, i: nat, j: nat, h: nat): int
    requires i < |b| && j < |b|
    decreases h
  {
    if h == 0 then 0
    else if b[i] != b[j] then b[i] - b[j]
    else Cmp(b, Next(|b|, i), Next(|b|, j), h - 1)
  }

  /** Rotation i precedes or equals rotation j, over the whole ring. */
  predicate Le(b: seq<int>, i: nat, j: nat)
    requires i < |b| && j < |b|
  {
    Cmp(b, i, j, |b|) <= 0
  }

  lemma {:induction false} CmpFlip(b: seq<int>, i: nat, j: nat, h: nat)
    requires i < |b| && j < |b|
    ensures Cmp(b, j, i, h) == -Cmp(b, i, j, h)
    decreases h
  {
    if h > 0 && b[i] == b[j] {
      CmpFlip(b, Next(|b|, i), Next(|b|, j), h - 1);
    }
  }

  lemma {:induction false} CmpTrans(b: seq<int>, i: nat, j: nat, k: nat, h: nat)
    requires i < |b| && j < |b| && k < |b|
    requires Cmp(b, i, j, h) <= 0 && Cmp(b, j, k, h) <= 0
    ensures Cmp(b, i, k, h) <= 0
    ensures Cmp(b, i, k, h) == 0 ==> Cmp(b, i, j, h) == 0 && Cmp(b, j, k, h) == 0
    decreases h
  {
    if h > 0 && b[i] == b[j] == b[k] {
      CmpTrans(b, Next(|b|, i), Next(|b|, j), Next(|b|, k), h - 1);
    }
  }

  /** A comparison over h + k bytes is decided by the first h, or else by the k that follow. */
  lemma {:induction false} CmpSplit(b: seq<int>, i: nat, j: nat, h: nat, k: nat)
    requires i < |b| && j < |b|
    ensures Cmp(b, i, j, h + k) ==
            if Cmp(b, i, j, h) != 0 then Cmp(b, i, j, h)
            else Cmp(b, Adv(|b|, i, h), Adv(|b|, j, h), k)
    decreases h
  {
    if h > 0 && b[i] == b[j] {
      CmpSplit(b, Next(|b|, i), Next(|b|, j), h - 1, k);
    }
  }

  /** Once decided, a comparison stays decided when it is carried further. */
  lemma CmpPrefix(b: seq<int>, i: nat, j: nat, h: nat, k: nat)
    requires i < |b| && j < |b| && h <= k
    ensures Cmp(b, i, j, h) != 0 ==> Cmp(b, i, j, k) == Cmp(b, i, j, h)
    ensures Cmp(b, i, j, k) <= 0 ==> Cmp(b, i, j, h) <= 0
    ensures Cmp(b, i, j, k) == 0 ==> Cmp(b, i, j, h) == 0
  {
    CmpSplit(b, i, j, h, k - h);
  }

  lemma {:induction false} CmpSelf(b: seq<int>, i: nat, h: nat)
    requires i < |b|
    ensures Cmp(b, i, i, h) == 0
    decreases h
  {
    if h > 0 { CmpSelf(b, Next(|b|, i), h - 1); }
  }

  lemma FullTurn(n: nat, i: nat)
    requires i < n
    ensures Adv(n, Next(n, i), n - 1) == i
  {
    AdvOnce(n, Next(n, i), n - 1);
  }

  lemma CmpStep(b: seq<int>, i: nat, j: nat, h: nat)
    requires i < |b| && j < |b| && h > 0 && Cmp(b, i, j, h) == 0
    ensures b[i] == b[j] && Cmp(b, Next(|b|, i), Next(|b|, j), h - 1) == 0 && Cmp(b, i, j, 1) == 0
  {
  }

  /** Equal rotations stay equal when both are turned forward by one place. */
  lemma EqualTurn(b: seq<int>, i: nat, j: nat)
    requires i < |b| && j < |b| && Cmp(b, i, j, |b|) == 0
    ensures b[i] == b[j]
    ensures Cmp(b, Next(|b|, i), Next(|b|, j), |b|) == 0
  {
    hide Cmp, Next, Adv;
    CmpStep(b, i, j, |b|);
    CmpSplit(b, Next(|b|, i), Next(|b|, j), |b| - 1, 1);
    FullTurn(|b|, i);
    FullTurn(|b|, j);
  }

  /** Equal rotations agree on every length, not only on one turn of the ring. */
  lemma {:induction false} EqualForever(b: seq<int>, i: nat, j: nat, h: nat)
    requires i < |b| && j < |b| && Cmp(b, i, j, |b|) == 0
    ensures Cmp(b, i, j, h) == 0
    decreases h
  {
    if h > 0 {
      EqualTurn(b, i, j);
      EqualForever(b, Next(|b|, i), Next(|b|, j), h - 1);
    }
  }

  /** The order decided at any length, however great, is the order over one turn. */
  lemma CmpDecided(b: seq<int>, i: nat, j: nat, h: nat)
    requires i < |b| && j < |b| && Cmp(b, i, j, h) != 0
    ensures Cmp(b, i, j, |b|) < 0 <==> Cmp(b, i, j, h) < 0
    ensures Cmp(b, i, j, |b|) > 0 <==> Cmp(b, i, j, h) > 0
  {
    if h <= |b| {
      CmpPrefix(b, i, j, h, |b|);
    } else {
      CmpPrefix(b, i, j, |b|, h);
      if Cmp(b, i, j, |b|) == 0 { EqualForever(b, i, j, h); }
    }
  }

  /** p lists 0 .. n-1, each once. */
  predicate IsPermutation(p: seq<int>, n: nat) {
    && |p| == n
    && (forall i :: 0 <= i < n ==> 0 <= p[i] < n)
    && (forall i, j :: 0 <= i < j < n ==> p[i] != p[j])
  }

  /** p lists the rotations of b in non-decreasing order; equal rotations may come in any order. */
  predicate SortsRotations(b: seq<int>, p: seq<int>) {
    && IsPermutation(p, |b|)
    && (forall i, j :: 0 <= i < j < |b| ==> Le(b, p[i], p[j]))
  }

}

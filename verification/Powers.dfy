/** Powers of two and the division facts that go with shifts. */
module Powers {

  function Pow2(k: nat): (r: nat)
    ensures r >= 1
  {
    if k == 0 then 1 else 2 * Pow2(k - 1)
  }

  lemma DivTwice(v: int, p: nat)
    requires v >= 0 && p >= 1
    ensures v / (2 * p) == v / 2 / p
  {
    var q := v / 2 / p;
    var r := v / 2 % p;
    assert v / 2 == p * q + r;
    var e := v % 2;
    assert v == 2 * (p * q + r) + e == (2 * p) * q + (2 * r + e);
    DivUnique(v, 2 * p, q, 2 * r + e);
  }

  lemma DivUnique(v: int, d: int, q: int, r: int)
    requires d > 0 && 0 <= r < d && v == d * q + r
    ensures v / d == q
  {
    var q' := v / d;
    assert v == d * q' + v % d;
    Multiples(d, q', q);
    Multiples(d, q, q');
  }

  lemma Multiples(d: int, x: int, y: int)
    requires d > 0
    ensures x < y ==> d * x + d <= d * y
  {
    if x < y {
      NonNegative(d, y - x - 1);
      assert d * y == d * (x + 1 + (y - x - 1)) == d * x + d + d * (y - x - 1);
    }
  }

  lemma NonNegative(x: int, y: int)
    requires x >= 0 && y >= 0
    ensures x * y >= 0
  {
  }

  /** The sum of 2^(l - length) over all lengths. */
  ghost function Kraft(len: seq<int>, l: nat): nat
    requires forall i :: 0 <= i < |len| ==> 0 <= len[i] <= l
  {
    if len == [] then 0 else Kraft(len[..|len| - 1], l) + Pow2(l - len[|len| - 1])
  }

  lemma MulNext(c: int, e: int)
    ensures (c + 1) * e == c * e + e
  {
  }

  lemma MulDouble(p: int, f: int)
    ensures 2 * p * f == 2 * (p * f)
  {
  }

  lemma DivAtLeast(x: int, d: int, q: int)
    requires d > 0 && x >= d * q
    ensures x / d >= q
  {
    var q' := x / d;
    assert x == d * q' + x % d;
    Multiples(d, q', q);
  }

  lemma Regroup(f: int, c: int, p: int)
    ensures 2 * (f + c) * p == f * (2 * p) + c * (2 * p)
  {
  }

  lemma {:induction false} Pow2Add(a: nat, b: nat)
    ensures Pow2(a + b) == Pow2(a) * Pow2(b)
  {
    if a > 0 {
      Pow2Add(a - 1, b);
      MulDouble(Pow2(a - 1), Pow2(b));
    }
  }

  lemma MulCompare(x: int, y: int, p: int)
    requires p > 0
    ensures x <= y <==> x * p <= y * p
  {
    Multiples(p, x, y);
    Multiples(p, y, x);
  }

  lemma MulAdd(f: int, c: int, p: int)
    ensures (f + c) * p == f * p + c * p
  {
  }
}

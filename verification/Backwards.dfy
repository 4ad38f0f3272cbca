/** Bit strings read from the lowest bit on, as deflate stores Huffman codes. */
module Backwards {

  import opened Powers
  import opened BitStream

  /** The number that a string of bits stands for when its first bit is the lowest. */
  function Lsb(s: seq<bool>): (v: nat)
    ensures v < Pow2(|s|)
  {
    if s == [] then 0 else Lsb(s[..|s| - 1]) + (if s[|s| - 1] then Pow2(|s| - 1) else 0)
  }

  lemma {:induction false} LsbJoin(x: seq<bool>, y: seq<bool>)
    ensures Lsb(x + y) == Lsb(x) + Pow2(|x|) * Lsb(y)
    decreases |y|
  {
    if y == [] {
      assert x + y == x;
    } else {
      var front, n := y[..|y| - 1], |y| - 1;
      LsbJoin(x, front);
      assert (x + y)[..|x + y| - 1] == x + front && (x + y)[|x + y| - 1] == y[n];
      hide Pow2;
      Pow2Add(|x|, n);
      Distribute(Pow2(|x|), Lsb(front), Pow2(n));
    }
  }

  lemma Distribute(p: int, a: int, b: int)
    ensures p * (a + b) == p * a + p * b
  {
  }

  lemma DivMod(x: nat, d: nat, q: nat, r: nat)
    requires r < d && x == d * q + r
    ensures x / d == q && x % d == r
  {
    DivUnique(x, d, q, r);
    assert x == d * (x / d) + x % d;
  }

  /** The first k bits and the others. */
  lemma LsbSplit(s: seq<bool>, k: nat)
    requires k <= |s|
    ensures Lsb(s) % Pow2(k) == Lsb(s[..k]) && Lsb(s) / Pow2(k) == Lsb(s[k..])
  {
    assert s[..k] + s[k..] == s;
    hide Lsb, Pow2;
    LsbJoin(s[..k], s[k..]);
    DivMod(Lsb(s), Pow2(k), Lsb(s[k..]), Lsb(s[..k]));
  }

  lemma {:induction false} LsbInjective(x: seq<bool>, y: seq<bool>)
    requires |x| == |y| && Lsb(x) == Lsb(y)
    ensures x == y
  {
    if x != [] {
      var n := |x| - 1;
      LsbInjective(x[..n], y[..n]);
      assert x == x[..n] + [x[n]] && y == y[..n] + [y[n]];
    }
  }

  function Zeros(n: nat): (z: seq<bool>)
    ensures |z| == n && forall i :: 0 <= i < n ==> !z[i]
  {
    seq(n, i => false)
  }

  /** Zeros at the far end add nothing. */
  lemma {:induction false} LsbZeros(x: seq<bool>, n: nat)
    ensures Lsb(x + Zeros(n)) == Lsb(x)
  {
    if n == 0 {
      assert x + Zeros(0) == x;
    } else {
      LsbZeros(x, n - 1);
      assert (x + Zeros(n))[..|x| + n - 1] == x + Zeros(n - 1);
    }
  }

  lemma LsbBit(s: seq<bool>, k: nat)
    requires k < |s|
    ensures Lsb(s) / Pow2(k) % 2 == if s[k] then 1 else 0
  {
    LsbSplit(s, k);
    var t := s[k..];
    LsbSplit(t, 1);
    assert Lsb(t[..1]) == Lsb([]) + (if t[0] then Pow2(0) else 0) by { assert t[..1][..0] == []; }
    assert Pow2(1) == 2 && Pow2(0) == 1;
  }

  // ----- the highest bits first -----

  /** A number by its first k bits and the others. */
  lemma {:induction false} ValueJoin(x: seq<bool>, y: seq<bool>)
    ensures Value(x + y) == Value(x) * Pow2(|y|) + Value(y)
    decreases |y|
  {
    if y == [] {
      assert x + y == x;
    } else {
      var front := y[..|y| - 1];
      ValueJoin(x, front);
      assert (x + y)[..|x + y| - 1] == x + front && (x + y)[|x + y| - 1] == y[|y| - 1];
      var p := Pow2(|front|);
      assert Pow2(|y|) == 2 * p;
      hide Pow2;
      Twice(Value(x), p);
    }
  }

  lemma Twice(x: int, p: int)
    ensures 2 * (x * p) == x * (2 * p)
  {
  }

  /** A bit string begins with the bits of c exactly if its value lies in the stretch that c has. */
  lemma BeginsWith(s: seq<bool>, c: nat, n: nat)
    requires n <= |s| && c < Pow2(n)
    ensures s[..n] == Bits(c, n) <==> c * Pow2(|s| - n) <= Value(s) < c * Pow2(|s| - n) + Pow2(|s| - n)
  {
    var x, y, p := s[..n], s[n..], Pow2(|s| - n);
    assert x + y == s;
    hide Value, Bits, Pow2;
    ValueJoin(x, y);
    ValueOfBits(c, n);
    BitsOfValue(x);
    if Value(x) < c { Multiples(p, Value(x), c); }
    if Value(x) > c { Multiples(p, c, Value(x)); }
    assert p * c == c * p && p * Value(x) == Value(x) * p;
  }

  // ----- counting backwards -----

  /** A false bit and the true ones after it turn over. */
  lemma {:induction false} Carry(x: seq<bool>, n: nat)
    ensures Value(x + [false] + Ones(n)) + 1 == Value(x + [true] + Zeros(n))
  {
    if n == 0 {
      assert x + [false] + Ones(0) == x + [false] && x + [true] + Zeros(0) == x + [true];
      assert (x + [false])[..|x|] == x && (x + [true])[..|x|] == x;
    } else {
      Carry(x, n - 1);
      var a, b := x + [false] + Ones(n), x + [true] + Zeros(n);
      assert a[..|a| - 1] == x + [false] + Ones(n - 1) && b[..|b| - 1] == x + [true] + Zeros(n - 1);
    }
  }

  function Ones(n: nat): (z: seq<bool>)
    ensures |z| == n && forall i :: 0 <= i < n ==> z[i]
  {
    seq(n, i => true)
  }

  lemma {:induction false} AllOnes(n: nat)
    ensures Value(Ones(n)) + 1 == Pow2(n)
  {
    if n > 0 {
      AllOnes(n - 1);
      assert Ones(n)[..n - 1] == Ones(n - 1);
    }
  }

  /** huff & incr, for a power of two or zero. */
  predicate HasBit(huff: nat, incr: nat) { incr != 0 && huff / incr % 2 == 1 }

  /** The code after this one, the bits backwards; zero after the last. */
  method NextBackwards(huff0: nat, len: nat, ghost s: seq<bool>) returns (huff: nat)
    requires 1 <= len == |s| && huff0 == Lsb(s)
    ensures Value(s) + 1 < Pow2(len) ==> huff == Lsb(Bits(Value(s) + 1, len))
    ensures Value(s) + 1 >= Pow2(len) ==> huff == 0
  {
    hide Lsb, Bits, Value, Pow2;
    huff := huff0;
    var incr := Pow2(len - 1);
    ghost var k := len - 1;
    while HasBit(huff, incr)
      invariant -1 <= k < len && incr == (if k >= 0 then Pow2(k) else 0) && forall i :: k < i < len ==> s[i]
      decreases k
    {
      LsbBit(s, k);
      HalfPower(k);
      incr := incr / 2;
      k := k - 1;
    }
    if incr != 0 {
      LsbBit(s, k);
      LsbSplit(s, k);
      Turned(s, k);
      huff := huff % incr;
      huff := huff + incr;
    } else {
      assert s == Ones(len);
      AllOnes(len);
      huff := 0;
    }
  }

  lemma LsbSnoc(x: seq<bool>)
    ensures Lsb(x + [true]) == Lsb(x) + Pow2(|x|)
  {
    assert (x + [true])[..|x|] == x;
  }

  lemma HalfPower(k: nat)
    ensures Pow2(k) / 2 == if k > 0 then Pow2(k - 1) else 0
  {
  }

  lemma Turned(s: seq<bool>, k: nat)
    requires k < |s| && !s[k] && forall i :: k < i < |s| ==> s[i]
    ensures Value(s) + 1 < Pow2(|s|) && Lsb(Bits(Value(s) + 1, |s|)) == Lsb(s[..k]) + Pow2(k)
  {
    hide Lsb, Value, Bits, Pow2;
    var n := |s| - k - 1;
    var x := s[..k];
    var t := x + [true] + Zeros(n);
    assert s == x + [false] + Ones(n);
    Carry(x, n);
    BitsOfValue(t);
    LsbZeros(x + [true], n);
    LsbSnoc(x);
  }
}

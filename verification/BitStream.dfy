/** Strings of bits: the numbers and the bytes that they stand for. */
module BitStream {

  import opened Powers
  import opened Rotations

  // ----- numbers as strings of bits -----

  /** The low n bits of v, most significant first. */
  function Bits(v: nat, n: nat): (r: seq<bool>)
    ensures |r| == n
  {
    if n == 0 then [] else Bits(v / 2, n - 1) + [v % 2 == 1]
  }

  /** The number that a string of bits stands for. */
  function Value(bits: seq<bool>): (v: nat)
    ensures v < Pow2(|bits|)
  {
    if bits == [] then 0 else 2 * Value(bits[..|bits| - 1]) + (if bits[|bits| - 1] then 1 else 0)
  }

  lemma {:induction false} ValueOfBits(v: nat, n: nat)
    requires v < Pow2(n)
    ensures Value(Bits(v, n)) == v
  {
    if n > 0 {
      ValueOfBits(v / 2, n - 1);
      assert Bits(v, n)[..n - 1] == Bits(v / 2, n - 1);
    }
  }

  lemma {:induction false} BitsOfValue(bits: seq<bool>)
    ensures Bits(Value(bits), |bits|) == bits
  {
    if bits != [] {
      var front, last := bits[..|bits| - 1], bits[|bits| - 1];
      BitsOfValue(front);
      var v := 2 * Value(front) + (if last then 1 else 0);
      assert v / 2 == Value(front) && (v % 2 == 1 <==> last);
      assert bits == front + [last];
    }
  }

  /** x in front of n further bits y. */
  lemma {:induction false} BitsJoin(x: nat, m: nat, y: nat, n: nat)
    requires y < Pow2(n)
    ensures Bits(x * Pow2(n) + y, m + n) == Bits(x, m) + Bits(y, n)
    decreases n
  {
    if n == 0 {
      assert Bits(x, m) + [] == Bits(x, m);
      assert x * Pow2(0) + y == x;
    } else {
      BitsJoin(x, m, y / 2, n - 1);
      JoinHalf(x, y, Pow2(n - 1));
      assert Bits(x, m) + (Bits(y / 2, n - 1) + [y % 2 == 1]) == Bits(x, m) + Bits(y / 2, n - 1) + [y % 2 == 1];
    }
  }

  lemma JoinHalf(x: nat, y: nat, p: nat)
    ensures (x * (2 * p) + y) / 2 == x * p + y / 2 && (x * (2 * p) + y) % 2 == y % 2
  {
    assert x * (2 * p) == 2 * (x * p);
  }

  /** Only the low n bits count. */
  lemma {:induction false} BitsLow(x: nat, y: nat, n: nat)
    ensures Bits(x * Pow2(n) + y, n) == Bits(y, n)
    decreases n
  {
    if n > 0 {
      JoinHalf(x, y, Pow2(n - 1));
      BitsLow(x, y / 2, n - 1);
    }
  }

  /** A string of bytes as a string of bits. */
  function ByteBits(bytes: seq<int>): (r: seq<bool>)
    requires Bytes(bytes)
    ensures |r| == 8 * |bytes|
  {
    if bytes == [] then [] else ByteBits(bytes[..|bytes| - 1]) + Bits(bytes[|bytes| - 1], 8)
  }

  lemma ByteBitsSnoc(bytes: seq<int>, c: int)
    requires 0 <= c < 256 && Bytes(bytes)
    ensures ByteBits(bytes + [c]) == ByteBits(bytes) + Bits(c, 8)
  {
    assert (bytes + [c])[..|bytes|] == bytes;
  }

  lemma {:induction false} ByteBitsJoin(x: seq<int>, y: seq<int>)
    requires Bytes(x)
    requires Bytes(y)
    ensures ByteBits(x + y) == ByteBits(x) + ByteBits(y)
    decreases |y|
  {
    if y == [] {
      assert x + y == x && ByteBits(y) == [];
      assert ByteBits(x) + [] == ByteBits(x);
    } else {
      var front, last := y[..|y| - 1], y[|y| - 1];
      hide ByteBits, Bits;
      ByteBitsJoin(x, front);
      assert y == front + [last];
      ByteBitsSnoc(front, last);
      JoinSnoc(x, front, last);
    }
  }

  lemma JoinSnoc(x: seq<int>, y: seq<int>, c: int)
    requires Bytes(x) && Bytes(y) && 0 <= c < 256 && ByteBits(x + y) == ByteBits(x) + ByteBits(y)
    ensures ByteBits(x + (y + [c])) == ByteBits(x) + (ByteBits(y) + Bits(c, 8))
  {
    hide ByteBits, Bits;
    assert x + (y + [c]) == (x + y) + [c];
    ByteBitsSnoc(x + y, c);
  }

  /** Bytes come back from their bits. */
  lemma {:induction false} ByteBitsInjective(x: seq<int>, y: seq<int>)
    requires Bytes(x)
    requires Bytes(y)
    requires ByteBits(x) == ByteBits(y)
    ensures x == y
  {
    if x != [] {
      var a, b := x[|x| - 1], y[|y| - 1];
      var fx, fy := x[..|x| - 1], y[..|y| - 1];
      assert ByteBits(x)[..8 * |fx|] == ByteBits(fx) && ByteBits(y)[..8 * |fx|] == ByteBits(fy);
      ByteBitsInjective(fx, fy);
      assert ByteBits(x)[8 * |fx|..] == Bits(a, 8) && ByteBits(y)[8 * |fx|..] == Bits(b, 8);
      assert Pow2(8) == 256;
      ValueOfBits(a, 8);
      ValueOfBits(b, 8);
      assert x == fx + [a] && y == fy + [b];
    }
  }
}

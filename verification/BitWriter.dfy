/** bsW and its companions: bits collected at the top of a 32-bit buffer and moved out byte by byte. */
module BitWriter {

  import opened Powers
  import opened Rotations
  import opened BitStream
  import opened Sequences

  const WORD := 0x1_0000_0000

  lemma PowWord()
    ensures Pow2(8) == 256 && Pow2(24) == 0x100_0000 && Pow2(32) == WORD
  {
    Pow2Add(8, 8);
    Pow2Add(16, 8);
    Pow2Add(16, 16);
    assert Pow2(8) == 256;
  }

  /** live bits, the number pend, stand at the top of the buffer; below them the buffer is zero. */
  ghost predicate Holds(buff: int, live: int, pend: int) {
    && 0 <= live <= 32 && 0 <= pend < Pow2(live) && buff == pend * Pow2(32 - live)
  }

  lemma HoldsRange(buff: int, live: int, pend: int)
    requires Holds(buff, live, pend)
    ensures 0 <= buff < WORD
  {
    PowWord();
    Pow2Add(live, 32 - live);
    MulBelow(pend, Pow2(live), Pow2(32 - live));
  }

  lemma MulBelow(x: int, y: int, p: int)
    requires 0 <= x < y && p > 0
    ensures 0 <= x * p && x * p + p <= y * p
  {
    Multiples(p, x, y);
    NonNegative(x, p);
  }

  lemma MulAssoc(x: int, y: int, z: int)
    ensures x * y * z == x * (y * z)
  {
  }

  /** bsBuff >> 24 and bsBuff << 8. */
  function TopByte(buff: int): int { buff / 0x100_0000 }

  function ShiftByte(buff: int): int { buff * 256 % WORD }

  /** The eight bits that leave, and what stays. */
  lemma ByteLeaves(buff: int, live: int, pend: int) returns (rest: int)
    requires Holds(buff, live, pend) && live >= 8
    ensures 0 <= TopByte(buff) < 256
    ensures Holds(ShiftByte(buff), live - 8, rest) && Bits(pend, live) == Bits(TopByte(buff), 8) + Bits(rest, live - 8)
  {
    var q, k := Pow2(live - 8), Pow2(32 - live);
    PowWord();
    Pow2Add(live - 8, 32 - live);
    Pow2Add(8, 32 - live);
    Pow2Add(live - 8, 8);
    hide Pow2, TopByte, ShiftByte;
    var byte;
    byte, rest := ByteMath(pend, q, k);
    assert Pow2(32 - (live - 8)) == 256 * k;
    BitsJoin(byte, 8, rest, live - 8);
  }

  /** The arithmetic of moving out a byte, with q * k = 2^24. */
  lemma ByteMath(pend: int, q: int, k: int) returns (byte: int, rest: int)
    requires q > 0 && k > 0 && q * k == 0x100_0000 && 0 <= pend < q * 256
    ensures 0 <= rest < q && 0 <= byte < 256 && pend == byte * q + rest
    ensures TopByte(pend * k) == byte && ShiftByte(pend * k) == rest * (256 * k)
  {
    byte, rest := pend / q, pend % q;
    Spread(byte, q, rest, k);
    MulBelow(rest, q, k);
    DivUnique(pend * k, 0x100_0000, byte, rest * k);
    ByteBelow(pend, byte, q, rest);
    ModUnique(pend * k * 256, WORD, byte, rest * k * 256);
    MulSwap(rest, k);
  }

  lemma MulSwap(r: int, k: int)
    ensures r * k * 256 == r * (256 * k)
  {
  }

  lemma Spread(byte: int, q: int, rest: int, k: int)
    requires q * k == 0x100_0000
    ensures (byte * q + rest) * k == 0x100_0000 * byte + rest * k
  {
    MulAdd(byte * q, rest, k);
    MulAssoc(byte, q, k);
  }

  lemma ByteBelow(pend: int, byte: int, q: int, rest: int)
    requires 0 <= pend < q * 256 && q > 0 && pend == byte * q + rest && 0 <= rest < q
    ensures 0 <= byte < 256
  {
    Multiples(q, byte, 0);
    Multiples(q, 255, byte);
  }

  lemma ModUnique(v: int, d: int, q: int, r: int)
    requires d > 0 && 0 <= r < d && v == d * q + r
    ensures v % d == r
  {
    DivUnique(v, d, q, r);
  }

  /** b | x, for an x that lies below the bits that b uses. */
  function OrBelow(b: int, x: int, k: nat): int
    requires b % Pow2(k) == 0 && 0 <= x < Pow2(k)
  {
    b + x
  }

  lemma MultipleMod(p: int, k: int)
    requires k > 0
    ensures p * k % k == 0
  {
    ModUnique(p * k, k, p, 0);
  }

  /** n more bits join those that are held. */
  lemma BitsEnter(buff: int, live: int, pend: int, n: int, v: int)
    requires Holds(buff, live, pend) && 0 <= n && live + n <= 32 && 0 <= v < Pow2(n)
    ensures buff % Pow2(32 - live) == 0 && 0 <= v * Pow2(32 - live - n) < Pow2(32 - live)
    ensures Holds(buff + v * Pow2(32 - live - n), live + n, pend * Pow2(n) + v)
    ensures Bits(pend * Pow2(n) + v, live + n) == Bits(pend, live) + Bits(v, n)
  {
    hide Pow2;
    var k := 32 - live - n;
    MultipleMod(pend, Pow2(32 - live));
    Pow2Add(n, k);
    MulBelow(v, Pow2(n), Pow2(k));
    Pow2Add(live, n);
    MulBelow(pend, Pow2(live), Pow2(n));
    MulAssoc(pend, Pow2(n), Pow2(k));
    MulAdd(pend * Pow2(n), v, Pow2(k));
    BitsJoin(pend, live, v, n);
  }

  class Writer {
    var zbits: seq<int>
    var bsBuff: int
    var bsLive: int
    ghost var pend: int

    ghost predicate Valid()
      reads this
    {
      Bytes(zbits) && Holds(bsBuff, bsLive, pend)
    }

    /** The buffer is a word of 32 bits. */
    lemma InWord()
      requires Valid()
      ensures 0 <= bsBuff < WORD
    {
      HoldsRange(bsBuff, bsLive, pend);
    }

    /** Everything written since the start. */
    ghost function Written(): seq<bool>
      reads this
      requires Valid()
    {
      ByteBits(zbits) + Bits(pend, bsLive)
    }

    /** Bits that are not in a byte yet are in the buffer. */
    lemma HeldFew()
      requires Valid()
      ensures 8 * |zbits| <= |Written()| <= 8 * |zbits| + 32
    {
    }

    /** BZ2_bsInitWrite. */
    constructor ()
      ensures Valid() && Written() == [] && zbits == []
    {
      zbits, bsBuff, bsLive, pend := [], 0, 0, 0;
    }

    /** Moves one byte out of the buffer. */
    method Flush()
      requires Valid() && bsLive >= 8
      modifies this
      ensures Valid() && Written() == old(Written()) && bsLive == old(bsLive) - 8
    {
      ghost var rest := ByteLeaves(bsBuff, bsLive, pend);
      ghost var b := TopByte(bsBuff);
      hide ByteBits, Bits;
      ByteBitsSnoc(zbits, TopByte(bsBuff));
      Assoc(ByteBits(zbits), Bits(b, 8), Bits(rest, bsLive - 8));
      zbits := zbits + [TopByte(bsBuff)];
      bsBuff := ShiftByte(bsBuff);
      bsLive := bsLive - 8;
      pend := rest;
    }

    /** bsNEEDW and bsW: the low n bits of v follow what was written before. */
    method W(n: int, v: int)
      requires Valid() && 0 <= n <= 25 && 0 <= v < Pow2(n)
      modifies this
      ensures Valid() && Written() == old(Written()) + Bits(v, n) && 0 <= bsBuff < WORD
    {
      hide Pow2, Bits, ByteBits;
      while bsLive >= 8
        invariant Valid() && Written() == old(Written())
        decreases bsLive
      {
        Flush();
      }
      BitsEnter(bsBuff, bsLive, pend, n, v);
      Assoc(ByteBits(zbits), Bits(pend, bsLive), Bits(v, n));
      bsBuff := OrBelow(bsBuff, v * Pow2(32 - bsLive - n), 32 - bsLive);
      pend := pend * Pow2(n) + v;
      bsLive := bsLive + n;
      InWord();
    }

    /** Takes out the bytes that are complete; the bits in the buffer stay for the next ones. */
    method TakeBytes() returns (bytes: seq<int>)
      requires Valid()
      modifies this
      ensures Valid() && bytes == old(zbits) && zbits == [] && Bytes(bytes) &&
        ByteBits(bytes) + Written() == old(Written())
    {
      bytes := zbits;
      zbits := [];
      assert ByteBits([]) + Bits(pend, bsLive) == Bits(pend, bsLive);
    }

    /** bsFinishWrite: fills up the last byte with zeros. */
    method FinishWrite()
      requires Valid()
      modifies this
      ensures Bytes(zbits) && exists pad: nat :: pad < 8 && ByteBits(zbits) == old(Written()) + Bits(0, pad)
    {
      while bsLive >= 8
        invariant Valid() && Written() == old(Written())
        decreases bsLive
      {
        Flush();
      }
      if bsLive > 0 {
        PaddedByte(zbits, bsBuff, bsLive, pend);
        zbits := zbits + [TopByte(bsBuff)];
        bsBuff := ShiftByte(bsBuff);
        bsLive := bsLive - 8;
      } else {
        assert ByteBits(zbits) == ByteBits(zbits) + Bits(pend, 0) == ByteBits(zbits) + Bits(pend, 0) + Bits(0, 0);
      }
    }
  }

  lemma PaddedByte(zbits: seq<int>, buff: int, live: int, pend: int)
    requires Bytes(zbits) && Holds(buff, live, pend) && 0 < live < 8
    ensures 0 <= TopByte(buff) < 256
    ensures ByteBits(zbits + [TopByte(buff)]) == ByteBits(zbits) + Bits(pend, live) + Bits(0, 8 - live)
  {
    BitsEnter(buff, live, pend, 8 - live, 0);
    var p := pend * Pow2(8 - live) + 0;
    var rest := ByteLeaves(buff, 8, p);
    ByteBitsSnoc(zbits, TopByte(buff));
    assert Bits(TopByte(buff), 8) + Bits(rest, 0) == Bits(TopByte(buff), 8);
    Assoc(ByteBits(zbits), Bits(pend, live), Bits(0, 8 - live));
  }
}

/** The checksum of bzip2: most significant bit first, by a table of 256 words. */
module BlockCrc {

  import opened Gf2
  import opened Rotations

  function Top(c: bv32): bool { c & 0x8000_0000 != 0 }

  function Left(c: bv32): bv32 { c << 1 }

  /** One bit of the division by the polynomial. */
  function Shift(c: bv32): bv32 {
    if Top(c) then Xor(Left(c), 0x04c1_1db7) else Left(c)
  }

  function Shifts(c: bv32, n: nat): bv32
    decreases n
  {
    if n == 0 then c else Shifts(Shift(c), n - 1)
  }

  /** The table entry for byte i. */
  function Table(i: bv32): bv32 { Shifts(ToTop(i), 8) }

  function ToTop(i: bv32): bv32 { i << 24 }

  function FromTop(c: bv32): bv32 { c >> 24 }

  function Left8(c: bv32): bv32 { c << 8 }

  /** BZ_UPDATE_CRC: eight bits at once. */
  function Update(crc: bv32, ch: bv32): bv32 { Xor(Left8(crc), Table(Xor(FromTop(crc), ch))) }

  lemma TopAdds(a: bv32, b: bv32)
    ensures Top(Xor(a, b)) == (Top(a) != Top(b))
  {
  }

  lemma LeftAdds(a: bv32, b: bv32)
    ensures Left(Xor(a, b)) == Xor(Left(a), Left(b))
  {
  }

  lemma ShiftAdds(a: bv32, b: bv32)
    ensures Shift(Xor(a, b)) == Xor(Shift(a), Shift(b))
  {
    TopAdds(a, b);
    LeftAdds(a, b);
    var p: bv32, x, y := 0x04c1_1db7, Left(a), Left(b);
    hide Top, Left, Xor;
    XorSelf(p);
    XorSelf(0);
    XorSelf(x);
    XorSelf(y);
    XorSelf(Xor(x, y));
    XorSwap(x, p, y, p);
    XorSwap(x, p, y, 0);
    XorSwap(x, 0, y, p);
  }

  lemma {:induction false} ShiftsAdd(a: bv32, b: bv32, n: nat)
    ensures Shifts(Xor(a, b), n) == Xor(Shifts(a, n), Shifts(b, n))
    decreases n
  {
    hide Shift, Xor;
    if n > 0 {
      ShiftAdds(a, b);
      ShiftsAdd(Shift(a), Shift(b), n - 1);
    }
  }

  lemma ZerosMove(a: bv32)
    ensures a & 0xff00_0000 == 0 ==> !Top(a) && Left(a) & 0xfe00_0000 == 0
    ensures a & 0xfe00_0000 == 0 ==> !Top(a) && Left(a) & 0xfc00_0000 == 0
    ensures a & 0xfc00_0000 == 0 ==> !Top(a) && Left(a) & 0xf800_0000 == 0
    ensures a & 0xf800_0000 == 0 ==> !Top(a) && Left(a) & 0xf000_0000 == 0
    ensures a & 0xf000_0000 == 0 ==> !Top(a) && Left(a) & 0xe000_0000 == 0
    ensures a & 0xe000_0000 == 0 ==> !Top(a) && Left(a) & 0xc000_0000 == 0
    ensures a & 0xc000_0000 == 0 ==> !Top(a) && Left(a) & 0x8000_0000 == 0
    ensures a & 0x8000_0000 == 0 ==> !Top(a)
  {
  }

  lemma EightLefts(a: bv32)
    ensures Left(Left(Left(Left(Left(Left(Left(Left(a)))))))) == Left8(a)
  {
  }

  function LowPart(c: bv32): bv32 { c & 0x00ff_ffff }

  lemma LowIsLow(c: bv32)
    ensures LowPart(c) & 0xff00_0000 == 0 && Left8(LowPart(c)) == Left8(c)
  {
  }

  /** The low 24 bits only move. */
  lemma LowMoves(c: bv32)
    ensures Shifts(LowPart(c), 8) == Left8(c)
  {
    LowIsLow(c);
    hide LowPart, Top, Left, Left8, Xor;
    var a := LowPart(c);
    var a1 := Left(a);
    var a2 := Left(a1);
    var a3 := Left(a2);
    var a4 := Left(a3);
    var a5 := Left(a4);
    var a6 := Left(a5);
    var a7 := Left(a6);
    ZerosMove(a);
    ZerosMove(a1);
    ZerosMove(a2);
    ZerosMove(a3);
    ZerosMove(a4);
    ZerosMove(a5);
    ZerosMove(a6);
    ZerosMove(a7);
    EightLefts(a);
    assert Shifts(Left(a7), 0) == Left8(c);
    assert Shifts(a7, 1) == Left8(c);
    assert Shifts(a6, 2) == Left8(c);
    assert Shifts(a5, 3) == Left8(c);
    assert Shifts(a4, 4) == Left8(c);
    assert Shifts(a3, 5) == Left8(c);
    assert Shifts(a2, 6) == Left8(c);
    assert Shifts(a1, 7) == Left8(c);
  }

  lemma Halves(crc: bv32, ch: bv32)
    requires ch < 256
    ensures Xor(crc, ToTop(ch)) == Xor(LowPart(crc), ToTop(Xor(FromTop(crc), ch)))
  {
  }

  /** The table does in one step what the bitwise definition does in eight. */
  lemma UpdateIsBitwise(crc: bv32, ch: bv32)
    requires ch < 256
    ensures Update(crc, ch) == Shifts(Xor(crc, ToTop(ch)), 8)
  {
    Halves(crc, ch);
    LowMoves(crc);
    hide Shifts, Xor, ToTop, FromTop, LowPart, Left8;
    ShiftsAdd(LowPart(crc), ToTop(Xor(FromTop(crc), ch)), 8);
  }

  /** The checksum register after the bytes s. */
  function CrcOf(crc: bv32, s: seq<int>): bv32
    requires Bytes(s)
  {
    if s == [] then crc else Update(CrcOf(crc, s[..|s| - 1]), s[|s| - 1] as bv32)
  }

  lemma {:induction false} CrcJoin(crc: bv32, x: seq<int>, y: seq<int>)
    requires Bytes(x) && Bytes(y)
    ensures Bytes(x + y) && CrcOf(crc, x + y) == CrcOf(CrcOf(crc, x), y)
    decreases |y|
  {
    hide Update;
    if y == [] {
      assert x + y == x;
    } else {
      var front, last := y[..|y| - 1], y[|y| - 1];
      CrcJoin(crc, x, front);
      assert (x + y)[..|x + y| - 1] == x + front && (x + y)[|x + y| - 1] == last;
    }
  }

  /** The combined checksum: rotated by one bit, then the block's added. */
  function Combine(combined: bv32, crc: bv32): bv32 {
    Xor((combined << 1) | (combined >> 31), crc)
  }

  function Finish(crc: bv32): bv32 { !crc }

  function AsNumber(c: bv32): (v: int)
    ensures 0 <= v < 0x1_0000_0000
  {
    c as int
  }
}

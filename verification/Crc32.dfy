/** The checksum of gzip: least significant bit first, four bytes at a time, and combined by powers of a matrix. */
module Crc32 {

  import opened Gf2
  import opened Rotations

  // ----- the definition, bit by bit -----

  const POLY: bv32 := 0xedb8_8320
  const ONES: bv32 := 0xffff_ffff

  function Low(c: bv32): bool { c & 1 != 0 }

  function Half(c: bv32): bv32 { c >> 1 }

  /** One bit of the division by the polynomial. */
  function Shift(c: bv32): bv32 {
    if Low(c) then Xor(POLY, Half(c)) else Half(c)
  }

  function Shifts(c: bv32, n: nat): bv32
    decreases n
  {
    if n == 0 then c else Shifts(Shift(c), n - 1)
  }

  function AsWord(b: int): (w: bv32)
    requires 0 <= b < 256
    ensures w < 256
  {
    b as bv32
  }

  /** The register after the bytes s. */
  function Register(c: bv32, s: seq<int>): bv32
    requires Bytes(s)
  {
    if s == [] then c else Shifts(Xor(Register(c, s[..|s| - 1]), AsWord(s[|s| - 1])), 8)
  }

  function Not(c: bv32): bv32 { Xor(c, ONES) }

  /** The checksum of s. */
  function Crc(s: seq<int>): bv32
    requires Bytes(s)
  {
    Not(Register(Not(0), s))
  }

  // ----- shifting is linear -----

  lemma LowAdds(a: bv32, b: bv32)
    ensures Low(Xor(a, b)) == (Low(a) != Low(b))
  {
  }

  lemma HalfAdds(a: bv32, b: bv32)
    ensures Half(Xor(a, b)) == Xor(Half(a), Half(b))
  {
  }

  lemma ShiftAdds(a: bv32, b: bv32)
    ensures Shift(Xor(a, b)) == Xor(Shift(a), Shift(b))
  {
    hide Low, Half, Xor;
    LowAdds(a, b);
    HalfAdds(a, b);
    var x, y := Half(a), Half(b);
    XorSelf(POLY);
    XorSelf(0);
    XorSelf(x);
    XorSelf(y);
    XorSelf(Xor(x, y));
    XorSwap(POLY, x, POLY, y);
    XorSwap(POLY, x, 0, y);
    XorSwap(0, x, POLY, y);
  }

  lemma {:induction false} ShiftsAdd(a: bv32, b: bv32, n: nat)
    ensures Shifts(Xor(a, b), n) == Xor(Shifts(a, n), Shifts(b, n))
    decreases n
  {
    hide Shift, Xor;
    if n > 0 {
      ShiftAdds(a, b);
      ShiftsAdd(Shift(a), Shift(b), n - 1);
    }
  }

  lemma {:induction false} ShiftsJoin(c: bv32, m: nat, n: nat)
    ensures Shifts(Shifts(c, m), n) == Shifts(c, m + n)
    decreases m
  {
    hide Shift;
    if m > 0 { ShiftsJoin(Shift(c), m - 1, n); }
  }

  lemma ShiftsLast(c: bv32, n: nat)
    ensures Shifts(c, n + 1) == Shift(Shifts(c, n))
  {
    hide Shift;
    ShiftsJoin(c, n, 1);
    assert Shifts(Shifts(c, n), 1) == Shifts(Shift(Shifts(c, n)), 0);
  }

  // ----- a byte at a time -----

  function LowByte(c: bv32): bv32 { c & 0xff }

  function Rest(c: bv32): bv32 { c & 0xffff_ff00 }

  function Right8(c: bv32): bv32 { c >> 8 }

  lemma ZerosMove(a: bv32)
    ensures a & 0xff == 0 ==> !Low(a) && Half(a) & 0x7f == 0
    ensures a & 0x7f == 0 ==> !Low(a) && Half(a) & 0x3f == 0
    ensures a & 0x3f == 0 ==> !Low(a) && Half(a) & 0x1f == 0
    ensures a & 0x1f == 0 ==> !Low(a) && Half(a) & 0x0f == 0
    ensures a & 0x0f == 0 ==> !Low(a) && Half(a) & 0x07 == 0
    ensures a & 0x07 == 0 ==> !Low(a) && Half(a) & 0x03 == 0
    ensures a & 0x03 == 0 ==> !Low(a) && Half(a) & 0x01 == 0
    ensures a & 0x01 == 0 ==> !Low(a)
  {
  }

  lemma EightHalves(a: bv32)
    ensures Half(Half(Half(Half(Half(Half(Half(Half(a)))))))) == Right8(a)
  {
  }

  /** Zeros in the low byte only move. */
  lemma ZerosShift(a: bv32)
    requires LowByte(a) == 0
    ensures Shifts(a, 8) == Right8(a)
  {
    assert a & 0xff == 0;
    hide Low, Half, Right8, Xor, LowByte;
    var a1 := Half(a);
    var a2 := Half(a1);
    var a3 := Half(a2);
    var a4 := Half(a3);
    var a5 := Half(a4);
    var a6 := Half(a5);
    var a7 := Half(a6);
    ZerosMove(a);
    ZerosMove(a1);
    ZerosMove(a2);
    ZerosMove(a3);
    ZerosMove(a4);
    ZerosMove(a5);
    ZerosMove(a6);
    ZerosMove(a7);
    EightHalves(a);
    assert Shifts(Half(a7), 0) == Right8(a);
    assert Shifts(a7, 1) == Right8(a);
    assert Shifts(a6, 2) == Right8(a);
    assert Shifts(a5, 3) == Right8(a);
    assert Shifts(a4, 4) == Right8(a);
    assert Shifts(a3, 5) == Right8(a);
    assert Shifts(a2, 6) == Right8(a);
    assert Shifts(a1, 7) == Right8(a);
  }

  lemma Parts(c: bv32)
    ensures c == Xor(LowByte(c), Rest(c)) && LowByte(Rest(c)) == 0 && Right8(Rest(c)) == Right8(c)
  {
  }

  lemma ByteAdded(c: bv32, b: bv32)
    requires b < 256
    ensures Right8(Xor(c, b)) == Right8(c)
  {
  }

  /** A table look-up in place of eight shifts. */
  lemma LookUp(c: bv32)
    ensures Shifts(c, 8) == Xor(Shifts(LowByte(c), 8), Right8(c))
  {
    hide Xor, LowByte, Rest, Right8, Shifts;
    Parts(c);
    ShiftsAdd(LowByte(c), Rest(c), 8);
    ZerosShift(Rest(c));
  }

  // ----- the tables -----

  const TERMS := [0, 1, 2, 4, 5, 7, 8, 10, 11, 12, 16, 22, 23, 26]

  function Term(k: int): bv32
    requires 0 <= k < 32
  {
    1 << (31 - k)
  }

  function Or(a: bv32, b: bv32): bv32 { a | b }

  function PolyUpTo(n: nat): bv32
    requires n <= |TERMS|
  {
    if n == 0 then 0 else Or(PolyUpTo(n - 1), Term(TERMS[n - 1]))
  }

  lemma PolyTerm(n: nat, v: bv32)
    requires n < |TERMS| && v == Or(PolyUpTo(n), Term(TERMS[n]))
    ensures PolyUpTo(n + 1) == v
  {
    PolyNext(n);
  }

  lemma PolyFirst()
    ensures PolyUpTo(4) == 0xe800_0000
  {
    hide PolyUpTo;
    PolyNone();
    PolyTerm(0, 0x8000_0000);
    PolyTerm(1, 0xc000_0000);
    PolyTerm(2, 0xe000_0000);
    PolyTerm(3, 0xe800_0000);
  }

  lemma PolySecond()
    ensures PolyUpTo(7) == 0xed80_0000
  {
    hide PolyUpTo;
    PolyFirst();
    PolyTerm(4, 0xec00_0000);
    PolyTerm(5, 0xed00_0000);
    PolyTerm(6, 0xed80_0000);
  }

  lemma PolyIs()
    ensures PolyUpTo(14) == POLY
  {
    hide PolyUpTo;
    PolySecond();
    PolyTerm(7, 0xeda0_0000);
    PolyTerm(8, 0xedb0_0000);
    PolyTerm(9, 0xedb8_0000);
    PolyTerm(10, 0xedb8_8000);
    PolyTerm(11, 0xedb8_8200);
    PolyTerm(12, 0xedb8_8300);
    PolyTerm(13, 0xedb8_8320);
  }

  /** The pattern of the polynomial, term by term. */
  method MakePoly() returns (poly: bv32)
    ensures poly == POLY
  {
    hide PolyUpTo, Or, Term;
    PolyIs();
    poly := 0;
    PolyNone();
    for n := 0 to |TERMS|
      invariant poly == PolyUpTo(n)
    {
      PolyNext(n);
      poly := Or(poly, Term(TERMS[n]));
    }
  }

  lemma PolyNone()
    ensures PolyUpTo(0) == 0
  {
  }

  lemma PolyNext(n: nat)
    requires n < |TERMS|
    ensures 0 <= TERMS[n] < 32 && PolyUpTo(n + 1) == Or(PolyUpTo(n), Term(TERMS[n]))
  {
  }

  function Index(c: bv32): (i: int)
    ensures 0 <= i < 256 && AsWord(i) == LowByte(c)
  {
    LowByte(c) as int
  }

  /** crc_table[k][n]: the register after the byte n and k zero bytes. */
  ghost predicate Tables(t: array2<bv32>)
    reads t
  {
    t.Length0 == 4 && t.Length1 == 256 &&
      forall k, n :: 0 <= k < 4 && 0 <= n < 256 ==> t[k, n] == Shifts(AsWord(n), 8 * (k + 1))
  }

  /** make_crc_table: the first four tables. */
  method MakeCrcTable(t: array2<bv32>)
    requires t.Length0 == 4 && t.Length1 == 256
    modifies t
    ensures Tables(t)
  {
    hide Shifts, AsWord;
    var poly := MakePoly();
    for n := 0 to 256
      invariant forall m :: 0 <= m < n ==> t[0, m] == Shifts(AsWord(m), 8)
    {
      var c := EightShifts(poly, AsWord(n));
      t[0, n] := c;
    }
    for n := 0 to 256
      invariant forall m :: 0 <= m < 256 ==> t[0, m] == Shifts(AsWord(m), 8)
      invariant forall k, m :: 0 <= k < 4 && 0 <= m < n ==> t[k, m] == Shifts(AsWord(m), 8 * (k + 1))
    {
      FollowZeros(t, n);
    }
  }

  /** The byte n followed by one, two and three zero bytes. */
  method FollowZeros(t: array2<bv32>, n: nat)
    requires t.Length0 == 4 && t.Length1 == 256 && n < 256 &&
      forall m :: 0 <= m < 256 ==> t[0, m] == Shifts(AsWord(m), 8)
    modifies t
    ensures forall k, m :: 0 <= k < 4 && 0 <= m < 256 && m != n ==> t[k, m] == old(t[k, m])
    ensures forall k :: 0 <= k < 4 ==> t[k, n] == Shifts(AsWord(n), 8 * (k + 1))
  {
    hide Shifts, Shift, AsWord, Xor, Half, Low, Right8, LowByte, Index;
    var c := t[0, n];
    for k := 1 to 4
      invariant c == Shifts(AsWord(n), 8 * k)
      invariant forall j, m :: 0 <= j < 4 && 0 <= m < 256 && (m != n || j == 0) ==> t[j, m] == old(t[j, m])
      invariant forall j :: 0 <= j < k ==> t[j, n] == Shifts(AsWord(n), 8 * (j + 1))
    {
      LookUp(c);
      ShiftsJoin(AsWord(n), 8 * k, 8);
      assert t[0, Index(c)] == Shifts(AsWord(Index(c)), 8);
      c := Xor(t[0, Index(c)], Right8(c));
      t[k, n] := c;
    }
  }

  method EightShifts(poly: bv32, n: bv32) returns (c: bv32)
    requires poly == POLY
    ensures c == Shifts(n, 8)
  {
    c := n;
    for k := 0 to 8
      invariant c == Shifts(n, k)
    {
      ShiftsLast(n, k);
      c := if Low(c) then Xor(poly, Half(c)) else Half(c);
    }
  }

  // ----- the computation -----

  /** DO1. */
  lemma OneByte(t: array2<bv32>, c: bv32, b: int)
    requires Tables(t) && 0 <= b < 256
    ensures Xor(t[0, Index(Xor(c, AsWord(b)))], Right8(c)) == Shifts(Xor(c, AsWord(b)), 8)
  {
    hide Xor, AsWord, LowByte, Right8, Shifts;
    ByteAdded(c, AsWord(b));
    LookUp(Xor(c, AsWord(b)));
    assert t[0, Index(Xor(c, AsWord(b)))] == Shifts(AsWord(Index(Xor(c, AsWord(b)))), 8 * (0 + 1));
  }

  /** A word of four bytes, the first one lowest. */
  function Load(b0: int, b1: int, b2: int, b3: int): bv32
    requires 0 <= b0 < 256 && 0 <= b1 < 256 && 0 <= b2 < 256 && 0 <= b3 < 256
  {
    Gather(AsWord(b0), AsWord(b1), AsWord(b2), AsWord(b3))
  }

  function Gather(w0: bv32, w1: bv32, w2: bv32, w3: bv32): bv32 {
    w0 | (w1 << 8) | (w2 << 16) | (w3 << 24)
  }

  function Right16(c: bv32): bv32 { c >> 16 }

  function Right24(c: bv32): bv32 { c >> 24 }

  /** Taking a word apart byte by byte. */
  lemma WordParts(c: bv32)
    ensures Right8(Right8(c)) == Right16(c) && Right8(Right16(c)) == Right24(c) && LowByte(Right24(c)) == Right24(c) &&
      Right8(Right24(c)) == 0
  {
  }

  /** DOLIT4: four table look-ups are thirty-two shifts. */
  lemma FourLookUps(c: bv32)
    ensures Shifts(c, 32) == Xor(Xor(Xor(Shifts(LowByte(c), 32), Shifts(LowByte(Right8(c)), 24)),
      Shifts(LowByte(Right16(c)), 16)), Shifts(Right24(c), 8))
  {
    hide Xor, LowByte, Right8, Right16, Right24, Shifts;
    WordParts(c);
    LookUpMore(c, 24);
    LookUpMore(Right8(c), 16);
    LookUpMore(Right16(c), 8);
    XorAssoc(Shifts(LowByte(Right8(c)), 24), Shifts(LowByte(Right16(c)), 16), Shifts(Right24(c), 8));
    XorAssoc(Shifts(LowByte(c), 32), Shifts(LowByte(Right8(c)), 24),
      Xor(Shifts(LowByte(Right16(c)), 16), Shifts(Right24(c), 8)));
    XorAssoc(Xor(Shifts(LowByte(c), 32), Shifts(LowByte(Right8(c)), 24)), Shifts(LowByte(Right16(c)), 16),
      Shifts(Right24(c), 8));
  }

  lemma LookUpMore(c: bv32, n: nat)
    ensures Shifts(c, n + 8) == Xor(Shifts(LowByte(c), n + 8), Shifts(Right8(c), n))
  {
    hide Xor, LowByte, Right8, Shifts;
    LookUp(c);
    ShiftsJoin(c, 8, n);
    ShiftsAdd(Shifts(LowByte(c), 8), Right8(c), n);
    ShiftsJoin(LowByte(c), 8, n);
  }

  function Up8(c: bv32): bv32 { c << 8 }

  lemma UpIsLow(w: bv32)
    requires w < 0x100_0000
    ensures LowByte(Up8(w)) == 0 && Right8(Up8(w)) == w
  {
  }

  /** What is added after eight shifts may be added before them, eight places up. */
  lemma AddBefore(x: bv32, w: bv32)
    requires w < 0x100_0000
    ensures Xor(Shifts(x, 8), w) == Shifts(Xor(x, Up8(w)), 8)
  {
    hide Xor, Shifts, Up8, LowByte, Right8;
    UpIsLow(w);
    ZerosShift(Up8(w));
    ShiftsAdd(x, Up8(w), 8);
  }

  lemma GatherIs(c: bv32, w0: bv32, w1: bv32, w2: bv32, w3: bv32)
    requires w0 < 256 && w1 < 256 && w2 < 256 && w3 < 256
    ensures Xor(c, Gather(w0, w1, w2, w3)) == Xor(Xor(Xor(Xor(c, w0), Up8(w1)), Up8(Up8(w2))), Up8(Up8(Up8(w3))))
    ensures Up8(w2) < 0x100_0000 && Up8(w3) < 0x100_0000 && Up8(Up8(w3)) < 0x100_0000
  {
  }

  /** A word added at once is its bytes added one after the other. */
  lemma FourBytes(c: bv32, w0: bv32, w1: bv32, w2: bv32, w3: bv32)
    requires w0 < 256 && w1 < 256 && w2 < 256 && w3 < 256
    ensures Shifts(Xor(c, Gather(w0, w1, w2, w3)), 32) ==
      Shifts(Xor(Shifts(Xor(Shifts(Xor(Shifts(Xor(c, w0), 8), w1), 8), w2), 8), w3), 8)
  {
    hide Xor, Shifts, Gather, Up8;
    GatherIs(c, w0, w1, w2, w3);
    var x := Xor(c, w0);
    var y := Xor(x, Up8(w1));
    var z := Xor(y, Up8(Up8(w2)));
    AddBefore(x, w1);
    AddBefore(Shifts(y, 8), w2);
    AddBefore(y, Up8(w2));
    assert Shifts(Xor(Shifts(Shifts(y, 8), 8), w2), 8) == Shifts(Shifts(Shifts(z, 8), 8), 8);
    AddBefore(Shifts(Shifts(z, 8), 8), w3);
    AddBefore(Shifts(z, 8), Up8(w3));
    AddBefore(z, Up8(Up8(w3)));
    var v := Xor(z, Up8(Up8(Up8(w3))));
    ShiftsJoin(v, 8, 8);
    ShiftsJoin(v, 16, 8);
    ShiftsJoin(v, 24, 8);
  }

  lemma {:induction false} RegisterJoin(c: bv32, x: seq<int>, y: seq<int>)
    requires Bytes(x) && Bytes(y)
    ensures Bytes(x + y) && Register(c, x + y) == Register(Register(c, x), y)
    decreases |y|
  {
    hide Shifts, Xor, AsWord;
    if y == [] {
      assert x + y == x;
    } else {
      var front := y[..|y| - 1];
      RegisterJoin(c, x, front);
      assert (x + y)[..|x + y| - 1] == x + front && (x + y)[|x + y| - 1] == y[|y| - 1];
    }
  }

  lemma RegisterNext(c: bv32, s: seq<int>, i: int)
    requires Bytes(s) && 0 <= i < |s|
    ensures Register(c, s[..i + 1]) == Shifts(Xor(Register(c, s[..i]), AsWord(s[i])), 8)
  {
    assert s[..i + 1][..i] == s[..i];
  }

  lemma RegisterNextFour(c: bv32, s: seq<int>, i: int)
    requires Bytes(s) && 0 <= i && i + 4 <= |s|
    ensures Register(c, s[..i + 4]) == Shifts(Xor(Register(c, s[..i]), Load(s[i], s[i + 1], s[i + 2], s[i + 3])), 32)
  {
    hide Register, Shifts, Xor, AsWord, Gather;
    RegisterNext(c, s, i);
    RegisterNext(c, s, i + 1);
    RegisterNext(c, s, i + 2);
    RegisterNext(c, s, i + 3);
    FourBytes(Register(c, s[..i]), AsWord(s[i]), AsWord(s[i + 1]), AsWord(s[i + 2]), AsWord(s[i + 3]));
  }

  /** crc32_little: byte by byte up to an address divisible by four, then by words, then byte by byte. */
  method Crc32Little(t: array2<bv32>, crc: bv32, buf: seq<int>, address: nat) returns (r: bv32)
    requires Tables(t) && Bytes(buf)
    ensures r == Not(Register(Not(crc), buf))
  {
    hide Shifts, Xor, AsWord, Register, Load, Tables, LowByte, Right8, Right16, Right24, Index;
    TableSize(t);
    var c := Not(crc);
    ghost var c0 := c;
    var i := 0;
    NoBytes(c, buf);
    while i < |buf| && (address + i) % 4 != 0
      invariant 0 <= i <= |buf| && c == Register(c0, buf[..i])
    {
      RegisterNext(c0, buf, i);
      OneByte(t, c, buf[i]);
      c := Xor(t[0, Index(Xor(c, AsWord(buf[i])))], Right8(c));
      i := i + 1;
    }
    while |buf| - i >= 4
      invariant 0 <= i <= |buf| && c == Register(c0, buf[..i])
    {
      RegisterNextFour(c0, buf, i);
      c := Xor(c, Load(buf[i], buf[i + 1], buf[i + 2], buf[i + 3]));
      FourLookUps(c);
      WordParts(c);
      LookedUp(t, c);
      c := Xor(Xor(Xor(t[3, Index(c)], t[2, Index(Right8(c))]), t[1, Index(Right16(c))]), t[0, Index(Right24(c))]);
      i := i + 4;
    }
    while i < |buf|
      invariant 0 <= i <= |buf| && c == Register(c0, buf[..i])
    {
      RegisterNext(c0, buf, i);
      OneByte(t, c, buf[i]);
      c := Xor(t[0, Index(Xor(c, AsWord(buf[i])))], Right8(c));
      i := i + 1;
    }
    assert buf[..i] == buf;
    r := Not(c);
  }

  lemma TableSize(t: array2<bv32>)
    requires Tables(t)
    ensures t.Length0 == 4 && t.Length1 == 256
  {
  }

  lemma NoBytes(c: bv32, s: seq<int>)
    ensures Register(c, s[..0]) == c
  {
  }

  lemma LookedUp(t: array2<bv32>, c: bv32)
    requires Tables(t)
    ensures t[3, Index(c)] == Shifts(LowByte(c), 32) && t[2, Index(Right8(c))] == Shifts(LowByte(Right8(c)), 24)
    ensures t[1, Index(Right16(c))] == Shifts(LowByte(Right16(c)), 16) &&
      t[0, Index(Right24(c))] == Shifts(LowByte(Right24(c)), 8)
  {
    hide Shifts, LowByte, Right8, Right16, Right24, AsWord;
    assert t[3, Index(c)] == Shifts(AsWord(Index(c)), 8 * (3 + 1));
    assert t[2, Index(Right8(c))] == Shifts(AsWord(Index(Right8(c))), 8 * (2 + 1));
    assert t[1, Index(Right16(c))] == Shifts(AsWord(Index(Right16(c))), 8 * (1 + 1));
    assert t[0, Index(Right24(c))] == Shifts(AsWord(Index(Right24(c))), 8 * (0 + 1));
  }

  // ----- combining two checksums -----

  const GF2_DIM := 32

  function Double(c: bv32): bv32 { c << 1 }

  /** The word with bit n set. */
  function Bit(n: nat): bv32 {
    if n == 0 then 1 else Double(Bit(n - 1))
  }

  /** c, moved up by n places. */
  function Up(c: bv32, n: nat): bv32
    decreases n
  {
    if n == 0 then c else Up(Double(c), n - 1)
  }

  /** The matrix of k zero bits: column n is what they make of bit n. */
  ghost predicate ZerosOperator(mat: seq<bv32>, k: nat) {
    |mat| == GF2_DIM && forall n :: 0 <= n < GF2_DIM ==> mat[n] == Shifts(Bit(n), k)
  }

  /** The largest number of 32 - n bits. */
  function Limit(n: nat): bv32 {
    if n == 0 then ONES else Half(Limit(n - 1))
  }

  lemma HalfBelow(v: bv32, m: bv32)
    requires v <= m
    ensures Half(v) <= Half(m)
  {
  }

  lemma {:induction false} LimitEight(n: nat)
    ensures Limit(n + 8) == Right8(Limit(n))
  {
    hide Half, Right8;
    EightHalves(Limit(n));
    assert Limit(n + 2) == Half(Half(Limit(n)));
    assert Limit(n + 4) == Half(Half(Limit(n + 2)));
    assert Limit(n + 6) == Half(Half(Limit(n + 4)));
    assert Limit(n + 8) == Half(Half(Limit(n + 6)));
  }

  lemma LimitEnds()
    ensures Limit(32) == 0
  {
    hide Limit;
    LimitStart();
    LimitEight(0);
    LimitEight(8);
    LimitEight(16);
    LimitEight(24);
  }

  lemma LimitStart()
    ensures Limit(0) == ONES
  {
  }

  lemma UpAdds(a: bv32, b: bv32, n: nat)
    ensures Up(Xor(a, b), n) == Xor(Up(a, n), Up(b, n))
    decreases n
  {
    if n > 0 {
      DoubleAdds(a, b);
      hide Xor, Double;
      UpAdds(Double(a), Double(b), n - 1);
    }
  }

  lemma DoubleAdds(a: bv32, b: bv32)
    ensures Double(Xor(a, b)) == Xor(Double(a), Double(b))
  {
  }

  lemma {:induction false} UpBit(n: nat, m: nat)
    ensures Up(Bit(m), n) == Bit(m + n)
    decreases n
  {
    hide Double;
    if n > 0 { UpBit(n - 1, m + 1); }
  }

  lemma UpZero(n: nat)
    ensures Up(0, n) == 0
    decreases n
  {
    if n > 0 {
      assert Double(0) == 0;
      UpZero(n - 1);
    }
  }

  /** The lowest bit and the others. */
  lemma LowestApart(v: bv32)
    ensures v == if Low(v) then Xor(1, Double(Half(v))) else Double(Half(v))
  {
  }

  lemma {:induction false} ZeroShifts(k: nat)
    ensures Shifts(0, k) == 0
  {
    if k > 0 {
      assert Shift(0) == 0;
      ZeroShifts(k - 1);
    }
  }

  /** gf2_matrix_times. */
  method MatrixTimes(mat: seq<bv32>, vec0: bv32, ghost k: nat) returns (sum: bv32)
    requires ZerosOperator(mat, k)
    ensures sum == Shifts(vec0, k)
  {
    hide Low, Half, Xor, Shifts, Bit, Up, Limit;
    sum := 0;
    var vec, n := vec0, 0;
    TimesStart(vec0, k);
    while vec != 0
      invariant 0 <= n <= GF2_DIM && vec <= Limit(n) && Xor(sum, Shifts(Up(vec, n), k)) == Shifts(vec0, k)
      decreases GF2_DIM - n
    {
      if n == GF2_DIM { LimitEnds(); }
      TimesStep(sum, vec, n, k);
      if Low(vec) { sum := Xor(sum, mat[n]); }
      vec := Half(vec);
      n := n + 1;
    }
    TimesEnd(sum, n, k);
  }

  lemma TimesStart(vec: bv32, k: nat)
    ensures vec <= Limit(0) && Xor(0, Shifts(Up(vec, 0), k)) == Shifts(vec, k)
  {
    hide Shifts, Xor;
    XorSelf(Shifts(vec, k));
  }

  lemma TimesEnd(sum: bv32, n: nat, k: nat)
    ensures Xor(sum, Shifts(Up(0, n), k)) == sum
  {
    hide Xor, Shifts, Up;
    UpZero(n);
    ZeroShifts(k);
    XorSelf(sum);
  }

  lemma TimesStep(sum: bv32, vec: bv32, n: nat, k: nat)
    requires vec <= Limit(n)
    ensures Half(vec) <= Limit(n + 1)
    ensures Xor(if Low(vec) then Xor(sum, Shifts(Bit(n), k)) else sum, Shifts(Up(Half(vec), n + 1), k)) ==
      Xor(sum, Shifts(Up(vec, n), k))
  {
    hide Low, Half, Xor, Shifts, Double;
    HalfBelow(vec, Limit(n));
    LowestApart(vec);
    var rest := Double(Half(vec));
    assert Up(Half(vec), n + 1) == Up(rest, n);
    if Low(vec) {
      UpAdds(1, rest, n);
      UpBit(n, 0);
      ShiftsAdd(Bit(n), Up(rest, n), k);
      XorAssoc(sum, Shifts(Bit(n), k), Shifts(Up(rest, n), k));
    }
  }

  /** gf2_matrix_square: twice as many zero bits. */
  method MatrixSquare(mat: seq<bv32>, ghost k: nat) returns (square: seq<bv32>)
    requires ZerosOperator(mat, k)
    ensures ZerosOperator(square, 2 * k)
  {
    hide Shifts, Bit;
    square := [];
    for n := 0 to GF2_DIM
      invariant |square| == n && forall i :: 0 <= i < n ==> square[i] == Shifts(Bit(i), 2 * k)
    {
      var column := MatrixTimes(mat, mat[n], k);
      ShiftsJoin(Bit(n), k, k);
      square := square + [column];
    }
  }

  /** The operator of one zero bit. */
  method OneZero() returns (odd: seq<bv32>)
    ensures ZerosOperator(odd, 1)
  {
    odd := [POLY];
    OneZeroFirst();
    hide Shifts, Double;
    var row: bv32 := 1;
    for n := 1 to GF2_DIM
      invariant |odd| == n && row == Bit(n - 1) && forall i :: 0 <= i < n ==> odd[i] == Shifts(Bit(i), 1)
    {
      OneZeroNext(n);
      odd := odd + [row];
      row := Double(row);
    }
  }

  lemma OneZeroFirst()
    ensures Shifts(Bit(0), 1) == POLY
  {
    assert Shifts(Bit(0), 1) == Shifts(Shift(1), 0);
    assert Shift(1) == POLY;
  }

  lemma OneZeroNext(n: nat)
    requires 1 <= n < GF2_DIM
    ensures Shifts(Bit(n), 1) == Bit(n - 1)
  {
    assert Shifts(Bit(n), 1) == Shifts(Shift(Bit(n)), 0);
    BitBelow(n - 1);
    Doubled(Bit(n - 1));
    hide Double;
  }

  lemma Doubled(c: bv32)
    requires c < 0x8000_0000
    ensures Shift(Double(c)) == c
  {
  }

  lemma LimitOne()
    ensures Limit(31) == 1
  {
    hide Limit;
    LimitStart();
    LimitEight(0);
    LimitEight(8);
    LimitEight(16);
    LimitSeven(24);
  }

  lemma LimitSeven(n: nat)
    ensures Limit(n + 7) == Half(Half(Half(Half(Half(Half(Half(Limit(n))))))))
  {
    hide Half;
    assert Limit(n + 2) == Half(Half(Limit(n)));
    assert Limit(n + 4) == Half(Half(Limit(n + 2)));
    assert Limit(n + 6) == Half(Half(Limit(n + 4)));
  }

  lemma DoubleBelow(c: bv32, m: bv32)
    requires c <= Half(m)
    ensures Double(c) <= m
  {
  }

  lemma {:induction false} BitFits(n: nat)
    requires n <= 31
    ensures Bit(n) <= Limit(31 - n)
  {
    hide Double, Half;
    if n == 0 {
      LimitOne();
    } else {
      BitFits(n - 1);
      DoubleBelow(Bit(n - 1), Limit(31 - n));
    }
  }

  lemma {:induction false} LimitFalls(n: nat)
    requires n >= 1
    ensures Limit(n) <= 0x7fff_ffff
  {
    if n > 1 { LimitFalls(n - 1); }
    else { assert Limit(0) == ONES; }
  }

  /** All bits but the last leave room for another. */
  lemma BitBelow(n: nat)
    requires n < 31
    ensures Bit(n) < 0x8000_0000
  {
    BitFits(n);
    LimitFalls(31 - n);
  }

  /** The operators for two, four and then eight bits, a byte, and for every further power of two. */
  method CombineZeros(crc0: bv32, len0: nat) returns (crc: bv32)
    requires len0 > 0
    ensures crc == Shifts(crc0, 8 * len0)
  {
    hide Shifts, ZerosOperator;
    crc := crc0;
    var len := len0;
    var odd := OneZero();
    var even := MatrixSquare(odd, 1);
    odd := MatrixSquare(even, 2);
    ghost var done, p := 0, 1;
    NoZeros(crc0);
    while true
      invariant ZerosOperator(odd, 4 * p) && p >= 1 && len0 == done + p * len && crc == Shifts(crc0, 8 * done) &&
        len > 0
      decreases len
    {
      even := MatrixSquare(odd, 4 * p);
      if len % 2 == 1 {
        ShiftsJoin(crc0, 8 * done, 8 * p);
        crc := MatrixTimes(even, crc, 8 * p);
      }
      Halved(p, len);
      done, p, len := if len % 2 == 1 then done + p else done, 2 * p, len / 2;
      if len == 0 { break; }
      odd := MatrixSquare(even, 4 * p);
      if len % 2 == 1 {
        ShiftsJoin(crc0, 8 * done, 8 * p);
        crc := MatrixTimes(odd, crc, 8 * p);
      }
      Halved(p, len);
      done, p, len := if len % 2 == 1 then done + p else done, 2 * p, len / 2;
      if len == 0 { break; }
    }
  }

  lemma Halved(p: nat, len: nat)
    ensures p * len == (if len % 2 == 1 then p else 0) + 2 * p * (len / 2)
  {
    assert len == 2 * (len / 2) + len % 2;
    assert p * (2 * (len / 2)) == 2 * p * (len / 2);
    assert p * len == p * (2 * (len / 2)) + p * (len % 2);
  }

  lemma NoZeros(c: bv32)
    ensures Shifts(c, 8 * 0) == c
  {
  }

  /** What the register starts with only moves: the bytes add what they would to an empty register. */
  lemma {:induction false} RegisterAffine(c: bv32, s: seq<int>)
    requires Bytes(s)
    ensures Register(c, s) == Xor(Shifts(c, 8 * |s|), Register(0, s))
    decreases |s|
  {
    hide Shifts, Xor, AsWord;
    if s == [] {
      NoZeros(c);
      XorSelf(c);
    } else {
      var n := |s| - 1;
      var front, w := s[..n], AsWord(s[n]);
      RegisterAffine(c, front);
      var x, y := Shifts(c, 8 * n), Register(0, front);
      XorAssoc(x, y, w);
      ShiftsAdd(x, Xor(y, w), 8);
      ShiftsJoin(c, 8 * n, 8);
    }
  }

  /** The checksum of two pieces from their checksums. */
  lemma CrcOfBoth(x: seq<int>, y: seq<int>)
    requires Bytes(x) && Bytes(y)
    ensures Bytes(x + y) && Crc(x + y) == Xor(Shifts(Crc(x), 8 * |y|), Crc(y))
  {
    hide Shifts, Xor, Register;
    var n := 8 * |y|;
    var r, e := Register(Not(0), x), Register(0, y);
    RegisterJoin(Not(0), x, y);
    RegisterAffine(r, y);
    RegisterAffine(Not(0), y);
    NotIs(r);
    ShiftsAdd(r, Not(0), n);
    XorSelf(ONES);
    Cancelled(Shifts(r, n), Shifts(Not(0), n), e);
  }

  lemma NotIs(c: bv32)
    ensures Not(c) == Xor(c, Not(0))
  {
  }

  lemma Cancelled(a: bv32, b: bv32, e: bv32)
    ensures Not(Xor(a, e)) == Xor(Xor(a, b), Not(Xor(b, e)))
  {
  }

  /** crc32_combine_. */
  method Combine(crc1: bv32, crc2: bv32, len2: int) returns (r: bv32)
    ensures len2 <= 0 ==> r == crc1
    ensures forall x, y | Bytes(x) && Bytes(y) && crc1 == Crc(x) && crc2 == Crc(y) && len2 == |y| ::
              Bytes(x + y) && r == Crc(x + y)
  {
    hide Shifts, Xor, Register, Crc;
    if len2 <= 0 {
      forall x, y | Bytes(x) && Bytes(y) && crc1 == Crc(x) && crc2 == Crc(y) && len2 == |y|
        ensures Bytes(x + y) && crc1 == Crc(x + y)
      {
        assert x + y == x;
      }
      return crc1;
    }
    var crc := CombineZeros(crc1, len2);
    r := Xor(crc, crc2);
    forall x, y | Bytes(x) && Bytes(y) && crc1 == Crc(x) && crc2 == Crc(y) && len2 == |y|
      ensures Bytes(x + y) && r == Crc(x + y)
    {
      CrcOfBoth(x, y);
    }
  }

  /** A checksum may be computed piece by piece: crc32 started with the checksum of x goes on with y. */
  lemma Incremental(x: seq<int>, y: seq<int>)
    requires Bytes(x) && Bytes(y)
    ensures Bytes(x + y) && Not(Register(Not(Crc(x)), y)) == Crc(x + y)
  {
    hide Register, Xor;
    RegisterJoin(Not(0), x, y);
    NotTwice(Register(Not(0), x));
  }

  lemma NotTwice(c: bv32)
    ensures Not(Not(c)) == c
  {
  }
}

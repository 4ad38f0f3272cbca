/** GET_BITS: bytes are taken in one at a time until the buffer holds the number of bits asked for. */
module BitReader {

  import opened Powers
  import opened Rotations
  import opened BitStream
  import opened BitWriter

  /** (bsBuff >> (bsLive - nnn)) & ((1 << nnn) - 1) */
  function TopBits(buff: nat, live: nat, n: nat): nat
    requires n <= live
  {
    buff / Pow2(live - n) % Pow2(n)
  }

  /** (bsBuff << 8) | c, in 32 bits. */
  function TakeByte(buff: nat, c: nat): (r: nat)
    ensures r < WORD
  {
    (buff * 256 + c) % WORD
  }

  lemma {:induction false} BitsOfRemainder(x: nat, n: nat)
    ensures Bits(x % Pow2(n), n) == Bits(x, n) && Value(Bits(x, n)) == x % Pow2(n)
  {
    hide *;
    var p := Pow2(n);
    var q, r := DivSplit(x, p);
    BitsLow(q, r, n);
    ValueOfBits(r, n);
  }

  lemma DivSplit(x: nat, p: nat) returns (q: nat, r: nat)
    requires p > 0
    ensures q == x / p && r == x % p && r < p && x == q * p + r
  {
    q, r := x / p, x % p;
    MulSwap2(q, p);
  }

  /** The bits that leave are the front of what is there. */
  lemma FrontLeaves(buff: nat, live: nat, n: nat)
    requires n <= live
    ensures Bits(buff, live) == Bits(buff, live)[..n] + Bits(buff, live - n)
    ensures Value(Bits(buff, live)[..n]) == TopBits(buff, live, n)
  {
    hide *;
    var q, r := DivSplit(buff, Pow2(live - n));
    BitsJoin(q, n, r, live - n);
    BitsOfRemainder(buff, live - n);
    BitsOfRemainder(q, n);
    assert Bits(buff, live)[..n] == Bits(q, n);
    TopBitsAre(buff, live, n);
  }

  lemma TopBitsAre(buff: nat, live: nat, n: nat)
    requires n <= live
    ensures TopBits(buff, live, n) == buff / Pow2(live - n) % Pow2(n)
  {
  }

  /** The byte that comes goes behind what is there, as long as there is room for it. */
  lemma ByteComes(buff: nat, live: nat, c: nat)
    requires live <= 24 && c < 256
    ensures Bits(TakeByte(buff, c), live + 8) == Bits(buff, live) + Bits(c, 8)
  {
    var x := buff * 256 + c;
    PowWord();
    Pow2Add(live + 8, 24 - live);
    TakeByteIs(buff, c);
    hide *;
    var q, r := DivSplit(x, WORD);
    MulAssoc(q, Pow2(24 - live), Pow2(live + 8));
    MulSwap2(Pow2(24 - live), Pow2(live + 8));
    NonNegative(q, Pow2(24 - live));
    BitsLow(q * Pow2(24 - live), r, live + 8);
    BitsJoin(buff, live, c, 8);
  }

  lemma TakeByteIs(buff: nat, c: nat)
    ensures TakeByte(buff, c) == (buff * 256 + c) % WORD
  {
  }

  lemma MulSwap2(x: int, y: int)
    ensures x * y == y * x
  {
  }

  lemma FirstByte(bytes: seq<int>)
    requires Bytes(bytes) && bytes != []
    ensures Bytes(bytes[1..]) && 0 <= bytes[0] < 256 && ByteBits(bytes) == Bits(bytes[0], 8) + ByteBits(bytes[1..])
  {
    assert bytes == [bytes[0]] + bytes[1..] && [] + [bytes[0]] == [bytes[0]];
    ByteBitsSnoc([], bytes[0]);
    assert ByteBits([]) == [];
    assert [] + Bits(bytes[0], 8) == Bits(bytes[0], 8);
    hide ByteBits, Bits;
    ByteBitsJoin([bytes[0]], bytes[1..]);
  }

  /** The bits that have been offered and not yet read: some in the buffer, the others in the bytes to come. */
  ghost function Offered(buff: nat, live: nat, bytes: seq<int>): (r: seq<bool>)
    requires Bytes(bytes)
    ensures |r| == live + 8 * |bytes|
  {
    Bits(buff, live) + ByteBits(bytes)
  }

  lemma ByteMoves(buff: nat, live: nat, bytes: seq<int>)
    requires Bytes(bytes) && bytes != [] && live <= 24
    ensures Bytes(bytes[1..]) && 0 <= bytes[0] < 256
    ensures Offered(TakeByte(buff, bytes[0]), live + 8, bytes[1..]) == Offered(buff, live, bytes)
  {
    hide ByteBits, Bits, TakeByte;
    FirstByte(bytes);
    ByteComes(buff, live, bytes[0]);
    assert Bits(buff, live) + (Bits(bytes[0], 8) + ByteBits(bytes[1..])) == Bits(buff, live) + Bits(bytes[0], 8) +
      ByteBits(bytes[1..]);
  }

  lemma BitsTaken(buff: nat, live: nat, bytes: seq<int>, n: nat)
    requires Bytes(bytes) && n <= live
    ensures Offered(buff, live, bytes)[n..] == Offered(buff, live - n, bytes)
    ensures Value(Offered(buff, live, bytes)[..n]) == TopBits(buff, live, n)
  {
    hide ByteBits, Bits, TopBits, Value;
    FrontLeaves(buff, live, n);
    assert Offered(buff, live, bytes)[..n] == Bits(buff, live)[..n];
  }

  /** What is left of the input is its end. */
  ghost predicate EndOf(rest: seq<int>, input: seq<int>) { |rest| <= |input| && rest == input[|input| - |rest|..] }

  /** How much of it has been taken. */
  ghost function Taken(rest: seq<int>, input: seq<int>): seq<int>
    requires EndOf(rest, input)
  {
    input[..|input| - |rest|]
  }

  lemma TakenIs(rest: seq<int>, input: seq<int>)
    requires EndOf(rest, input)
    ensures |rest| <= |input| && Taken(rest, input) == input[..|input| - |rest|]
  {
  }

  lemma EndsOf(rest: seq<int>, input: seq<int>, input0: seq<int>)
    requires EndOf(input, input0) && EndOf(rest, input)
    ensures EndOf(rest, input0) && Taken(rest, input0) == Taken(input, input0) + Taken(rest, input)
  {
  }

  lemma NoneTaken(input: seq<int>)
    ensures EndOf(input, input) && Taken(input, input) == []
  {
  }

  /** bsBuff and bsLive of DState, and the input of its stream. */
  class Reader {
    var bsBuff: nat
    var bsLive: nat
    var next_in: seq<int>

    ghost predicate Valid()
      reads this
    {
      bsBuff < WORD && bsLive < 28 && Bytes(next_in)
    }

    ghost function Left(): seq<bool>
      reads this
      requires Valid()
    {
      Offered(bsBuff, bsLive, next_in)
    }

    /** The bits in the buffer. */
    ghost function Held(): seq<bool>
      reads this
      requires Valid()
    {
      Bits(bsBuff, bsLive)
    }

    /** What the caller offers. */
    method Offer(input: seq<int>)
      requires Valid() && Bytes(input)
      modifies this`next_in
      ensures Valid() && next_in == input && Held() == old(Held()) && Left() == Held() + ByteBits(input)
    {
      next_in := input;
    }

    lemma LeftIs()
      requires Valid()
      ensures Bytes(next_in) && Left() == Held() + ByteBits(next_in)
    {
    }

    constructor ()
      ensures Valid() && Left() == [] && next_in == [] && Held() == []
    {
      bsBuff, bsLive, next_in := 0, 0, [];
    }

    /** GET_BITS: the next nnn bits as a number, or, if there are not that many, nothing: then every byte has been taken
        in and every bit is kept for the next call. */
    method GetBits(nnn: nat) returns (ok: bool, v: nat)
      requires Valid() && nnn <= 20
      modifies this
      ensures Valid() && ok == (nnn <= |old(Left())|)
      ensures ok ==> v == Value(old(Left())[..nnn]) && Left() == old(Left())[nnn..]
      ensures !ok ==> Left() == old(Left()) && next_in == []
      ensures EndOf(next_in, old(next_in))
    {
      hide Offered, TopBits, TakeByte, Value;
      ghost var left, input := Left(), next_in;
      while true
        invariant Valid() && Left() == left && EndOf(next_in, input)
        decreases |next_in|
      {
        if bsLive >= nnn {
          BitsTaken(bsBuff, bsLive, next_in, nnn);
          v := TopBits(bsBuff, bsLive, nnn);
          bsLive := bsLive - nnn;
          return true, v;
        }
        if |next_in| == 0 { return false, 0; }
        ByteMoves(bsBuff, bsLive, next_in);
        bsBuff := TakeByte(bsBuff, next_in[0]);
        bsLive := bsLive + 8;
        next_in := next_in[1..];
      }
    }
  }
}

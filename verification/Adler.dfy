/** The checksum of zlib streams: two sums modulo 65521, reduced as seldom as 32 bits allow. */
module Adler {

  import opened Rotations
  import opened Powers

  const BASE := 65521
  const NMAX := 5552

  type Word = x: int | 0 <= x < 0x1_0000_0000

  // ----- the definition: section 2.2 of RFC 1950 -----

  /** The first sum: the bytes, added to a. */
  function Sum(a: nat, s: seq<int>): nat
    requires Bytes(s)
  {
    if s == [] then a else Sum(a, s[..|s| - 1]) + s[|s| - 1]
  }

  /** The second sum: the values that the first one goes through, added to b. */
  function Sums(a: nat, b: nat, s: seq<int>): nat
    requires Bytes(s)
  {
    if s == [] then b else Sums(a, b, s[..|s| - 1]) + Sum(a, s)
  }

  function Pack(a: int, b: int): int { a + 65536 * b }

  function Checksum(s: seq<int>): int
    requires Bytes(s)
  {
    Pack(Sum(1, s) % BASE, Sums(1, 0, s) % BASE)
  }

  // ----- how the sums depend on where they start -----

  lemma {:induction false} SumFrom(a: nat, s: seq<int>)
    requires Bytes(s)
    ensures Sum(a, s) == a + Sum(0, s)
    decreases |s|
  {
    if s != [] { SumFrom(a, s[..|s| - 1]); }
  }

  lemma {:induction false} SumsFrom(a: nat, b: nat, s: seq<int>)
    requires Bytes(s)
    ensures Sums(a, b, s) == b + |s| * a + Sums(0, 0, s)
    decreases |s|
  {
    if s != [] {
      SumsFrom(a, b, s[..|s| - 1]);
      SumFrom(a, s);
      assert (|s| - 1) * a + a == |s| * a;
    }
  }

  lemma {:induction false} SumJoin(a: nat, x: seq<int>, y: seq<int>)
    requires Bytes(x) && Bytes(y)
    ensures Bytes(x + y) && Sum(a, x + y) == Sum(Sum(a, x), y)
    decreases |y|
  {
    if y == [] {
      assert x + y == x;
    } else {
      SumJoin(a, x, y[..|y| - 1]);
      assert (x + y)[..|x + y| - 1] == x + y[..|y| - 1] && (x + y)[|x + y| - 1] == y[|y| - 1];
    }
  }

  lemma {:induction false} SumsJoin(a: nat, b: nat, x: seq<int>, y: seq<int>)
    requires Bytes(x) && Bytes(y)
    ensures Bytes(x + y) && Sums(a, b, x + y) == Sums(Sum(a, x), Sums(a, b, x), y)
    decreases |y|
  {
    SumJoin(a, x, y);
    if y == [] {
      assert x + y == x;
    } else {
      SumsJoin(a, b, x, y[..|y| - 1]);
      assert (x + y)[..|x + y| - 1] == x + y[..|y| - 1];
    }
  }

  /** How large the sums of n bytes can be. */
  lemma {:induction false} SumsBounded(a: nat, b: nat, s: seq<int>)
    requires Bytes(s)
    ensures Sum(a, s) <= a + 255 * |s| && 2 * Sums(a, b, s) <= 2 * b + 2 * |s| * a + 255 * |s| * (|s| + 1)
    decreases |s|
  {
    if s != [] {
      var n := |s| - 1;
      SumsBounded(a, b, s[..n]);
      assert 2 * (n + 1) * a == 2 * n * a + 2 * a;
      assert 255 * (n + 1) * (n + 2) == 255 * n * (n + 1) + 2 * 255 * (n + 1);
    }
  }

  // ----- arithmetic modulo BASE -----

  lemma ModShift(x: nat, k: nat)
    ensures (x + BASE * k) % BASE == x % BASE
  {
  }

  lemma Scaled(n: nat, a: nat, rem: nat, k: nat)
    requires a == rem + BASE * k
    ensures n * a == n * rem + BASE * (n * k)
  {
    assert n * (rem + BASE * k) == n * rem + n * (BASE * k);
  }

  /** x and y leave the same remainder. */
  ghost predicate Same(x: nat, y: nat) { x % BASE == y % BASE }

  lemma SameBy(x: nat, y: nat, k: nat)
    requires x == y + BASE * k
    ensures Same(x, y)
  {
    ModShift(y, k);
  }

  /** Starting from the remainders gives the same remainders. */
  lemma SumsMod(a: nat, b: nat, s: seq<int>)
    requires Bytes(s)
    ensures Same(Sum(a % BASE, s), Sum(a, s)) && Same(Sums(a % BASE, b % BASE, s), Sums(a, b, s))
  {
    hide Sum, Sums, Same;
    SumFrom(a, s);
    SumFrom(a % BASE, s);
    SumsFrom(a, b, s);
    SumsFrom(a % BASE, b % BASE, s);
    SumsModAt(a, b, a % BASE, b % BASE, a / BASE, b / BASE, |s|, Sum(0, s), Sums(0, 0, s));
  }

  lemma SumsModAt(a: nat, b: nat, a': nat, b': nat, p: nat, q: nat, n: nat, u: nat, v: nat)
    requires a == a' + BASE * p && b == b' + BASE * q
    ensures Same(a' + u, a + u) && Same(b' + n * a' + v, b + n * a + v)
  {
    Scaled(n, a, a', p);
    SameBy(a + u, a' + u, p);
    SameBy(b + n * a + v, b' + n * a' + v, q + n * p);
  }

  // ----- the computation -----

  /** DO1 over a stretch of at most NMAX bytes: neither sum overflows 32 bits. */
  method AddBytes(adler0: Word, sum20: Word, buf: seq<int>) returns (adler: Word, sum2: Word)
    requires Bytes(buf) && |buf| <= NMAX && adler0 < 65536 && sum20 < 65536
    ensures adler == Sum(adler0, buf) && sum2 == Sums(adler0, sum20, buf)
  {
    adler, sum2 := adler0, sum20;
    for i := 0 to |buf|
      invariant adler == Sum(adler0, buf[..i]) && sum2 == Sums(adler0, sum20, buf[..i])
    {
      assert buf[..i + 1][..i] == buf[..i];
      NoOverflow(adler0, sum20, buf[..i + 1]);
      adler := adler + buf[i];
      sum2 := sum2 + adler;
    }
    assert buf[..|buf|] == buf;
  }

  /** NMAX is chosen so that the sums of NMAX bytes fit in 32 bits. */
  lemma NoOverflow(a: nat, b: nat, s: seq<int>)
    requires Bytes(s) && |s| <= NMAX && a < 65536 && b < 65536
    ensures Sum(a, s) < 0x1_0000_0000 && Sums(a, b, s) < 0x1_0000_0000
  {
    hide Sum, Sums;
    SumsBounded(a, b, s);
    var n := |s|;
    Monotone(n, a, 5552, 65535);
    Monotone(n, n + 1, 5552, 5553);
    Regrouped(n, a);
  }

  lemma Regrouped(n: nat, a: nat)
    ensures 2 * n * a == 2 * (n * a) && 255 * n * (n + 1) == 255 * (n * (n + 1))
  {
  }

  /** a and b stand for the sums of s, from adler and sum2 on. */
  ghost predicate Summed(adler: nat, sum2: nat, s: seq<int>, a: nat, b: nat)
    requires Bytes(s)
  {
    Same(a, Sum(adler, s)) && Same(b, Sums(adler, sum2, s))
  }

  lemma SummedMore(adler: nat, sum2: nat, x: seq<int>, a: nat, b: nat, y: seq<int>)
    requires Bytes(x) && Bytes(y) && Summed(adler, sum2, x, a, b)
    ensures Bytes(x + y) && Summed(adler, sum2, x + y, Sum(a, y), Sums(a, b, y))
  {
    hide Sum, Sums;
    SumJoin(adler, x, y);
    SumsJoin(adler, sum2, x, y);
    SumsMod(a, b, y);
    SumsMod(Sum(adler, x), Sums(adler, sum2, x), y);
  }

  /** What one subtraction makes of a sum. */
  function Once(x: int): int { if x >= BASE then x - BASE else x }

  /** Whether one subtraction is enough for the second sum, when the single byte c is added. */
  predicate OnceEnough(adler: Word, c: int) { adler / 65536 + Once(adler % 65536 + c) < 2 * BASE }

  lemma ReducedEnough(adler: Word, c: int)
    requires 0 <= c < 256 && adler / 65536 < BASE
    ensures OnceEnough(adler, c)
  {
  }

  /** adler32: the checksum of what came before, brought up to date with buf. One byte is added without a division, by
      one subtraction for each sum: the second is then fully reduced if and only if one subtraction is enough. */
  method Adler32(adler0: Word, buf: seq<int>) returns (r: int)
    requires Bytes(buf)
    ensures 0 <= r < 0x1_0000_0000 && r % 65536 < BASE &&
      Summed(adler0 % 65536, adler0 / 65536, buf, r % 65536, r / 65536)
    ensures r / 65536 < BASE <==> |buf| != 1 || OnceEnough(adler0, buf[0])
    ensures forall x :: Bytes(x) && adler0 == Checksum(x) ==> Bytes(x + buf) && r == Checksum(x + buf)
  {
    r := UpdateSums(adler0, buf);
    if |buf| == 1 && adler0 / 65536 < BASE { ReducedEnough(adler0, buf[0]); }
    forall x | Bytes(x) && adler0 == Checksum(x) ensures Bytes(x + buf) && r == Checksum(x + buf) {
      ChecksumGoesOn(x, buf, r);
    }
  }

  /** An input for which it is not: the second sum comes out as 65534. */
  method OnceNotEnough() returns (r: int)
    ensures r / 65536 >= BASE
  {
    r := Adler32(0xFFFF_FFF0, [0]);
  }

  lemma ChecksumGoesOn(x: seq<int>, y: seq<int>, r: int)
    requires Bytes(x) && Bytes(y) && r >= 0 && var c := Checksum(x);
      Summed(c % 65536, c / 65536, y, r % 65536, r / 65536)
    requires r % 65536 < BASE && (|y| != 1 || Checksum(x) / 65536 < BASE ==> r / 65536 < BASE)
    ensures Bytes(x + y) && r == Checksum(x + y)
  {
    hide *;
    ChecksumHigh(x);
    Incremental(x, y);
    var c := Checksum(x);
    SummedIs(c % 65536, c / 65536, y, r % 65536, r / 65536);
    PackSplit(r);
  }

  lemma ChecksumHigh(x: seq<int>)
    requires Bytes(x)
    ensures 0 <= Checksum(x) && Checksum(x) / 65536 < BASE
  {
    Unpack(Sum(1, x) % BASE, Sums(1, 0, x) % BASE);
    hide Sum, Sums;
  }

  lemma SummedIs(adler: nat, sum2: nat, s: seq<int>, a: nat, b: nat)
    requires Bytes(s) && Summed(adler, sum2, s, a, b) && a < BASE && b < BASE
    ensures a == Sum(adler, s) % BASE && b == Sums(adler, sum2, s) % BASE
  {
    hide Sum, Sums;
  }

  lemma PackSplit(r: nat)
    ensures r == Pack(r % 65536, r / 65536)
  {
  }

  method UpdateSums(adler0: Word, buf: seq<int>) returns (r: int)
    requires Bytes(buf)
    ensures 0 <= r < 0x1_0000_0000 && r % 65536 < BASE &&
      Summed(adler0 % 65536, adler0 / 65536, buf, r % 65536, r / 65536)
    ensures r / 65536 < BASE <==> |buf| != 1 || OnceEnough(adler0, buf[0])
  {
    hide Sum, Sums, Summed, Pack;
    var adler: Word, sum2: Word := adler0 % 65536, adler0 / 65536;
    ghost var a0: nat, b0: nat := adler, sum2;
    NoneSummed(a0, b0, buf);
    if |buf| == 1 {
      adler, sum2 := OneByte(adler, sum2, buf);
      Unpack(adler, sum2);
      return Pack(adler, sum2);
    }
    if |buf| < 16 {
      adler, sum2 := FewBytes(adler, sum2, buf);
      Unpack(adler, sum2);
      return Pack(adler, sum2);
    }
    var i := 0;
    while |buf| - i >= NMAX
      invariant 0 <= i <= |buf| && adler < 65536 && sum2 < 65536 && (i > 0 ==> adler < BASE && sum2 < BASE)
      invariant Summed(a0, b0, buf[..i], adler, sum2)
    {
      adler, sum2 := Stretch(adler, sum2, buf, i, i + NMAX, a0, b0);
      i := i + NMAX;
    }
    if i < |buf| {
      adler, sum2 := Stretch(adler, sum2, buf, i, |buf|, a0, b0);
    }
    assert buf[..|buf|] == buf;
    Unpack(adler, sum2);
    r := Pack(adler, sum2);
  }

  lemma NoneSummed(a: nat, b: nat, buf: seq<int>)
    ensures Summed(a, b, buf[..0], a, b)
  {
  }

  lemma Unpack(a: nat, b: nat)
    requires a < 65536 && b < 65536
    ensures 0 <= Pack(a, b) < 0x1_0000_0000 && Pack(a, b) % 65536 == a && Pack(a, b) / 65536 == b
  {
  }

  /** In case a byte is added at a time. */
  method OneByte(adler0: Word, sum20: Word, buf: seq<int>) returns (adler: Word, sum2: Word)
    requires Bytes(buf) && |buf| == 1 && adler0 < 65536 && sum20 < 65536
    ensures adler < BASE && sum2 < 65536 && Summed(adler0, sum20, buf, adler, sum2)
    ensures sum2 < BASE <==> sum20 + Once(adler0 + buf[0]) < 2 * BASE
  {
    assert buf[..0] == [] && Sum(adler0, buf) == adler0 + buf[0] && Sums(adler0, sum20, buf) == sum20 + adler0 + buf[0];
    hide Sum, Sums;
    adler := adler0 + buf[0];
    if adler >= BASE { adler := adler - BASE; }
    sum2 := sum20 + adler;
    if sum2 >= BASE { sum2 := sum2 - BASE; }
  }

  /** A few bytes: the first sum cannot exceed BASE twice. */
  method FewBytes(adler0: Word, sum20: Word, buf: seq<int>) returns (adler: Word, sum2: Word)
    requires Bytes(buf) && |buf| < 16 && adler0 < 65536 && sum20 < 65536
    ensures adler < BASE && sum2 < BASE && Summed(adler0, sum20, buf, adler, sum2)
  {
    hide Sum, Sums;
    adler, sum2 := AddBytes(adler0, sum20, buf);
    SumsBounded(adler0, sum20, buf);
    if adler >= BASE { adler := adler - BASE; }
    sum2 := sum2 % BASE;
  }

  /** At most NMAX bytes and the reductions after them. */
  method Stretch(adler0: Word, sum20: Word, buf: seq<int>, i: int, j: int, ghost a0: nat, ghost b0: nat)
      returns (adler: Word, sum2: Word)
    requires Bytes(buf) && 0 <= i <= j <= |buf| && j - i <= NMAX && adler0 < 65536 && sum20 < 65536
    requires Summed(a0, b0, buf[..i], adler0, sum20)
    ensures adler < BASE && sum2 < BASE && Summed(a0, b0, buf[..j], adler, sum2)
  {
    hide Sum, Sums;
    adler, sum2 := AddBytes(adler0, sum20, buf[i..j]);
    SummedMore(a0, b0, buf[..i], adler0, sum20, buf[i..j]);
    assert buf[..i] + buf[i..j] == buf[..j];
    adler, sum2 := adler % BASE, sum2 % BASE;
  }

  /** A checksum may be computed piece by piece. */
  lemma Incremental(x: seq<int>, y: seq<int>)
    requires Bytes(x) && Bytes(y)
    ensures Bytes(x + y)
    ensures var c := Checksum(x);
      Checksum(x + y) == Pack(Sum(c % 65536, y) % BASE, Sums(c % 65536, c / 65536, y) % BASE)
  {
    hide Sum, Sums;
    SummedMore(1, 0, x, Sum(1, x) % BASE, Sums(1, 0, x) % BASE, y);
  }

  // ----- without division -----

  /** CHOP: 65536 is 15 modulo BASE. */
  function Chop(a: nat): (r: nat)
    ensures r % BASE == a % BASE && r == a % 65536 + 15 * (a / 65536)
  {
    var tmp := a / 65536;
    ModShift(a % 65536 + 16 * tmp - tmp, tmp);
    a % 65536 + 16 * tmp - tmp
  }

  function Mod28(a: nat): (r: nat)
    ensures a < 0x1000_0000 ==> r == a % BASE
  {
    var c := Chop(a);
    if c >= BASE then c - BASE else c
  }

  function Mod(a: nat): (r: nat)
    ensures a < 0x1_0000_0000 ==> r == a % BASE
  {
    Mod28(Chop(a))
  }

  /** The first step of MOD63: two to the 32nd is 225 modulo BASE. */
  function Fold(a: nat): (r: nat)
    ensures r % BASE == a % BASE && r == a % 0x1_0000_0000 + 225 * (a / 0x1_0000_0000)
  {
    var tmp := a / 0x1_0000_0000;
    var r := a % 0x1_0000_0000 + (256 * tmp - 32 * tmp + tmp);
    assert a == r + BASE * (65551 * tmp);
    ModShift(r, 65551 * tmp);
    r
  }

  function Mod63(a: nat): (r: nat)
    ensures a < 0x8000_0000_0000_0000 ==> r == a % BASE
  {
    var f := Fold(a);
    assert a < 0x8000_0000_0000_0000 ==> f < 0x80_0000_0000;
    var g := Chop(f);
    assert a < 0x8000_0000_0000_0000 ==> g < 0x800_0000;
    var c := Chop(g);
    if c >= BASE then c - BASE else c
  }

  // ----- combining -----

  /** The first sum of two pieces. */
  lemma SumOfBoth(x: seq<int>, y: seq<int>)
    requires Bytes(x) && Bytes(y)
    ensures Bytes(x + y) && Same(Sum(1, x) % BASE + Sum(1, y) % BASE + BASE - 1, Sum(1, x + y))
  {
    hide Sum, Same;
    SumJoin(1, x, y);
    var p := Sum(1, x);
    SumFrom(p, y);
    SumFrom(1, y);
    FirstSum(p, Sum(1, y), Sum(0, y));
  }

  lemma FirstSum(p: nat, q: nat, v: nat)
    requires q == 1 + v
    ensures Same(p % BASE + q % BASE + BASE - 1, p + v)
  {
    hide Same;
    Divided(p);
    Divided(q);
    var low := p % BASE + q % BASE + BASE - 1;
    SameBy(p + q + BASE - 1, low, p / BASE + q / BASE);
    SameBy(p + q + BASE - 1, p + v, 1);
    SameThrough(low, p + q + BASE - 1, p + v);
  }

  /** The second sum of two pieces. */
  lemma SumsOfBoth(x: seq<int>, y: seq<int>)
    requires Bytes(x) && Bytes(y)
    ensures Bytes(x + y)
    ensures var rem, sum1 := |y| % BASE, Sum(1, x) % BASE;
            Same(Remainder(rem, sum1) + Sums(1, 0, x) % BASE + Sums(1, 0, y) % BASE + BASE - rem, Sums(1, 0, x + y))
  {
    hide Sum, Sums, Same, Remainder;
    SumsJoin(1, 0, x, y);
    var n, p, q, u := |y|, Sum(1, x), Sums(1, 0, x), Sums(1, 0, y);
    SumsFrom(p, q, y);
    SumsFrom(1, 0, y);
    SecondSum(n, p, q, u, Sums(0, 0, y));
  }

  lemma SecondSum(n: nat, p: nat, q: nat, u: nat, v: nat)
    requires u == n + v
    ensures Same(Remainder(n % BASE, p % BASE) + q % BASE + u % BASE + BASE - n % BASE, q + n * p + v)
  {
    var rem, sum1 := n % BASE, p % BASE;
    var a, b := n / BASE, p / BASE;
    var e := rem * sum1 / BASE;
    Divided(rem * sum1);
    Scaled(p, n, rem, a);
    Scaled(rem, p, sum1, b);
    assert p * n == n * p && p * rem == rem * p;
    hide Same, Remainder;
    SecondSumAt(n, n * p, q, u, v, Remainder(rem, sum1), e + p * a + rem * b);
  }

  lemma SecondSumAt(n: nat, np: nat, q: nat, u: nat, v: nat, r: nat, k: nat)
    requires u == n + v && np == r + BASE * k
    ensures Same(r + q % BASE + u % BASE + BASE - n % BASE, q + np + v)
  {
    hide Same;
    Divided(q);
    Divided(u);
    Divided(n);
    var low := r + q % BASE + u % BASE + BASE - n % BASE;
    var all := q + np + u + BASE - n % BASE;
    SameBy(all, low, k + q / BASE + u / BASE);
    SameBy(all, q + np + v, 1 + n / BASE);
    SameThrough(low, all, q + np + v);
  }

  lemma SameThrough(x: nat, y: nat, z: nat)
    requires Same(y, x) && Same(y, z)
    ensures Same(x, z)
  {
  }

  lemma Divided(x: nat)
    ensures x == BASE * (x / BASE) + x % BASE
  {
  }

  function Remainder(x: nat, y: nat): (r: nat)
    ensures r < BASE
  {
    x * y % BASE
  }

  /** The first sums, and the conditional subtractions in place of a division. */
  method FirstSums(a1: nat, a2: nat) returns (sum1: Word)
    requires a1 < 65536 && a2 < 65536
    ensures a1 < BASE && a2 < BASE ==> sum1 == (a1 + a2 + BASE - 1) % BASE
  {
    sum1 := a1 + (a2 + BASE - 1);
    if sum1 >= BASE { sum1 := sum1 - BASE; }
    if sum1 >= BASE { sum1 := sum1 - BASE; }
  }

  method SecondSums(a1: nat, b1: nat, b2: nat, rem: nat) returns (sum2: Word)
    requires a1 < 65536 && b1 < 65536 && b2 < 65536 && rem < BASE
    ensures b1 < BASE && b2 < BASE ==> sum2 == (Remainder(rem, a1) + b1 + b2 + BASE - rem) % BASE
  {
    RemainderIs(rem, a1);
    WordProduct(rem, a1);
    hide Remainder;
    sum2 := rem * a1;
    sum2 := sum2 % BASE;
    sum2 := sum2 + b1 + b2 + BASE - rem;
    if sum2 >= 2 * BASE { sum2 := sum2 - 2 * BASE; }
    if sum2 >= BASE { sum2 := sum2 - BASE; }
  }

  /** adler32_combine_: the checksum of x + y from those of x and y and the length of y. */
  method Combine(adler1: Word, adler2: Word, len2: int) returns (r: int)
    ensures len2 < 0 ==> r == 0xffff_ffff
    ensures forall x, y | Bytes(x) && Bytes(y) && adler1 == Checksum(x) && adler2 == Checksum(y) && len2 == |y| ::
              Bytes(x + y) && r == Checksum(x + y)
  {
    if len2 < 0 { return 0xffff_ffff; }
    var rem := len2 % BASE;
    var sum1 := FirstSums(adler1 % 65536, adler2 % 65536);
    var sum2 := SecondSums(adler1 % 65536, adler1 / 65536, adler2 / 65536, rem);
    r := Pack(sum1, sum2);
    hide Checksum, Remainder, Pack;
    forall x, y | Bytes(x) && Bytes(y) && adler1 == Checksum(x) && adler2 == Checksum(y) && len2 == |y|
      ensures Bytes(x + y) && r == Checksum(x + y)
    {
      CombineIs(x, y, adler1, adler2, rem);
    }
  }

  lemma CombineIs(x: seq<int>, y: seq<int>, adler1: int, adler2: int, rem: nat)
    requires Bytes(x) && Bytes(y) && adler1 == Checksum(x) && adler2 == Checksum(y) && rem == |y| % BASE
    ensures Bytes(x + y) && 0 <= adler1 && 0 <= adler2 && adler1 % 65536 < BASE && adler2 % 65536 < BASE
    ensures 0 <= adler1 / 65536 < BASE && 0 <= adler2 / 65536 < BASE
    ensures Checksum(x + y) == Pack((adler1 % 65536 + adler2 % 65536 + BASE - 1) % BASE,
      (Remainder(rem, adler1 % 65536) + adler1 / 65536 + adler2 / 65536 + BASE - rem) % BASE)
  {
    hide Sum, Sums, Remainder, Pack;
    Unpack(Sum(1, x) % BASE, Sums(1, 0, x) % BASE);
    Unpack(Sum(1, y) % BASE, Sums(1, 0, y) % BASE);
    SumOfBoth(x, y);
    SumsOfBoth(x, y);
  }

  lemma RemainderIs(x: nat, y: nat)
    ensures Remainder(x, y) == x * y % BASE
  {
  }

  lemma WordProduct(x: nat, y: nat)
    requires x < BASE && y < 65536
    ensures x * y < 0x1_0000_0000
  {
    Monotone(x, y, 65520, 65535);
  }

  lemma Monotone(x: nat, y: nat, p: nat, q: nat)
    requires x <= p && y <= q
    ensures x * y <= p * q
  {
    NonNegative(p - x, y);
    NonNegative(p, q - y);
    assert p * q == p * y + p * (q - y) && p * y == x * y + (p - x) * y;
  }
}

/** deflate's hash table: chains of earlier positions that begin with the same three bytes. */
module HashChains {

  import opened Powers
  import opened Rotations

  // ----- the running hash -----

  const ALL: bv32 := 0xffff_ffff

  function Shl(h: bv32, s: bv32): bv32
    requires s < 32
  {
    h << s
  }

  /** What the shift and the mask must be: at least eight bits, and three shifts push a byte out. */
  predicate GoodHash(s: bv32, m: bv32) {
    s < 8 && m & (m + 1) == 0 && m & 0xff == 0xff && m <= 0xffff && Shl(Shl(Shl(ALL, s), s), s) & m == 0
  }

  /** UPDATE_HASH. */
  function UpdateHash(h: bv32, c: bv32, s: bv32, m: bv32): bv32
    requires s < 32
  {
    Mix(Shl(h, s), c, m)
  }

  function Mix(h: bv32, c: bv32, m: bv32): bv32 { (h ^ c) & m }

  function And(h: bv32, m: bv32): bv32 { h & m }

  /** The hash of three bytes. */
  function Hash3(a: bv32, b: bv32, c: bv32, s: bv32, m: bv32): bv32
    requires s < 32
  {
    UpdateHash(UpdateHash(UpdateHash(0, a, s, m), b, s, m), c, s, m)
  }

  /** h is ready to be updated with the third byte after a and b. */
  ghost predicate Rolled(h: bv32, a: bv32, b: bv32, s: bv32, m: bv32)
    requires s < 32
  {
    And(Shl(h, s), m) == And(Shl(UpdateHash(UpdateHash(0, a, s, m), b, s, m), s), m)
  }

  lemma RolledHash(h: bv32, a: bv32, b: bv32, c: bv32, s: bv32, m: bv32)
    requires s < 32 && Rolled(h, a, b, s, m)
    ensures UpdateHash(h, c, s, m) == Hash3(a, b, c, s, m)
  {
    hide Shl, Mix, And;
    Masked(Shl(h, s), Shl(UpdateHash(UpdateHash(0, a, s, m), b, s, m), s), c, m);
  }

  lemma Masked(x: bv32, y: bv32, c: bv32, m: bv32)
    requires And(x, m) == And(y, m)
    ensures Mix(x, c, m) == Mix(y, c, m)
  {
  }

  /** After three bytes the hash has forgotten what was before. */
  lemma RollsOn(a: bv32, b: bv32, c: bv32, s: bv32, m: bv32)
    requires GoodHash(s, m)
    ensures Rolled(Hash3(a, b, c, s, m), b, c, s, m)
  {
  }

  lemma RollsStart(a: bv32, b: bv32, s: bv32, m: bv32)
    requires GoodHash(s, m)
    ensures Rolled(UpdateHash(a, b, s, m), a, b, s, m)
  {
  }

  /** With at least eight bits, the hash and the first two bytes determine the third. */
  lemma ThirdByte(a: bv32, b: bv32, c: bv32, d: bv32, s: bv32, m: bv32)
    requires GoodHash(s, m) && c < 256 && d < 256 && Hash3(a, b, c, s, m) == Hash3(a, b, d, s, m)
    ensures c == d
  {
  }

  lemma HashFits(a: bv32, b: bv32, c: bv32, s: bv32, m: bv32)
    requires s < 32
    ensures AtMost(Hash3(a, b, c, s, m), m) && (AtMost(m, 0xffff) ==> AtMost(Hash3(a, b, c, s, m), 0xffff))
  {
    hide Mix, Shl, AtMost;
    MaskedBelow(Shl(UpdateHash(UpdateHash(0, a, s, m), b, s, m), s), c, m);
  }

  lemma MaskedBelow(x: bv32, c: bv32, m: bv32)
    ensures AtMost(Mix(x, c, m), m) && (AtMost(m, 0xffff) ==> AtMost(Mix(x, c, m), 0xffff))
  {
  }

  // ----- chains -----

  /** hash_shift and hash_mask. */
  datatype Keys = Keys(shift: bv32, mask: bv32)

  ghost predicate GoodKeys(k: Keys) { GoodHash(k.shift, k.mask) }

  /** A byte as a word, bit by bit. */
  function ByteWord(c: int): (w: bv32)
    requires 0 <= c < 256
    ensures w < 256
  {
    var q := c / 16;
    Octet(Odd(q / 2 / 2 / 2), Odd(q / 2 / 2), Odd(q / 2), Odd(q), Odd(c / 2 / 2 / 2), Odd(c / 2 / 2), Odd(c / 2),
      Odd(c))
  }

  predicate Odd(x: int) { x % 2 == 1 }

  function Octet(b7: bool, b6: bool, b5: bool, b4: bool, b3: bool, b2: bool, b1: bool, b0: bool): (w: bv32)
    ensures w < 256
  {
    (if b7 then 0x80 else 0) | (if b6 then 0x40 else 0) | (if b5 then 0x20 else 0) | (if b4 then 0x10 else 0) |
    (if b3 then 0x08 else 0) | (if b2 then 0x04 else 0) | (if b1 then 0x02 else 0) | (if b0 then 0x01 else 0)
  }

  function Low(h: bv32): bool { h & 1 != 0 }

  function Half(h: bv32): bv32 { h >> 1 }

  /** The number of n bits. */
  function Digits(h: bv32, n: nat): (v: nat)
  {
    if n == 0 then 0 else 2 * Digits(Half(h), n - 1) + (if Low(h) then 1 else 0)
  }

  /** What fits in n of sixteen bits. */
  function Most(n: nat): bv32
    requires n <= 16
    decreases 16 - n
  {
    if n == 16 then 0xffff else Half(Most(n + 1))
  }

  lemma MostNone()
    ensures Most(0) == 0
  {
    assert Most(12) == 0x0fff;
    assert Most(8) == 0x00ff;
    assert Most(4) == 0x000f;
  }

  predicate AtMost(h: bv32, m: bv32) { h <= m }

  lemma HalfBelow(h: bv32, m: bv32)
    requires AtMost(h, m)
    ensures AtMost(Half(h), Half(m))
  {
  }

  lemma LastBit(h: bv32, m: bv32)
    requires AtMost(h, m) && Half(h) == Half(m)
    ensures h == m || (!Low(h) && Low(m))
  {
  }

  lemma SameParts(h: bv32, m: bv32)
    requires Half(h) == Half(m) && Low(h) == Low(m)
    ensures h == m
  {
  }

  lemma NothingBelow(h: bv32)
    requires AtMost(h, 0)
    ensures h == 0
  {
  }

  lemma {:induction false} DigitsDiffer(a: bv32, b: bv32, n: nat)
    requires n <= 16 && AtMost(a, Most(n)) && AtMost(b, Most(n)) && Digits(a, n) == Digits(b, n)
    ensures a == b
    decreases n
  {
    hide Half, Low, Most, AtMost;
    if n == 0 {
      MostNone();
      NothingBelow(a);
      NothingBelow(b);
    } else {
      HalfBelow(a, Most(n));
      HalfBelow(b, Most(n));
      MostHalf(n);
      DigitsDiffer(Half(a), Half(b), n - 1);
      SameParts(a, b);
    }
  }

  lemma DigitsAt(h: bv32, n: nat)
    ensures Digits(h, n) == if n == 0 then 0 else 2 * Digits(Half(h), n - 1) + (if Low(h) then 1 else 0)
  {
  }

  lemma {:induction false} DigitsOrder(h: bv32, m: bv32, n: nat)
    requires n <= 16 && AtMost(h, m) && AtMost(m, Most(n)) && AtMost(h, Most(n))
    ensures Digits(h, n) <= Digits(m, n)
    decreases n
  {
    hide Half, Low, Most, AtMost, Digits;
    DigitsAt(h, n);
    DigitsAt(m, n);
    if n > 0 {
      HalfBelow(h, m);
      HalfBelow(h, Most(n));
      HalfBelow(m, Most(n));
      MostHalf(n);
      DigitsOrder(Half(h), Half(m), n - 1);
      if Digits(Half(h), n - 1) == Digits(Half(m), n - 1) {
        DigitsDiffer(Half(h), Half(m), n - 1);
        LastBit(h, m);
      }
    }
  }

  lemma MostHalf(n: nat)
    requires 1 <= n <= 16
    ensures Half(Most(n)) == Most(n - 1)
  {
  }

  /** The number that a hash is as an index. */
  function Number(h: bv32): nat { Digits(h, 16) }

  lemma NumberBelow(h: bv32, m: bv32)
    requires AtMost(h, m) && AtMost(m, 0xffff) && AtMost(h, 0xffff)
    ensures Number(h) <= Number(m)
  {
    hide AtMost, Digits;
    DigitsOrder(h, m, 16);
  }

  lemma WordsDiffer(c: int, d: int)
    requires 0 <= c < 256 && 0 <= d < 256 && ByteWord(c) == ByteWord(d)
    ensures c == d
  {
    hide Octet, Odd;
    var p, q := c / 16, d / 16;
    OctetsDiffer(Odd(p / 2 / 2 / 2), Odd(p / 2 / 2), Odd(p / 2), Odd(p), Odd(c / 2 / 2 / 2), Odd(c / 2 / 2), Odd(c / 2),
      Odd(c), Odd(q / 2 / 2 / 2), Odd(q / 2 / 2), Odd(q / 2), Odd(q), Odd(d / 2 / 2 / 2), Odd(d / 2 / 2), Odd(d / 2),
      Odd(d));
    SameDigit(p, q, 0, 0);
    SameDigit(c, d, p, q);
  }

  lemma OctetsDiffer(b7: bool, b6: bool, b5: bool, b4: bool, b3: bool, b2: bool, b1: bool, b0: bool,
      c7: bool, c6: bool, c5: bool, c4: bool, c3: bool, c2: bool, c1: bool, c0: bool)
    requires Octet(b7, b6, b5, b4, b3, b2, b1, b0) == Octet(c7, c6, c5, c4, c3, c2, c1, c0)
    ensures b7 == c7 && b6 == c6 && b5 == c5 && b4 == c4 && b3 == c3 && b2 == c2 && b1 == c1 && b0 == c0
  {
  }

  /** Four bits above something that is the same. */
  lemma SameDigit(x: int, y: int, p: int, q: int)
    requires p == x / 16 && q == y / 16 && p == q
    requires Odd(x / 2 / 2 / 2) == Odd(y / 2 / 2 / 2) && Odd(x / 2 / 2) == Odd(y / 2 / 2) && Odd(x / 2) == Odd(y / 2) &&
      Odd(x) == Odd(y)
    ensures x == y
  {
    assert x / 2 / 2 / 2 / 2 == p && y / 2 / 2 / 2 / 2 == q;
    Halves(x / 2 / 2 / 2, y / 2 / 2 / 2);
    Halves(x / 2 / 2, y / 2 / 2);
    Halves(x / 2, y / 2);
    Halves(x, y);
  }

  lemma Halves(x: int, y: int)
    requires x / 2 == y / 2 && Odd(x) == Odd(y)
    ensures x == y
  {
  }

  lemma NumbersDiffer(a: bv32, b: bv32)
    requires Number(a) == Number(b) && AtMost(a, 0xffff) && AtMost(b, 0xffff)
    ensures a == b
  {
    hide AtMost, Digits;
    DigitsDiffer(a, b, 16);
  }

  lemma MaskRange(k: Keys)
    requires GoodKeys(k)
    ensures k.shift < 8 && AtMost(k.mask, 0xffff)
  {
  }

  /** The hash of the bytes at p. */
  function HashAt(w: seq<int>, p: int, k: Keys): (h: int)
    requires GoodKeys(k) && Bytes(w) && 0 <= p && p + 3 <= |w|
    ensures 0 <= h <= Number(k.mask)
  {
    HashFits(ByteWord(w[p]), ByteWord(w[p + 1]), ByteWord(w[p + 2]), k.shift, k.mask);
    MaskRange(k);
    var h := Hash3(ByteWord(w[p]), ByteWord(w[p + 1]), ByteWord(w[p + 2]), k.shift, k.mask);
    NumberBelow(h, k.mask);
    Number(h)
  }

  /** Equal hashes and two equal bytes leave no choice for the third: longest_match need not look at it. */
  lemma ThirdEqual(w: seq<int>, p: int, q: int, k: Keys)
    requires GoodKeys(k) && Bytes(w) && 0 <= p && p + 3 <= |w| && 0 <= q && q + 3 <= |w|
    requires HashAt(w, p, k) == HashAt(w, q, k) && w[p] == w[q] && w[p + 1] == w[q + 1]
    ensures w[p + 2] == w[q + 2]
  {
    hide Hash3, GoodHash, ByteWord, Number;
    MaskRange(k);
    HashFits(ByteWord(w[p]), ByteWord(w[p + 1]), ByteWord(w[p + 2]), k.shift, k.mask);
    HashFits(ByteWord(w[q]), ByteWord(w[q + 1]), ByteWord(w[q + 2]), k.shift, k.mask);
    NumbersDiffer(Hash3(ByteWord(w[p]), ByteWord(w[p + 1]), ByteWord(w[p + 2]), k.shift, k.mask),
      Hash3(ByteWord(w[q]), ByteWord(w[q + 1]), ByteWord(w[q + 2]), k.shift, k.mask));
    ThirdByte(ByteWord(w[p]), ByteWord(w[p + 1]), ByteWord(w[p + 2]), ByteWord(w[q + 2]), k.shift, k.mask);
    WordsDiffer(w[p + 2], w[q + 2]);
  }

  /** The place of a window position in prev. */
  function Slot(p: int, n: int): int { if p >= n then p - n else p }

  /** What a link of position p may be: the end of the chain, or an earlier position with the same hash. */
  ghost predicate Link(w: seq<int>, ins: set<int>, k: Keys, h: int, q: int, below: int)
    requires GoodKeys(k) && Bytes(w) && forall p :: p in ins ==> 0 < p && p + 3 <= |w|
  {
    q == 0 || (q in ins && q < below && HashAt(w, q, k) == h)
  }

  /** Every position in ins lies before end with its three bytes. */
  ghost predicate Inserted(w: seq<int>, ins: set<int>, end: int) {
    end <= |w| && forall p :: p in ins ==> 0 < p && p + 3 <= end
  }

  /** Heads lead to positions with their hash, and a position whose link has not been overwritten to an earlier one with
      its own. */
  ghost predicate Chains(w: seq<int>, head: seq<int>, prev: seq<int>, ins: set<int>, end: int, k: Keys) {
    && GoodKeys(k) && Bytes(w) && |prev| > 0 && |w| == 2 * |prev| && |head| == Number(k.mask) + 1
    && Inserted(w, ins, end)
    && (forall h :: 0 <= h < |head| ==> Link(w, ins, k, h, head[h], end))
    && (forall p :: p in ins && p + |prev| !in ins ==> Link(w, ins, k, HashAt(w, p, k), prev[Slot(p, |prev|)], p))
  }

  lemma ChainsSizes(w: seq<int>, head: seq<int>, prev: seq<int>, ins: set<int>, end: int, k: Keys)
    requires Chains(w, head, prev, ins, end, k)
    ensures GoodKeys(k) && Bytes(w) && |prev| > 0 && |w| == 2 * |prev| && |head| == Number(k.mask) + 1 &&
      Inserted(w, ins, end)
  {
    hide GoodKeys, Link, Inserted, Number;
  }

  /** hash_bits = memLevel + 7, hash_shift = (hash_bits + 2) / 3, hash_mask = 2^hash_bits - 1 */
  function KeysFor(memLevel: nat): Keys
    requires 1 <= memLevel <= 9
  {
    Keys(if memLevel <= 2 then 3 else if memLevel <= 5 then 4 else if memLevel <= 8 then 5 else 6, MaskFor(memLevel))
  }

  function MaskFor(memLevel: nat): bv32
    requires 1 <= memLevel <= 9
  {
    match memLevel
    case 1 => 0xff
    case 2 => 0x1ff
    case 3 => 0x3ff
    case 4 => 0x7ff
    case 5 => 0xfff
    case 6 => 0x1fff
    case 7 => 0x3fff
    case 8 => 0x7fff
    case _ => 0xffff
  }

  lemma KeysGood(memLevel: nat)
    requires 1 <= memLevel <= 9
    ensures GoodKeys(KeysFor(memLevel))
  {
    assert GoodHash(3, 0xff) && GoodHash(3, 0x1ff) && GoodHash(4, 0x3ff) && GoodHash(4, 0x7ff) && GoodHash(4, 0xfff);
    assert GoodHash(5, 0x1fff) && GoodHash(5, 0x3fff) && GoodHash(5, 0x7fff) && GoodHash(6, 0xffff);
  }

  /** hash_size = hash_mask + 1 */
  lemma MaskSize(memLevel: nat)
    requires 1 <= memLevel <= 9
    ensures Number(MaskFor(memLevel)) + 1 == Pow2(memLevel + 7)
  {
    hide Digits, Half, Low, Most;
    assert MaskFor(memLevel) == Most(memLevel + 7) by { MostIs(); }
    MostDigits(memLevel + 7, 16);
  }

  lemma MostIs()
    ensures Most(16) == 0xffff && Most(15) == 0x7fff && Most(14) == 0x3fff && Most(13) == 0x1fff && Most(12) == 0xfff
    ensures Most(11) == 0x7ff && Most(10) == 0x3ff && Most(9) == 0x1ff && Most(8) == 0xff
  {
    assert Most(13) == 0x1fff;
    assert Most(11) == 0x7ff;
    assert Most(9) == 0x1ff;
  }

  lemma MostSmall()
    ensures Most(7) == 0x7f && Most(6) == 0x3f && Most(5) == 0x1f && Most(4) == 0xf && Most(3) == 7 && Most(2) == 3 &&
      Most(1) == 1
  {
    MostIs();
    assert Most(6) == 0x3f;
    assert Most(4) == 0xf;
    assert Most(2) == 3;
  }

  /** The number of n ones. */
  lemma {:induction false} MostDigits(n: nat, m: nat)
    requires n <= m <= 16
    ensures Digits(Most(n), m) + 1 == Pow2(n)
    decreases m
  {
    hide Half, Low, Most;
    DigitsAt(Most(n), m);
    if n == 0 {
      MostNone();
      HalfNone();
      if m > 0 {
        MostDigits(0, m - 1);
      }
    } else {
      MostHalf(n);
      MostLow(n);
      MostDigits(n - 1, m - 1);
    }
  }

  lemma HalfNone()
    ensures Half(0) == 0 && !Low(0)
  {
  }

  lemma MostLow(n: nat)
    requires 1 <= n <= 16
    ensures Low(Most(n))
  {
    MostIs();
    MostSmall();
  }

  /** No chains yet. */
  lemma ChainsStart(w: seq<int>, head: seq<int>, prev: seq<int>, k: Keys)
    requires GoodKeys(k) && Bytes(w) && |prev| > 0 && |w| == 2 * |prev| && |head| == Number(k.mask) + 1
    requires forall h :: 0 <= h < |head| ==> head[h] == 0
    ensures Chains(w, head, prev, {}, 0, k)
  {
  }

  /** More input behind what there is. */
  lemma ChainsGrow(w: seq<int>, w': seq<int>, head: seq<int>, prev: seq<int>, ins: set<int>, end: int, end': int,
      k: Keys)
    requires Chains(w, head, prev, ins, end, k) && Bytes(w') && |w'| == |w| && end <= end' <= |w| &&
             forall i :: 0 <= i < end ==> w'[i] == w[i]
    ensures Chains(w', head, prev, ins, end', k)
  {
    hide Hash3, GoodHash, ByteWord, Number;
    forall p | p in ins ensures HashAt(w', p, k) == HashAt(w, p, k) {
      assert p + 3 <= end;
    }
  }

  /** INSERT_STRING: a position behind all others becomes the head of its chain. */
  lemma ChainsInsert(w: seq<int>, head: seq<int>, prev: seq<int>, ins: set<int>, end: int, k: Keys, str: int)
    requires Chains(w, head, prev, ins, end, k) && 0 <= str && str + 3 <= end && forall p :: p in ins ==> p < str
    ensures var h, n := HashAt(w, str, k), |prev|;
            0 <= Slot(str, n) < n && h < |head| &&
            Chains(w, head[h := str], prev[Slot(str, n) := head[h]], if str == 0 then ins else ins + {str}, end, k)
  {
    hide HashAt, GoodHash, Number;
    var h, n := HashAt(w, str, k), |prev|;
    var ins' := if str == 0 then ins else ins + {str};
    var head', prev' := head[h := str], prev[Slot(str, n) := head[h]];
    forall p | p in ins' && p + n !in ins' ensures Link(w, ins', k, HashAt(w, p, k), prev'[Slot(p, n)], p) {
      if p != str {
        assert Slot(p, n) != Slot(str, n);
        assert Link(w, ins, k, HashAt(w, p, k), prev[Slot(p, n)], p);
      } else {
        assert Link(w, ins, k, h, head[h], end);
      }
    }
    forall i | 0 <= i < |head| ensures Link(w, ins', k, i, head'[i], end) {
      if i != h { assert Link(w, ins, k, i, head[i], end); }
    }
  }

  /** The next position of a chain: it can be trusted as long as the window has not come round. */
  lemma ChainsFollow(w: seq<int>, head: seq<int>, prev: seq<int>, ins: set<int>, end: int, k: Keys, p: int, top: int)
    requires Chains(w, head, prev, ins, end, k) && p in ins && p > top - |prev| && forall q :: q in ins ==> q <= top
    ensures 0 <= Slot(p, |prev|) < |prev| && Link(w, ins, k, HashAt(w, p, k), prev[Slot(p, |prev|)], p)
  {
    hide HashAt, GoodHash, Number;
    assert p + |prev| !in ins;
  }

  /** The upper half of the window moves down, and every position with it. */
  function Slid(a: seq<int>, n: int): (r: seq<int>)
    ensures |r| == |a|
  {
    seq(|a|, i requires 0 <= i < |a| => if a[i] >= n then a[i] - n else 0)
  }

  function SlidSet(ins: set<int>, n: int): set<int> {
    set p | p in ins && p > n :: p - n
  }

  lemma ChainsSlide(w: seq<int>, w': seq<int>, head: seq<int>, prev: seq<int>, ins: set<int>, end: int, k: Keys)
    requires Chains(w, head, prev, ins, end, k) && Bytes(w') && |w'| == |w| && |prev| <= end
    requires forall i :: 0 <= i < |prev| ==> w'[i] == w[i + |prev|]
    ensures Chains(w', Slid(head, |prev|), Slid(prev, |prev|), SlidSet(ins, |prev|), end - |prev|, k)
  {
    hide GoodHash, Number, HashAt;
    var n := |prev|;
    var ins', head', prev' := SlidSet(ins, n), Slid(head, n), Slid(prev, n);
    forall p | p in ins' ensures p + n in ins && 0 < p && p + 3 <= end - n && HashAt(w', p, k) == HashAt(w, p + n, k) {
      SameHash(w, w', p + n, p, k);
    }
    forall h | 0 <= h < |head| ensures Link(w', ins', k, h, head'[h], end - n) {
      LinkSlides(w, w', ins, ins', k, h, head[h], end, n);
    }
    forall p | p in ins' && p + n !in ins' ensures Link(w', ins', k, HashAt(w', p, k), prev'[Slot(p, n)], p) {
      assert p + n in ins && p + n + n !in ins;
      LinkSlides(w, w', ins, ins', k, HashAt(w, p + n, k), prev[Slot(p + n, n)], p + n, n);
    }
  }

  lemma SameHash(w: seq<int>, w': seq<int>, p: int, q: int, k: Keys)
    requires GoodKeys(k) && Bytes(w) && Bytes(w') && 0 <= p && p + 3 <= |w| && 0 <= q && q + 3 <= |w'|
    requires w[p] == w'[q] && w[p + 1] == w'[q + 1] && w[p + 2] == w'[q + 2]
    ensures HashAt(w, p, k) == HashAt(w', q, k)
  {
    hide Hash3, GoodHash, ByteWord, Number;
  }

  lemma LinkSlides(w: seq<int>, w': seq<int>, ins: set<int>, ins': set<int>, k: Keys, h: int, q: int, below: int,
      n: int)
    requires GoodKeys(k) && Bytes(w) && Bytes(w') && |w| == |w'| && n > 0 && ins' == SlidSet(ins, n)
    requires (forall p :: p in ins ==> 0 < p && p + 3 <= |w|) && (forall p :: p in ins' ==> p + 3 <= |w'|)
    requires forall p :: p in ins' ==> HashAt(w', p, k) == HashAt(w, p + n, k)
    requires Link(w, ins, k, h, q, below)
    ensures Link(w', ins', k, h, if q >= n then q - n else 0, below - n)
  {
    hide GoodKeys, HashAt;
    if q > n { assert q - n in ins'; }
  }
}

/** inflate_table from its arguments: which sets of code lengths it accepts, and that its tables decode the code they
    define. */
module Inftrees {

  import opened Powers
  import opened Counting
  import opened BitStream
  import opened Backwards
  import opened CanonicalCode
  import opened TableEntries
  import opened BuildTables
  import HuffmanCodes

  /** count[l]: how many codes have length l. */
  method CountLens(lens: seq<int>, count: array<int>)
    requires Lens(lens) && count.Length == 16
    modifies count
    ensures forall l :: 0 <= l <= 15 ==> count[l] == CountEq(lens, l)
  {
    hide CountEq;
    for len := 0 to 16
      invariant forall l :: 0 <= l < len ==> count[l] == 0
    {
      count[len] := 0;
    }
    forall l ensures CountEq(lens[..0], l) == 0 { EmptyCount(lens, l); }
    for sym := 0 to |lens|
      invariant forall l :: 0 <= l <= 15 ==> count[l] == CountEq(lens[..sym], l)
    {
      forall l ensures CountEq(lens[..sym + 1], l) == CountEq(lens[..sym], l) + (if lens[sym] == l then 1 else 0) {
        CountNext(lens, sym, l);
      }
      count[lens[sym]] := count[lens[sym]] + 1;
    }
    assert lens[..|lens|] == lens;
  }

  lemma SomeCounted(lens: seq<int>, i: int)
    requires 0 <= i < |lens|
    ensures CountEq(lens, lens[i]) > 0
  {
    assert lens[..|lens|] == lens;
    CountPrefix(lens, i, |lens|, lens[i]);
  }

  /** The loop that looks for the longest code. */
  method Longest(count: seq<int>, ghost lens: seq<int>) returns (max: nat)
    requires Lens(lens) && |count| == 16 && forall l :: 0 <= l <= 15 ==> count[l] == CountEq(lens, l)
    ensures max <= 15 && max == HuffmanCodes.MaxOf(lens)
  {
    hide CountEq, HuffmanCodes.MaxOf;
    max := 15;
    while max >= 1
      invariant 0 <= max <= 15 && forall l :: max < l <= 15 ==> count[l] == 0
    {
      if count[max] != 0 { break; }
      max := max - 1;
    }
    forall i | 0 <= i < |lens| ensures lens[i] <= max { SomeCounted(lens, i); }
    if HuffmanCodes.MaxOf(lens) < max { NoneEqual(lens, max); }
  }

  /** The loop that looks for the shortest one. */
  method Shortest(count: seq<int>, max: nat, ghost lens: seq<int>) returns (min: nat)
    requires Lens(lens) && |count| == 16 && (forall l :: 0 <= l <= 15 ==> count[l] == CountEq(lens, l)) &&
      1 <= max <= 15
    ensures 1 <= min <= max && forall i :: 0 <= i < |lens| && lens[i] > 0 && lens[i] <= max ==> min <= lens[i]
    ensures min < max ==> count[min] > 0
  {
    hide CountEq;
    min := 1;
    while min < max
      invariant 1 <= min <= max && forall l :: 1 <= l < min ==> count[l] == 0
    {
      if count[min] != 0 { break; }
      min := min + 1;
    }
    forall i | 0 <= i < |lens| && lens[i] > 0 && lens[i] <= max ensures min <= lens[i] { SomeCounted(lens, i); }
  }

  /** The loop that looks whether the codes are too many or too few. */
  method Spare(count: seq<int>, ghost lens: seq<int>) returns (left: int)
    requires Lens(lens) && |count| == 16 && forall l :: 0 <= l <= 15 ==> count[l] == CountEq(lens, l)
    ensures left < 0 <==> Kraft15(lens) > 0x8000
    ensures left >= 0 ==> left == 0x8000 - Kraft15(lens)
  {
    hide CountEq, Share, EndOf, Kraft15;
    left := 1;
    SpareStart(lens);
    for len := 1 to 16
      invariant left * Share(len - 1) == 0x8000 - EndOf(lens, len - 1)
    {
      ShareTwice(len);
      EndNext(lens, len);
      Doubling(left, Share(len));
      MulSub(left * 2, count[len], Share(len));
      left := left * 2;
      left := left - count[len];
      if left < 0 {
        Negative(left, Share(len));
        EndMonotone(lens, len, 15);
        EndIsKraft(lens);
        return;
      }
    }
    ShareLast();
    EndIsKraft(lens);
  }

  lemma SpareStart(lens: seq<int>)
    ensures Share(0) == 0x8000 && EndOf(lens, 0) == 0
  {
    Pow15();
  }

  lemma ShareLast()
    ensures Share(15) == 1
  {
  }

  lemma Negative(a: int, p: int)
    requires a < 0 && p > 0
    ensures a * p < 0
  {
    NonNegative(-a - 1, p);
    assert (-a - 1) * p == -(a * p) - p;
  }

  // ----- sorting -----

  /** The symbols at the places of a counting sort, those that do not occur left out. */
  ghost predicate AtRanks(lens: seq<int>, w: seq<int>, n: int) {
    forall k :: 0 <= k < n && k < |lens| && lens[k] > 0 ==>
      0 <= RankUp(lens, k) - CountEq(lens, 0) < |w| && w[RankUp(lens, k) - CountEq(lens, 0)] == k
  }

  lemma ZerosFirst(lens: seq<int>)
    requires Lens(lens)
    ensures Below(lens, 0) == 0 && Below(lens, 1) == CountEq(lens, 0)
  {
    BelowEnds(lens, 16);
    BelowStep(lens, 0);
  }

  lemma RankAt(lens: seq<int>, w: seq<int>, x: int)
    requires Lens(lens) && AtRanks(lens, w, |lens|) && |w| == |lens| - CountEq(lens, 0) && 0 <= x < |w|
    ensures 0 <= w[x] < |lens| && lens[w[x]] > 0 && RankUp(lens, w[x]) == x + CountEq(lens, 0)
  {
    hide Below, CountEq, RankUp;
    ZerosFirst(lens);
    var k := PlaceOf(lens, x + CountEq(lens, 0));
    RankInBucket(lens, k);
  }

  lemma RanksBefore(lens: seq<int>, a: int, b: int)
    requires 0 <= a < |lens| && 0 <= b < |lens| && RankUp(lens, a) < RankUp(lens, b)
    ensures Before(lens, a, b)
  {
    hide RankUp;
    if lens[b] < lens[a] { RankByValue(lens, b, a); }
    if lens[a] == lens[b] && b < a { RankByOrder(lens, b, a); }
  }

  lemma RanksInOrder(lens: seq<int>, w: seq<int>)
    requires Lens(lens) && AtRanks(lens, w, |lens|) && |w| == |lens| - CountEq(lens, 0)
    ensures Order(lens, w)
  {
    hide CountEq, RankUp, Before;
    var z := CountEq(lens, 0);
    forall x | 0 <= x < |w| ensures 0 <= w[x] < |lens| && lens[w[x]] > 0 && RankUp(lens, w[x]) == x + z {
      RankAt(lens, w, x);
    }
    forall x, y | 0 <= x < y < |w| ensures Before(lens, w[x], w[y]) { RanksBefore(lens, w[x], w[y]); }
    forall sym | 0 <= sym < |lens| && lens[sym] > 0 ensures sym in w {
      assert w[RankUp(lens, sym) - z] == sym;
    }
  }

  /** Offsets into the sorted symbols by length. */
  method Offsets(count: seq<int>, ghost lens: seq<int>) returns (offs: array<int>)
    requires Lens(lens) && |count| == 16 && forall l :: 0 <= l <= 15 ==> count[l] == CountEq(lens, l)
    ensures fresh(offs) && offs.Length == 16 &&
      forall l :: 1 <= l <= 15 ==> offs[l] == Below(lens, l) - CountEq(lens, 0)
  {
    hide CountEq, Below;
    offs := new int[16];
    ZerosFirst(lens);
    offs[1] := 0;
    for len := 1 to 15
      invariant forall l :: 1 <= l <= len ==> offs[l] == Below(lens, l) - CountEq(lens, 0)
    {
      BelowStep(lens, len);
      offs[len + 1] := offs[len] + count[len];
    }
  }

  method SortSymbols(lens: seq<int>, offs: array<int>, work: array<int>)
    requires Lens(lens) && offs.Length == 16 && offs != work && |lens| <= work.Length
    requires forall l :: 1 <= l <= 15 ==> offs[l] == Below(lens, l) - CountEq(lens, 0)
    modifies offs, work
    ensures Order(lens, work[..|lens| - CountEq(lens, 0)])
  {
    hide CountEq, Below, RankUp;
    ghost var z := CountEq(lens, 0);
    ghost var n := |lens| - z;
    RanksFit(lens);
    forall l ensures CountEq(lens[..0], l) == 0 { EmptyCount(lens, l); }
    for sym := 0 to |lens|
      invariant forall l :: 1 <= l <= 15 ==> offs[l] == Below(lens, l) - z + CountEq(lens[..sym], l)
      invariant AtRanks(lens, work[..n], sym)
    {
      forall l ensures CountEq(lens[..sym + 1], l) == CountEq(lens[..sym], l) + (if lens[sym] == l then 1 else 0) {
        CountNext(lens, sym, l);
      }
      if lens[sym] != 0 {
        RankIs(lens, sym);
        forall k | 0 <= k < sym && lens[k] > 0 ensures RankUp(lens, k) != RankUp(lens, sym) {
          RanksDiffer(lens, k, sym);
        }
        work[offs[lens[sym]]] := sym;
        offs[lens[sym]] := offs[lens[sym]] + 1;
      }
    }
    RanksInOrder(lens, work[..n]);
  }

  lemma RankIs(lens: seq<int>, k: int)
    requires 0 <= k < |lens|
    ensures RankUp(lens, k) == Below(lens, lens[k]) + CountEq(lens[..k], lens[k])
  {
  }

  lemma RanksFit(lens: seq<int>)
    requires Lens(lens)
    ensures forall k :: 0 <= k < |lens| && lens[k] > 0 ==>
      0 <= RankUp(lens, k) - CountEq(lens, 0) < |lens| - CountEq(lens, 0)
  {
    hide CountEq, Below, RankUp;
    ZerosFirst(lens);
    BelowEnds(lens, 16);
    forall k | 0 <= k < |lens| && lens[k] > 0
      ensures 0 <= RankUp(lens, k) - CountEq(lens, 0) < |lens| - CountEq(lens, 0) {
      RankInBucket(lens, k);
      BelowMonotone(lens, 1, lens[k]);
      BelowMonotone(lens, lens[k] + 1, 16);
    }
  }

  // ----- the whole -----

  /** The table decodes the code: a string that begins with the code of a symbol leads to the symbol's entry and takes
      as many bits as the code has; any other string leads to the mark of an invalid code. */
  ghost predicate Decodes(t: seq<Entry>, root: nat, kind: CodeType, lens: seq<int>)
    requires |lens| <= Symbols(kind) && root <= 15
  {
    && (forall sym, s :: Begins(lens, sym, s) ==> Finds(t, root, s, Here(kind, lens, root, sym), lens[sym]))
    && (forall s :: |s| == 15 && (forall sym :: !Begins(lens, sym, s)) ==> Finds(t, root, s, Invalid(1), 1))
  }

  /** The lengths that are turned down: too many codes, or too few unless a single code of one bit is all there is. */
  ghost predicate Refused(kind: CodeType, lens: seq<int>)
    requires Lens(lens)
  {
    var max := HuffmanCodes.MaxOf(lens);
    Kraft15(lens) > 0x8000 || (Kraft15(lens) < 0x8000 && max > 0 && (kind == Codes || max != 1))
  }

  lemma AllFound(t: seq<Entry>, root: nat, kind: CodeType, lens: seq<int>, w: seq<int>, g: nat, next: int, used: int)
    requires Order(lens, w) && |lens| <= Symbols(kind) && 1 <= root <= 15 &&
      AllPlaced(t, root, kind, lens, w, |w|, g, next, used)
    ensures forall sym, s :: Begins(lens, sym, s) ==> Finds(t, root, s, Here(kind, lens, root, sym), lens[sym])
  {
    hide Placed, Finds, Here, CodeOf, Bits, InGroup;
    forall sym, s | Begins(lens, sym, s) ensures Finds(t, root, s, Here(kind, lens, root, sym), lens[sym]) {
      var x := OrderAt(lens, w, sym);
      assert Begins(lens, w[x], s);
      PlacedFinds(t, root, if InGroup(s, root, g) then used else next, kind, lens, sym, s);
    }
  }

  /** A complete code leaves no string without a symbol. */
  lemma NoneMissing(lens: seq<int>, w: seq<int>, s: seq<bool>) returns (sym: int)
    requires Order(lens, w) && Kraft15(lens) == 0x8000 && |s| == 15
    ensures Begins(lens, sym, s)
  {
    hide Kraft15, CodeOf, Bits, Start, Share, EndOf, Before;
    if |w| == 0 {
      NoSymbols(lens);
      assert false;
    } else {
      EndsWithAll(lens, w);
      EndIsKraft(lens);
      Pow15();
      var y := Covered(lens, w, |w| - 1, s);
      sym := w[y];
    }
  }

  lemma {:induction false} NoSymbols(lens: seq<int>)
    requires Lens(lens) && forall i :: 0 <= i < |lens| ==> lens[i] == 0
    ensures Kraft15(lens) == 0
  {
    if lens != [] { NoSymbols(lens[..|lens| - 1]); }
  }

  /** A single code of one bit: the other bit is marked as invalid. */
  lemma OneShortCode(t: seq<Entry>, kind: CodeType, lens: seq<int>, w: seq<int>, g: nat, next: int, used: int,
      huff: nat)
    requires Order(lens, w) && |lens| <= Symbols(kind) && Kraft15(lens) <= 0x8000 && |w| > 0 && lens[w[|w| - 1]] == 1 &&
      |t| >= 2
    requires AllPlaced(t, 1, kind, lens, w, |w|, g, next, used)
    requires CodeOf(lens, w[|w| - 1]) + 1 < Pow2(1) && huff == Lsb(Bits(CodeOf(lens, w[|w| - 1]) + 1, 1))
    ensures huff == 1 && Decodes(t[1 := Invalid(1)], 1, kind, lens)
  {
    hide CodeOf, Start, Share, Kraft15, EndOf, Here;
    var a := w[|w| - 1];
    OneBits();
    EndsWithAll(lens, w);
    var t' := t[1 := Invalid(1)];
    forall sym, s | Begins(lens, sym, s) ensures Finds(t', 1, s, Here(kind, lens, 1, sym), lens[sym]) {
      var x := OrderAt(lens, w, sym);
      assert lens[sym] == 1;
      FirstOnly(lens, w, x);
      assert s[..1] == [false];
      assert Begins(lens, w[x], s);
      assert Placed(t, 1, if InGroup(s, 1, g) then used else next, kind, lens, sym, s);
      PlacedFinds(t, 1, if InGroup(s, 1, g) then used else next, kind, lens, sym, s);
      NotALink(kind, lens, sym);
    }
    forall s: seq<bool> | |s| == 15 && (forall sym :: !Begins(lens, sym, s)) ensures Finds(t', 1, s, Invalid(1), 1) {
      assert !Begins(lens, a, s);
      assert s[..1] != Bits(0, 1);
      assert s[..1] == [s[0]];
    }
  }

  lemma NotALink(kind: CodeType, lens: seq<int>, sym: int)
    requires 0 <= sym < |lens| <= Symbols(kind) && lens[sym] == 1
    ensures !IsLink(Here(kind, lens, 1, sym)) && Here(kind, lens, 1, sym).bits == 1
  {
  }

  lemma OneBits()
    ensures Pow2(1) == 2 && Bits(0, 1) == [false] && Bits(1, 1) == [true] && Lsb([false]) == 0 && Lsb([true]) == 1
  {
    assert Pow2(0) == 1 && Bits(0, 0) == [];
    assert [false][..0] == [] && [true][..0] == [];
  }

  /** Every symbol up to one with code zero has code zero. */
  lemma FirstOnly(lens: seq<int>, w: seq<int>, x: int)
    requires Order(lens, w) && 0 <= x < |w| && CodeOf(lens, w[|w| - 1]) == 0 && lens[w[|w| - 1]] == 1
    ensures lens[w[x]] == 1 && CodeOf(lens, w[x]) == 0
  {
    hide CodeOf, Share, Start;
    var n := |w| - 1;
    if x < n {
      Apart(lens, w, x, n);
      assert Before(lens, w[x], w[n]);
      StartZero(lens, w[n]);
    }
  }

  lemma StartZero(lens: seq<int>, sym: int)
    requires Lens(lens) && 0 <= sym < |lens| && CodeOf(lens, sym) == 0
    ensures Start(lens, sym) == 0
  {
    hide CodeOf, Share;
  }

  lemma RemainingStart(lens: seq<int>, w: seq<int>, count: seq<int>)
    requires Order(lens, w) && |w| > 0 && |count| == 16 && forall l :: 0 <= l <= 15 ==> count[l] == CountEq(lens, l)
    ensures Remaining(count, lens, w[0])
  {
    hide CountEq, CodeOf, Share, EndOf, Start, Before;
    StartsAtZero(lens, w);
    EndSame(lens, 0, lens[w[0]] - 1);
    EndNone(lens);
    forall l | 1 <= l && lens[w[0]] <= l <= 15 ensures count[l] * Share(l) == StillFor(lens, w[0], l) {
      EndNext(lens, l);
    }
  }

  lemma {:induction false} PowMonotone(a: nat, b: nat)
    requires a <= b
    ensures Pow2(a) <= Pow2(b)
    decreases b
  {
    if a < b { PowMonotone(a, b - 1); }
  }

  lemma NoneBegins(lens: seq<int>, sym: int, s: seq<bool>)
    requires HuffmanCodes.MaxOf(lens) == 0
    ensures !Begins(lens, sym, s)
  {
    hide HuffmanCodes.MaxOf, CodeOf, Bits;
  }

  lemma FindsInvalid(t: seq<Entry>, s: seq<bool>)
    requires |s| == 15 && |t| >= 2 && t[0] == Invalid(1) && t[1] == Invalid(1)
    ensures Finds(t, 1, s, Invalid(1), 1)
  {
    hide Lsb, Pow2, Bits;
    OneBits();
    assert s[..1] == if s[0] then [true] else [false];
  }

  /** No symbols at all: the table makes every string an error. */
  lemma NoCode(t: seq<Entry>, kind: CodeType, lens: seq<int>)
    requires Lens(lens) && HuffmanCodes.MaxOf(lens) == 0 && |lens| <= Symbols(kind) && |t| >= 2 && t[0] == Invalid(1) &&
      t[1] == Invalid(1)
    ensures Decodes(t, 1, kind, lens)
  {
    hide Begins, Finds, HuffmanCodes.MaxOf, Here;
    forall sym, s ensures !Begins(lens, sym, s) { NoneBegins(lens, sym, s); }
    forall s: seq<bool> | |s| == 15 ensures Finds(t, 1, s, Invalid(1), 1) { FindsInvalid(t, s); }
  }

  /** inflate_table. Code lengths for code lengths have no more than the requested bits; the space is what inflate sets
      aside. */
  method InflateTable(kind: CodeType, lens: seq<int>, table: array<Entry>, bits0: nat, work: array<int>)
      returns (ret: int, bits: nat, used: nat)
    requires Lens(lens) && |lens| <= Symbols(kind) && |lens| <= work.Length && table.Length >= 2 &&
      Room(kind, table.Length, bits0)
    requires kind == Codes ==> forall i :: 0 <= i < |lens| ==> lens[i] <= bits0
    modifies table, work
    ensures ret == -1 <==> Refused(kind, lens)
    ensures ret == -1 || ret == 0 || (ret == 1 && TooMany(kind, used))
    ensures ret == 0 ==> 1 <= bits <= 15 && used <= table.Length && Decodes(table[..], bits, kind, lens)
  {
    hide Decodes, Kraft15, CountEq, HuffmanCodes.MaxOf, Pow2, AllPlaced, CodeOf, Share, Before, Bits, Lsb;
    var count := new int[16];
    CountLens(lens, count);
    var c := count[..];
    var root := bits0;
    var max := Longest(c, lens);
    if root > max { root := max; }
    if max == 0 {
      table[0], table[1] := Invalid(1), Invalid(1);
      NoCode(table[..], kind, lens);
      NothingUsed(lens);
      return 0, 1, 2;
    }
    var min := Shortest(c, max, lens);
    if root < min { root := min; }
    var left := Spare(c, lens);
    if left < 0 || (left > 0 && (kind == Codes || max != 1)) { return -1, bits0, 0; }
    var w := Sorted(lens, c, work);
    Extremes(lens, w, min, max);
    if kind == Codes { PowMonotone(root, bits0); }
    ret, used := MakeTables(kind, lens, table, root, max, w, count);
    bits := if ret == 0 then root else bits0;
  }

  method Sorted(lens: seq<int>, count: seq<int>, work: array<int>) returns (w: seq<int>)
    requires Lens(lens) && |lens| <= work.Length && |count| == 16 &&
      forall l :: 0 <= l <= 15 ==> count[l] == CountEq(lens, l)
    modifies work
    ensures Order(lens, w)
  {
    hide CountEq, Below, Before;
    var offs := Offsets(count, lens);
    SortSymbols(lens, offs, work);
    w := work[..|lens| - count[0]];
  }

  /** The tables, for lengths that have been looked over and sorted. */
  method MakeTables(kind: CodeType, lens: seq<int>, table: array<Entry>, root: nat, max: nat, w: seq<int>,
      count: array<int>) returns (ret: int, used: nat)
    requires Order(lens, w) && |lens| <= Symbols(kind) && |w| > 0 && count.Length == 16 &&
      forall l :: 0 <= l <= 15 ==> count[l] == CountEq(lens, l)
    requires max == lens[w[|w| - 1]] && 1 <= lens[w[0]] <= root <= max && (kind == Codes ==> root == max) &&
      Room(kind, table.Length, root)
    requires (Kraft15(lens) == 0x8000 || (Kraft15(lens) < 0x8000 && max == 1)) && table.Length >= 2
    modifies table, count
    ensures ret == 0 || (ret == 1 && TooMany(kind, used))
    ensures ret == 0 ==> 1 <= root <= 15 && used <= table.Length && Decodes(table[..], root, kind, lens)
  {
    hide Decodes, Kraft15, CountEq, Pow2, AllPlaced, CodeOf, Share, Before, Bits, Lsb;
    RemainingStart(lens, w, count[..]);
    var huff, next, len, drop;
    ghost var g;
    ret, huff, next, len, drop, used, g := EnterAll(table, kind, w, lens, count, root, max);
    if ret == 1 { return; }
    ghost var t := table[..];
    if huff != 0 {
      OneShortCode(t, kind, lens, w, g, next, used, huff);
      table[next + huff] := Invalid(len - drop);
      assert table[..] == t[1 := Invalid(1)];
    } else {
      CompleteDecodes(t, root, kind, lens, w, g, next, used);
    }
  }

  lemma NothingUsed(lens: seq<int>)
    requires Lens(lens) && HuffmanCodes.MaxOf(lens) == 0
    ensures !Refused(Codes, lens) && !Refused(Lengths, lens) && !Refused(Distances, lens)
  {
    hide HuffmanCodes.MaxOf;
    NoSymbols(lens);
  }

  lemma Extremes(lens: seq<int>, w: seq<int>, min: int, max: int)
    requires Order(lens, w) && max == HuffmanCodes.MaxOf(lens) && 1 <= min <= max
    requires forall i :: 0 <= i < |lens| && lens[i] > 0 && lens[i] <= max ==> min <= lens[i]
    requires min < max ==> CountEq(lens, min) > 0
    ensures |w| > 0 && lens[w[0]] == min && lens[w[|w| - 1]] == max
  {
    hide HuffmanCodes.MaxOf, CountEq, Before, Start, Share, EndOf;
    var i :| 0 <= i < |lens| && lens[i] == max;
    var x := OrderAt(lens, w, i);
    EndsWithAll(lens, w);
    StartsAtZero(lens, w);
    if lens[w[0]] > min { NoneEqual(lens, min); }
  }

  lemma CompleteDecodes(t: seq<Entry>, root: nat, kind: CodeType, lens: seq<int>, w: seq<int>, g: nat, next: int,
      used: int)
    requires Order(lens, w) && |lens| <= Symbols(kind) && 1 <= root <= 15 &&
      AllPlaced(t, root, kind, lens, w, |w|, g, next, used)
    requires Kraft15(lens) == 0x8000
    ensures Decodes(t, root, kind, lens)
  {
    hide AllPlaced, Kraft15, Begins, Finds, Here, Before;
    AllFound(t, root, kind, lens, w, g, next, used);
    forall s: seq<bool> | |s| == 15 ensures exists sym :: Begins(lens, sym, s) {
      var sym := NoneMissing(lens, w, s);
    }
  }
}

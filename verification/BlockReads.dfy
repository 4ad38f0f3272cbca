/** The parts of a coded block in front of its symbols, and how the decompressor reads them. */
module BlockReads {

  import opened Powers
  import opened Rotations
  import opened Mtf
  import opened MtfEncode
  import opened HuffmanCodes
  import opened BitStream
  import opened Machine
  import opened MachineSound
  import opened MachineRun

  // ----- numbers of several bytes -----

  lemma TwoParts(v: nat, m: nat)
    requires m >= 8
    ensures Bits(v, m) == Bits(v / 256, m - 8) + Bits(v % 256, 8)
  {
    assert Pow2(8) == 256;
    BitsJoin(v / 256, m - 8, v % 256, 8);
  }

  /** Four bytes, the most significant first. */
  function Four(v: nat): (r: seq<int>)
    ensures |r| == 4 && 0 <= r[0] < 256 && 0 <= r[1] < 256 && 0 <= r[2] < 256 && 0 <= r[3] < 256
  {
    [v / 0x100_0000 % 256, v / 0x1_0000 % 256, v / 0x100 % 256, v % 256]
  }

  lemma FourBits(v: nat)
    requires v < 0x1_0000_0000
    ensures Bits(v, 32) == Bits(Four(v)[0], 8) + Bits(Four(v)[1], 8) + Bits(Four(v)[2], 8) + Bits(Four(v)[3], 8)
    ensures ((Four(v)[0] * 256 + Four(v)[1]) * 256 + Four(v)[2]) * 256 + Four(v)[3] == v
  {
    hide Bits;
    TwoParts(v, 32);
    TwoParts(v / 256, 24);
    TwoParts(v / 256 / 256, 16);
    assert v / 256 / 256 == v / 0x1_0000 && v / 256 / 256 / 256 == v / 0x100_0000 < 256;
  }

  function Three(v: nat): (r: seq<int>)
    ensures |r| == 3 && 0 <= r[0] < 256 && 0 <= r[1] < 256 && 0 <= r[2] < 256
  {
    [v / 0x1_0000 % 256, v / 0x100 % 256, v % 256]
  }

  lemma ThreeBits(v: nat)
    requires v < 0x100_0000
    ensures Bits(v, 24) == Bits(Three(v)[0], 8) + Bits(Three(v)[1], 8) + Bits(Three(v)[2], 8)
    ensures (Three(v)[0] * 256 + Three(v)[1]) * 256 + Three(v)[2] == v
  {
    hide Bits;
    TwoParts(v, 24);
    TwoParts(v / 256, 16);
    assert v / 256 / 256 == v / 0x1_0000 < 256;
  }

  lemma ReadsByte(s: State, v: int)
    requires Need(s) == 8 && 0 <= v < 256
    ensures Reads(s, Bits(v, 8), Step(s, v))
  {
    assert Pow2(8) == 256;
    ReadsOne(s, v, 8);
  }

  // ----- the header of a block -----

  /** The bytes of the header from the k-th on. */
  function HeaderBits(k: nat): seq<bool>
    decreases 6 - k
  {
    if k >= 6 then [] else Bits(BLKHDR[k], 8) + HeaderBits(k + 1)
  }

  lemma {:induction false} HeaderReads(s: State, k: nat)
    requires s.at == BlkHdr(k) && k < 6
    ensures Reads(s, HeaderBits(k), s.(currBlockNo := s.currBlockNo + 1, storedBlockCRC := 0, at := BlkCrc(0)))
    decreases 6 - k
  {
    var t := s.(currBlockNo := s.currBlockNo + 1, storedBlockCRC := 0, at := BlkCrc(0));
    hide Reads, Bits, Step, Need;
    HeaderStep(s, k);
    if k < 5 {
      HeaderReads(s.(at := BlkHdr(k + 1)), k + 1);
      ReadsJoin(s, Bits(BLKHDR[k], 8), s.(at := BlkHdr(k + 1)), HeaderBits(k + 1), t);
    } else {
      assert Bits(BLKHDR[5], 8) + [] == Bits(BLKHDR[5], 8);
    }
  }

  lemma HeaderStep(s: State, k: int)
    requires s.at == BlkHdr(k) && 0 <= k < 6
    ensures Reads(s, Bits(BLKHDR[k], 8), if k < 5 then s.(at := BlkHdr(k + 1))
                                         else s.(currBlockNo := s.currBlockNo + 1, storedBlockCRC := 0,
                                              at := BlkCrc(0)))
  {
    hide Reads, Bits;
    assert 0 <= BLKHDR[k] < 256;
    ReadsByte(s, BLKHDR[k]);
  }

  lemma CrcStep(s: State, k: int, v: int)
    requires s.at == BlkCrc(k) && 0 <= v < 256
    ensures Reads(s, Bits(v, 8), s.(storedBlockCRC := s.storedBlockCRC * 256 + v, at := if k < 3 then BlkCrc(k + 1)
      else RandBit))
  {
    hide Reads, Bits;
    ReadsByte(s, v);
  }

  lemma CrcReads(s: State, crc: nat)
    requires s.at == BlkCrc(0) && s.storedBlockCRC == 0 && crc < 0x1_0000_0000
    ensures Reads(s, Bits(crc, 32), s.(storedBlockCRC := crc, at := RandBit))
  {
    hide *;
    var b := Four(crc);
    FourBits(crc);
    var s1 := s.(storedBlockCRC := b[0], at := BlkCrc(1));
    var s2 := s.(storedBlockCRC := b[0] * 256 + b[1], at := BlkCrc(2));
    var s3 := s.(storedBlockCRC := (b[0] * 256 + b[1]) * 256 + b[2], at := BlkCrc(3));
    var s4 := s.(storedBlockCRC := crc, at := RandBit);
    CrcStep(s, 0, b[0]);
    CrcStep(s1, 1, b[1]);
    CrcStep(s2, 2, b[2]);
    CrcStep(s3, 3, b[3]);
    ReadsJoin(s, Bits(b[0], 8), s1, Bits(b[1], 8), s2);
    ReadsJoin(s, Bits(b[0], 8) + Bits(b[1], 8), s2, Bits(b[2], 8), s3);
    ReadsJoin(s, Bits(b[0], 8) + Bits(b[1], 8) + Bits(b[2], 8), s3, Bits(b[3], 8), s4);
  }

  lemma ReadsBit(s: State, bit: bool)
    requires Need(s) == 1
    ensures Reads(s, [bit], Step(s, if bit then 1 else 0))
  {
    hide Step;
    assert Value([]) == 0;
    assert Value([bit]) == if bit then 1 else 0;
    assert [bit][..1] == [bit] && [bit][1..] == [];
  }

  lemma OrigPtrReads(s: State, origPtr: nat)
    requires s.at == OrigPtr(0) && s.origPtr == 0 && origPtr < 0x100_0000 && origPtr <= 10 + 100000 * s.blockSize100k
    ensures Reads(s, Bits(origPtr, 24), s.(origPtr := origPtr, i := 0, inUse16 := [], at := Mapping1))
  {
    hide *;
    var b := Three(origPtr);
    ThreeBits(origPtr);
    var s1 := s.(origPtr := b[0], at := OrigPtr(1));
    var s2 := s.(origPtr := b[0] * 256 + b[1], at := OrigPtr(2));
    var s3 := s.(origPtr := origPtr, i := 0, inUse16 := [], at := Mapping1);
    OrigPtrStep(s, 0, b[0]);
    OrigPtrStep(s1, 1, b[1]);
    OrigPtrStep(s2, 2, b[2]);
    ReadsJoin(s, Bits(b[0], 8), s1, Bits(b[1], 8), s2);
    ReadsJoin(s, Bits(b[0], 8) + Bits(b[1], 8), s2, Bits(b[2], 8), s3);
  }

  lemma OrigPtrStep(s: State, k: int, v: int)
    requires s.at == OrigPtr(k) && 0 <= k < 3 && 0 <= v < 256
    requires k == 2 ==> s.origPtr * 256 + v <= 10 + 100000 * s.blockSize100k
    ensures Reads(s, Bits(v, 8), if k < 2 then s.(origPtr := s.origPtr * 256 + v, at := OrigPtr(k + 1))
                                 else s.(origPtr := s.origPtr * 256 + v, i := 0, inUse16 := [], at := Mapping1))
  {
    hide Reads, Bits;
    ReadsByte(s, v);
  }

  // ----- the mapping table -----

  /** Which of the sixteen groups of sixteen have a byte in use. */
  ghost function UsedGroups(inUse: seq<bool>): (r: seq<bool>)
    requires |inUse| == 256
    ensures |r| == 16 && forall i :: 0 <= i < 16 ==> (r[i] <==> GroupUsed(inUse, i))
  {
    seq(16, i requires 0 <= i < 16 => GroupUsed(inUse, i))
  }

  ghost predicate GroupUsed(inUse: seq<bool>, i: int)
    requires |inUse| == 256 && 0 <= i < 16
  {
    exists c :: 16 * i <= c < 16 * i + 16 && inUse[c]
  }

  /** The groups in use, from group i on. */
  ghost function GroupBits(inUse: seq<bool>, i: nat): seq<bool>
    requires |inUse| == 256
    decreases 16 - i
  {
    if i >= 16 then [] else (if GroupUsed(inUse, i) then inUse[16 * i..16 * i + 16] else []) + GroupBits(inUse, i + 1)
  }

  ghost function MapBits(inUse: seq<bool>): seq<bool>
    requires |inUse| == 256
  {
    UsedGroups(inUse) + GroupBits(inUse, 0)
  }

  lemma {:induction false} GroupFlagsRead(s: State, u: seq<bool>, k: nat)
    requires s.at == Mapping1 && k < 16 == |u| && s.i == k && s.inUse16 == u[..k]
    ensures Reads(s, u[k..], ToMapping2(s.(inUse16 := u, i := 16, inUse := NoneUsed()), 0))
    decreases 16 - k
  {
    hide Reads, Step, ToMapping2;
    FlagStep(s, u[k]);
    ReadsBit(s, u[k]);
    var t := ToMapping2(s.(inUse16 := u, i := 16, inUse := NoneUsed()), 0);
    assert u[..k] + [u[k]] == u[..k + 1];
    if k < 15 {
      GroupFlagsRead(s.(inUse16 := u[..k + 1], i := k + 1), u, k + 1);
      ReadsJoin(s, [u[k]], s.(inUse16 := u[..k + 1], i := k + 1), u[k + 1..], t);
      assert [u[k]] + u[k + 1..] == u[k..];
    } else {
      assert u[..16] == u && u[15..] == [u[15]];
    }
  }

  function NoneUsed(): seq<bool> { seq(256, k => false) }

  lemma FlagStep(s: State, flag: bool)
    requires s.at == Mapping1
    ensures var s' := s.(inUse16 := s.inUse16 + [flag], i := s.i + 1);
            Step(s, if flag then 1 else 0) == if s'.i < 16 then s' else ToMapping2(s'.(inUse := NoneUsed()), 0)
  {
    hide ToMapping2;
    assert NoneUsed() == seq(256, k => false);
  }

  /** inUse as far as it has been read, up to byte m. */
  function UpTo(inUse: seq<bool>, m: int): (r: seq<bool>)
    requires |inUse| == 256
    ensures |r| == 256 && forall c :: 0 <= c < 256 ==> (r[c] <==> c < m && inUse[c])
  {
    seq(256, c requires 0 <= c < 256 => c < m && inUse[c])
  }

  lemma MapStep(s: State, flag: bool, inUse: seq<bool>)
    requires s.at == Mapping2 && |inUse| == 256 && 0 <= s.i < 16 && 0 <= s.j < 16 && flag == inUse[16 * s.i + s.j]
    requires s.inUse == UpTo(inUse, 16 * s.i + s.j)
    ensures var s' := s.(inUse := UpTo(inUse, 16 * s.i + s.j + 1));
            Step(s, if flag then 1 else 0) == if s.j + 1 < 16 then s'.(j := s.j + 1) else ToMapping2(s', s.i + 1)
  {
    hide ToMapping2;
    var c := 16 * s.i + s.j;
    assert (if flag then s.inUse[c := true] else s.inUse) == UpTo(inUse, c + 1);
  }

  /** A group, from its j-th entry on. */
  lemma {:induction false} GroupRead(s: State, inUse: seq<bool>)
    requires s.at == Mapping2 && |inUse| == 256 && 0 <= s.i < 16 && 0 <= s.j < 16 &&
      s.inUse == UpTo(inUse, 16 * s.i + s.j)
    ensures Reads(s, inUse[16 * s.i + s.j..16 * s.i + 16],
      ToMapping2(s.(inUse := UpTo(inUse, 16 * (s.i + 1)), j := 15), s.i + 1))
    decreases 16 - s.j
  {
    hide Reads, Step, ToMapping2, UpTo;
    var c := 16 * s.i + s.j;
    MapStep(s, inUse[c], inUse);
    ReadsBit(s, inUse[c]);
    var t := ToMapping2(s.(inUse := UpTo(inUse, 16 * (s.i + 1)), j := 15), s.i + 1);
    if s.j < 15 {
      var s' := s.(inUse := UpTo(inUse, c + 1), j := s.j + 1);
      GroupRead(s', inUse);
      ReadsJoin(s, [inUse[c]], s', inUse[c + 1..16 * s.i + 16], t);
      assert [inUse[c]] + inUse[c + 1..16 * s.i + 16] == inUse[c..16 * s.i + 16];
    } else {
      assert inUse[c..16 * s.i + 16] == [inUse[c]];
    }
  }

  /** Groups without a byte in use are not sent. */
  lemma {:induction false} SkipGroups(inUse: seq<bool>, i: nat)
    requires |inUse| == 256 && i <= 16
    ensures var n := NextUsed(UsedGroups(inUse), i);
      n <= 16 && GroupBits(inUse, i) == GroupBits(inUse, n) && UpTo(inUse, 16 * i) == UpTo(inUse, 16 * n)
    decreases 16 - i
  {
    if i < 16 && !GroupUsed(inUse, i) {
      SkipGroups(inUse, i + 1);
      assert GroupBits(inUse, i) == GroupBits(inUse, i + 1);
      assert UpTo(inUse, 16 * i) == UpTo(inUse, 16 * (i + 1));
    }
  }

  lemma MappingGoesOn(s: State, from: nat, i: nat)
    requires i == NextUsed(s.inUse16, from) && |s.inUse16| == 16
    ensures i < 16 ==> ToMapping2(s, from) == s.(i := i, j := 0, at := Mapping2)
    ensures i >= 16 && (exists c :: 0 <= c < |s.inUse| && s.inUse[c]) ==> ToMapping2(s, from) == s.(at := Selector1)
  {
  }

  lemma GroupBitsAt(inUse: seq<bool>, i: nat)
    requires |inUse| == 256 && i <= 16
    ensures i < 16 && GroupUsed(inUse, i) ==>
      GroupBits(inUse, i) == inUse[16 * i..16 * i + 16] + GroupBits(inUse, i + 1)
    ensures i == 16 ==> GroupBits(inUse, i) == [] && UpTo(inUse, 16 * i) == inUse
  {
  }

  lemma {:induction false} GroupsRead(s: State, inUse: seq<bool>, from: nat) returns (t: State)
    requires |inUse| == 256 && from <= 16 && s.inUse16 == UsedGroups(inUse) && s.inUse == UpTo(inUse, 16 * from)
    requires exists c :: 0 <= c < 256 && inUse[c]
    ensures Reads(ToMapping2(s, from), GroupBits(inUse, from), t)
    ensures t == s.(inUse := inUse, i := t.i, j := t.j, at := Selector1)
    decreases 16 - from
  {
    var i := NextUsed(s.inUse16, from);
    hide Reads, UpTo, UsedGroups, GroupUsed, GroupBits, ToMapping2, NextUsed;
    SkipGroups(inUse, from);
    GroupBitsAt(inUse, i);
    MappingGoesOn(s, from, i);
    if i < 16 {
      var s' := s.(i := i, j := 0, at := Mapping2);
      GroupRead(s', inUse);
      var s'' := s'.(inUse := UpTo(inUse, 16 * (i + 1)), j := 15);
      t := GroupsRead(s'', inUse, i + 1);
      ReadsJoin(s', inUse[16 * i..16 * i + 16], ToMapping2(s'', i + 1), GroupBits(inUse, i + 1), t);
    } else {
      t := ToMapping2(s, from);
      ReadsNone(t);
    }
  }

  lemma MapReads(s: State, inUse: seq<bool>) returns (t: State)
    requires s.at == Mapping1 && s.i == 0 && s.inUse16 == [] && |inUse| == 256 && exists c :: 0 <= c < 256 && inUse[c]
    ensures Reads(s, MapBits(inUse), t)
    ensures t == s.(inUse16 := UsedGroups(inUse), inUse := inUse, i := t.i, j := t.j, at := Selector1)
  {
    var u := UsedGroups(inUse);
    hide Reads, UsedGroups, ToMapping2, GroupBits;
    GroupFlagsRead(s, u, 0);
    assert u[0..] == u && UpTo(inUse, 0) == NoneUsed();
    var s' := s.(inUse16 := u, i := 16, inUse := NoneUsed());
    t := GroupsRead(s', inUse, 0);
    ReadsJoin(s, u, ToMapping2(s', 0), GroupBits(inUse, 0), t);
  }

  // ----- the selectors -----

  function Unary(j: nat): (r: seq<bool>)
    ensures |r| == j + 1
  {
    if j == 0 then [false] else [true] + Unary(j - 1)
  }

  function SelectorBits(mtf: seq<int>, i: nat): seq<bool>
    requires forall k :: 0 <= k < |mtf| ==> mtf[k] >= 0
    decreases |mtf| - i
  {
    if i >= |mtf| then [] else Unary(mtf[i]) + SelectorBits(mtf, i + 1)
  }

  lemma SmallPowers()
    ensures Pow2(3) == 8 && Pow2(15) == 32768
  {
  }

  lemma CountsRead(s: State, nGroups: nat, nSelectors: nat)
    requires s.at == Selector1 && 2 <= nGroups <= 6 && 1 <= nSelectors < 32768
    ensures Reads(s, Bits(nGroups, 3) + Bits(nSelectors, 15),
                  s.(nGroups := nGroups, nSelectors := nSelectors, selectorMtf := [], i := 0, j := 0, at := Selector3))
  {
    SmallPowers();
    var s1 := s.(nGroups := nGroups, at := Selector2);
    hide Reads, Bits, Pow2;
    ReadsOne(s, nGroups, 3);
    ReadsOne(s1, nSelectors, 15);
    ReadsJoin(s, Bits(nGroups, 3), s1, Bits(nSelectors, 15),
      s.(nGroups := nGroups, nSelectors := nSelectors, selectorMtf := [], i := 0, j := 0, at := Selector3));
  }

  /** The state after all selectors. */
  ghost function SelectorsKnown(s: State, mtf: seq<int>): State
    requires s.nGroups >= 0 && forall k :: 0 <= k < |mtf| ==> 0 <= mtf[k] < s.nGroups
  {
    s.(selectorMtf := mtf, selector := Entries(Identity(s.nGroups), mtf), i := |mtf|, j := 0, t := 0, len := [],
      at := Coding1)
  }

  lemma SelectorEnds(s: State, mtf: seq<int>, k: nat)
    requires s.at == Selector3 && s.nGroups >= 0 && k < |mtf| == s.nSelectors <= MAX_SELECTORS && s.i == k &&
      s.selectorMtf == mtf[..k] && s.j == mtf[k]
    requires forall i :: 0 <= i < |mtf| ==> 0 <= mtf[i] < s.nGroups
    ensures Step(s, 0) == if k + 1 < |mtf| then s.(selectorMtf := mtf[..k + 1], i := k + 1, j := 0)
      else SelectorsKnown(s, mtf)
  {
    assert mtf[..k] + [mtf[k]] == mtf[..k + 1];
    if k + 1 == |mtf| { assert mtf[..k + 1] == mtf; }
  }

  lemma {:induction false} SelectorsRead(s: State, mtf: seq<int>, k: nat)
    requires s.at == Selector3 && s.nGroups >= 0 && k < |mtf| == s.nSelectors <= MAX_SELECTORS && s.i == k &&
      s.selectorMtf == mtf[..k]
    requires forall i :: 0 <= i < |mtf| ==> 0 <= mtf[i] < s.nGroups
    requires 0 <= s.j <= mtf[k]
    ensures Reads(s, Unary(mtf[k] - s.j) + SelectorBits(mtf, k + 1), SelectorsKnown(s, mtf))
    decreases |mtf| - k, mtf[k] - s.j
  {
    hide Reads, SelectorsKnown;
    var t := SelectorsKnown(s, mtf);
    if s.j < mtf[k] {
      var s' := s.(j := s.j + 1);
      ReadsBit(s, true);
      hide Step;
      SelectorsRead(s', mtf, k);
      SameKnown(s, s', mtf);
      ReadsJoin(s, [true], s', Unary(mtf[k] - s'.j) + SelectorBits(mtf, k + 1), t);
      assert Unary(mtf[k] - s.j) + SelectorBits(mtf, k + 1) == [true] +
        (Unary(mtf[k] - s'.j) + SelectorBits(mtf, k + 1));
    } else {
      SelectorEnds(s, mtf, k);
      hide Step;
      ReadsBit(s, false);
      if k + 1 < |mtf| {
        var s' := s.(selectorMtf := mtf[..k + 1], i := k + 1, j := 0);
        SelectorsRead(s', mtf, k + 1);
        SameKnown(s, s', mtf);
        ReadsJoin(s, [false], s', Unary(mtf[k + 1]) + SelectorBits(mtf, k + 2), t);
      } else {
        assert [false] + SelectorBits(mtf, k + 1) == [false];
      }
    }
  }

  lemma SameKnown(s: State, s': State, mtf: seq<int>)
    requires s.nGroups >= 0 && forall k :: 0 <= k < |mtf| ==> 0 <= mtf[k] < s.nGroups
    requires s' == s.(selectorMtf := s'.selectorMtf, i := s'.i, j := s'.j)
    ensures SelectorsKnown(s', mtf) == SelectorsKnown(s, mtf)
  {
    hide Entries;
  }

  // ----- the code lengths -----

  /** From one length to the next: two bits for every step up or down. */
  function DeltaBits(curr: int, l: int): seq<bool>
    decreases if curr < l then l - curr else curr - l
  {
    if curr < l then [true, false] + DeltaBits(curr + 1, l)
    else if curr > l then [true, true] + DeltaBits(curr - 1, l)
    else []
  }

  function LengthBits(curr: int, table: seq<int>, i: nat): seq<bool>
    decreases |table| - i
  {
    if i >= |table| then [] else DeltaBits(curr, table[i]) + [false] + LengthBits(table[i], table, i + 1)
  }

  function TablesBits(tables: seq<seq<int>>, t: nat): seq<bool>
    requires forall k :: 0 <= k < |tables| ==> tables[k] != [] && tables[k][0] >= 0
    decreases |tables| - t
  {
    if t >= |tables| then []
    else Bits(tables[t][0], 5) + LengthBits(tables[t][0], tables[t], 0) + TablesBits(tables, t + 1)
  }

  lemma DeltaStep(s: State, up: bool)
    requires s.at == Coding2 && 1 <= (if up then s.curr + 1 else s.curr - 1) <= 20
    ensures Reads(s, [true, !up], s.(curr := if up then s.curr + 1 else s.curr - 1))
  {
    hide Reads, InUseList, GetMtfVal;
    var s1 := s.(at := Coding3);
    ReadsBit(s, true);
    ReadsBit(s1, !up);
    ReadsJoin(s, [true], s1, [!up], s.(curr := if up then s.curr + 1 else s.curr - 1));
    assert [true] + [!up] == [true, !up];
  }

  lemma {:induction false} DeltaRead(s: State, l: int)
    requires s.at == Coding2 && 1 <= s.curr <= 20 && 1 <= l <= 20
    ensures Reads(s, DeltaBits(s.curr, l), s.(curr := l))
    decreases if s.curr < l then l - s.curr else s.curr - l
  {
    hide Reads;
    if s.curr == l {
      ReadsNone(s);
    } else {
      var up := s.curr < l;
      var s' := s.(curr := if up then s.curr + 1 else s.curr - 1);
      DeltaStep(s, up);
      DeltaRead(s', l);
      ReadsJoin(s, [true, !up], s', DeltaBits(s'.curr, l), s.(curr := l));
    }
  }

  /** The table of one code, complete. */
  ghost function TableKnown(s: State, tables: seq<seq<int>>): State
    requires 0 <= s.t < |tables| && tables[s.t] != []
  {
    var table := tables[s.t];
    var s' := s.(len := tables[..s.t + 1], curr := table[|table| - 1], i := |table|, t := s.t + 1);
    if s.t + 1 < s.nGroups then s'.(at := Coding1) else AllKnown(s')
  }

  ghost function AllKnown(s: State): State {
    GetMtfVal(s.(groupNo := -1, groupPos := 0, list := Identity(256), block := []), false)
  }

  ghost predicate Reading(s: State, tables: seq<seq<int>>, i: nat) {
    && s.at == Coding2 && 0 <= s.t < |tables| == s.nGroups && s.i == i < |tables[s.t]| == |Used(s)| + 2
    && 1 <= s.curr <= 20
    && s.len == tables[..s.t] + [tables[s.t][..i]] && forall k :: 0 <= k < |tables[s.t]| ==> 1 <= tables[s.t][k] <= 20
  }

  lemma LengthEnds(s: State, tables: seq<seq<int>>, i: nat)
    requires Reading(s, tables, i) && s.curr == tables[s.t][i]
    ensures var table := tables[s.t];
            var s' := s.(len := tables[..s.t] + [table[..i + 1]], i := i + 1);
            if i + 1 < |table| then Step(s, 0) == s' && Reading(s', tables, i + 1)
            else Step(s, 0) == TableKnown(s, tables)
  {
    hide InUseList;
    var table := tables[s.t];
    assert table[..i] + [table[i]] == table[..i + 1];
    assert s.len[s.t := table[..i + 1]] == tables[..s.t] + [table[..i + 1]];
    StepCoding(s, 0);
    hide Step, GetMtfVal;
    if i + 1 == |table| {
      assert table[..i + 1] == table && tables[..s.t] + [table] == tables[..s.t + 1];
    }
  }

  lemma LengthDone(s: State, tables: seq<seq<int>>, i: nat)
    requires Reading(s, tables, i) && s.curr == tables[s.t][i]
    ensures var table := tables[s.t];
            var s' := s.(len := tables[..s.t] + [table[..i + 1]], i := i + 1);
            if i + 1 < |table| then Reads(s, [false], s') && Reading(s', tables, i + 1) &&
              TableKnown(s', tables) == TableKnown(s, tables)
            else Reads(s, [false], TableKnown(s, tables))
  {
    LengthEnds(s, tables, i);
    hide Reads, InUseList, Step, GetMtfVal, AllKnown, GoodLengths;
    ReadsBit(s, false);
  }

  lemma DeltaKeeps(s: State, tables: seq<seq<int>>, i: nat, l: int)
    requires Reading(s, tables, i) && l == tables[s.t][i]
    ensures Reading(s.(curr := l), tables, i) && TableKnown(s.(curr := l), tables) == TableKnown(s, tables)
  {
    hide InUseList, GetMtfVal;
  }

  lemma LengthBitsAt(curr: int, table: seq<int>, i: nat)
    ensures i < |table| ==>
      LengthBits(curr, table, i) == DeltaBits(curr, table[i]) + ([false] + LengthBits(table[i], table, i + 1))
    ensures i >= |table| ==> [false] + LengthBits(curr, table, i) == [false]
  {
    hide DeltaBits;
  }

  lemma {:induction false} LengthsRead(s: State, tables: seq<seq<int>>, i: nat)
    requires Reading(s, tables, i)
    ensures Reads(s, LengthBits(s.curr, tables[s.t], i), TableKnown(s, tables))
    decreases |tables[s.t]| - i
  {
    var table := tables[s.t];
    var l := table[i];
    var s1 := s.(curr := l);
    var t := TableKnown(s, tables);
    assert s.at == Coding2 && 1 <= s.curr <= 20 && 1 <= l <= 20;
    hide *;
    DeltaRead(s, l);
    DeltaKeeps(s, tables, i, l);
    LengthDone(s1, tables, i);
    LengthBitsAt(s.curr, table, i);
    LengthBitsAt(l, table, i + 1);
    if i + 1 < |table| {
      var s2 := s1.(len := tables[..s.t] + [table[..i + 1]], i := i + 1);
      LengthsRead(s2, tables, i + 1);
      ReadsJoin(s1, [false], s2, LengthBits(l, table, i + 1), t);
    }
    ReadsJoin(s, DeltaBits(s.curr, l), s1, [false] + LengthBits(l, table, i + 1), t);
  }

  ghost predicate GoodTables(s: State, tables: seq<seq<int>>) {
    |tables| == s.nGroups && forall t :: 0 <= t < |tables| ==> |tables[t]| == |Used(s)| + 2 && GoodLengths(tables[t])
  }

  lemma TableStarts(s: State, tables: seq<seq<int>>)
    requires s.at == Coding1 && GoodTables(s, tables) && 0 <= s.t < |tables| && s.len == tables[..s.t]
    ensures 1 <= tables[s.t][0] <= 20
    ensures var s1 := s.(curr := tables[s.t][0], i := 0, len := s.len + [[]], at := Coding2);
            Reads(s, Bits(tables[s.t][0], 5), s1) && Reading(s1, tables, 0)
  {
    assert Pow2(5) == 32;
    hide Reads, Bits, Pow2, InUseList;
    ReadsOne(s, tables[s.t][0], 5);
    assert tables[s.t][..0] == [];
  }

  lemma TablesThere(s: State, tables: seq<seq<int>>)
    requires GoodTables(s, tables)
    ensures forall k :: 0 <= k < |tables| ==> tables[k] != [] && tables[k][0] >= 0
  {
    hide InUseList;
  }

  lemma {:induction false} TablesRead(s: State, tables: seq<seq<int>>) returns (t: State)
    requires s.at == Coding1 && GoodTables(s, tables) && 0 <= s.t < |tables| && s.len == tables[..s.t]
    ensures forall k :: 0 <= k < |tables| ==> tables[k] != [] && tables[k][0] >= 0
    ensures Reads(s, TablesBits(tables, s.t), AllKnown(t)) &&
      t == s.(len := tables, t := t.t, i := t.i, curr := t.curr, at := t.at)
    decreases |tables| - s.t
  {
    hide Reads, InUseList, Bits, LengthBits, Reading, GoodLengths;
    var k := s.t;
    var table := tables[k];
    TableStarts(s, tables);
    var s1 := s.(curr := table[0], i := 0, len := s.len + [[]], at := Coding2);
    LengthsRead(s1, tables, 0);
    TablesThere(s, tables);
    ReadsJoin(s, Bits(table[0], 5), s1, LengthBits(table[0], table, 0), TableKnown(s1, tables));
    var s2 := s1.(len := tables[..k + 1], curr := table[|table| - 1], i := |table|, t := k + 1);
    if k + 1 < |tables| {
      t := TablesRead(s2.(at := Coding1), tables);
    } else {
      t := s2;
      assert tables[..k + 1] == tables && TablesBits(tables, k + 1) == [];
      ReadsNone(AllKnown(s2));
    }
    ReadsJoin(s, Bits(table[0], 5) + LengthBits(table[0], table, 0), TableKnown(s1, tables), TablesBits(tables, k + 1),
      AllKnown(t));
  }
}

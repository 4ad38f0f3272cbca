/** A whole coded block, and what the decompressor has when it has read it. */
module BlockCode {

  import opened Powers
  import opened Rotations
  import opened Mtf
  import opened MtfEncode
  import opened HuffmanCodes
  import opened BitStream
  import opened Machine
  import opened MachineSound
  import opened MachineRun
  import opened BlockReads
  import opened SymbolReads
  import InverseBwt

  /** What a block consists of: the numbers in its header, the bytes in use, the selectors (as places in a move-to-front
      list), the code lengths, and the symbols with the end marker. */
  datatype Block = Block(crc: nat, origPtr: nat, inUse: seq<bool>, nGroups: nat, mtf: seq<int>, tables: seq<seq<int>>,
      syms: seq<int>)

  function UsedBytes(b: Block): seq<int> { InUseList(b.inUse, |b.inUse|) }

  ghost predicate GoodHeader(b: Block) {
    && b.crc < 0x1_0000_0000 && b.origPtr < 0x100_0000 && |b.inUse| == 256 && (exists c :: 0 <= c < 256 && b.inUse[c])
    && 2 <= b.nGroups <= 6 && 1 <= |b.mtf| <= MAX_SELECTORS
    && (forall k :: 0 <= k < |b.mtf| ==> 0 <= b.mtf[k] < b.nGroups)
    && |b.tables| == b.nGroups
    && forall t :: 0 <= t < |b.tables| ==> |b.tables[t]| == |UsedBytes(b)| + 2 && GoodLengths(b.tables[t])
  }

  /** The table for every group of fifty symbols. */
  function Selectors(b: Block): (r: seq<int>)
    requires forall k :: 0 <= k < |b.mtf| ==> 0 <= b.mtf[k] < b.nGroups
    ensures |r| == |b.mtf|
  {
    Entries(Identity(b.nGroups), b.mtf)
  }

  ghost predicate GoodSymbols(b: Block, ps: seq<int>) {
    && GoodHeader(b) && Coded(b.tables, Selectors(b), b.syms) && 0 < |b.syms| <= 50 * |b.mtf|
    && b.syms[|b.syms| - 1] == |UsedBytes(b)| + 1
    && (forall i :: 0 <= i < |b.syms| - 1 ==> 0 <= b.syms[i] <= |UsedBytes(b)|)
    && ps == PositionsOf(b.syms[..|b.syms| - 1], []) && (forall i :: 0 <= i < |ps| ==> 0 <= ps[i] < |UsedBytes(b)|)
    && b.origPtr < |ps|
  }

  ghost function FrontBits(b: Block): seq<bool>
    requires GoodHeader(b)
  {
    HeaderBits(0) + Bits(b.crc, 32) + [false] + Bits(b.origPtr, 24) + MapBits(b.inUse)
  }

  ghost function CodeBits(b: Block): seq<bool>
    requires GoodHeader(b)
  {
    Bits(b.nGroups, 3) + Bits(|b.mtf|, 15) + SelectorBits(b.mtf, 0) + TablesBits(b.tables, 0)
  }

  /** The bits of a block. */
  ghost function BlockBits(b: Block): seq<bool>
    requires GoodHeader(b) && Coded(b.tables, Selectors(b), b.syms)
  {
    FrontBits(b) + CodeBits(b) + SymbolBits(b.tables, Selectors(b), b.syms, 0)
  }

  lemma FrontReads(s: State, b: Block) returns (t: State)
    requires s.at == BlkHdr(0) && GoodHeader(b) && b.origPtr <= 10 + 100000 * s.blockSize100k
    ensures Reads(s, FrontBits(b), t)
    ensures t == s.(currBlockNo := s.currBlockNo + 1, storedBlockCRC := b.crc, blockRandomised := false,
      origPtr := b.origPtr, inUse16 := UsedGroups(b.inUse), inUse := b.inUse, i := t.i, j := t.j, at := Selector1)
  {
    var s1 := s.(currBlockNo := s.currBlockNo + 1, storedBlockCRC := 0, at := BlkCrc(0));
    var s2 := s1.(storedBlockCRC := b.crc, at := RandBit);
    var s3 := s2.(blockRandomised := false, origPtr := 0, at := OrigPtr(0));
    var s4 := s3.(origPtr := b.origPtr, i := 0, inUse16 := [], at := Mapping1);
    hide Reads, Bits, HeaderBits, UsedGroups, MapBits, UsedBytes, GoodLengths;
    HeaderReads(s, 0);
    CrcReads(s1, b.crc);
    ReadsBit(s2, false);
    hide Step;
    OrigPtrReads(s3, b.origPtr);
    t := MapReads(s4, b.inUse);
    ReadsJoin(s, HeaderBits(0), s1, Bits(b.crc, 32), s2);
    ReadsJoin(s, HeaderBits(0) + Bits(b.crc, 32), s2, [false], s3);
    ReadsJoin(s, HeaderBits(0) + Bits(b.crc, 32) + [false], s3, Bits(b.origPtr, 24), s4);
    ReadsJoin(s, HeaderBits(0) + Bits(b.crc, 32) + [false] + Bits(b.origPtr, 24), s4, MapBits(b.inUse), t);
  }

  lemma CodeReads(s: State, b: Block) returns (t: State)
    requires s.at == Selector1 && GoodHeader(b) && s.inUse == b.inUse
    ensures Reads(s, CodeBits(b), AllKnown(t))
    ensures t == s.(nGroups := b.nGroups, nSelectors := |b.mtf|, selectorMtf := b.mtf, selector := Selectors(b),
      len := b.tables, i := t.i, j := t.j, t := t.t, curr := t.curr, at := t.at)
  {
    var s1 := s.(nGroups := b.nGroups, nSelectors := |b.mtf|, selectorMtf := [], i := 0, j := 0, at := Selector3);
    var s2 := SelectorsKnown(s1, b.mtf);
    hide Reads, Bits, SelectorBits, LengthBits, AllKnown, InUseList, Step, Entries;
    CountsRead(s, b.nGroups, |b.mtf|);
    SelectorsRead(s1, b.mtf, 0);
    assert Unary(b.mtf[0]) + SelectorBits(b.mtf, 1) == SelectorBits(b.mtf, 0) by { SelectorBitsFirst(b.mtf); }
    hide TablesBits;
    t := TablesRead(s2, b.tables);
    ReadsJoin(s, Bits(b.nGroups, 3) + Bits(|b.mtf|, 15), s1, SelectorBits(b.mtf, 0), s2);
    ReadsJoin(s, Bits(b.nGroups, 3) + Bits(|b.mtf|, 15) + SelectorBits(b.mtf, 0), s2, TablesBits(b.tables, 0),
      AllKnown(t));
  }

  lemma SelectorBitsFirst(mtf: seq<int>)
    requires mtf != [] && forall k :: 0 <= k < |mtf| ==> mtf[k] >= 0
    ensures SelectorBits(mtf, 0) == Unary(mtf[0]) + SelectorBits(mtf, 1)
  {
  }

  /** When the tables are known, the first symbol is asked for. */
  lemma FirstAsked(c: State)
    requires HasTables(c)
    ensures Asks(AllKnown(c), c, 0, Identity(256), [], [])
  {
    var s := c.(groupNo := -1, groupPos := 0, list := Identity(256), block := []);
    hide InUseList, MinOf, GetMtfVal, TableRead;
    assert Took(s, c, 0, Identity(256), [], []);
    NextAsks(s, c, 0, Identity(256), [], []);
  }

  lemma TablesKnown(c: State, b: Block, ps: seq<int>)
    requires GoodSymbols(b, ps) && HasBlockSize(c) && |ps| <= 100000 * c.blockSize100k
    requires c.origPtr == b.origPtr && c.inUse == b.inUse && c.nGroups == b.nGroups && c.nSelectors == |b.mtf|
    requires c.selector == Selectors(b) && c.len == b.tables
    ensures HasTables(c) && Coming(c, b.syms, 0, [], [], ps) && Used(c) == UsedBytes(b)
  {
    hide InUseList, Coded;
    var x :| 0 <= x < 256 && b.inUse[x];
    SomeInUse(c, x);
    EntriesIn(Identity(b.nGroups), b.mtf, b.nGroups);
    assert b.syms[0..|b.syms| - 1] == b.syms[..|b.syms| - 1];
  }

  /** What the decompressor has when it has read a block. */
  ghost predicate HasRead(t: State, s: State, b: Block, ps: seq<int>)
    requires GoodSymbols(b, ps)
  {
    && t.at == Output && t.blockSize100k == s.blockSize100k && t.currBlockNo == s.currBlockNo + 1
    && t.storedBlockCRC == b.crc && t.storedCombinedCRC == s.storedCombinedCRC && !t.blockRandomised
    && t.origPtr == b.origPtr
    && 1 <= |UsedBytes(b)| <= 256 && t.block == Made(UsedBytes(b), Identity(256), ps)
  }

  /** Every good block, read from its bits, no more and no fewer, comes out as the bytes that its symbols make. */
  lemma BlockComes(s: State, b: Block, ps: seq<int>) returns (t: State)
    requires s.at == BlkHdr(0) && HasBlockSize(s) && GoodSymbols(b, ps) && |ps| <= 100000 * s.blockSize100k
    ensures Reads(s, BlockBits(b), t) && HasRead(t, s, b, ps)
  {
    hide Reads, FrontBits, CodeBits, AllKnown, InUseList, SymbolBits, Coded, PositionsOf, Asks, Made, GoodLengths,
      UsedGroups;
    var s1 := FrontReads(s, b);
    var c := CodeReads(s1, b);
    TablesKnown(c, b, ps);
    FirstAsked(c);
    t := SymbolsRead(AllKnown(c), c, b.syms, 0, Identity(256), [], [], ps);
    hide HasTables, GoodSymbols, GoodHeader;
    ReadsJoin(s, FrontBits(b), s1, CodeBits(b), AllKnown(c));
    ReadsJoin(s, FrontBits(b) + CodeBits(b), AllKnown(c), SymbolBits(b.tables, Selectors(b), b.syms, 0), t);
  }
}

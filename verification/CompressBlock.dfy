/** BZ2_compressBlock: from a block to its bits; and the theorem that the decompressor gets the block back. */
module CompressBlock {

  import opened Powers
  import opened Rotations
  import opened Counting
  import opened Mtf
  import opened MtfEncode
  import opened HuffmanCodes
  import opened BitStream
  import opened BitWriter
  import opened Sequences
  import opened BlockReads
  import opened SymbolReads
  import opened BlockCode
  import opened SendBlock
  import opened Machine
  import opened MachineRun
  import InverseBwt
  import B = BlockSort
  import MainOrder
  import MainRadix

  /** Moves x to the front of the list and returns where it was; x may be at the front already. */
  method SelectorPlace(pos: array<int>, n: nat, x: int) returns (j: int)
    requires 0 < n <= pos.Length && x in pos[..n]
    modifies pos
    ensures 0 <= j < n && j == old(IndexOf(pos[..n], x)) && pos[..n] == old(ToFront(pos[..n], j))
  {
    ghost var was := pos[..n];
    ghost var at := IndexOf(was, x);
    hide IndexOf, ToFront;
    j := 0;
    var tmp := pos[j];
    while x != tmp
      invariant 0 <= j <= at && tmp == was[j]
      invariant forall k :: 1 <= k <= j ==> pos[k] == was[k - 1]
      invariant forall k :: j < k < n ==> pos[k] == was[k]
      decreases at - j
    {
      j := j + 1;
      var tmp2 := tmp;
      tmp := pos[j];
      pos[j] := tmp2;
    }
    IndexIs(was, x, j);
    pos[0] := tmp;
    assert forall k :: 0 <= k < n ==> pos[k] == ToFront(was, j)[k];
  }

  /** The selectors as places in a move-to-front list of the tables. */
  method SelectorsToMtf(selector: seq<int>, nGroups: int) returns (selectorMtf: seq<int>)
    requires 2 <= nGroups <= 6 && forall i :: 0 <= i < |selector| ==> 0 <= selector[i] < nGroups
    ensures |selectorMtf| == |selector| && forall i :: 0 <= i < |selectorMtf| ==> 0 <= selectorMtf[i] < nGroups
    ensures Entries(Identity(nGroups), selectorMtf) == selector
  {
    var pos := new int[6](i => i);
    assert pos[..nGroups] == Identity(nGroups);
    forall i | 0 <= i < |selector| ensures selector[i] in Identity(nGroups) {
      assert Identity(nGroups)[selector[i]] == selector[i];
    }
    ghost var ps := Positions(Identity(nGroups), selector);
    EntriesOfPositions(Identity(nGroups), selector);
    selectorMtf := [];
    assert selector[0..] == selector;
    hide Positions, ToFront, IndexOf, Entries;
    for i := 0 to |selector|
      invariant |selectorMtf| == i
      invariant forall k :: i <= k < |selector| ==> selector[k] in pos[..nGroups]
      invariant selectorMtf + Placed(pos[..nGroups], selector[i..]) == ps
    {
      PlacedStep(pos[..nGroups], selector[i..], selectorMtf);
      assert selector[i..][1..] == selector[i + 1..];
      forall k | i <= k < |selector|
        ensures selector[k] in ToFront(pos[..nGroups], IndexOf(pos[..nGroups], selector[i])) {
        ToFrontKeeps(pos[..nGroups], IndexOf(pos[..nGroups], selector[i]), selector[k]);
      }
      var j := SelectorPlace(pos, nGroups, selector[i]);
      selectorMtf := selectorMtf + [j];
    }
    assert selectorMtf == ps by { PlacedNone(pos[..nGroups], selectorMtf); }
  }

  /** Positions, for lists in which all entries occur. */
  ghost function Placed(list: seq<int>, xs: seq<int>): seq<int> {
    if forall i :: 0 <= i < |xs| ==> xs[i] in list then Positions(list, xs) else []
  }

  lemma PlacedStep(list: seq<int>, xs: seq<int>, done: seq<int>)
    requires xs != [] && forall i :: 0 <= i < |xs| ==> xs[i] in list
    ensures var j := IndexOf(list, xs[0]); done + Placed(list, xs) == done + [j] + Placed(ToFront(list, j), xs[1..])
  {
    var j := IndexOf(list, xs[0]);
    PlacedFront(list, xs);
    hide Placed, ToFront, IndexOf;
    Assoc(done, [j], Placed(ToFront(list, j), xs[1..]));
  }

  lemma PlacedFront(list: seq<int>, xs: seq<int>)
    requires xs != [] && forall i :: 0 <= i < |xs| ==> xs[i] in list
    ensures var j := IndexOf(list, xs[0]); Placed(list, xs) == [j] + Placed(ToFront(list, j), xs[1..])
  {
    var j := IndexOf(list, xs[0]);
    hide ToFront, IndexOf;
    forall i | 0 <= i < |xs[1..]| ensures xs[1..][i] in ToFront(list, j) { ToFrontKeeps(list, j, xs[i + 1]); }
  }

  lemma PlacedNone(list: seq<int>, done: seq<int>)
    ensures done + Placed(list, []) == done
  {
  }

  function GroupsFor(nMTF: int): int {
    if nMTF < 200 then 2 else if nMTF < 600 then 3 else if nMTF < 1200 then 4 else if nMTF < 2400 then 5 else 6
  }

  /** What is asked of the choice of tables: one for every group of fifty symbols. How good the choice is does not
      matter here. */
  ghost predicate GoodChoice(selector: seq<int>, nMTF: int) {
    && G_SIZE * (|selector| - 1) < nMTF <= G_SIZE * |selector|
    && forall i :: 0 <= i < |selector| ==> 0 <= selector[i] < GroupsFor(nMTF)
  }

  /** Whatever the symbols are, tables are chosen for all of them. */
  ghost predicate Chooses(choose: seq<int> -> seq<int>) {
    forall syms: seq<int> :: syms != [] ==> GoodChoice(choose(syms), |syms|)
  }

  /** Assertion 3003, and that the count fits in its fifteen bits. */
  lemma SelectorsFit(selector: seq<int>, nMTF: int)
    requires GoodChoice(selector, nMTF) && 0 < nMTF <= 900001
    ensures 1 <= |selector| <= 2 + 900000 / G_SIZE == MAX_SELECTORS
  {
  }

  /** sendMTFValues, from the mapping table on. */
  method SendMtfValues(w: Writer, mtfv: seq<int>, inUse: seq<bool>, nInUse: int, selector: seq<int>)
    returns (ghost mtf: seq<int>, ghost tables: seq<seq<int>>)
    requires w.Valid() && |inUse| == 256 && 0 < nInUse <= 256 && 0 < |mtfv| <= 900001
    requires GoodChoice(selector, |mtfv|) && forall i :: 0 <= i < |mtfv| ==> 0 <= mtfv[i] < nInUse + 2
    modifies w
    ensures w.Valid() && |mtf| == |selector| && |tables| == GroupsFor(|mtfv|)
    ensures forall k :: 0 <= k < |mtf| ==> 0 <= mtf[k] < GroupsFor(|mtfv|)
    ensures Entries(Identity(GroupsFor(|mtfv|)), mtf) == selector
    ensures forall t :: 0 <= t < |tables| ==> |tables[t]| == nInUse + 2 && GoodTable(tables[t])
    ensures Coded(tables, selector, mtfv) && forall t :: 0 <= t < |tables| ==> tables[t] != [] && tables[t][0] >= 0
    ensures w.Written() == old(w.Written()) + MapBits(inUse) + Bits(GroupsFor(|mtfv|), 3) + Bits(|selector|, 15)
                           + SelectorBits(mtf, 0) + TablesBits(tables, 0) + SymbolBits(tables, selector, mtfv, 0)
  {
    var nMTF := |mtfv|;
    var alphaSize := nInUse + 2;
    assert nMTF > 0;  // assertion 3001
    var nGroups := GroupsFor(nMTF);
    var rfreq := Frequencies(mtfv, selector, nGroups, alphaSize);
    var len := MakeTables(rfreq[..], nGroups, alphaSize, nMTF);
    SelectorsFit(selector, nMTF);
    assert nGroups < 8;  // assertion 3002
    var nSelectors := |selector|;
    assert nSelectors < 32768 && nSelectors <= 2 + 900000 / G_SIZE;  // assertion 3003
    var selectorMtf := SelectorsToMtf(selector, nGroups);
    var code := MakeCodes(len);
    AllCoded(len, code, selector, mtfv, alphaSize);
    CountFits(nGroups, nSelectors);
    hide Bits, Pow2, MapBits, SelectorBits, TablesBits, SymbolBits, Kraft, Coded, CodesAre, Entries, ByteBits, Holds,
      Counted;
    WriteMap(w, inUse);
    w.W(3, nGroups);
    w.W(15, nSelectors);
    WriteSelectors(w, selectorMtf);
    WriteTables(w, len);
    WriteSymbols(w, mtfv, selector, len, code);
    mtf, tables := selectorMtf, len;
  }

  lemma CountFits(nGroups: int, nSelectors: int)
    requires 0 <= nGroups < 8 && 0 <= nSelectors < 32768
    ensures nGroups < Pow2(3) && nSelectors < Pow2(15)
  {
    assert Pow2(3) == 8 && Pow2(15) == 32768;
  }

  lemma AllCoded(len: seq<seq<int>>, code: seq<seq<int>>, selector: seq<int>, mtfv: seq<int>, alphaSize: int)
    requires |code| == |len|
    requires forall t :: 0 <= t < |len| ==> |len[t]| == alphaSize && GoodTable(len[t]) && CodesAre(code[t], len[t])
    requires |mtfv| <= G_SIZE * |selector| && forall i :: 0 <= i < |selector| ==> 0 <= selector[i] < |len|
    requires forall i :: 0 <= i < |mtfv| ==> 0 <= mtfv[i] < alphaSize
    ensures Coded(len, selector, mtfv)
  {
    forall k: nat | k < |mtfv| ensures CodedAt(len, selector, mtfv, k) {
      assert k / G_SIZE < |selector|;
      var t := selector[k / G_SIZE];
      assert GoodTable(len[t]) && CodesAre(code[t], len[t]);
    }
  }

  // ----- the whole block -----

  /** The memory of ptr, seen as 16-bit halves. */
  method AsHalves(ptr: seq<int>, nblock: nat) returns (arr1: array<int>)
    requires nblock <= |ptr|
    ensures fresh(arr1) && arr1.Length == 2 * nblock + 2
    ensures forall i :: 0 <= i < nblock ==> PtrAt(arr1[..], i) == ptr[i]
  {
    arr1 := new int[2 * nblock + 2];
    for i := 0 to nblock
      invariant forall k :: 0 <= k < i ==> arr1[2 * k] + 65536 * arr1[2 * k + 1] == ptr[k]
    {
      arr1[2 * i] := ptr[i] % 65536;
      arr1[2 * i + 1] := ptr[i] / 65536;
    }
  }

  /** bsPutUChar and bsPutUInt32. */
  method PutUChar(w: Writer, c: int)
    requires w.Valid() && 0 <= c < 256
    modifies w
    ensures w.Valid() && w.Written() == old(w.Written()) + Bits(c, 8)
  {
    assert Pow2(8) == 256;
    hide Bits, Pow2;
    w.W(8, c);
  }

  method PutUInt32(w: Writer, u: int)
    requires w.Valid() && 0 <= u < 0x1_0000_0000
    modifies w
    ensures w.Valid() && w.Written() == old(w.Written()) + Bits(u, 32)
  {
    FourBits(u);
    FourAre(u);
    ghost var before := w.Written();
    hide Bits, Four, ByteBits, Holds;
    PutUChar(w, u / 0x100_0000 % 256);
    PutUChar(w, u / 0x1_0000 % 256);
    PutUChar(w, u / 0x100 % 256);
    PutUChar(w, u % 256);
    Five(before, Bits(Four(u)[0], 8), Bits(Four(u)[1], 8), Bits(Four(u)[2], 8), Bits(Four(u)[3], 8));
  }

  lemma FourAre(u: nat)
    ensures Four(u)[0] == u / 0x100_0000 % 256 && Four(u)[1] == u / 0x1_0000 % 256 && Four(u)[2] == u / 0x100 % 256 &&
      Four(u)[3] == u % 256
  {
  }

  /** The bytes that stand in front of a block, its checksum, the bit that says it is not randomised, and the origin. */
  method WriteFront(w: Writer, crc: int, origPtr: int)
    requires w.Valid() && 0 <= crc < 0x1_0000_0000 && 0 <= origPtr < 0x100_0000
    modifies w
    ensures w.Valid() && w.Written() == old(w.Written()) + (HeaderBits(0) + Bits(crc, 32) + [false] + Bits(origPtr, 24))
  {
    ghost var before := w.Written();
    hide ByteBits, Holds;
    assert Pow2(24) == 0x100_0000 by { PowWord(); }
    HeaderIs(before);
    hide Bits, HeaderBits, Pow2;
    PutUChar(w, 0x31);
    PutUChar(w, 0x41);
    PutUChar(w, 0x59);
    PutUChar(w, 0x26);
    PutUChar(w, 0x53);
    PutUChar(w, 0x59);
    PutUInt32(w, crc);
    PutBit(w, false);
    w.W(24, origPtr);
    Five(before, HeaderBits(0), Bits(crc, 32), [false], Bits(origPtr, 24));
  }

  lemma HeaderIs(x: seq<bool>)
    ensures x + HeaderBits(0) == x + Bits(0x31, 8) + Bits(0x41, 8) + Bits(0x59, 8) + Bits(0x26, 8) + Bits(0x53, 8) +
      Bits(0x59, 8)
  {
    hide Bits;
    assert HeaderBits(6) == [];
    assert HeaderBits(5) == Bits(0x59, 8) + [] == Bits(0x59, 8);
    assert HeaderBits(4) == Bits(0x53, 8) + HeaderBits(5);
    assert HeaderBits(3) == Bits(0x26, 8) + HeaderBits(4);
    assert HeaderBits(2) == Bits(0x59, 8) + HeaderBits(3);
    assert HeaderBits(1) == Bits(0x41, 8) + HeaderBits(2);
    assert HeaderBits(0) == Bits(0x31, 8) + HeaderBits(1);
  }

  /** Finding what was placed, in the longer list of the decompressor and through the mapping table. */
  lemma PositionsMake(used: seq<int>, xs: seq<int>, ps: seq<int>)
    requires 1 <= |used| <= 256 && forall i :: 0 <= i < |xs| ==> 0 <= xs[i] < |used| && xs[i] in Identity(|used|)
    requires ps == Positions(Identity(|used|), xs)
    ensures ListHolds(Identity(256), |used|) && (forall i :: 0 <= i < |ps| ==> 0 <= ps[i] < |used|)
    ensures Made(used, Identity(256), ps) == Reindex(used, xs)
  {
    hide Entries, Positions, ToFront;
    EntriesOfPositions(Identity(|used|), xs);
    assert Identity(256)[..|used|] == Identity(|used|);
    EntriesLonger(Identity(|used|), Identity(256), ps);
  }

  lemma RankedMaps(b: seq<int>, p: seq<int>, inUse: seq<bool>)
    requires UsesAll(b, inUse) && IsPermutation(p, |b|)
    ensures forall i :: 0 <= i < |b| ==> 0 <= Ranked(b, p, inUse)[i] < |InUseList(inUse, 256)|
    ensures Reindex(InUseList(inUse, 256), Ranked(b, p, inUse)) == InverseBwt.LastColumn(b, p)
  {
    RankedListed(b, p, inUse);
    hide InUseList;
    forall k | 0 <= k < |b| ensures InUseList(inUse, 256)[Ranked(b, p, inUse)[k]] == InverseBwt.LastColumn(b, p)[k] {
      InUseBack(inUse, InverseBwt.LastColumn(b, p)[k]);
    }
  }

  /** What the symbols of a block say, and that they make its last column. */
  ghost predicate Tells(syms: seq<int>, ps: seq<int>, used: seq<int>, last: seq<int>) {
    && 1 <= |used| <= 256 && syms != [] && syms[|syms| - 1] == |used| + 1 && |ps| == |last|
    && ps == PositionsOf(syms[..|syms| - 1], [])
    && (forall i :: 0 <= i < |syms| - 1 ==> 0 <= syms[i] <= |used|)
    && (forall i :: 0 <= i < |ps| ==> 0 <= ps[i] < |used|)
    && ListHolds(Identity(256), |used|) && Made(used, Identity(256), ps) == last
  }

  lemma SymbolsTell(b: seq<int>, p: seq<int>, inUse: seq<bool>) returns (ps: seq<int>)
    requires b != [] && UsesAll(b, inUse) && IsPermutation(p, |b|)
    ensures Tells(BlockSymbols(b, p, inUse), ps, InUseList(inUse, 256), InverseBwt.LastColumn(b, p))
  {
    SomeUsed(b, inUse);
    RankedListed(b, p, inUse);
    RankedMaps(b, p, inUse);
    var used, xs := InUseList(inUse, 256), Ranked(b, p, inUse);
    ps := Positions(Identity(|used|), xs);
    var syms := BlockSymbols(b, p, inUse);
    assert syms == Symbols(ps, 0) + [|used| + 1];
    hide InUseList, Positions, Symbols, PositionsOf, ToFront, Ranked, BlockSymbols, Made, Reindex,
      InverseBwt.LastColumn;
    PositionsMake(used, xs, ps);
    SymbolsBounded(ps, 0, |used|);
    PositionsOfSymbols(ps, 0);
    assert Zeros(0) + ps == ps;
    assert syms[..|syms| - 1] == Symbols(ps, 0);
  }

  /** A block that the compressor has written: what it is made of leads back to the bytes. */
  ghost predicate Codes(blk: Block, ps: seq<int>, b: seq<int>, crc: int) {
    && GoodSymbols(blk, ps) && |ps| == |b| && |blk.syms| <= |b| + 1 && blk.crc == crc && 1 <= |UsedBytes(blk)| <= 256
    && InverseBwt.Unsort(Made(UsedBytes(blk), Identity(256), ps), blk.origPtr) == b
  }

  lemma FirstUsed(b: seq<int>, inUse: seq<bool>)
    requires b != [] && UsesAll(b, inUse)
    ensures |inUse| == 256 && 0 <= b[0] < 256 && inUse[b[0]]
  {
  }

  /** The compressor's block, put together from what was written. */
  lemma BlockHolds(b: seq<int>, p: seq<int>, inUse: seq<bool>, crc: int, origPtr: int, selector: seq<int>,
      mtf: seq<int>, tables: seq<seq<int>>)
    returns (blk: Block, ps: seq<int>)
    requires b != [] && |b| <= 900000 && UsesAll(b, inUse) && SortsRotations(b, p) && 0 <= origPtr < |b| &&
      p[origPtr] == 0
    requires 0 <= crc < 0x1_0000_0000
    requires var syms := BlockSymbols(b, p, inUse);
             |syms| <= |b| + 1 && GoodChoice(selector, |syms|) && Coded(tables, selector, syms) &&
               |mtf| == |selector| &&
             |tables| == GroupsFor(|syms|) && (forall k :: 0 <= k < |mtf| ==> 0 <= mtf[k] < GroupsFor(|syms|)) &&
             Entries(Identity(GroupsFor(|syms|)), mtf) == selector
    requires forall t :: 0 <= t < |tables| ==> |tables[t]| == |InUseList(inUse, 256)| + 2 && GoodTable(tables[t])
    ensures Codes(blk, ps, b, crc)
    ensures blk == Block(crc, origPtr, inUse, GroupsFor(|BlockSymbols(b, p, inUse)|), mtf, tables,
      BlockSymbols(b, p, inUse))
  {
    hide BlockSymbols, Entries, InUseList, PositionsOf, Coded, InverseBwt.Unsort, Kraft, Pow2, InverseBwt.LastColumn,
      Symbols, Made, GoodHeader, GoodTable, Tells, Codes;
    var syms := BlockSymbols(b, p, inUse);
    blk := Block(crc, origPtr, inUse, GroupsFor(|syms|), mtf, tables, syms);
    InverseBwt.UnsortSorted(b, p, origPtr);
    FirstUsed(b, inUse);
    ps := SymbolsTell(b, p, inUse);
    TellsSome(syms, ps, InUseList(inUse, 256), InverseBwt.LastColumn(b, p));
    SelectorsFit(selector, |syms|);
    HeaderHolds(blk, b[0]);
    CodesHolds(blk, ps, b, InverseBwt.LastColumn(b, p));
  }

  lemma TellsSome(syms: seq<int>, ps: seq<int>, used: seq<int>, last: seq<int>)
    requires Tells(syms, ps, used, last)
    ensures syms != []
  {
    hide PositionsOf, Made;
  }

  lemma CodesHolds(blk: Block, ps: seq<int>, b: seq<int>, last: seq<int>)
    requires GoodHeader(blk) && Coded(blk.tables, Entries(Identity(blk.nGroups), blk.mtf), blk.syms) &&
      Tells(blk.syms, ps, UsedBytes(blk), last)
    requires |last| == |b| && |blk.syms| <= |b| + 1 && |blk.syms| <= 50 * |blk.mtf| && blk.origPtr < |b|
    requires InverseBwt.Unsort(last, blk.origPtr) == b
    ensures Codes(blk, ps, b, blk.crc)
  {
    hide Entries, InUseList, PositionsOf, Coded, InverseBwt.Unsort, Made, GoodHeader, UsedBytes;
    HeaderPlaces(blk);
  }

  lemma HeaderPlaces(blk: Block)
    requires GoodHeader(blk)
    ensures forall k :: 0 <= k < |blk.mtf| ==> 0 <= blk.mtf[k] < blk.nGroups
  {
    hide UsedBytes, GoodLengths;
  }

  lemma HeaderHolds(blk: Block, c: int)
    requires 0 <= blk.crc < 0x1_0000_0000 && blk.origPtr < 0x100_0000 && |blk.inUse| == 256 && 0 <= c < 256 &&
      blk.inUse[c]
    requires 2 <= blk.nGroups <= 6 && 1 <= |blk.mtf| <= MAX_SELECTORS &&
      forall k :: 0 <= k < |blk.mtf| ==> 0 <= blk.mtf[k] < blk.nGroups
    requires |blk.tables| == blk.nGroups
    requires forall t :: 0 <= t < |blk.tables| ==>
      |blk.tables[t]| == |InUseList(blk.inUse, 256)| + 2 && GoodTable(blk.tables[t])
    ensures GoodHeader(blk)
  {
    hide InUseList, Kraft, Pow2;
    forall t | 0 <= t < |blk.tables| ensures GoodLengths(blk.tables[t]) { assert GoodTable(blk.tables[t]); }
  }

  /** BZ2_compressBlock after the sort. choose stands for the choice of a table for every group of fifty symbols. */
  method SendSorted(w: Writer, arr1: array<int>, block: seq<int>, nblock: int, inUse: seq<bool>, blockCRC: int,
      origPtr: int, choose: seq<int> -> seq<int>, ghost b: seq<int>, ghost p: seq<int>)
    returns (ghost blk: Block, ghost ps: seq<int>)
    requires w.Valid() && 0 < nblock <= 900000 && nblock <= |block| && 2 * nblock + 2 <= arr1.Length &&
      0 <= blockCRC < 0x1_0000_0000
    requires b == block[..nblock] && UsesAll(b, inUse) && SortsRotations(b, p) && 0 <= origPtr < nblock &&
      p[origPtr] == 0
    requires forall i :: 0 <= i < nblock ==> PtrAt(arr1[..], i) == p[i]
    requires Chooses(choose)
    modifies w, arr1
    ensures w.Valid() && Codes(blk, ps, b, blockCRC) && w.Written() == old(w.Written()) + BlockBits(blk)
  {
    ghost var before := w.Written();
    var mtfFreq := new int[258];
    hide GoodChoice, UsesAll, BlockSymbols, ByteBits, Holds, InUseList, Coded, Bits, HeaderBits, MapBits, TablesBits,
      SelectorBits, SymbolBits, Codes, Entries, BlockBits, GoodTable, Le;
    WriteFront(w, blockCRC, origPtr);
    ghost var front := w.Written();
    var nMTF, nInUse := GenerateMtfValues(arr1, block, nblock, inUse, mtfFreq, p);
    assert w.Valid() && w.Written() == front;
    var mtfv := arr1[..nMTF];
    SymbolRange(b, p, inUse, mtfv);
    var selector := choose(mtfv);
    ghost var mtf, tables := SendMtfValues(w, mtfv, inUse, nInUse, selector);
    blk, ps := BlockHolds(b, p, inUse, blockCRC, origPtr, selector, mtf, tables);
    BlockBitsAre(blk, ps, b, before, selector);
  }

  lemma SymbolRange(b: seq<int>, p: seq<int>, inUse: seq<bool>, syms: seq<int>)
    requires b != [] && UsesAll(b, inUse) && IsPermutation(p, |b|) && syms == BlockSymbols(b, p, inUse)
    ensures |inUse| == 256 && 0 < |InUseList(inUse, 256)| <= 256 && syms != []
    ensures forall i :: 0 <= i < |syms| ==> 0 <= syms[i] < |InUseList(inUse, 256)| + 2
  {
    hide InUseList, BlockSymbols;
    var ps := SymbolsTell(b, p, inUse);
    SomeUsed(b, inUse);
  }

  lemma BlockBitsAre(blk: Block, ps: seq<int>, b: seq<int>, x: seq<bool>, selector: seq<int>)
    requires Codes(blk, ps, b, blk.crc) && selector == Entries(Identity(blk.nGroups), blk.mtf)
    ensures x + (HeaderBits(0) + Bits(blk.crc, 32) + [false] + Bits(blk.origPtr, 24))
              + MapBits(blk.inUse) + Bits(blk.nGroups, 3) + Bits(|selector|, 15)
              + SelectorBits(blk.mtf, 0) + TablesBits(blk.tables, 0) + SymbolBits(blk.tables, selector, blk.syms, 0)
         == x + BlockBits(blk)
  {
    hide HeaderBits, Bits, MapBits, SelectorBits, TablesBits, SymbolBits, Coded, Entries, UsedBytes;
    var f := HeaderBits(0) + Bits(blk.crc, 32) + [false] + Bits(blk.origPtr, 24);
    Regroup8(x, f, MapBits(blk.inUse), Bits(blk.nGroups, 3), Bits(|selector|, 15), SelectorBits(blk.mtf, 0),
      TablesBits(blk.tables, 0), SymbolBits(blk.tables, selector, blk.syms, 0));
  }

  lemma Regroup8(x: seq<bool>, f: seq<bool>, m: seq<bool>, g: seq<bool>, n: seq<bool>, s: seq<bool>, t: seq<bool>,
      y: seq<bool>)
    ensures x + f + m + g + n + s + t + y == x + (f + m + (g + n + s + t) + y)
  {
  }

  /** BZ2_compressBlock for a block that is not empty: after it, the bits of a block that leads back to these bytes have
      been written, whatever the bytes, the work factor and the choice of tables. */
  method WriteBlock(w: Writer, ptr: array<int>, eclass: array<int>, block: array<int>, quadrant: array<int>,
      ftab: array<int>, bhtab: array<bv32>, nblock: int, workFactor: int, inUse: seq<bool>, blockCRC: int,
      choose: seq<int> -> seq<int>)
    returns (ghost blk: Block, ghost ps: seq<int>)
    requires w.Valid() && 0 < nblock <= 900000 && nblock <= ptr.Length && nblock <= eclass.Length &&
      0 <= blockCRC < 0x1_0000_0000
    requires block.Length >= nblock + MainOrder.N_OVERSHOOT && quadrant.Length >= nblock + MainOrder.N_OVERSHOOT
    requires ftab.Length == MainRadix.PAIRS + 1 && bhtab.Length >= 3 + nblock / 32
    requires ptr != block && ptr != quadrant && ptr != ftab && block != quadrant && block != ftab && quadrant != ftab
    requires ptr != eclass && block != eclass && quadrant != eclass && ftab != eclass
    requires bhtab as object != ptr && bhtab as object != eclass && bhtab as object != block
    requires UsesAll(block[..nblock], inUse)
    requires Chooses(choose)
    modifies w, ptr, eclass, block, quadrant, ftab, bhtab
    ensures w.Valid() && Codes(blk, ps, old(block[..nblock]), blockCRC)
    ensures w.Written() == old(w.Written()) + BlockBits(blk)
  {
    hide *;
    SomeOvershoot();
    ghost var b := block[..nblock];
    AllBytes(b, inUse);
    var origPtr := B.BlockSort(ptr, eclass, block, quadrant, ftab, bhtab, nblock, workFactor);
    blk, ps := SendOrdered(w, ptr[..], block[..], nblock, inUse, blockCRC, origPtr, choose);
  }

  lemma SomeOvershoot()
    ensures MainOrder.N_OVERSHOOT >= 0
  {
  }

  /** The second half: from the sorted order on. */
  method SendOrdered(w: Writer, ptr: seq<int>, block: seq<int>, nblock: int, inUse: seq<bool>, blockCRC: int,
      origPtr: int, choose: seq<int> -> seq<int>)
    returns (ghost blk: Block, ghost ps: seq<int>)
    requires w.Valid() && 0 < nblock <= 900000 && nblock <= |ptr| && nblock <= |block| && 0 <= blockCRC < 0x1_0000_0000
    requires UsesAll(block[..nblock], inUse) && SortsRotations(block[..nblock], ptr[..nblock]) &&
      0 <= origPtr < nblock && ptr[origPtr] == 0
    requires Chooses(choose)
    modifies w
    ensures w.Valid() && Codes(blk, ps, block[..nblock], blockCRC) && w.Written() == old(w.Written()) + BlockBits(blk)
  {
    hide *;
    var arr1 := AsHalves(ptr, nblock);
    blk, ps := SendSorted(w, arr1, block, nblock, inUse, blockCRC, origPtr, choose, block[..nblock], ptr[..nblock]);
  }

  lemma AllBytes(b: seq<int>, inUse: seq<bool>)
    requires UsesAll(b, inUse)
    ensures Bytes(b) && |inUse| == 256
  {
  }

  /** The decompressor, given the bits of a block that the compressor wrote, reads exactly these and then holds what
      inverse block sorting turns into the bytes of the block. */
  lemma BlockComesBack(s: State, blk: Block, ps: seq<int>, b: seq<int>, crc: int) returns (t: State)
    requires s.at == BlkHdr(0) && HasBlockSize(s) && |b| <= 100000 * s.blockSize100k && Codes(blk, ps, b, crc)
    ensures Reads(s, BlockBits(blk), t)
    ensures t.at == Output && t.blockSize100k == s.blockSize100k && t.currBlockNo == s.currBlockNo + 1 &&
      t.storedBlockCRC == crc
    ensures t.storedCombinedCRC == s.storedCombinedCRC && !t.blockRandomised
    ensures 0 <= t.origPtr < |t.block| && InverseBwt.Unsort(t.block, t.origPtr) == b
  {
    hide Reads, BlockBits, GoodSymbols, InverseBwt.Unsort, Made;
    t := BlockComes(s, blk, ps);
    assert blk.origPtr < |ps| by { OriginInside(blk, ps); }
  }

  lemma OriginInside(blk: Block, ps: seq<int>)
    requires GoodSymbols(blk, ps)
    ensures blk.origPtr < |ps|
  {
  }
}

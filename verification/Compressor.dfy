/** handle_compress and what it drives: input gathered into blocks, blocks compressed, output handed out. */
module Compressor {

  import opened Rotations
  import opened Rle
  import opened BlockCrc
  import opened BitStream
  import opened BitWriter
  import opened Sequences
  import opened RunCoder
  import opened CompressBlock
  import opened StreamCode
  import Machine
  import MainOrder
  import MainRadix
  import SymbolReads
  import BlockCode
  import BlockSize
  import MtfEncode

  datatype Mode = Idle | Running | Flushing | Finishing
  datatype Phase = Input | Output

  /** Room for a block: the compressor stops taking input at 100000 k - 19. */
  function BlockMax(blockSize100k: int): int { 100000 * blockSize100k - 19 }

  /** The bytes of arr2: a block is kept at its front, and the bytes that are made from it are put behind it. */
  function Room(blockSize100k: int): int { 4 * (100000 * blockSize100k + MainOrder.N_OVERSHOOT) }

  /** What has been written after the given blocks, before the end of the stream. */
  ghost function SoFar(started: bool, ds: seq<Done>, blockSize100k: int): seq<bool>
    requires GoodDones(ds, blockSize100k) && 1 <= blockSize100k <= 9
  {
    (if started then MagicBits(blockSize100k) else []) + BlocksBits(ds, blockSize100k)
  }

  /** The arrays that a block is sorted in, and the block itself compressed. */
  method CompressBytes(w: Writer, block: seq<int>, workFactor: int, inUse: seq<bool>, blockCRC: int,
      choose: seq<int> -> seq<int>)
    returns (ghost blk: BlockCode.Block, ghost ps: seq<int>)
    requires w.Valid() && 0 < |block| <= 900000 && 0 <= blockCRC < 0x1_0000_0000 && MtfEncode.UsesAll(block, inUse)
    requires Chooses(choose)
    modifies w
    ensures w.Valid() && Codes(blk, ps, block, blockCRC)
    ensures w.Written() == old(w.Written()) + BlockCode.BlockBits(blk)
  {
    hide MtfEncode.UsesAll, Codes, BlockCode.BlockBits, Chooses;
    var n := |block|;
    var arr1, eclass, quadrant := new int[n], new int[n], new int[n + MainOrder.N_OVERSHOOT];
    var arr2 := new int[n + MainOrder.N_OVERSHOOT](i requires 0 <= i < n + MainOrder.N_OVERSHOOT => if i < n
      then block[i] else 0);
    var ftab, bhtab := new int[MainRadix.PAIRS + 1], new bv32[3 + n / 32];
    assert arr2[..n] == block;
    blk, ps := WriteBlock(w, arr1, eclass, arr2, quadrant, ftab, bhtab, n, workFactor, inUse, blockCRC, choose);
  }

  // ----- what has been written -----

  /** bytes have left the writer and pending bits are in its buffer: together they are the stream so far. */
  ghost predicate WroteSoFar(bytes: seq<int>, pending: seq<bool>, started: bool, ds: seq<Done>, blockSize100k: int) {
    && 1 <= blockSize100k <= 9 && GoodDones(ds, blockSize100k) && Bytes(bytes)
    && ByteBits(bytes) + pending == SoFar(started, ds, blockSize100k) && (!started ==> ds == [])
  }

  /** The bytes are the whole stream, filled up to a byte with zeros. */
  ghost predicate WroteAll(bytes: seq<int>, ds: seq<Done>, blockSize100k: int) {
    && 1 <= blockSize100k <= 9 && GoodDones(ds, blockSize100k) && Bytes(bytes)
    && exists pad: nat :: pad < 8 && ByteBits(bytes) == StreamBits(ds, blockSize100k) + Bits(0, pad)
  }

  /** One more block. */
  lemma MoreWritten(started: bool, ds: seq<Done>, blockSize100k: int, d: Done)
    requires 1 <= blockSize100k <= 9 && GoodDones(ds, blockSize100k) && GoodDone(d, blockSize100k)
    ensures GoodDones(ds + [d], blockSize100k) && BlockCode.GoodHeader(d.blk)
    ensures SymbolReads.Coded(d.blk.tables, BlockCode.Selectors(d.blk), d.blk.syms)
    ensures SoFar(started, ds + [d], blockSize100k) == SoFar(started, ds, blockSize100k) + BlockCode.BlockBits(d.blk)
    ensures Restored(ds + [d], blockSize100k) == Restored(ds, blockSize100k) + UnRle(d.bytes)
    ensures CombinedOf(ds + [d], blockSize100k) == Combine(CombinedOf(ds, blockSize100k), CrcFor(d.bytes))
  {
    var es := ds + [d];
    assert es[..|ds|] == ds && es[..|ds| + 1] == es && es[|ds|] == d;
    DoneIsCoded(d, blockSize100k);
    assert Bytes(d.bytes) && GoodDones(es, blockSize100k);
    OneMoreDone(es, blockSize100k, |ds|);
    BlocksSnoc(ds, blockSize100k, d);
    hide BlocksBits, Restored, CombinedOf, GoodDones, GoodDone, MagicBits, BlockCode.BlockBits, CrcFor, UnRle, Combine,
      BlockCode.GoodHeader, SymbolReads.Coded, BlockCode.Selectors;
    Assoc(if started then MagicBits(blockSize100k) else [], BlocksBits(ds, blockSize100k), BlockCode.BlockBits(d.blk));
  }

  lemma BlocksSnoc(ds: seq<Done>, blockSize100k: int, d: Done)
    requires GoodDones(ds, blockSize100k) && GoodDones(ds + [d], blockSize100k)
    requires BlockCode.GoodHeader(d.blk) && SymbolReads.Coded(d.blk.tables, BlockCode.Selectors(d.blk), d.blk.syms)
    ensures BlocksBits(ds + [d], blockSize100k) == BlocksBits(ds, blockSize100k) + BlockCode.BlockBits(d.blk)
  {
    var es := ds + [d];
    assert es[..|es| - 1] == ds && es[|es| - 1] == d;
    hide GoodDones, GoodDone, BlockCode.BlockBits, BlockCode.GoodHeader, SymbolReads.Coded, BlockCode.Selectors, Codes,
      CrcFor, AsNumber;
  }

  lemma HeadWritten(blockSize100k: int)
    requires 1 <= blockSize100k <= 9
    ensures SoFar(false, [], blockSize100k) == [] && SoFar(true, [], blockSize100k) == MagicBits(blockSize100k)
  {
    assert MagicBits(blockSize100k) + BlocksBits([], blockSize100k) == MagicBits(blockSize100k);
    hide MagicBits;
  }

  lemma AllWritten(ds: seq<Done>, blockSize100k: int)
    requires 1 <= blockSize100k <= 9 && GoodDones(ds, blockSize100k)
    ensures StreamBits(ds, blockSize100k) == SoFar(true, ds, blockSize100k) + TrailerBits(CombinedOf(ds, blockSize100k))
  {
    hide MagicBits, BlocksBits, TrailerBits, GoodDones;
  }

  /** The four bytes in front of a stream. */
  method WriteHead(w: Writer, blockSize100k: int)
    requires w.Valid() && 1 <= blockSize100k <= 9
    modifies w
    ensures w.Valid() && w.Written() == old(w.Written()) + MagicBits(blockSize100k)
  {
    ghost var before := w.Written();
    hide Bits, ByteBits, Holds;
    PutUChar(w, 0x42);
    PutUChar(w, 0x5a);
    PutUChar(w, 0x68);
    PutUChar(w, 0x30 + blockSize100k);
    Five(before, Bits(0x42, 8), Bits(0x5a, 8), Bits(0x68, 8), Bits(0x30 + blockSize100k, 8));
  }

  /** The end of a stream. */
  method WriteTrailer(w: Writer, combined: bv32)
    requires w.Valid()
    modifies w
    ensures w.Valid() && w.Written() == old(w.Written()) + TrailerBits(combined) && |TrailerBits(combined)| == 80
  {
    ghost var before := w.Written();
    EndIs(before);
    hide Bits, ByteBits, Holds, EndBits, AsNumber;
    PutUChar(w, 0x17);
    PutUChar(w, 0x72);
    PutUChar(w, 0x45);
    PutUChar(w, 0x38);
    PutUChar(w, 0x50);
    PutUChar(w, 0x90);
    PutUInt32(w, AsNumber(combined));
    Assoc(before, EndBits(0), Bits(AsNumber(combined), 32));
  }

  lemma EndIs(x: seq<bool>)
    ensures x + EndBits(0) == x + Bits(0x17, 8) + Bits(0x72, 8) + Bits(0x45, 8) + Bits(0x38, 8) + Bits(0x50, 8) +
      Bits(0x90, 8)
  {
    hide Bits;
    assert EndBits(6) == [];
    assert EndBits(5) == Bits(0x90, 8) + [] == Bits(0x90, 8);
    assert EndBits(4) == Bits(0x50, 8) + EndBits(5);
    assert EndBits(3) == Bits(0x38, 8) + EndBits(4);
    assert EndBits(2) == Bits(0x45, 8) + EndBits(3);
    assert EndBits(1) == Bits(0x72, 8) + EndBits(2);
    assert EndBits(0) == Bits(0x17, 8) + EndBits(1);
  }

  /** The block that is in the coder, as one that is done. */
  lemma BlockDone(block: seq<int>, inUse: seq<bool>, crc: bv32, runs: seq<Run>, blk: BlockCode.Block, ps: seq<int>,
      blockSize100k: int) returns (d: Done)
    requires Made(block, inUse, crc, runs) && 1 <= blockSize100k <= 9 && 0 < |block| <= 100000 * blockSize100k
    requires Codes(blk, ps, block, AsNumber(Finish(crc)))
    ensures d == Done(blk, ps, block) && GoodDone(d, blockSize100k) && UnRle(block) == Expanded(runs) &&
      Finish(crc) == CrcFor(block)
  {
    RunsComeBack(runs);
    d := Done(blk, ps, block);
    hide Codes, UnRle, Complete, Written, Expanded, CrcOf, Finish, AsNumber;
  }

  /** BZ2_compressBlock: the head of the stream in front of the first block, the block if there is one, the end of the
      stream after the last. Hands over the bytes that are complete. */
  method CompressStep(w: Writer, first: bool, block: seq<int>, inUse: seq<bool>, blockCRC: bv32, isLast: bool,
      combinedCRC0: bv32, blockSize100k: int, workFactor: int, choose: seq<int> -> seq<int>, ghost ds0: seq<Done>,
      ghost bytes: seq<int>, ghost runs: seq<Run>)
    returns (zbits: seq<int>, combinedCRC: bv32, ghost ds: seq<Done>)
    requires w.Valid() && w.zbits == [] && WroteSoFar(bytes, w.Written(), !first, ds0, blockSize100k) &&
      combinedCRC0 == CombinedOf(ds0, blockSize100k)
    requires Made(block, inUse, blockCRC, runs) && |block| <= 100000 * blockSize100k
    requires Chooses(choose)
    modifies w
    ensures Bytes(zbits) && GoodDones(ds, blockSize100k) && combinedCRC == CombinedOf(ds, blockSize100k)
    ensures Restored(ds, blockSize100k) == Restored(ds0, blockSize100k) + Expanded(runs)
    ensures |block| + |zbits| <= Room(blockSize100k)
    ensures !isLast ==> w.Valid() && w.zbits == [] && WroteSoFar(bytes + zbits, w.Written(), true, ds, blockSize100k)
    ensures isLast ==> WroteAll(bytes + zbits, ds, blockSize100k) && zbits != []
  {
    hide Chooses, Made, GoodDones, SoFar, ByteBits, Bits, Holds, MagicBits, Restored, CombinedOf, TrailerBits, Combine,
      Finish;
    w.HeldFew();
    ghost var held := |w.Written()|;
    ds, combinedCRC := ds0, combinedCRC0;
    if first {
      HeadSize(blockSize100k);
      HeadWritten(blockSize100k);
      Assoc(ByteBits(bytes), w.Written(), MagicBits(blockSize100k));
      WriteHead(w, blockSize100k);
    }
    assert ByteBits(bytes) + w.Written() == SoFar(true, ds, blockSize100k);
    if |block| > 0 {
      combinedCRC, ds := OneBlock(w, block, inUse, blockCRC, combinedCRC, blockSize100k, workFactor, choose, ds0, bytes,
        runs);
    } else {
      NothingMade(block, inUse, blockCRC, runs);
      assert Restored(ds0, blockSize100k) + [] == Restored(ds0, blockSize100k);
    }
    if isLast {
      zbits := EndStream(w, combinedCRC, blockSize100k, ds, bytes);
    } else {
      w.HeldFew();
      zbits := w.TakeBytes();
      ByteBitsJoin(bytes, zbits);
      BytesBoth(bytes, zbits);
      Assoc(ByteBits(bytes), ByteBits(zbits), w.Written());
    }
  }

  lemma HeadSize(blockSize100k: int)
    requires 1 <= blockSize100k <= 9
    ensures |MagicBits(blockSize100k)| == 32
  {
  }

  lemma BytesBoth(x: seq<int>, y: seq<int>)
    requires Bytes(x) && Bytes(y)
    ensures Bytes(x + y)
  {
  }

  lemma NothingMade(block: seq<int>, inUse: seq<bool>, crc: bv32, runs: seq<Run>)
    requires Made(block, inUse, crc, runs) && block == []
    ensures Expanded(runs) == []
  {
  }

  method OneBlock(w: Writer, block: seq<int>, inUse: seq<bool>, blockCRC: bv32, combinedCRC0: bv32, blockSize100k: int,
      workFactor: int, choose: seq<int> -> seq<int>, ghost ds0: seq<Done>, ghost bytes: seq<int>, ghost runs: seq<Run>)
    returns (combinedCRC: bv32, ghost ds: seq<Done>)
    requires w.Valid() && 1 <= blockSize100k <= 9 && GoodDones(ds0, blockSize100k) && Bytes(bytes)
    requires ByteBits(bytes) + w.Written() == SoFar(true, ds0, blockSize100k) &&
      combinedCRC0 == CombinedOf(ds0, blockSize100k)
    requires Made(block, inUse, blockCRC, runs) && 0 < |block| <= 100000 * blockSize100k
    requires Chooses(choose)
    modifies w
    ensures w.Valid() && GoodDones(ds, blockSize100k) && combinedCRC == CombinedOf(ds, blockSize100k)
    ensures ByteBits(bytes) + w.Written() == SoFar(true, ds, blockSize100k)
    ensures |w.Written()| <= old(|w.Written()|) + BlockSize.FRONT_BITS + 20 * (|block| + 1)
    ensures Restored(ds, blockSize100k) == Restored(ds0, blockSize100k) + Expanded(runs)
  {
    assert MtfEncode.UsesAll(block, inUse);
    ghost var before := w.Written();
    hide *;
    var crc := Finish(blockCRC);
    combinedCRC := Combine(combinedCRC0, crc);
    ghost var blk, ps := CompressBytes(w, block, workFactor, inUse, AsNumber(crc), choose);
    ghost var d := BlockDone(block, inUse, blockCRC, runs, blk, ps, blockSize100k);
    MoreWritten(true, ds0, blockSize100k, d);
    BlockFew(blk, ps, block, AsNumber(crc));
    Assoc(ByteBits(bytes), before, BlockCode.BlockBits(blk));
    ds := ds0 + [d];
  }

  lemma BlockFew(blk: BlockCode.Block, ps: seq<int>, b: seq<int>, crc: int)
    requires Codes(blk, ps, b, crc)
    ensures |BlockCode.BlockBits(blk)| <= BlockSize.FRONT_BITS + 20 * (|b| + 1)
  {
    hide BlockCode.BlockBits, BlockCode.GoodHeader, BlockCode.UsedBytes, SymbolReads.Coded;
    BlockSize.BlockTakes(blk);
  }

  method EndStream(w: Writer, combinedCRC: bv32, blockSize100k: int, ghost ds: seq<Done>, ghost bytes: seq<int>)
      returns (zbits: seq<int>)
    requires w.Valid() && 1 <= blockSize100k <= 9 && GoodDones(ds, blockSize100k) && Bytes(bytes) &&
      combinedCRC == CombinedOf(ds, blockSize100k)
    requires ByteBits(bytes) + w.Written() == SoFar(true, ds, blockSize100k)
    modifies w
    ensures Bytes(zbits) && WroteAll(bytes + zbits, ds, blockSize100k) && 8 * |zbits| < old(|w.Written()|) + 88 &&
      zbits != []
  {
    ghost var before := w.Written();
    hide ByteBits, Bits, Holds, GoodDones, SoFar, CombinedOf, TrailerBits, StreamBits;
    WriteTrailer(w, combinedCRC);
    ghost var all := w.Written();
    AllWritten(ds, blockSize100k);
    Assoc(ByteBits(bytes), before, TrailerBits(combinedCRC));
    w.FinishWrite();
    zbits := w.zbits;
    ghost var pad: nat :| pad < 8 && ByteBits(zbits) == all + Bits(0, pad);
    ByteBitsJoin(bytes, zbits);
    BytesBoth(bytes, zbits);
    Assoc(ByteBits(bytes), all, Bits(0, pad));
  }

  // ----- the stream -----

  datatype Action = RunAction | FlushAction | FinishAction

  datatype Return = RunOk | FlushOk | FinishOk | StreamEnd | SequenceError | ParamError

  /** copy_input_until_stop: takes input until the block is full, the input ends, or what was announced has been
      taken. */
  method CopyInput(rl: Coder, input: seq<int>, nblockMAX: int, mode: Mode, expect0: int)
      returns (n: nat, avail_in_expect: int)
    requires rl.Valid() && Bytes(input) && (mode != Running ==> 0 <= expect0 <= |input|)
    requires |rl.block| < nblockMAX && (rl.Empty() ==> rl.runs == [])
    modifies rl
    ensures rl.Valid() && n <= |input| && rl.InBlock() + rl.Pending() == old(rl.InBlock() + rl.Pending()) + input[..n]
    ensures |rl.block| <= nblockMAX + 4 && (rl.Empty() ==> rl.runs == [])
    ensures avail_in_expect == if mode == Running then expect0 else expect0 - n
    ensures mode != Running ==> 0 <= avail_in_expect <= |input| - n
    ensures |rl.block| >= nblockMAX ==> n > 0
    ensures |rl.block| >= nblockMAX || n == |input| || (mode != Running && avail_in_expect == 0)
  {
    hide Made, GoodRun, Expanded, Rep;
    n, avail_in_expect := 0, expect0;
    ghost var before := rl.InBlock() + rl.Pending();
    assert before + input[..0] == before;
    while true
      invariant rl.Valid() && n <= |input| && rl.InBlock() + rl.Pending() == before + input[..n]
      invariant |rl.block| <= nblockMAX + 4 && (rl.Empty() ==> rl.runs == [])
      invariant avail_in_expect == if mode == Running then expect0 else expect0 - n
      invariant mode != Running ==> 0 <= avail_in_expect <= |input| - n
      invariant n == 0 ==> |rl.block| < nblockMAX
      decreases |input| - n
    {
      if |rl.block| >= nblockMAX { break; }
      if n == |input| { break; }
      if mode != Running && avail_in_expect == 0 { break; }
      rl.AddChar(input[n]);
      assert before + input[..n] + [input[n]] == before + input[..n + 1];
      n := n + 1;
      if mode != Running { avail_in_expect := avail_in_expect - 1; }
    }
  }

  /** copy_output_until_stop: hands over bytes until the room or the block ends. */
  method CopyOutput(zbits: seq<int>, pos0: int, avail_out: nat) returns (out: seq<int>, state_out_pos: int)
    requires 0 <= pos0 <= |zbits|
    ensures pos0 <= state_out_pos <= |zbits| && |out| <= avail_out && out == zbits[pos0..state_out_pos]
    ensures state_out_pos == |zbits| || |out| == avail_out
  {
    out, state_out_pos := [], pos0;
    while true
      invariant pos0 <= state_out_pos <= |zbits| && |out| <= avail_out && out == zbits[pos0..state_out_pos]
      decreases |zbits| - state_out_pos
    {
      if |out| == avail_out { break; }
      if state_out_pos >= |zbits| { break; }
      out := out + [zbits[state_out_pos]];
      state_out_pos := state_out_pos + 1;
    }
  }

  /** The record of a stream: the blocks that are done, the input so far, the bytes handed over, and whether it has
      ended. */
  datatype Past = Past(ds: seq<Done>, consumed: seq<int>, sent: seq<int>, ended: bool)

  /** The blocks that are done, the block in the making and the open run together are the input so far; the bytes handed
      over and the bits that the writer holds are the stream so far, or all of it. */
  ghost predicate Conserved(past: Past, open: seq<int>, zbits: seq<int>, bits: seq<bool>, started: bool,
      combinedCRC: bv32, blockSize100k: int) {
    && 1 <= blockSize100k <= 9 && GoodDones(past.ds, blockSize100k) && combinedCRC == CombinedOf(past.ds, blockSize100k)
    && Bytes(past.sent) && Bytes(zbits) && past.consumed == Restored(past.ds, blockSize100k) + open
    && (!past.ended ==> WroteSoFar(past.sent + zbits, bits, started, past.ds, blockSize100k))
    && (past.ended ==> WroteAll(past.sent + zbits, past.ds, blockSize100k))
  }

  /** EState, as far as input and output are concerned. */
  class Stream {
    const blockSize100k: int
    const workFactor: int
    const choose: seq<int> -> seq<int>
    const rl: Coder
    const w: Writer
    var mode: Mode
    var state: Phase
    var blockNo: int
    var combinedCRC: bv32
    var avail_in_expect: int
    var zbits: seq<int>
    var state_out_pos: int
    ghost var past: Past

    /** Input that is not yet in a finished block. */
    ghost function Open(): seq<int>
      reads this, rl
      requires rl.Valid()
    {
      if state == Input then rl.InBlock() + rl.Pending() else rl.Pending()
    }

    ghost predicate Valid()
      reads this, rl, w
    {
      && rl.Valid() && Chooses(choose)
      && 0 <= state_out_pos <= |zbits| && blockNo >= 1 && (past.ended || (w.Valid() && w.zbits == []))
      && |rl.block| + |zbits| <= Room(blockSize100k)
      && (state == Input ==>
           zbits == [] && |rl.block| < BlockMax(blockSize100k) && (rl.Empty() ==> rl.runs == []) && !past.ended)
      && (past.ended ==> (mode == Finishing || mode == Mode.Idle) && avail_in_expect == 0 && rl.Empty())
      && (state == Output && rl.Empty() ==> past.ended || mode == Flushing)
      && Conserved(past, Open(), zbits, if past.ended then [] else w.Written(), blockNo > 1 || state == Output,
           combinedCRC, blockSize100k)
    }

    /** The bits that the writer holds. */
    ghost function Held(): seq<bool>
      reads this, w
      requires past.ended || w.Valid()
    {
      if past.ended then [] else w.Written()
    }

    lemma Parts()
      requires Valid()
      ensures rl.Valid() && Chooses(choose) && 0 <= state_out_pos <= |zbits| && blockNo >= 1 &&
        (past.ended || (w.Valid() && w.zbits == []))
      ensures |rl.block| + |zbits| <= Room(blockSize100k)
      ensures state == Input ==>
        zbits == [] && |rl.block| < BlockMax(blockSize100k) && (rl.Empty() ==> rl.runs == []) && !past.ended
      ensures past.ended ==> (mode == Finishing || mode == Mode.Idle) && avail_in_expect == 0 && rl.Empty()
      ensures state == Output && rl.Empty() ==> past.ended || mode == Flushing
      ensures Conserved(past, if state == Input then rl.InBlock() + rl.Pending() else rl.Pending(), zbits, Held(),
        blockNo > 1 || state == Output, combinedCRC, blockSize100k)
    {
      hide Made, GoodRun, Expanded, Rep, Holds, ByteBits, Bits, Conserved, Chooses, Coder.Valid, Coder.InBlock,
        Coder.Pending, Coder.Empty, Writer.Valid, Writer.Written;
    }

    lemma Settled()
      requires rl.Valid() && Chooses(choose) && 0 <= state_out_pos <= |zbits| && blockNo >= 1 &&
        (past.ended || (w.Valid() && w.zbits == []))
      requires |rl.block| + |zbits| <= Room(blockSize100k)
      requires state == Input ==>
        zbits == [] && |rl.block| < BlockMax(blockSize100k) && (rl.Empty() ==> rl.runs == []) && !past.ended
      requires past.ended ==> (mode == Finishing || mode == Mode.Idle) && avail_in_expect == 0 && rl.Empty()
      requires state == Output && rl.Empty() ==> past.ended || mode == Flushing
      requires Conserved(past, if state == Input then rl.InBlock() + rl.Pending() else rl.Pending(), zbits, Held(),
        blockNo > 1 || state == Output, combinedCRC, blockSize100k)
      ensures Valid()
    {
      hide Made, GoodRun, Expanded, Rep, Holds, ByteBits, Bits, Conserved, Chooses, Coder.Valid, Coder.InBlock,
        Coder.Pending, Coder.Empty, Writer.Valid, Writer.Written;
    }

    /** What has been put out. */
    ghost function Delivered(): seq<int>
      reads `past, `zbits, `state_out_pos
      requires 0 <= state_out_pos <= |zbits|
    {
      past.sent + zbits[..state_out_pos]
    }

    /** Between calls there is something left to be done, until the end is reached. */
    ghost predicate Unfinished()
      reads `past, `zbits, `state_out_pos
    {
      past.ended ==> state_out_pos < |zbits|
    }

    /** So many bytes more of the same block have been handed over. */
    ghost predicate Onward(ended: bool, block: seq<int>, pos: int, n: int)
      reads `past, `zbits, `state_out_pos
    {
      past.ended == ended && zbits == block && state_out_pos == pos + n
    }

    /** The last block has been made in the meantime, and at most n bytes of it handed over. */
    ghost predicate Fresh(ended: bool, n: int)
      reads `past, `zbits, `state_out_pos
    {
      past.ended && !ended && zbits != [] && state_out_pos <= n
    }

    /** Less is left to be done than with n bytes more of input, and an earlier block or more of the same block to hand
        over. */
    ghost predicate Less(ended: bool, left: int, n: int)
      reads `past, `zbits, `state_out_pos
    {
      n > 0 || (past.ended && !ended) || (past.ended == ended && 0 <= |zbits| - state_out_pos < left)
    }

    /** A flush has nothing more to do. */
    predicate FlushDone()
      reads this, rl
    {
      mode == Flushing && avail_in_expect == 0 && rl.Empty() && state == Input
    }

    constructor (blockSize100k: int, workFactor: int, choose: seq<int> -> seq<int>)
      requires 1 <= blockSize100k <= 9 && Chooses(choose)
      ensures Valid() && fresh(rl) && fresh(w) && past == Past([], [], [], false) && Delivered() == [] &&
        mode == Running
    {
      hide Chooses, Made, GoodRun, Expanded, Rep, Holds, Conserved, ByteBits, Bits, Bytes, Coder.Valid, Coder.InBlock,
        Coder.Pending, Writer.Valid, Writer.Written;
      this.blockSize100k, this.workFactor, this.choose := blockSize100k, workFactor, choose;
      rl := new Coder();
      w := new Writer();
      mode, state, blockNo, combinedCRC, avail_in_expect, zbits, state_out_pos := Running, Input, 1, 0, 0, [], 0;
      past := Past([], [], [], false);
      new;
      NothingYet(blockSize100k);
      assert rl.InBlock() + rl.Pending() == [] + [];
    }

    /** BZ2_compressBlock, and the block's bytes ready to be handed over. A block has ten bytes to spare at least: input
        is taken up to 100000 k - 20 bytes, and the run that is open then is put down as five bytes twice at most. */
    method CompressBlock(isLast: bool)
      requires rl.Valid() && w.Valid() && w.zbits == [] && Chooses(choose) && zbits == [] && !past.ended &&
        blockNo >= 1 && state_out_pos == 0
      requires |rl.block| <= 100000 * blockSize100k - 10
      requires Conserved(past, rl.InBlock() + rl.Pending(), [], w.Written(), blockNo > 1, combinedCRC, blockSize100k)
      requires if isLast then mode == Finishing && avail_in_expect == 0 && rl.Empty()
        else rl.Empty() ==> mode == Flushing
      modifies this`zbits, this`combinedCRC, this`past, this`state, w
      ensures Valid() && state == Output && past.consumed == old(past.consumed) && past.sent == old(past.sent) &&
        past.ended == isLast
      ensures isLast ==> zbits != []
    {
      hide Stream.Valid, Made, GoodRun, Expanded, Rep, Holds, ByteBits, Bits, Conserved, Chooses, Coder.Valid,
        Coder.InBlock, Coder.Pending, Coder.Empty, Writer.Valid, Writer.Written, Bytes;
      ghost var more := rl.Pending();
      rl.Parts();
      zbits, combinedCRC, past := BlockStep(w, blockNo == 1, rl.block, rl.inUse, rl.blockCRC, isLast, combinedCRC,
        blockSize100k, workFactor, choose, past, rl.runs, more);
      state := Output;
      Settled();
    }

    /** The first half of a turn of handle_compress: hand over output; when the block is done, begin the next. */
    method OutputPart(avail_out: nat) returns (out: seq<int>, stop: bool)
      requires Valid() && state == Output && mode != Idle
      modifies this`zbits, this`state_out_pos, this`state, this`blockNo, this`past, rl
      ensures Valid() && Delivered() == old(Delivered()) + out && |out| <= avail_out &&
        past.consumed == old(past.consumed)
      ensures past.ended == old(past.ended) && rl.Empty() == old(rl.Empty())
      ensures stop ==>
        (|out| == avail_out && state_out_pos < |zbits|) || (past.ended && state_out_pos == |zbits|) ||
        (mode == Flushing && FlushDone())
      ensures !stop ==> state == Input && (mode == Running || avail_in_expect != 0 || !rl.Empty())
      ensures stop && mode == Finishing ==>
        state == Output && zbits == old(zbits) && state_out_pos == old(state_out_pos) + |out|
    {
      hide Stream.Valid, Made, GoodRun, Expanded, Rep, Holds, ByteBits, Bits, Conserved, Chooses, Coder.Valid,
        Coder.InBlock, Coder.Pending, Coder.Empty, Writer.Valid, Writer.Written, Bytes;
      Parts();
      ghost var pos0 := state_out_pos;
      out, state_out_pos := CopyOutput(zbits, state_out_pos, avail_out);
      Assoc(past.sent, zbits[..pos0], out);
      assert zbits[..state_out_pos] == zbits[..pos0] + out;
      Settled();
      if state_out_pos < |zbits| || (mode == Finishing && avail_in_expect == 0 && rl.Empty()) { return out, true; }
      NextBlock();
      stop := mode == Flushing && avail_in_expect == 0 && rl.Empty();
    }

    /** BZ2_bzCompress's next block, once all of the last one is handed over. */
    method NextBlock()
      requires Valid() && state == Output && state_out_pos == |zbits| && !past.ended
      modifies this`zbits, this`state_out_pos, this`state, this`blockNo, this`past, rl
      ensures Valid() && state == Input && Delivered() == old(Delivered()) && past.consumed == old(past.consumed) &&
        !past.ended
      ensures rl.Empty() == old(rl.Empty())
    {
      hide Stream.Valid, Made, GoodRun, Expanded, Rep, Holds, ByteBits, Bits, Conserved, Chooses, Coder.Valid,
        Coder.InBlock, Coder.Pending, Coder.Empty, Writer.Valid, Writer.Written, Bytes;
      Parts();
      SentKept(past, rl.Pending(), zbits, Held(), combinedCRC, blockSize100k);
      assert zbits[..state_out_pos] == zbits && past.sent + zbits + [][..0] == past.sent + zbits;
      rl.PrepareNewBlock();
      past := past.(sent := past.sent + zbits);
      zbits, state_out_pos, blockNo, state := [], 0, blockNo + 1, Input;
      Settled();
    }

    /** The second half of a turn: take input; when the block is full or the input that was announced has all been
        taken, compress it. */
    method InputPart(input: seq<int>) returns (n: nat, stop: bool)
      requires Valid() && state == Input && mode != Idle && Bytes(input) &&
        (mode == Running || avail_in_expect == |input|)
      modifies this`zbits, this`combinedCRC, this`past, this`state, this`avail_in_expect, w, rl
      ensures Valid() && n <= |input| && past.consumed == old(past.consumed) + input[..n] && past.sent == old(past.sent)
      ensures (mode == Running || avail_in_expect == |input| - n) && state_out_pos == 0
      ensures if stop then state == Input && n == |input| && mode == Running else state == Output
      ensures |rl.block| <= 100000 * blockSize100k - 10
      ensures !stop && n == 0 ==>
        mode != Running && avail_in_expect == 0 && rl.Empty() && (mode == Finishing ==> past.ended)
      ensures past.ended ==> state_out_pos < |zbits|
    {
      hide Stream.Valid, Made, GoodRun, Expanded, Rep, Holds, ByteBits, Bits, Conserved, Chooses, Coder.Valid,
        Coder.InBlock, Coder.Pending, Coder.Empty, Writer.Valid, Writer.Written, Bytes;
      Parts();
      ghost var open := rl.InBlock() + rl.Pending();
      KRange(past, open, zbits, Held(), blockNo > 1, combinedCRC, blockSize100k);
      n, avail_in_expect := CopyInput(rl, input, BlockMax(blockSize100k), mode, avail_in_expect);
      InputKept(past, open, input[..n], zbits, Held(), blockNo > 1, combinedCRC, blockSize100k);
      past := past.(consumed := past.consumed + input[..n]);
      stop := false;
      if mode != Running && avail_in_expect == 0 {
        rl.FlushRL();
        assert rl.InBlock() + rl.Pending() == rl.InBlock();
        CompressBlock(mode == Finishing);
      } else if |rl.block| >= BlockMax(blockSize100k) {
        FullIsOpen(rl);
        CompressBlock(false);
      } else {
        stop := true;
        Settled();
      }
    }

    /** A turn of handle_compress: output, and then input. */
    method Turn(input: seq<int>, avail_out: nat) returns (n: nat, out: seq<int>, stop: bool)
      requires Valid() && mode != Idle && Bytes(input) && (mode == Running || avail_in_expect == |input|)
      modifies this`zbits, this`combinedCRC, this`past, this`state, this`avail_in_expect, this`state_out_pos,
        this`blockNo, w, rl
      ensures Valid() && n <= |input| && past.consumed == old(past.consumed) + input[..n]
      ensures |out| <= avail_out && Delivered() == old(Delivered()) + out
      ensures mode == Running || avail_in_expect == |input| - n
      ensures stop ==>
        (|out| == avail_out && state_out_pos < |zbits|) || (past.ended && state_out_pos == |zbits|) ||
        (mode == Flushing && FlushDone()) || (state == Input && n == |input| && mode == Running)
      ensures !stop ==> (n > 0 || (Spent() && !old(Spent()))) && Unfinished()
      ensures mode == Finishing && old(Unfinished()) ==>
        n > 0 || Fresh(old(past.ended), |out|) || Onward(old(past.ended), old(zbits), old(state_out_pos), |out|)
      ensures stop && mode == Finishing ==> n == 0 && past.ended == old(past.ended)
    {
      hide Stream.Valid, Stream.FlushDone, Made, GoodRun, Expanded, Rep, Holds, ByteBits, Bits, Conserved, Chooses,
        Coder.Valid, Coder.InBlock, Coder.Pending, Coder.Empty, Writer.Valid, Writer.Written, Bytes;
      Parts();
      ghost var consumed, delivered := past.consumed, Delivered();
      n, out := 0, [];
      assert consumed + input[..0] == consumed && delivered + [] == delivered;
      if state == Output {
        out, stop := OutputPart(avail_out);
        Parts();
        if stop { return; }
      }
      ghost var sent := Delivered();
      assert past.sent + [] == past.sent;
      n, stop := InputPart(input);
      Parts();
      assert Delivered() == past.sent + [] == sent;
    }

    /** All input has been taken and put into the last block. */
    ghost predicate Spent()
      reads this, rl
    {
      mode != Running && avail_in_expect == 0 && rl.Empty() && state == Output
    }

    /** handle_compress: turns until the room for output or the input is used up, or a flush or the stream is done. */
    method HandleCompress(input: seq<int>, avail_out: nat) returns (n: nat, out: seq<int>)
      requires Valid() && mode != Idle && Bytes(input) && (mode == Running || avail_in_expect == |input|)
      modifies this`zbits, this`combinedCRC, this`past, this`state, this`avail_in_expect, this`state_out_pos,
        this`blockNo, w, rl
      ensures Valid() && n <= |input| && past.consumed == old(past.consumed) + input[..n]
      ensures |out| <= avail_out && Delivered() == old(Delivered()) + out
      ensures mode == Running || avail_in_expect == |input| - n
      ensures (|out| == avail_out && state_out_pos < |zbits|) || (past.ended && state_out_pos == |zbits|)
        || (mode == Flushing && FlushDone()) || (state == Input && n == |input| && mode == Running)
      ensures mode == Finishing && old(Unfinished()) ==>
        n > 0 || Fresh(old(past.ended), |out|) || Onward(old(past.ended), old(zbits), old(state_out_pos), |out|)
      ensures mode == Finishing && old(Unfinished()) && avail_out == 0 ==> Unfinished()
      ensures mode == Finishing && old(Unfinished()) && avail_out > 0 ==> n > 0 || out != []
    {
      hide Stream.Valid, Stream.FlushDone, Stream.Spent, Stream.Delivered, Bytes;
      n, out := 0, [];
      InRange();
      ghost var consumed, delivered := past.consumed, Delivered();
      assert consumed + input[..0] == consumed && delivered + [] == delivered;
      var stop := false;
      while !stop
        invariant Valid() && n <= |input| && past.consumed == consumed + input[..n] && 0 <= state_out_pos <= |zbits|
        invariant |out| <= avail_out && Delivered() == delivered + out
        invariant mode == Running || avail_in_expect == |input| - n
        invariant stop ==>
          (|out| == avail_out && state_out_pos < |zbits|) || (past.ended && state_out_pos == |zbits|) ||
          (mode == Flushing && FlushDone()) || (state == Input && n == |input| && mode == Running)
        invariant mode == Finishing && old(Unfinished()) ==>
          n > 0 || Fresh(old(past.ended), |out|) || Onward(old(past.ended), old(zbits), old(state_out_pos), |out|)
        invariant mode == Finishing && old(Unfinished()) && !stop ==> Unfinished()
        invariant mode == Finishing && old(Unfinished()) && avail_out == 0 ==> Unfinished()
        decreases !stop, |input| - n, !Spent()
      {
        ghost var out0, n0 := out, n;
        BytesFrom(input, n);
        var m, more;
        m, more, stop := Turn(input[n..], avail_out - |out|);
        InRange();
        Assoc(delivered, out0, more);
        assert input[..n] + input[n..][..m] == input[..n + m];
        Assoc(consumed, input[..n], input[n..][..m]);
        out := out + more;
        n := n + m;
      }
    }

    /** BZ2_bzCompress, in the middle of a flush or of the end of the stream. */
    method Resume(input: seq<int>, avail_out: nat, action: Action) returns (n: nat, out: seq<int>, ret: Return)
      requires Valid() && Bytes(input) && (mode == Flushing || mode == Finishing)
      modifies this`zbits, this`combinedCRC, this`past, this`state, this`avail_in_expect, this`state_out_pos,
        this`blockNo, this`mode, w, rl
      ensures Valid() && n <= |input| && past.consumed == old(past.consumed) + input[..n]
      ensures |out| <= avail_out && Delivered() == old(Delivered()) + out
      ensures action != (if old(mode) == Flushing then FlushAction else FinishAction) || |input| != old(avail_in_expect)
        ==> ret == SequenceError && n == 0 && out == []
      ensures action == (if old(mode) == Flushing then FlushAction else FinishAction) && |input| == old(avail_in_expect)
        ==> (ret == SequenceError <==> old(mode) == Finishing && n == 0 && out == [])
      ensures old(mode) == Flushing && ret != SequenceError ==>
        ret == (if n < |input| || !rl.Empty() || state_out_pos < |zbits| then FlushOk else RunOk)
      ensures ret == RunOk ==> mode == Running && state == Input && rl.Empty() && n == |input|
      ensures old(mode) == Finishing && ret != SequenceError ==>
        ret == (if n < |input| || !rl.Empty() || state_out_pos < |zbits| then FinishOk else StreamEnd)
      ensures ret == StreamEnd ==> mode == Idle && past.ended && state_out_pos == |zbits| && n == |input|
      ensures ret != RunOk && ret != StreamEnd ==> mode == old(mode)
      ensures
        (old(mode) == Finishing && action == FinishAction && |input| == old(avail_in_expect) && old(Unfinished()) &&
         avail_out > 0) ==>
        ret != SequenceError && Less(old(past.ended), old(|zbits| - state_out_pos), n)
      ensures mode == Finishing && old(Unfinished()) ==>
        Unfinished() && (ret == FinishOk ==> avail_in_expect == |input| - n)
    {
      hide Stream.Valid, Made, GoodRun, Expanded, Rep, Holds, ByteBits, Bits, Conserved, Chooses, Coder.Valid,
        Coder.InBlock, Coder.Pending, Coder.Empty, Writer.Valid, Writer.Written, Bytes;
      Parts();
      n, out := 0, [];
      assert past.consumed + input[..0] == past.consumed && Delivered() + out == Delivered();
      if action != (if mode == Flushing then FlushAction else FinishAction) || avail_in_expect != |input| {
        return n, out, SequenceError;
      }
      n, out := HandleCompress(input, avail_out);
      Parts();
      if mode == Finishing && n == 0 && |out| == 0 { return n, out, SequenceError; }
      if avail_in_expect > 0 || !rl.Empty() || state_out_pos < |zbits| {
        return n, out, if mode == Flushing then FlushOk else FinishOk;
      }
      ret := if mode == Flushing then RunOk else StreamEnd;
      mode := if mode == Flushing then Running else Idle;
      Settled();
    }

    /** BZ2_bzCompress, asked to go on with more input. */
    method RunOn(input: seq<int>, avail_out: nat) returns (n: nat, out: seq<int>, ret: Return)
      requires Valid() && Bytes(input) && mode == Running
      modifies this`zbits, this`combinedCRC, this`past, this`state, this`avail_in_expect, this`state_out_pos,
        this`blockNo, w, rl
      ensures Valid() && n <= |input| && past.consumed == old(past.consumed) + input[..n]
      ensures |out| <= avail_out && Delivered() == old(Delivered()) + out
      ensures ret == (if n > 0 || out != [] then RunOk else ParamError) && (|out| == avail_out || n == |input|)
    {
      hide Stream.Valid, Conserved, Chooses, Coder.Valid, Coder.InBlock, Coder.Pending, Coder.Empty, Writer.Valid,
        Writer.Written, Bytes;
      n, out := HandleCompress(input, avail_out);
      Parts();
      ret := if n > 0 || |out| > 0 then RunOk else ParamError;
    }

    /** BZ2_bzCompress, when a flush or the end of the stream is asked for. */
    method Begin(avail_in: nat, action: Action)
      requires Valid() && mode == Running && action != RunAction
      modifies this`mode, this`avail_in_expect
      ensures Valid() && avail_in_expect == avail_in && mode == if action == FlushAction then Flushing else Finishing
    {
      hide Stream.Valid, Made, GoodRun, Expanded, Rep, Holds, ByteBits, Bits, Conserved, Chooses, Coder.Valid,
        Coder.InBlock, Coder.Pending, Coder.Empty, Writer.Valid, Writer.Written, Bytes;
      Parts();
      avail_in_expect := avail_in;
      mode := if action == FlushAction then Flushing else Finishing;
      Settled();
    }

    lemma InRange()
      requires Valid()
      ensures 0 <= state_out_pos <= |zbits|
    {
      hide Made, GoodRun, Expanded, Rep, Holds, ByteBits, Bits, Conserved, Chooses, Coder.Valid, Coder.InBlock,
           Coder.Pending, Coder.Empty, Writer.Valid, Writer.Written;
    }

    /** BZ2_bzCompress: what a call may be asked for depends on the calls before it. */
    method BzCompress(input: seq<int>, avail_out: nat, action: Action) returns (n: nat, out: seq<int>, ret: Return)
      requires Valid() && Bytes(input)
      modifies this`zbits, this`combinedCRC, this`past, this`state, this`avail_in_expect, this`state_out_pos,
        this`blockNo, this`mode, w, rl
      ensures Valid() && n <= |input| && past.consumed == old(past.consumed) + input[..n]
      ensures |out| <= avail_out && Delivered() == old(Delivered()) + out
      ensures old(mode) == Idle ==> ret == SequenceError && n == 0 && out == []
      ensures (old(mode) == Flushing && (action != FlushAction || |input| != old(avail_in_expect)))
          || (old(mode) == Finishing && (action != FinishAction || |input| != old(avail_in_expect)))
        ==> ret == SequenceError && n == 0 && out == []
      ensures action == RunAction && old(mode) == Running ==>
        ret == (if n > 0 || out != [] then RunOk else ParamError) && (|out| == avail_out || n == |input|)
      ensures action == FlushAction && old(mode) == Running ==> ret == FlushOk || ret == RunOk
      ensures
        (action == FinishAction &&
         (old(mode) == Running || (old(mode) == Finishing && |input| == old(avail_in_expect)))) ==>
        ret == (if n == 0 && out == [] then SequenceError
                else if n < |input| || !rl.Empty() || state_out_pos < |zbits| then FinishOk else StreamEnd)
      ensures
        (action == FinishAction &&
         (old(mode) == Running || (old(mode) == Finishing && |input| == old(avail_in_expect))) &&
         old(Unfinished()) && avail_out > 0) ==>
        ret != SequenceError && Less(old(past.ended), old(|zbits| - state_out_pos), n)
      ensures mode == Finishing && old(Unfinished()) ==>
        Unfinished() && (ret == FinishOk ==> avail_in_expect == |input| - n)
      ensures action == FinishAction && ret == FinishOk ==> mode == Finishing
      ensures action == FlushAction && ret == RunOk ==> n == |input| && mode == Running && state == Input && rl.Empty()
      ensures ret == StreamEnd ==> n == |input| && mode == Idle && past.ended && state_out_pos == |zbits|
    {
      hide *;
      InRange();
      n, out := 0, [];
      assert past.consumed + input[..0] == past.consumed && Delivered() + out == Delivered();
      if mode == Idle { return n, out, SequenceError; }
      if mode == Running {
        if action == RunAction {
          n, out, ret := RunOn(input, avail_out);
          return;
        }
        Begin(|input|, action);
      }
      n, out, ret := Resume(input, avail_out, action);
    }

    /** Compression and decompression: once the stream has ended and all of it has been handed over, decompressing it
        gives back all the input, however the input and the output were sliced. */
    lemma AllComesBack(s: Machine.State)
      requires Valid() && past.ended && state_out_pos == |zbits| && s.at == Machine.Magic(0)
      ensures GivesBack(s, Delivered(), past.consumed)
    {
      hide Stream.Valid, Made, GoodRun, Expanded, Rep, Holds, ByteBits, Bits, Chooses, Coder.Valid, Coder.InBlock,
        WroteAll, Coder.Pending, Coder.Empty, Writer.Valid, Writer.Written, Bytes, GoodDones, Restored, CombinedOf,
        GivesBack, WroteSoFar;
      Parts();
      assert zbits[..state_out_pos] == zbits;
      rl.NonePending();
      assert state == Output && Restored(past.ds, blockSize100k) + [] == Restored(past.ds, blockSize100k);
      WholeComesBack(past.sent + zbits, past.ds, blockSize100k, s);
    }

    /** After a flush, whatever was put in is in blocks that have been handed over, except for the last bits of the last
        byte. */
    lemma AllFlushed()
      requires Valid() && state == Input && rl.Empty()
      ensures past.consumed == Restored(past.ds, blockSize100k)
      ensures ByteBits(Delivered()) + Held() == SoFar(blockNo > 1, past.ds, blockSize100k)
    {
      hide Stream.Valid, ByteBits, Bits, Chooses, GoodDones, Restored, CombinedOf, SoFar;
      Parts();
      assert past.sent + zbits == past.sent && zbits[..state_out_pos] == [];
    }
  }

  /** Decompressing the bytes gives the data, all checksums agreeing, and leaves less than a byte of padding. */
  ghost predicate GivesBack(s: Machine.State, bytes: seq<int>, data: seq<int>) {
    && Bytes(bytes)
    && var d := Decode(Driver(s, ByteBits(bytes), [], 0, false));
       !d.wrong && d.s.at == Machine.Idle && d.out == data && |d.left| < 8
  }

  lemma WholeComesBack(bytes: seq<int>, ds: seq<Done>, blockSize100k: int, s: Machine.State)
    requires WroteAll(bytes, ds, blockSize100k) && s.at == Machine.Magic(0)
    ensures GivesBack(s, bytes, Restored(ds, blockSize100k))
  {
    var pad: nat :| pad < 8 && ByteBits(bytes) == StreamBits(ds, blockSize100k) + Bits(0, pad);
    hide Decode, ByteBits, GoodDones, Restored, StreamBits, Bits;
    StreamComesBack(ds, blockSize100k, s, Bits(0, pad));
  }

  lemma BytesFrom(x: seq<int>, n: nat)
    requires Bytes(x) && n <= |x|
    ensures Bytes(x[n..])
  {
  }

  lemma KRange(past: Past, open: seq<int>, zbits: seq<int>, bits: seq<bool>, started: bool, combinedCRC: bv32,
      blockSize100k: int)
    requires Conserved(past, open, zbits, bits, started, combinedCRC, blockSize100k)
    ensures 1 <= blockSize100k <= 9
  {
  }

  lemma FullIsOpen(rl: Coder)
    requires rl.Valid() && |rl.block| > 0 && (rl.Empty() ==> rl.runs == [])
    ensures !rl.Empty()
  {
  }

  lemma ConservedParts(past: Past, open: seq<int>, zbits: seq<int>, bits: seq<bool>, started: bool, combinedCRC: bv32,
      blockSize100k: int)
    requires Conserved(past, open, zbits, bits, started, combinedCRC, blockSize100k) && !past.ended
    ensures 1 <= blockSize100k <= 9 && GoodDones(past.ds, blockSize100k) &&
      combinedCRC == CombinedOf(past.ds, blockSize100k)
    ensures WroteSoFar(past.sent + zbits, bits, started, past.ds, blockSize100k) &&
      (zbits == [] ==> past.sent + zbits == past.sent)
  {
    hide GoodDones, CombinedOf, WroteSoFar;
  }

  /** The open input moves into the finished blocks. */
  lemma BlockKept(past: Past, open: seq<int>, more: seq<int>, ds: seq<Done>, zbits: seq<int>, bits: seq<bool>,
      combinedCRC0: bv32, combinedCRC: bv32, blockSize100k: int, last: bool, bits0: seq<bool>, started: bool)
    requires Conserved(past, open + more, [], bits0, started, combinedCRC0, blockSize100k) && !past.ended
    requires GoodDones(ds, blockSize100k) && combinedCRC == CombinedOf(ds, blockSize100k) && Bytes(zbits)
    requires Restored(ds, blockSize100k) == Restored(past.ds, blockSize100k) + open
    requires if last then WroteAll(past.sent + zbits, ds, blockSize100k)
      else WroteSoFar(past.sent + zbits, bits, true, ds, blockSize100k)
    ensures Conserved(past.(ds := ds, ended := last), more, zbits, bits, true, combinedCRC, blockSize100k)
  {
    hide GoodDones, CombinedOf, Restored, WroteSoFar, WroteAll;
    Assoc(Restored(past.ds, blockSize100k), open, more);
  }

  /** A block that has been handed over belongs to what was sent. */
  lemma SentKept(past: Past, open: seq<int>, zbits: seq<int>, bits: seq<bool>, combinedCRC: bv32, blockSize100k: int)
    requires Conserved(past, open, zbits, bits, true, combinedCRC, blockSize100k) && !past.ended
    ensures Conserved(past.(sent := past.sent + zbits), [] + open, [], bits, true, combinedCRC, blockSize100k) &&
      1 <= blockSize100k
  {
    hide GoodDones, CombinedOf, Restored, WroteSoFar, WroteAll;
    BytesBoth(past.sent, zbits);
    assert past.sent + zbits + [] == past.sent + zbits && [] + open == open;
  }

  /** Input that has been taken is open. */
  lemma InputKept(past: Past, open: seq<int>, more: seq<int>, zbits: seq<int>, bits: seq<bool>, started: bool,
      combinedCRC: bv32, blockSize100k: int)
    requires Conserved(past, open, zbits, bits, started, combinedCRC, blockSize100k)
    ensures Conserved(past.(consumed := past.consumed + more), open + more, zbits, bits, started, combinedCRC,
      blockSize100k)
  {
    hide GoodDones, CombinedOf, Restored, WroteSoFar, WroteAll;
    Assoc(Restored(past.ds, blockSize100k), open, more);
  }

  lemma NothingYet(blockSize100k: int)
    requires 1 <= blockSize100k <= 9
    ensures Conserved(Past([], [], [], false), [] + [], [], [], false, 0, blockSize100k)
  {
    hide MagicBits;
    HeadWritten(blockSize100k);
    assert Restored([], blockSize100k) == [] && CombinedOf([], blockSize100k) == 0 && ByteBits([]) == [];
  }

  /** CompressStep, with the record of the stream kept. */
  method BlockStep(w: Writer, first: bool, block: seq<int>, inUse: seq<bool>, blockCRC: bv32, isLast: bool,
      combinedCRC0: bv32, blockSize100k: int, workFactor: int, choose: seq<int> -> seq<int>, ghost past0: Past,
      ghost runs: seq<Run>, ghost more: seq<int>)
    returns (zbits: seq<int>, combinedCRC: bv32, ghost past: Past)
    requires w.Valid() && w.zbits == [] && !past0.ended && Made(block, inUse, blockCRC, runs) &&
      |block| <= 100000 * blockSize100k && Chooses(choose)
    requires Conserved(past0, Expanded(runs) + more, [], w.Written(), !first, combinedCRC0, blockSize100k)
    modifies w
    ensures past == past0.(ds := past.ds, ended := isLast) &&
      (if isLast then zbits != [] else w.Valid() && w.zbits == []) && |block| + |zbits| <= Room(blockSize100k)
    ensures Conserved(past, more, zbits, if isLast then [] else w.Written(), true, combinedCRC, blockSize100k)
  {
    ghost var bits0 := w.Written();
    hide *;
    ConservedParts(past0, Expanded(runs) + more, [], bits0, !first, combinedCRC0, blockSize100k);
    ghost var ds;
    zbits, combinedCRC, ds := CompressStep(w, first, block, inUse, blockCRC, isLast, combinedCRC0, blockSize100k,
      workFactor, choose, past0.ds, past0.sent, runs);
    ghost var bits := if isLast then [] else w.Written();
    BlockKept(past0, Expanded(runs), more, ds, zbits, bits, combinedCRC0, combinedCRC, blockSize100k, isLast, bits0,
      !first);
    past := past0.(ds := ds, ended := isLast);
  }

  // ----- until the end -----

  /** Asking for the end again and again, with some room each time, reaches it. */
  method FinishAll(c: Stream, input: seq<int>, room: nat -> nat) returns (out: seq<int>)
    requires c.Valid() && c.mode == Running && c.Unfinished() && Bytes(input) && forall i: nat :: room(i) > 0
    modifies c`zbits, c`combinedCRC, c`past, c`state, c`avail_in_expect, c`state_out_pos, c`blockNo, c`mode, c.w, c.rl
    ensures c.Valid() && c.mode == Mode.Idle && c.past.ended && c.state_out_pos == |c.zbits|
    ensures c.past.consumed == old(c.past.consumed) + input && c.Delivered() == old(c.Delivered()) + out
  {
    hide *;
    c.InRange();
    out := [];
    ghost var consumed, delivered := c.past.consumed, c.Delivered();
    assert consumed + input[..0] == consumed && delivered + [] == delivered;
    var n, i: nat := 0, 0;
    var ret := FinishOk;
    while ret == FinishOk
      invariant c.Valid() && 0 <= c.state_out_pos <= |c.zbits| && n <= |input| && (ret == FinishOk || ret == StreamEnd)
      invariant c.past.consumed == consumed + input[..n] && c.Delivered() == delivered + out
      invariant ret == FinishOk ==>
        c.Unfinished() && (c.mode == Running || (c.mode == Finishing && c.avail_in_expect == |input| - n))
      invariant ret == StreamEnd ==> n == |input| && c.mode == Mode.Idle && c.past.ended && c.state_out_pos == |c.zbits|
      decreases ret == FinishOk, |input| - n, !c.past.ended, |c.zbits| - c.state_out_pos
    {
      BytesFrom(input, n);
      ghost var n0, out0, ended, left := n, out, c.past.ended, |c.zbits| - c.state_out_pos;
      var m, more;
      m, more, ret := c.BzCompress(input[n..], room(i), FinishAction);
      c.InRange();
      LessIs(c, ended, left, m);
      Assoc(delivered, out0, more);
      assert input[..n] + input[n..][..m] == input[..n + m];
      Assoc(consumed, input[..n], input[n..][..m]);
      out := out + more;
      n := n + m;
      i := i + 1;
    }
    assert input[..|input|] == input;
  }

  lemma LessIs(c: Stream, ended: bool, left: int, n: int)
    requires c.Less(ended, left, n)
    ensures n > 0 || (c.past.ended && !ended) || (c.past.ended == ended && 0 <= |c.zbits| - c.state_out_pos < left)
  {
  }

  /** A whole compression, whatever the block size, the work factor, the choice of tables and the room in each call. */
  method CompressAll(input: seq<int>, blockSize100k: int, workFactor: int, choose: seq<int> -> seq<int>,
      room: nat -> nat) returns (bytes: seq<int>)
    requires Bytes(input) && 1 <= blockSize100k <= 9 && Chooses(choose) && forall i: nat :: room(i) > 0
    ensures forall s: Machine.State :: s.at == Machine.Magic(0) ==> GivesBack(s, bytes, input)
  {
    hide Chooses, GivesBack, Stream.Valid, Bytes;
    var c := new Stream(blockSize100k, workFactor, choose);
    bytes := FinishAll(c, input, room);
    assert c.Delivered() == [] + bytes == bytes && c.past.consumed == [] + input == input;
    forall s: Machine.State | s.at == Machine.Magic(0) ensures GivesBack(s, bytes, input) { c.AllComesBack(s); }
  }
}

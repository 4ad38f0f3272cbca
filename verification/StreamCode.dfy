/** A whole stream: what the compressor writes for a list of blocks, and what the decompressor makes of it. */
module StreamCode {

  import opened Powers
  import opened Rotations
  import opened Rle
  import opened BlockCrc
  import opened BitStream
  import opened Machine
  import opened MachineSound
  import opened MachineRun
  import opened BlockReads
  import opened BlockCode
  import opened CompressBlock
  import opened Mtf
  import opened Randomise
  import InverseBwt
  import SymbolReads

  /** A block that has been written: its code, the positions in it, and its bytes. */
  datatype Done = Done(blk: Block, ps: seq<int>, bytes: seq<int>)

  /** The checksum of a block, over what it stands for. */
  function CrcFor(bytes: seq<int>): bv32
    requires Bytes(bytes)
  {
    UnRleBytes(bytes);
    Finish(CrcOf(0xffff_ffff, UnRle(bytes)))
  }

  lemma {:induction false} UnRleBytes(b: seq<int>)
    requires Bytes(b)
    ensures Bytes(UnRle(b))
    decreases |b|
  {
    if b != [] {
      var n := Lead(b);
      if n < 4 { UnRleBytes(b[n..]); }
      else if |b| > 4 { UnRleBytes(b[5..]); }
    }
  }

  ghost predicate GoodDone(d: Done, blockSize100k: int) {
    && 1 <= blockSize100k <= 9 && Bytes(d.bytes) && 0 < |d.bytes| <= 100000 * blockSize100k && Complete(d.bytes)
    && Codes(d.blk, d.ps, d.bytes, AsNumber(CrcFor(d.bytes)))
  }

  ghost predicate GoodDones(ds: seq<Done>, blockSize100k: int) {
    forall i :: 0 <= i < |ds| ==> GoodDone(ds[i], blockSize100k)
  }

  /** What the blocks stand for, one after the other. */
  ghost function Restored(ds: seq<Done>, blockSize100k: int): (r: seq<int>)
    requires GoodDones(ds, blockSize100k)
    ensures Bytes(r)
  {
    if ds == [] then []
    else
      UnRleBytes(ds[|ds| - 1].bytes);
      BytesJoin(Restored(ds[..|ds| - 1], blockSize100k), UnRle(ds[|ds| - 1].bytes));
      Restored(ds[..|ds| - 1], blockSize100k) + UnRle(ds[|ds| - 1].bytes)
  }

  ghost function CombinedOf(ds: seq<Done>, blockSize100k: int): bv32
    requires GoodDones(ds, blockSize100k)
  {
    if ds == [] then 0 else Combine(CombinedOf(ds[..|ds| - 1], blockSize100k), CrcFor(ds[|ds| - 1].bytes))
  }

  lemma CodesGood(blk: Block, ps: seq<int>, b: seq<int>, crc: int)
    requires Codes(blk, ps, b, crc)
    ensures GoodHeader(blk) && SymbolReads.Coded(blk.tables, Selectors(blk), blk.syms)
  {
  }

  ghost function BlocksBits(ds: seq<Done>, blockSize100k: int): seq<bool>
    requires GoodDones(ds, blockSize100k)
  {
    if ds == [] then []
    else
      var d := ds[|ds| - 1];
      CodesGood(d.blk, d.ps, d.bytes, AsNumber(CrcFor(d.bytes)));
      BlocksBits(ds[..|ds| - 1], blockSize100k) + BlockBits(d.blk)
  }

  function MagicBits(blockSize100k: int): seq<bool>
    requires 1 <= blockSize100k <= 9
  {
    Bits(0x42, 8) + Bits(0x5a, 8) + Bits(0x68, 8) + Bits(0x30 + blockSize100k, 8)
  }

  /** The end of the stream: six bytes and the combined checksum. */
  function EndBits(k: nat): seq<bool>
    decreases 6 - k
  {
    if k >= 6 then [] else Bits(ENDHDR[k], 8) + EndBits(k + 1)
  }

  ghost function TrailerBits(combined: bv32): seq<bool> {
    EndBits(0) + Bits(AsNumber(combined), 32)
  }

  ghost function StreamBits(ds: seq<Done>, blockSize100k: int): seq<bool>
    requires GoodDones(ds, blockSize100k) && 1 <= blockSize100k <= 9
  {
    MagicBits(blockSize100k) + BlocksBits(ds, blockSize100k) + TrailerBits(CombinedOf(ds, blockSize100k))
  }

  // ----- the decompressor's outer loop -----

  /** Where BZ2_bzDecompress stands: the machine, the bits it has not used, the output so far, and the combined
      checksum. */
  datatype Driver = Driver(s: State, left: seq<bool>, out: seq<int>, combined: bv32, wrong: bool)

  /** Output of one block, as a whole: its bytes, and the checks that follow. */
  ghost function OutputStep(d: Driver): Driver {
    if !(0 <= d.s.origPtr < |d.s.block|) then d.(wrong := true)
    else
      var b := Shown(d.s.blockRandomised, InverseBwt.Unsort(d.s.block, d.s.origPtr));
      if !Bytes(b) || !Complete(b) then d.(wrong := true)
      else if AsNumber(CrcFor(b)) != d.s.storedBlockCRC then d.(wrong := true)
      else d.(out := d.out + UnRle(b), combined := Combine(d.combined, CrcFor(b)), s := d.s.(at := BlkHdr(0)))
  }

  /** BZ2_bzDecompress with all of the input and all the room it wants: machine, output, machine, until the end. */
  ghost function Decode(d: Driver): Driver
    decreases |d.left|, d.s.at == Output
  {
    if d.s.at == Output then
      var d2 := OutputStep(d);
      if d2.wrong then d2 else Decode(d2)
    else
      var r := RunOn(d.s, d.left);
      var d1 := d.(s := r.0, left := r.1);
      RunConsumes(d.s, d.left);
      if r.0.at == Output then Decode(d1)
      else d1.(wrong := d1.wrong || (r.0.at == Idle && r.0.storedCombinedCRC != AsNumber(d1.combined)))
  }

  // ----- reading the ends of a stream -----

  lemma MagicStep(s: State, k: int, v: int)
    requires s.at == Magic(k) && 0 <= k < 4 && 0 <= v < 256
    requires v == (if k == 0 then 0x42 else if k == 1 then 0x5a else if k == 2 then 0x68 else v) &&
      (k == 3 ==> 0x31 <= v <= 0x39)
    ensures Reads(s, Bits(v, 8), if k < 3 then s.(at := Magic(k + 1))
      else s.(blockSize100k := v - 0x30, at := BlkHdr(0)))
  {
    hide Reads, Bits;
    ReadsByte(s, v);
  }

  lemma MagicReads(s: State, blockSize100k: int)
    requires s.at == Magic(0) && 1 <= blockSize100k <= 9
    ensures Reads(s, MagicBits(blockSize100k), s.(blockSize100k := blockSize100k, at := BlkHdr(0)))
  {
    var s1, s2, s3 := s.(at := Magic(1)), s.(at := Magic(2)), s.(at := Magic(3));
    var t := s.(blockSize100k := blockSize100k, at := BlkHdr(0));
    hide Reads, Bits, Step, Need;
    MagicStep(s, 0, 0x42);
    MagicStep(s1, 1, 0x5a);
    MagicStep(s2, 2, 0x68);
    MagicStep(s3, 3, 0x30 + blockSize100k);
    ReadsJoin(s, Bits(0x42, 8), s1, Bits(0x5a, 8), s2);
    ReadsJoin(s, Bits(0x42, 8) + Bits(0x5a, 8), s2, Bits(0x68, 8), s3);
    ReadsJoin(s, Bits(0x42, 8) + Bits(0x5a, 8) + Bits(0x68, 8), s3, Bits(0x30 + blockSize100k, 8), t);
  }

  ghost function EndLabel(k: int): Label { if k == 0 then BlkHdr(0) else EndHdr(k) }

  lemma EndStep(s: State, k: int)
    requires 0 <= k < 6 && s.at == EndLabel(k)
    ensures Reads(s, Bits(ENDHDR[k], 8), if k < 5 then s.(at := EndHdr(k + 1))
      else s.(storedCombinedCRC := 0, at := CombinedCrc(0)))
  {
    hide Reads, Bits;
    assert 0 <= ENDHDR[k] < 256;
    ReadsByte(s, ENDHDR[k]);
  }

  lemma {:induction false} EndReads(s: State, k: nat)
    requires k < 6 && s.at == EndLabel(k)
    ensures Reads(s, EndBits(k), s.(storedCombinedCRC := 0, at := CombinedCrc(0)))
    decreases 6 - k
  {
    var t := s.(storedCombinedCRC := 0, at := CombinedCrc(0));
    hide Reads, Bits, Step, Need;
    EndStep(s, k);
    if k < 5 {
      EndReads(s.(at := EndHdr(k + 1)), k + 1);
      ReadsJoin(s, Bits(ENDHDR[k], 8), s.(at := EndHdr(k + 1)), EndBits(k + 1), t);
    } else {
      assert Bits(ENDHDR[5], 8) + [] == Bits(ENDHDR[5], 8);
    }
  }

  lemma CombinedStep(s: State, k: int, v: int)
    requires s.at == CombinedCrc(k) && 0 <= v < 256
    ensures Reads(s, Bits(v, 8), s.(storedCombinedCRC := s.storedCombinedCRC * 256 + v,
      at := if k < 3 then CombinedCrc(k + 1) else Idle))
  {
    hide Reads, Bits;
    ReadsByte(s, v);
  }

  lemma CombinedReads(s: State, crc: nat)
    requires s.at == CombinedCrc(0) && s.storedCombinedCRC == 0 && crc < 0x1_0000_0000
    ensures Reads(s, Bits(crc, 32), s.(storedCombinedCRC := crc, at := Idle))
  {
    hide *;
    var b := Four(crc);
    FourBits(crc);
    var s1 := s.(storedCombinedCRC := b[0], at := CombinedCrc(1));
    var s2 := s.(storedCombinedCRC := b[0] * 256 + b[1], at := CombinedCrc(2));
    var s3 := s.(storedCombinedCRC := (b[0] * 256 + b[1]) * 256 + b[2], at := CombinedCrc(3));
    var s4 := s.(storedCombinedCRC := crc, at := Idle);
    CombinedStep(s, 0, b[0]);
    CombinedStep(s1, 1, b[1]);
    CombinedStep(s2, 2, b[2]);
    CombinedStep(s3, 3, b[3]);
    ReadsJoin(s, Bits(b[0], 8), s1, Bits(b[1], 8), s2);
    ReadsJoin(s, Bits(b[0], 8) + Bits(b[1], 8), s2, Bits(b[2], 8), s3);
    ReadsJoin(s, Bits(b[0], 8) + Bits(b[1], 8) + Bits(b[2], 8), s3, Bits(b[3], 8), s4);
  }

  lemma TrailerReads(s: State, combined: bv32)
    requires s.at == BlkHdr(0)
    ensures Reads(s, TrailerBits(combined), s.(storedCombinedCRC := AsNumber(combined), at := Idle))
  {
    var t := s.(storedCombinedCRC := 0, at := CombinedCrc(0));
    hide Reads, Bits, Step, Need, EndBits, AsNumber;
    EndReads(s, 0);
    CombinedReads(t, AsNumber(combined));
    ReadsJoin(s, EndBits(0), t, Bits(AsNumber(combined), 32), s.(storedCombinedCRC := AsNumber(combined), at := Idle));
  }

  // ----- the blocks in turn -----

  /** The bits of the blocks from number k on. */
  ghost function BitsFrom(ds: seq<Done>, blockSize100k: int, k: nat): seq<bool>
    requires GoodDones(ds, blockSize100k)
    decreases |ds| - k
  {
    if k >= |ds| then []
    else
      CodesGood(ds[k].blk, ds[k].ps, ds[k].bytes, AsNumber(CrcFor(ds[k].bytes)));
      BlockBits(ds[k].blk) + BitsFrom(ds, blockSize100k, k + 1)
  }

  lemma {:induction false} BlocksSplit(ds: seq<Done>, blockSize100k: int, k: nat)
    requires GoodDones(ds, blockSize100k) && k <= |ds|
    ensures BlocksBits(ds, blockSize100k) == BlocksBits(ds[..k], blockSize100k) + BitsFrom(ds, blockSize100k, k)
    decreases |ds| - k
  {
    hide BlockBits, GoodDone;
    if k == |ds| {
      assert ds[..k] == ds;
    } else {
      BlocksSplit(ds, blockSize100k, k + 1);
      assert ds[..k + 1][..k] == ds[..k];
    }
  }

  /** The driver has put out the first k blocks and stands in front of the next. */
  ghost predicate Stands(d: Driver, ds: seq<Done>, blockSize100k: int, k: nat, tail: seq<bool>) {
    && GoodDones(ds, blockSize100k) && k <= |ds| && 1 <= blockSize100k <= 9
    && d.s.at == BlkHdr(0) && d.s.blockSize100k == blockSize100k && d.left == BitsFrom(ds, blockSize100k, k) + tail
    && !d.wrong
    && d.out == Restored(ds[..k], blockSize100k) && d.combined == CombinedOf(ds[..k], blockSize100k)
  }

  lemma RunStops(s: State, bits: seq<bool>)
    requires Need(s) == 0
    ensures RunOn(s, bits) == (s, bits)
  {
  }

  /** One round of the driver, when the machine gets as far as output. */
  lemma DecodeRound(d: Driver, t: State, rest: seq<bool>)
    requires RunOn(d.s, d.left) == (t, rest) && t.at == Output && d.s.at != Output
    ensures var d2 := OutputStep(d.(s := t, left := rest)); !d2.wrong ==> Decode(d) == Decode(d2)
  {
    hide OutputStep, RunOn;
  }

  lemma DecodeEnds(d: Driver, t: State, rest: seq<bool>)
    requires RunOn(d.s, d.left) == (t, rest) && t.at == Idle && d.s.at != Output
    ensures Decode(d) == d.(s := t, left := rest, wrong := d.wrong || t.storedCombinedCRC != AsNumber(d.combined))
  {
    hide OutputStep, RunOn;
  }

  lemma OutputGood(d: Driver, x: Done, blockSize100k: int)
    requires GoodDone(x, blockSize100k) && d.s.at == Output && !d.wrong &&
      d.s.storedBlockCRC == AsNumber(CrcFor(x.bytes))
    requires 0 <= d.s.origPtr < |d.s.block| && !d.s.blockRandomised &&
      InverseBwt.Unsort(d.s.block, d.s.origPtr) == x.bytes
    ensures OutputStep(d) ==
            d.(out := d.out + UnRle(x.bytes), combined := Combine(d.combined, CrcFor(x.bytes)),
              s := d.s.(at := BlkHdr(0)))
  {
    hide InverseBwt.Unsort, Complete, UnRle, CrcFor, AsNumber, Combine, Codes, Shown;
    ShownPlain(InverseBwt.Unsort(d.s.block, d.s.origPtr));
  }

  lemma StandsAt(d: Driver, ds: seq<Done>, blockSize100k: int, k: nat, tail: seq<bool>)
    requires Stands(d, ds, blockSize100k, k, tail) && k < |ds|
    ensures GoodDones(ds, blockSize100k) && GoodDone(ds[k], blockSize100k) && GoodDones(ds[..k + 1], blockSize100k) &&
      GoodDones(ds[..k], blockSize100k)
    ensures d.s.at == BlkHdr(0) && HasBlockSize(d.s) && d.s.blockSize100k == blockSize100k && !d.wrong
    ensures d.left == BitsFrom(ds, blockSize100k, k) + tail
    ensures d.out == Restored(ds[..k], blockSize100k) && d.combined == CombinedOf(ds[..k], blockSize100k)
  {
    hide Restored, CombinedOf, GoodDone, BitsFrom;
  }

  lemma DoneIsCoded(x: Done, blockSize100k: int)
    requires GoodDone(x, blockSize100k)
    ensures GoodHeader(x.blk) && SymbolReads.Coded(x.blk.tables, Selectors(x.blk), x.blk.syms)
  {
    hide AsNumber, CrcFor, GoodHeader, SymbolReads.Coded, InverseBwt.Unsort, PositionsOf;
  }

  lemma BitsFromAt(ds: seq<Done>, blockSize100k: int, k: nat, tail: seq<bool>)
    requires GoodDones(ds, blockSize100k) && k < |ds|
    requires GoodHeader(ds[k].blk) && SymbolReads.Coded(ds[k].blk.tables, Selectors(ds[k].blk), ds[k].blk.syms)
    ensures BitsFrom(ds, blockSize100k, k) + tail == BlockBits(ds[k].blk) + (BitsFrom(ds, blockSize100k, k + 1) + tail)
  {
    hide BlockBits, GoodHeader, GoodDones, GoodDone, SymbolReads.Coded, AsNumber, CrcFor, Codes, Selectors;
  }

  lemma OneMoreDone(ds: seq<Done>, blockSize100k: int, k: nat)
    requires k < |ds| && GoodDones(ds[..k + 1], blockSize100k) && GoodDones(ds[..k], blockSize100k) &&
      Bytes(ds[k].bytes)
    ensures Restored(ds[..k + 1], blockSize100k) == Restored(ds[..k], blockSize100k) + UnRle(ds[k].bytes)
    ensures CombinedOf(ds[..k + 1], blockSize100k) == Combine(CombinedOf(ds[..k], blockSize100k), CrcFor(ds[k].bytes))
  {
    assert ds[..k + 1][..k] == ds[..k];
    hide GoodDone, UnRle, CrcFor, Combine;
  }

  lemma StandsNext(d: Driver, ds: seq<Done>, blockSize100k: int, k: nat, tail: seq<bool>)
    requires GoodDones(ds, blockSize100k) && k <= |ds| && 1 <= blockSize100k <= 9 && GoodDones(ds[..k], blockSize100k)
    requires d.s.at == BlkHdr(0) && d.s.blockSize100k == blockSize100k &&
      d.left == BitsFrom(ds, blockSize100k, k) + tail && !d.wrong
    requires d.out == Restored(ds[..k], blockSize100k) && d.combined == CombinedOf(ds[..k], blockSize100k)
    ensures Stands(d, ds, blockSize100k, k, tail)
  {
  }

  /** The next block: it is read, expanded, checked, and put out. */
  lemma BlockDecoded(d: Driver, ds: seq<Done>, blockSize100k: int, k: nat, tail: seq<bool>) returns (d': Driver)
    requires Stands(d, ds, blockSize100k, k, tail) && k < |ds|
    ensures Stands(d', ds, blockSize100k, k + 1, tail) && Decode(d) == Decode(d')
  {
    var x := ds[k];
    StandsAt(d, ds, blockSize100k, k, tail);
    DoneIsCoded(x, blockSize100k);
    BitsFromAt(ds, blockSize100k, k, tail);
    DoneCodes(x, blockSize100k);
    OneMoreDone(ds, blockSize100k, k);
    var rest := BitsFrom(ds, blockSize100k, k + 1) + tail;
    SomeBits(x.blk);
    hide *;
    var t := BlockComesBack(d.s, x.blk, x.ps, x.bytes, AsNumber(CrcFor(x.bytes)));
    ReadsRuns(d.s, BlockBits(x.blk), t, rest);
    OutputNeedsNone(t);
    RunStops(t, rest);
    DecodeRound(d, t, rest);
    OutputGood(d.(s := t, left := rest), x, blockSize100k);
    d' := OutputStep(d.(s := t, left := rest));
    StandsNext(d', ds, blockSize100k, k + 1, tail);
  }

  lemma OutputNeedsNone(t: State)
    ensures t.at == Output || t.at == Idle ==> Need(t) == 0
  {
  }

  lemma DoneCodes(x: Done, blockSize100k: int)
    requires GoodDone(x, blockSize100k)
    ensures Bytes(x.bytes) && |x.bytes| <= 100000 * blockSize100k &&
      Codes(x.blk, x.ps, x.bytes, AsNumber(CrcFor(x.bytes)))
  {
  }

  lemma SomeBits(blk: Block)
    requires GoodHeader(blk) && SymbolReads.Coded(blk.tables, Selectors(blk), blk.syms)
    ensures BlockBits(blk) != []
  {
    hide Bits, HeaderBits, MapBits;
    assert |Bits(blk.crc, 32)| == 32;
  }

  lemma {:induction false} BlocksDecoded(d: Driver, ds: seq<Done>, blockSize100k: int, k: nat, tail: seq<bool>)
      returns (d': Driver)
    requires Stands(d, ds, blockSize100k, k, tail)
    ensures Stands(d', ds, blockSize100k, |ds|, tail) && Decode(d) == Decode(d')
    decreases |ds| - k
  {
    hide Stands, Decode;
    assert k <= |ds| by { StandsInside(d, ds, blockSize100k, k, tail); }
    if k == |ds| {
      d' := d;
    } else {
      var d1 := BlockDecoded(d, ds, blockSize100k, k, tail);
      d' := BlocksDecoded(d1, ds, blockSize100k, k + 1, tail);
    }
  }

  lemma StandsInside(d: Driver, ds: seq<Done>, blockSize100k: int, k: nat, tail: seq<bool>)
    requires Stands(d, ds, blockSize100k, k, tail)
    ensures k <= |ds|
  {
  }

  /** The first four bytes set the block size and bring the driver to the first block. */
  lemma StreamStarts(ds: seq<Done>, blockSize100k: int, s: State, pad: seq<bool>) returns (d1: Driver)
    requires GoodDones(ds, blockSize100k) && 1 <= blockSize100k <= 9 && s.at == Magic(0)
    ensures Decode(Driver(s, StreamBits(ds, blockSize100k) + pad, [], 0, false)) == Decode(d1)
    ensures Stands(d1, ds, blockSize100k, 0, TrailerBits(CombinedOf(ds, blockSize100k)) + pad)
  {
    var tail := TrailerBits(CombinedOf(ds, blockSize100k)) + pad;
    var s1 := s.(blockSize100k := blockSize100k, at := BlkHdr(0));
    d1 := Driver(s1, BitsFrom(ds, blockSize100k, 0) + tail, [], 0, false);
    StreamParts(ds, blockSize100k, pad);
    FirstStand(d1, ds, blockSize100k, tail);
    hide *;
    MagicReads(s, blockSize100k);
    ReadsRuns(s, MagicBits(blockSize100k), s1, d1.left);
    SameDecode(Driver(s, StreamBits(ds, blockSize100k) + pad, [], 0, false), d1);
  }

  lemma StreamParts(ds: seq<Done>, blockSize100k: int, pad: seq<bool>)
    requires GoodDones(ds, blockSize100k) && 1 <= blockSize100k <= 9
    ensures StreamBits(ds, blockSize100k) + pad
         == MagicBits(blockSize100k) +
           (BitsFrom(ds, blockSize100k, 0) + (TrailerBits(CombinedOf(ds, blockSize100k)) + pad))
  {
    assert ds[..0] == [];
    assert BlocksBits([], blockSize100k) == [];
    BlocksSplit(ds, blockSize100k, 0);
    Regroup4(MagicBits(blockSize100k), BlocksBits(ds, blockSize100k), TrailerBits(CombinedOf(ds, blockSize100k)), pad);
    assert [] + BitsFrom(ds, blockSize100k, 0) == BitsFrom(ds, blockSize100k, 0);
    hide *;
    assert StreamBits(ds, blockSize100k) == MagicBits(blockSize100k) + BlocksBits(ds, blockSize100k) +
      TrailerBits(CombinedOf(ds, blockSize100k))
      by { StreamBitsAre(ds, blockSize100k); }
  }

  lemma StreamBitsAre(ds: seq<Done>, blockSize100k: int)
    requires GoodDones(ds, blockSize100k) && 1 <= blockSize100k <= 9
    ensures StreamBits(ds, blockSize100k) == MagicBits(blockSize100k) + BlocksBits(ds, blockSize100k) +
      TrailerBits(CombinedOf(ds, blockSize100k))
  {
    hide MagicBits, BlocksBits, TrailerBits, CombinedOf, GoodDones;
  }

  lemma Regroup4(m: seq<bool>, b: seq<bool>, t: seq<bool>, pad: seq<bool>)
    ensures m + b + t + pad == m + (b + (t + pad))
  {
  }

  lemma FirstStand(d: Driver, ds: seq<Done>, blockSize100k: int, tail: seq<bool>)
    requires GoodDones(ds, blockSize100k) && 1 <= blockSize100k <= 9 && d.s.at == BlkHdr(0) &&
      d.s.blockSize100k == blockSize100k
    requires d == Driver(d.s, BitsFrom(ds, blockSize100k, 0) + tail, [], 0, false)
    ensures Stands(d, ds, blockSize100k, 0, tail)
  {
    assert ds[..0] == [];
  }

  lemma LastStand(d: Driver, ds: seq<Done>, blockSize100k: int, tail: seq<bool>)
    requires Stands(d, ds, blockSize100k, |ds|, tail)
    ensures GoodDones(ds, blockSize100k) && d.left == tail && d.s.at == BlkHdr(0) && !d.wrong
    ensures d.out == Restored(ds, blockSize100k) && d.combined == CombinedOf(ds, blockSize100k)
  {
    assert ds[..|ds|] == ds;
  }

  /** Decompression gives back what the blocks of a stream stand for, all checksums agreeing, and uses up the stream
      to its last bit; whatever follows (the padding of the last byte) is left. */
  lemma StreamComesBack(ds: seq<Done>, blockSize100k: int, s: State, pad: seq<bool>)
    requires GoodDones(ds, blockSize100k) && 1 <= blockSize100k <= 9 && s.at == Magic(0)
    ensures var d := Decode(Driver(s, StreamBits(ds, blockSize100k) + pad, [], 0, false));
            !d.wrong && d.s.at == Idle && d.left == pad && d.out == Restored(ds, blockSize100k)
  {
    hide *;
    var tail := TrailerBits(CombinedOf(ds, blockSize100k)) + pad;
    var d1 := StreamStarts(ds, blockSize100k, s, pad);
    var d2 := BlocksDecoded(d1, ds, blockSize100k, 0, tail);
    LastStand(d2, ds, blockSize100k, tail);
    var t := d2.s.(storedCombinedCRC := AsNumber(d2.combined), at := Idle);
    TrailerReads(d2.s, d2.combined);
    ReadsRuns(d2.s, TrailerBits(d2.combined), t, pad);
    OutputNeedsNone(t);
    RunStops(t, pad);
    DecodeEnds(d2, t, pad);
  }

  /** Two drivers whose machines run to the same place go on in the same way. */
  lemma SameDecode(d: Driver, d1: Driver)
    requires RunOn(d.s, d.left) == RunOn(d1.s, d1.left) && d1 == d.(s := d1.s, left := d1.left)
    requires d.s.at != Output && d1.s.at != Output
    ensures Decode(d) == Decode(d1)
  {
    hide OutputStep, RunOn;
  }

  lemma {:induction false} RunConsumes(s: State, bits: seq<bool>)
    ensures |RunOn(s, bits).1| <= |bits| && (RunOn(s, bits).0.at != s.at ==> |RunOn(s, bits).1| < |bits|)
    decreases |bits|
  {
    hide Step;
    var n := Need(s);
    if n != 0 && |bits| >= n { RunConsumes(Step(s, Value(bits[..n])), bits[n..]); }
  }
}

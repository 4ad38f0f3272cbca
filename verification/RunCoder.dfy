/** ADD_CHAR_TO_BLOCK and add_pair_to_block: input bytes are gathered into runs, and runs written to the block. */
module RunCoder {

  import opened Rotations
  import opened Rle
  import opened BlockCrc
  import MtfEncode
  import RleDecoder

  /** The next run may have this byte. */
  ghost predicate Follows(runs: seq<Run>, ch: int) {
    runs == [] || runs[|runs| - 1].ch != ch || runs[|runs| - 1].len == 255
  }

  lemma RunsSnoc(runs: seq<Run>, r: Run)
    requires Runs(runs) && Follows(runs, r.ch)
    ensures Runs(runs + [r])
  {
    var rs := runs + [r];
    forall i | 0 <= i < |rs| - 1 ensures rs[i].ch != rs[i + 1].ch || rs[i].len == 255 {
      if i < |runs| - 1 { assert runs[i].ch != runs[i + 1].ch || runs[i].len == 255; }
    }
  }

  /** The block is made of these runs, everything in it is marked as used, and the checksum covers what it stands
      for. */
  ghost predicate Made(block: seq<int>, inUse: seq<bool>, crc: bv32, runs: seq<Run>) {
    && Runs(runs) && block == Written(runs) && MtfEncode.UsesAll(block, inUse)
    && crc == CrcOf(0xffff_ffff, Expanded(runs))
  }

  lemma MadeNothing()
    ensures Made([], seq(256, k => false), 0xffff_ffff, [])
  {
  }

  /** The checksum of n more equal bytes. */
  method CrcRun(crc0: bv32, ch: int, len: int, ghost s: seq<int>) returns (crc: bv32)
    requires 0 <= ch < 256 && len >= 0 && Bytes(s) && crc0 == CrcOf(0xffff_ffff, s)
    ensures Bytes(s + Rep(ch, len)) && crc == CrcOf(0xffff_ffff, s + Rep(ch, len))
  {
    hide CrcOf, Update;
    crc := crc0;
    assert s + Rep(ch, 0) == s;
    for i := 0 to len
      invariant Bytes(s + Rep(ch, i)) && crc == CrcOf(0xffff_ffff, s + Rep(ch, i))
    {
      RleDecoder.CrcSnoc(0xffff_ffff, s + Rep(ch, i), ch);
      assert s + Rep(ch, i) + [ch] == s + Rep(ch, i + 1);
      crc := Update(crc, ch as bv32);
    }
  }

  lemma PairMade(block: seq<int>, inUse: seq<bool>, crc: bv32, runs: seq<Run>, r: Run, inUse': seq<bool>, crc': bv32)
    requires Made(block, inUse, crc, runs) && Follows(runs, r.ch)
    requires inUse' == if r.len < 4 then inUse[r.ch := true] else inUse[r.ch := true][r.len - 4 := true]
    requires crc' == CrcOf(0xffff_ffff, Expanded(runs) + Rep(r.ch, r.len))
    ensures Made(block + Pair(r.ch, r.len), inUse', crc', runs + [r])
    ensures Expanded(runs + [r]) == Expanded(runs) + Rep(r.ch, r.len)
  {
    hide CrcOf, Written, Expanded, Rep, Runs;
    RunsSnoc(runs, r);
    WrittenSnoc(runs, r);
  }

  class Coder {
    var block: seq<int>
    var inUse: seq<bool>
    var blockCRC: bv32
    var state_in_ch: int
    var state_in_len: int
    /** The runs that make up the block. */
    ghost var runs: seq<Run>

    ghost predicate Valid()
      reads this
    {
      Made(block, inUse, blockCRC, runs) && GoodRun(runs, state_in_ch, state_in_len)
    }

    /** What the block stands for. */
    ghost function InBlock(): seq<int>
      reads this
      requires Valid()
    {
      Expanded(runs)
    }

    /** The run that is still open. */
    ghost function Pending(): (r: seq<int>)
      reads this
      requires Valid()
    {
      Rep(state_in_ch, state_in_len)
    }

    lemma Parts()
      requires Valid()
      ensures Made(block, inUse, blockCRC, runs) && InBlock() == Expanded(runs)
    {
      hide Made, GoodRun, Expanded;
    }

    /** isempty_RL. */
    predicate Empty()
      reads this
    {
      !(state_in_ch < 256 && state_in_len > 0)
    }

    lemma NonePending()
      requires Valid() && Empty()
      ensures Pending() == []
    {
      hide Made;
    }

    constructor ()
      ensures Valid() && Empty() && block == [] && runs == [] && InBlock() == [] && Pending() == []
    {
      MadeNothing();
      block, inUse, blockCRC, runs := [], seq(256, k => false), 0xffff_ffff, [];
      state_in_ch, state_in_len := 256, 0;
    }

    /** prepare_new_block: a run that is open stays open. */
    method PrepareNewBlock()
      requires Valid()
      modifies this`block, this`inUse, this`blockCRC, this`runs
      ensures Valid() && block == [] && runs == [] && InBlock() == [] && Pending() == old(Pending()) &&
        Empty() == old(Empty())
    {
      MadeNothing();
      hide Made;
      block, inUse, blockCRC, runs := [], seq(256, k => false), 0xffff_ffff, [];
    }

    /** add_pair_to_block: at most five bytes for a run of up to 255. */
    method AddPairToBlock()
      requires Made(block, inUse, blockCRC, runs) && Follows(runs, state_in_ch) && 0 <= state_in_ch < 256 &&
        1 <= state_in_len <= 255
      modifies this`block, this`inUse, this`blockCRC, this`runs
      ensures Made(block, inUse, blockCRC, runs) && runs == old(runs) + [Run(state_in_ch, state_in_len)]
      ensures Expanded(runs) == old(Expanded(runs)) + Rep(state_in_ch, state_in_len)
      ensures block == old(block) + Pair(state_in_ch, state_in_len)
    {
      hide *;
      block, inUse, blockCRC := AddPair(block, inUse, blockCRC, state_in_ch, state_in_len, runs);
      runs := runs + [Run(state_in_ch, state_in_len)];
    }

    /** flush_RL. */
    method FlushRL()
      requires Valid()
      modifies this
      ensures Valid() && Empty() && Pending() == [] && InBlock() == old(InBlock() + Pending())
      ensures old(|block|) <= |block| <= old(|block|) + 5
    {
      hide Made, Expanded;
      assert Expanded(runs) + Rep(256, 0) == Expanded(runs);
      if state_in_ch < 256 {
        AddPairToBlock();
      }
      state_in_ch, state_in_len := 256, 0;
    }

    /** ADD_CHAR_TO_BLOCK. */
    method AddChar(zchh: int)
      requires Valid() && 0 <= zchh < 256 && (Empty() ==> runs == [])
      modifies this
      ensures Valid() && !Empty() && InBlock() + Pending() == old(InBlock() + Pending()) + [zchh]
      ensures old(|block|) <= |block| <= old(|block|) + 5
    {
      hide Made, Expanded;
      OneMore(Expanded(runs), zchh, state_in_len);
      if zchh != state_in_ch && state_in_len == 1 {
        AddOne();
        state_in_ch := zchh;
      } else if zchh != state_in_ch || state_in_len == 255 {
        if state_in_ch < 256 { AddPairToBlock(); }
        assert Follows(runs, zchh);
        OneMore(Expanded(runs), zchh, 0);
        state_in_ch, state_in_len := zchh, 1;
      } else {
        state_in_len := state_in_len + 1;
      }
    }

    /** The common case: one byte by itself goes to the block without the general routine. */
    method AddOne()
      requires Made(block, inUse, blockCRC, runs) && Follows(runs, state_in_ch) && 0 <= state_in_ch < 256
      modifies this`block, this`inUse, this`blockCRC, this`runs
      ensures Made(block, inUse, blockCRC, runs) && runs == old(runs) + [Run(state_in_ch, 1)]
      ensures Expanded(runs) == old(Expanded(runs)) + [state_in_ch] && |block| == old(|block|) + 1
    {
      OneMade(block, inUse, blockCRC, runs, state_in_ch);
      hide Made, Written, Expanded, CrcOf, Update;
      var ch := state_in_ch;
      blockCRC := Update(blockCRC, ch as bv32);
      inUse := inUse[ch := true];
      block := block + [ch];
      runs := runs + [Run(ch, 1)];
    }
  }

  lemma OneMade(block: seq<int>, inUse: seq<bool>, crc: bv32, runs: seq<Run>, ch: int)
    requires Made(block, inUse, crc, runs) && Follows(runs, ch) && 0 <= ch < 256
    ensures |inUse| == 256 && Made(block + [ch], inUse[ch := true], Update(crc, ch as bv32), runs + [Run(ch, 1)])
    ensures Expanded(runs + [Run(ch, 1)]) == Expanded(runs) + [ch]
  {
    assert Rep(ch, 1) == [ch] && Pair(ch, 1) == [ch];
    assert |inUse| == 256;
    hide Made, CrcOf, Update, Written, Expanded, Rep, Pair;
    MadeCrc(block, inUse, crc, runs);
    RleDecoder.CrcSnoc(0xffff_ffff, Expanded(runs), ch);
    PairMade(block, inUse, crc, runs, Run(ch, 1), inUse[ch := true], Update(crc, ch as bv32));
  }

  /** The body of add_pair_to_block. */
  method AddPair(block0: seq<int>, inUse0: seq<bool>, crc0: bv32, ch: int, len: int, ghost runs: seq<Run>)
    returns (block: seq<int>, inUse: seq<bool>, crc: bv32)
    requires Made(block0, inUse0, crc0, runs) && Follows(runs, ch) && 0 <= ch < 256 && 1 <= len <= 255
    ensures Made(block, inUse, crc, runs + [Run(ch, len)]) &&
      Expanded(runs + [Run(ch, len)]) == Expanded(runs) + Rep(ch, len)
    ensures block == block0 + Pair(ch, len)
  {
    assert |inUse0| == 256;
    hide CrcOf, Update, Made, Written, Expanded;
    MadeCrc(block0, inUse0, crc0, runs);
    crc := CrcRun(crc0, ch, len, Expanded(runs));
    block, inUse := AppendRun(block0, inUse0, ch, len);
    hide Pair, Rep, Follows;
    PairMade(block0, inUse0, crc0, runs, Run(ch, len), inUse, crc);
  }

  method AppendRun(block0: seq<int>, inUse0: seq<bool>, ch: int, len: int) returns (block: seq<int>, inUse: seq<bool>)
    requires |inUse0| == 256 && 0 <= ch < 256 && 1 <= len <= 255
    ensures block == block0 + Pair(ch, len)
    ensures inUse == if len < 4 then inUse0[ch := true] else inUse0[ch := true][len - 4 := true]
  {
    inUse := inUse0[ch := true];
    if len == 1 {
      block := block0 + [ch];
    } else if len == 2 {
      block := block0 + [ch] + [ch];
    } else if len == 3 {
      block := block0 + [ch] + [ch] + [ch];
    } else {
      inUse := inUse[len - 4 := true];
      block := block0 + [ch] + [ch] + [ch] + [ch] + [len - 4];
    }
  }

  lemma MadeCrc(block: seq<int>, inUse: seq<bool>, crc: bv32, runs: seq<Run>)
    requires Made(block, inUse, crc, runs)
    ensures crc == CrcOf(0xffff_ffff, Expanded(runs))
  {
  }

  lemma OneMore(x: seq<int>, c: int, n: nat)
    ensures x + Rep(c, n + 1) == x + Rep(c, n) + [c]
    ensures x + Rep(c, 0) == x && x + Rep(c, 1) == x + [c]
  {
  }

  /** No run is open, or one that may follow those in the block. */
  ghost predicate GoodRun(runs: seq<Run>, ch: int, len: int) {
    (ch == 256 && len == 0) || (0 <= ch < 256 && 1 <= len <= 255 && Follows(runs, ch))
  }
}

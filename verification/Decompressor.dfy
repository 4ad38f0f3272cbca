/** BZ2_bzDecompress: calls of the decompressor and of its output, however the input and the output are sliced, and what
    they have to do with the specification of a stream. */
module Decompressor {

  import opened Rotations
  import opened Rle
  import opened Sequences
  import opened BlockCrc
  import opened BitStream
  import opened BitReader
  import opened Machine
  import opened MachineRun
  import opened DStateView
  import opened DecompressState
  import opened StreamCode
  import opened Randomise
  import O = BlockOutput
  import SmallDecoder
  import InverseBwt
  import Compressor

  ghost function Begun(bits: seq<bool>): Driver { Driver(Fresh(), bits, [], 0, false) }

  /** After the bytes taken so far the specification stands where the driver stands, whatever bits follow. */
  ghost predicate Follows(taken: seq<int>, dr: Driver)
    requires Bytes(taken)
  {
    forall more: seq<bool> :: Decode(Begun(ByteBits(taken) + more)) == Decode(dr.(left := dr.left + more))
  }

  lemma FollowsStart()
    ensures Follows([], Begun([]))
  {
    hide Decode;
    forall more: seq<bool>
      ensures Decode(Begun(ByteBits([]) + more)) == Decode(Begun([]).(left := Begun([]).left + more)) {
      assert ByteBits([]) + more == more && [] + more == more;
    }
  }

  /** Two drivers whose machines run to the same place. */
  lemma DecodeSkips(d: Driver, x: seq<bool>, t: State, y: seq<bool>)
    requires d.s.at != Output && RunOn(d.s, x) == RunOn(t, y)
    ensures Decode(d.(left := x)) == Decode(d.(s := t, left := y))
  {
    hide OutputStep;
    if t.at == Output {
      RunStops(t, y);
    }
  }

  /** A call of the decompressor uses some of the bits held and of the bits given; what it leaves is in its buffer. */
  lemma RunUses(s: State, held: seq<bool>, x: seq<bool>, y: seq<bool>, held': seq<bool>, more: seq<bool>)
    requires RunOn(s, held + (x + y)).1 == held' + y
    ensures RunOn(s, held + (x + more)) == RunOn(RunOn(s, held + (x + y)).0, held' + more)
  {
    hide *;
    var used := RunReads(s, held + (x + y));
    OtherEnd(held, x, used, held', y, more);
    ReadsRuns(s, used, RunOn(s, held + (x + y)).0, held' + more);
  }

  lemma OtherEnd(a: seq<bool>, b: seq<bool>, c: seq<bool>, d: seq<bool>, y: seq<bool>, z: seq<bool>)
    requires a + (b + y) == c + (d + y)
    ensures a + (b + z) == c + (d + z)
  {
    var n := |a| + |b|;
    assert (a + (b + y))[..n] == a + b && (c + (d + y))[..n] == c + d;
    assert a + (b + z) == (a + b) + z && c + (d + z) == (c + d) + z;
  }

  /** Such a call keeps the driver where the specification is. */
  lemma FollowsRun(taken: seq<int>, dr: Driver, given: seq<int>, rest: seq<int>, t: State, held': seq<bool>)
    requires Bytes(taken) && Follows(taken, dr) && dr.s.at != Output && Bytes(given) && EndOf(rest, given) &&
      Bytes(rest)
    requires RunOn(dr.s, dr.left + ByteBits(given)) == (t, held' + ByteBits(rest))
    ensures Bytes(taken + Taken(rest, given)) && Follows(taken + Taken(rest, given), dr.(s := t, left := held'))
  {
    hide *;
    var x := TakenBits(taken, given, rest);
    FollowsBits(taken, taken + Taken(rest, given), dr, x, ByteBits(rest), t, held');
  }

  lemma TakenBits(taken: seq<int>, given: seq<int>, rest: seq<int>) returns (x: seq<bool>)
    requires Bytes(taken) && Bytes(given) && EndOf(rest, given) && Bytes(rest)
    ensures ByteBits(given) == x + ByteBits(rest)
    ensures Bytes(taken + Taken(rest, given)) && ByteBits(taken + Taken(rest, given)) == ByteBits(taken) + x
  {
    hide ByteBits;
    var front := Taken(rest, given);
    x := ByteBits(front);
    assert given == front + rest;
    ByteBitsJoin(front, rest);
    ByteBitsJoin(taken, front);
  }

  lemma FollowsBits(taken: seq<int>, now: seq<int>, dr: Driver, x: seq<bool>, y: seq<bool>, t: State, held': seq<bool>)
    requires Bytes(taken) && Follows(taken, dr) && dr.s.at != Output && Bytes(now) &&
      ByteBits(now) == ByteBits(taken) + x
    requires RunOn(dr.s, dr.left + (x + y)) == (t, held' + y)
    ensures Follows(now, dr.(s := t, left := held'))
  {
    hide ByteBits, RunOn, Decode, OutputStep;
    forall more: seq<bool>
      ensures Decode(Begun(ByteBits(now) + more)) == Decode(dr.(s := t, left := held').(left := held' + more)) {
      FollowsAt(taken, dr, x, more);
      RunUses(dr.s, dr.left, x, y, held', more);
      DecodeSkips(dr, dr.left + (x + more), t, held' + more);
    }
  }

  lemma FollowsAt(taken: seq<int>, dr: Driver, x: seq<bool>, more: seq<bool>)
    requires Bytes(taken) && Follows(taken, dr)
    ensures Decode(Begun(ByteBits(taken) + x + more)) == Decode(dr.(left := dr.left + (x + more)))
  {
    hide ByteBits, Decode;
    assert ByteBits(taken) + (x + more) == ByteBits(taken) + x + more;
  }

  /** So does the end of the output of a block. */
  lemma FollowsOutput(taken: seq<int>, dr: Driver)
    requires Bytes(taken) && Follows(taken, dr) && dr.s.at == Output && !OutputStep(dr).wrong
    ensures Follows(taken, OutputStep(dr))
  {
    hide ByteBits, RunOn, Decode, OutputStep;
    var d2 := OutputStep(dr);
    forall more: seq<bool> ensures Decode(Begun(ByteBits(taken) + more)) == Decode(d2.(left := d2.left + more)) {
      OutputAlone(dr, dr.left + more);
      DecodeOutput(dr.(left := dr.left + more));
      assert d2.left == dr.left by { OutputAlone(dr, dr.left); }
    }
  }

  /** Output has nothing to do with the bits that are left. */
  lemma OutputAlone(d: Driver, x: seq<bool>)
    ensures OutputStep(d.(left := x)) == OutputStep(d).(left := x) && OutputStep(d).left == d.left
  {
    hide CrcFor, UnRle, Complete, Shown, InverseBwt.Unsort, Combine, AsNumber;
  }

  lemma DecodeOutput(d: Driver)
    requires d.s.at == Output
    ensures Decode(d) == if OutputStep(d).wrong then OutputStep(d) else Decode(OutputStep(d))
  {
    hide OutputStep, RunOn;
  }

  // ----- what goes wrong -----

  /** Decoding fails, whatever bits follow. */
  ghost predicate Spoiled(taken: seq<int>)
    requires Bytes(taken)
  {
    forall more: seq<bool> :: var d := Decode(Begun(ByteBits(taken) + more)); d.wrong || d.s.at.Failed? || d.s.at.Stuck?
  }

  lemma DecodeStops(d: Driver)
    requires Need(d.s) == 0 && d.s.at != Output
    ensures Decode(d) == d.(wrong := d.wrong || (d.s.at == Idle && d.s.storedCombinedCRC != AsNumber(d.combined)))
  {
    RunStops(d.s, d.left);
    hide OutputStep, RunOn, AsNumber;
  }

  lemma SpoiledRun(taken: seq<int>, dr: Driver)
    requires Bytes(taken) && Follows(taken, dr)
    requires dr.s.at.Failed? || dr.s.at.Stuck? || (dr.s.at == Idle && dr.s.storedCombinedCRC != AsNumber(dr.combined))
    ensures Spoiled(taken)
  {
    hide ByteBits, Decode, AsNumber;
    forall more: seq<bool>
      ensures var d := Decode(Begun(ByteBits(taken) + more)); d.wrong || d.s.at.Failed? || d.s.at.Stuck? {
      DecodeStops(dr.(left := dr.left + more));
    }
  }

  lemma SpoiledOutput(taken: seq<int>, dr: Driver)
    requires Bytes(taken) && Follows(taken, dr) && dr.s.at == Output && OutputStep(dr).wrong
    ensures Spoiled(taken)
  {
    hide ByteBits, OutputStep, RunOn, Decode;
    forall more: seq<bool>
      ensures var d := Decode(Begun(ByteBits(taken) + more)); d.wrong || d.s.at.Failed? || d.s.at.Stuck? {
      OutputAlone(dr, dr.left + more);
      DecodeOutput(dr.(left := dr.left + more));
    }
  }

  // ----- the output of a block -----

  /** done is what has been put out of the block, rest what is still to come. */
  ghost predicate Putting(dr: Driver, b: seq<int>, crc: bv32, done: seq<int>, rest: seq<int>, put: seq<int>) {
    && 0 <= dr.s.origPtr < |dr.s.block|
    && b == Shown(dr.s.blockRandomised, InverseBwt.Unsort(dr.s.block, dr.s.origPtr)) && Bytes(b) && Bytes(done)
    && (Complete(b) ==> put == dr.out + done && UnRle(b) == done + rest && crc == CrcOf(0xffff_ffff, done))
  }

  lemma PuttingStarts(dr: Driver, b: seq<int>, put: seq<int>)
    requires 0 <= dr.s.origPtr < |dr.s.block| &&
      b == Shown(dr.s.blockRandomised, InverseBwt.Unsort(dr.s.block, dr.s.origPtr)) && Bytes(b) && put == dr.out
    ensures Putting(dr, b, 0xffff_ffff, [], UnRle(b), put)
  {
    hide Shown, InverseBwt.Unsort, UnRle, Complete;
  }

  lemma PuttingOn(dr: Driver, b: seq<int>, crc: bv32, done: seq<int>, rest: seq<int>, put: seq<int>, piece: seq<int>,
      rest': seq<int>)
    requires Putting(dr, b, crc, done, rest, put) && Bytes(piece) && (Complete(b) ==> rest == piece + rest')
    ensures Putting(dr, b, CrcOf(crc, piece), done + piece, rest', put + piece)
  {
    hide Shown, InverseBwt.Unsort, UnRle, Complete, CrcOf;
    CrcJoin(0xffff_ffff, done, piece);
    Assoc(done, piece, rest');
    Assoc(dr.out, done, piece);
  }

  /** The end of a block, if the checksum agrees, and if it does not. */
  lemma PuttingEnds(dr: Driver, b: seq<int>, crc: bv32, done: seq<int>, put: seq<int>)
    requires Putting(dr, b, crc, done, [], put) && Complete(b) && !dr.wrong
    ensures AsNumber(Finish(crc)) == dr.s.storedBlockCRC ==>
              OutputStep(dr) == dr.(out := put, combined := Combine(dr.combined, Finish(crc)),
                s := dr.s.(at := BlkHdr(0)))
    ensures AsNumber(Finish(crc)) != dr.s.storedBlockCRC ==> OutputStep(dr).wrong
  {
    hide Shown, InverseBwt.Unsort, UnRle, Complete, CrcOf, Combine, Finish, AsNumber;
    assert done + [] == done;
  }

  lemma PuttingBroken(dr: Driver, b: seq<int>, crc: bv32, done: seq<int>, rest: seq<int>, put: seq<int>)
    requires Putting(dr, b, crc, done, rest, put) && !Complete(b)
    ensures OutputStep(dr).wrong
  {
    hide Shown, InverseBwt.Unsort, UnRle, Complete, CrcOf, Combine, Finish, AsNumber;
  }

  lemma TablesAre(d: DState)
    ensures d.BodyNow().small == d.smallDecompress && d.BodyNow().tt == d.tt[..] && d.BodyNow().ll4 == d.ll4 &&
      d.BodyNow().cftab == d.cftab
    ensures TablesOf(d.BodyNow(), d.s) == O.Tables(d.smallDecompress, d.s.blockRandomised, d.tt[..],
              SmallDecoder.Links(d.tt[..], d.ll4, d.cftab, d.s.blockSize100k), d.s.blockSize100k)
  {
  }

  lemma ReadyRange(t: O.Tables, l: seq<int>, origPtr: int, turns: nat)
    requires O.Ready(t, l, origPtr, turns)
    ensures 0 <= origPtr < |l|
  {
  }

  lemma OutputBytes(o: O.Output)
    requires o.Valid()
    ensures Bytes(o.m.b)
  {
    hide O.Walking;
  }

  // ----- the driver -----

  /** The stream and its DState; the part of DState that output works on is an object of its own. */
  class Stream {
    const d: DState
    var output: O.Output?
    var calculatedCombinedCRC: bv32
    /** Where the specification stands; while a block is put out, in front of that block. */
    ghost var dr: Driver
    /** All bytes taken in and put out so far, and those of the block that is being put out. */
    ghost var taken: seq<int>
    ghost var put: seq<int>
    ghost var done: seq<int>

    ghost predicate Valid()
      reads this, d, d.reader, d.mtfa, d.mtfbase, d.tt, output
    {
      && d.Valid() && Bytes(taken) && Follows(taken, dr) && dr.s == d.s && dr.left == d.reader.Held() && !dr.wrong
      && !d.s.at.Failed?
      && dr.combined == calculatedCombinedCRC
      && if d.s.at == Output then
           output != null && output.Valid() &&
             Putting(dr, output.m.b, output.calculatedBlockCRC, done, output.Remaining(), put)
         else put == dr.out
    }

    /** BZ2_bzDecompressInit */
    constructor (small: bool)
      ensures Valid() && d.smallDecompress == small && fresh(d) && fresh(d.reader) && fresh(d.mtfa) &&
        fresh(d.mtfbase) && fresh(d.tt) && taken == [] && put == []
      ensures d.s == Fresh()
    {
      hide Decode, DState.Valid;
      FollowsStart();
      d := new DState(small);
      output, calculatedCombinedCRC := null, 0;
      dr, taken, put, done := Begun([]), [], [], [];
    }

    lemma Now()
      requires Valid()
      ensures Bytes(taken) && Follows(taken, dr) && dr.s == d.s && !dr.wrong && dr.combined == calculatedCombinedCRC
      ensures d.Valid() && d.reader.Valid() && dr.left == d.reader.Held()
      ensures d.s.at == Output ==>
        output != null && output.Valid() &&
          Putting(dr, output.m.b, output.calculatedBlockCRC, done, output.Remaining(), put)
      ensures d.s.at != Output ==> put == dr.out
    {
      hide DState.Valid, Follows, Reader.Valid, Reader.Held, Putting, O.Output.Valid, O.Output.Remaining;
      d.StateIs();
    }

    lemma Settled()
      requires d.Valid() && d.reader.Valid() && Bytes(taken) && Follows(taken, dr) && dr.s == d.s &&
        dr.left == d.reader.Held() && !dr.wrong
      requires !d.s.at.Failed? && dr.combined == calculatedCombinedCRC && (d.s.at != Output ==> put == dr.out)
      requires d.s.at == Output ==>
        output != null && output.Valid() &&
          Putting(dr, output.m.b, output.calculatedBlockCRC, done, output.Remaining(), put)
      ensures Valid()
    {
      hide DState.Valid, Follows, Reader.Valid, Reader.Held, Putting, O.Output.Valid, O.Output.Remaining;
    }

    lemma Parts()
      requires Valid()
      ensures Bytes(taken) && d.Valid() && d.reader.Valid() && d.state == d.s.at &&
        (Reading(d.state) || d.state == Output || d.state == Idle)
      ensures Reading(d.state) ==> d.s.at != Output && d.s.at != Idle
    {
      hide DState.Valid, Follows, Reader.Valid, Reader.Held, Putting, O.Output.Valid, O.Output.Remaining;
      d.StateIs();
      d.NotStuck();
    }

    /** All of the block has been put out. */
    ghost predicate Ended()
      reads this, output
    {
      output != null && output.Valid() && Complete(output.m.b) && output.Remaining() == []
    }

    /** A turn of the output of a block. */
    method PutOut(avail_out: nat) returns (corrupt: bool, finished: bool, piece: seq<int>)
      requires Valid() && d.state == Output
      modifies this`put, this`done, output
      ensures corrupt ==> Spoiled(taken) && piece == [] && put == old(put)
      ensures !corrupt ==>
        Valid() && put == old(put) + piece && |piece| <= avail_out && (!finished ==> |piece| == avail_out)
      ensures finished ==> Ended()
    {
      hide DState.Valid, Follows, Decode, Putting, Spoiled, Complete, UnRle, CrcOf, OutputStep, O.Output.Remaining,
        O.Output.Valid;
      d.StateIs();
      ghost var meant, crc, rest := output.m, output.calculatedBlockCRC, output.Remaining();
      corrupt, piece := output.PutOut(avail_out);
      if corrupt {
        PuttingBroken(dr, meant.b, crc, done, rest, put);
        SpoiledOutput(taken, dr);
        return true, false, [];
      }
      PuttingOn(dr, meant.b, crc, done, rest, put, piece, output.Remaining());
      done := done + piece;
      put := put + piece;
      finished := output.nblock_used == output.save_nblock + 1 && output.state_out_len == 0;
      if finished { output.AllPut(); }
    }

    /** The checks at the end of a block. */
    method EndBlock() returns (ok: bool)
      requires Valid() && d.state == Output && Ended()
      modifies this`calculatedCombinedCRC, this`dr, d`state, d`s
      ensures ok ==> Valid() && d.state == BlkHdr(0) && d.reader.Valid() && d.reader.Left() == old(d.reader.Left())
      ensures !ok ==> Spoiled(taken)
    {
      hide DState.Valid, Follows, Decode, Putting, Spoiled, Complete, UnRle, CrcOf, OutputStep, O.Output.Remaining,
        O.Output.Valid, Reader.Valid, Reader.Left, Reader.Held, Combine, Finish, AsNumber;
      d.StateIs();
      var crc := Finish(output.calculatedBlockCRC);
      PuttingEnds(dr, output.m.b, output.calculatedBlockCRC, done, put);
      if AsNumber(crc) != d.storedBlockCRC {
        SpoiledOutput(taken, dr);
        return false;
      }
      FollowsOutput(taken, dr);
      calculatedCombinedCRC := Combine(calculatedCombinedCRC, crc);
      dr := OutputStep(dr);
      d.NextBlock();
      ok := true;
    }

    /** A call of BZ2_decompress, and, when it has come to the end of a block, the start of its output. */
    method ReadOn() returns (ret: Return)
      requires Valid() && Reading(d.state)
      modifies this`output, this`dr, this`taken, this`done, d, d.reader, d.mtfa, d.mtfbase, d.tt
      ensures d.reader.Valid() && (d.tt == old(d.tt) || fresh(d.tt)) && (output == old(output) || fresh(output))
      ensures ret == Ok || ret == StreamEnd ==> Valid()
      ensures ret != SequenceError && (ret == StreamEnd ==> d.s.at == Idle)
      ensures ret == Ok ==>
        d.s.at == Output || (d.reader.next_in == [] && Reading(d.s.at) && RunOn(d.s, dr.left) == (d.s, dr.left))
      ensures d.s.at == Output ==> output != null && fresh(output) && |d.reader.Left()| < |old(d.reader.Left())|
      ensures ret != Ok && ret != StreamEnd ==> Bytes(taken) && Spoiled(taken)
      ensures EndOf(d.reader.next_in, old(d.reader.next_in)) &&
        taken == old(taken) + Taken(d.reader.next_in, old(d.reader.next_in))
    {
      hide *;
      Parts();
      Now();
      d.reader.LeftIs();
      ghost var given, s0, left0 := d.reader.next_in, d.s, d.reader.Left();
      ret := d.Decompress();
      d.reader.LeftIs();
      FollowsRun(taken, dr, given, d.reader.next_in, d.s, d.reader.Held());
      RunConsumes(s0, left0);
      RunSettled(s0, left0);
      taken := taken + Taken(d.reader.next_in, given);
      dr := dr.(s := d.s, left := d.reader.Held());
      CodeIs(d.s);
      if ret != Ok && ret != StreamEnd {
        SpoiledRun(taken, dr);
        return;
      }
      d.StateIs();
      if d.state == Output {
        StartOutput();
      } else {
        NoBytesLeft(d.reader.Held(), d.reader.next_in);
      }
      Settled();
    }

    /** The first byte of a block is fetched ahead. */
    method StartOutput()
      requires d.Valid() && d.state == Output && dr.s == d.s && put == dr.out
      modifies this`output, this`done
      ensures output != null && fresh(output) && output.Valid()
      ensures Putting(dr, output.m.b, output.calculatedBlockCRC, done, output.Remaining(), put)
    {
      hide *;
      d.AtOutput();
      var t := O.Tables(d.smallDecompress, d.blockRandomised, d.tt[..],
        SmallDecoder.Links(d.tt[..], d.ll4, d.cftab, d.blockSize100k), d.blockSize100k);
      assert t == TablesOf(d.BodyNow(), d.s) by { TablesAre(d); }
      ReadyRange(t, d.s.block, d.origPtr, d.turns);
      output := new O.Output(t, d.origPtr, d.save.nblock, d.s.block, d.turns);
      done := [];
      OutputBytes(output);
      PuttingStarts(dr, output.m.b, put);
    }

    /** A turn of BZ2_bzDecompress in which a block is put out, as far as there is room. */
    method Turn(avail_out: nat) returns (go: bool, piece: seq<int>, ret: Return)
      requires Valid() && d.state == Output
      modifies this`put, this`done, this`calculatedCombinedCRC, this`dr, output, d`state, d`s
      ensures |piece| <= avail_out && put == old(put) + piece && (go || ret == Ok ==> Valid() && d.reader.Valid())
      ensures go ==> d.state == BlkHdr(0) && d.reader.Left() == old(d.reader.Left())
      ensures !go && ret == Ok ==> |piece| == avail_out
      ensures !go && ret != Ok ==> ret == Bad(DataError) && Spoiled(taken)
    {
      hide *;
      var corrupt, finished;
      corrupt, finished, piece := PutOut(avail_out);
      if corrupt {
        assert put + piece == put;
        return false, piece, Bad(DataError);
      }
      if !finished {
        Parts();
        return false, piece, Ok;
      }
      go := EndBlock();
      ret := if go then Ok else Bad(DataError);
    }

    /** The end of the stream: the checksum over all blocks. */
    method EndStream() returns (ret: Return)
      requires Valid() && d.s.at == Idle
      ensures (ret == StreamEnd || ret == Bad(DataError)) && Bytes(taken)
      ensures if ret == StreamEnd then AsNumber(calculatedCombinedCRC) == d.s.storedCombinedCRC else Spoiled(taken)
    {
      hide DState.Valid, Follows, Spoiled, AsNumber, Reader.Held;
      d.StateIs();
      if AsNumber(calculatedCombinedCRC) != d.storedCombinedCRC {
        SpoiledRun(taken, dr);
        return Bad(DataError);
      }
      ret := StreamEnd;
    }

    lemma Returns(ret: Return, full: bool)
      requires ret == Ok ==> Valid() && (full || (Reading(d.s.at) && RunOn(d.s, dr.left) == (d.s, dr.left)))
      requires ret == StreamEnd ==>
        Valid() && d.s.at == Idle && AsNumber(calculatedCombinedCRC) == d.s.storedCombinedCRC
      requires ret != SequenceError
      requires ret.Bad? || ret == Overrun ==> Bytes(taken) && Spoiled(taken)
      ensures After(ret, full)
    {
      hide Valid, Spoiled, AsNumber;
    }

    lemma AtEnd()
      requires Valid() && d.state == Idle
      ensures After(SequenceError, true) && After(SequenceError, false)
    {
      Parts();
      hide Valid;
    }

    /** What is known when a call returns. */
    ghost predicate After(ret: Return, full: bool)
      reads this, d, d.reader, d.mtfa, d.mtfbase, d.tt, output
    {
      match ret
      case Ok => Valid() && (full || (Reading(d.s.at) && RunOn(d.s, dr.left) == (d.s, dr.left)))
      case StreamEnd => Valid() && d.s.at == Idle && AsNumber(calculatedCombinedCRC) == d.s.storedCombinedCRC
      case SequenceError => Valid() && d.s.at == Idle
      case _ => Bytes(taken) && Spoiled(taken)
    }

    method Offer(input: seq<int>)
      requires Valid() && Bytes(input)
      modifies d.reader`next_in
      ensures Valid() && d.reader.Valid() && d.reader.next_in == input
    {
      hide Agree, Near, DState.Now, Follows, Reader.Valid, Reader.Held, Reader.Left, Putting, O.Output.Valid,
        O.Output.Remaining;
      d.reader.Offer(input);
    }

    /** From a label, with a block to be put out or not, to the end of the call or the next block. */
    method Round(room: nat) returns (go: bool, piece: seq<int>, ret: Return)
      requires Valid() && d.state != Idle
      modifies this, d, d.reader, d.mtfa, d.mtfbase, d.tt, output
      ensures d.reader.Valid() && (d.tt == old(d.tt) || fresh(d.tt)) && (output == old(output) || fresh(output))
      ensures |piece| <= room && put == old(put) + piece
      ensures EndOf(d.reader.next_in, old(d.reader.next_in)) &&
        taken == old(taken) + Taken(d.reader.next_in, old(d.reader.next_in))
      ensures go ==> Valid() && d.state == Output && |d.reader.Left()| < |old(d.reader.Left())|
      ensures !go ==>
        After(ret, |piece| == room) && ret != SequenceError && (ret == Ok ==> d.reader.next_in == [] || |piece| == room)
    {
      hide *;
      Parts();
      piece := [];
      NoneTaken(d.reader.next_in);
      assert put + piece == put && taken + [] == taken;
      if d.state == Output {
        go, piece, ret := Turn(room);
        if !go {
          Returns(ret, |piece| == room);
          return false, piece, ret;
        }
        Parts();
      }
      ret := ReadOn();
      if ret == StreamEnd {
        ret := EndStream();
        Returns(ret, |piece| == room);
        return false, piece, ret;
      }
      go := ret == Ok && d.state == Output;
      if ret == Ok { Parts(); }
      if !go { Returns(ret, |piece| == room); }
    }

    /** BZ2_bzDecompress. A call goes on until the input is used up, the room is used up, the stream ends, or it fails;
        it fails only if no stream begins with the bytes that have been taken. */
    method BzDecompress(input: seq<int>, avail_out: nat) returns (n: nat, out: seq<int>, ret: Return)
      requires Valid() && Bytes(input)
      modifies this, d, d.reader, d.mtfa, d.mtfbase, d.tt, output
      ensures n <= |input| && taken == old(taken) + input[..n] && |out| <= avail_out && put == old(put) + out
      ensures After(ret, |out| == avail_out)
      ensures ret == Ok ==> n == |input| || |out| == avail_out
      ensures old(d.s.at) == Idle ==> ret == SequenceError && n == 0 && out == []
    {
      hide *;
      Parts();
      Offer(input);
      n, out, ret := 0, [], Ok;
      var go := true;
      NoneTaken(input);
      assert taken + input[..0] == taken && put + out == put;
      if d.state == Idle {
        AtEnd();
        return 0, [], SequenceError;
      }
      while go
        invariant d.reader.Valid() && (d.tt == old(d.tt) || fresh(d.tt)) && (output == old(output) || fresh(output))
        invariant |out| <= avail_out && put == old(put) + out
        invariant EndOf(d.reader.next_in, input) && n == |input| - |d.reader.next_in| &&
          Taken(d.reader.next_in, input) == input[..n] && taken == old(taken) + Taken(d.reader.next_in, input)
        invariant go ==> Valid() && d.state != Idle
        invariant !go ==> After(ret, |out| == avail_out) && (ret == Ok ==> n == |input| || |out| == avail_out)
        decreases go, |d.reader.Left()|
      {
        var piece;
        ghost var rest := d.reader.next_in;
        go, piece, ret := Round(avail_out - |out|);
        out := out + piece;
        EndsOf(d.reader.next_in, rest, input);
        TakenIs(d.reader.next_in, input);
        n := |input| - |d.reader.next_in|;
      }
    }

    /** What the calls give for a stream that decodes to data, as long as they are fed with its bytes: they never fail,
        what they have put out is the beginning of data, at the end of the stream it is all of data, and once all bytes
        have been taken a call that does not fill its room has reached that end. */
    lemma ComesBack(bytes: seq<int>, data: seq<int>, ret: Return, full: bool)
      requires After(ret, full) && Compressor.GivesBack(Fresh(), bytes, data) && taken <= bytes
      ensures Bytes(taken) && (ret == Ok || ret == StreamEnd || ret == SequenceError) && put <= data
      ensures ret == StreamEnd ==> put == data
      ensures ret == Ok && taken == bytes ==> full
    {
      hide Valid, Decode, Follows, Spoiled, Compressor.GivesBack, RunOn;
      var rest := bytes[|taken|..];
      assert bytes == taken + rest;
      if ret != Ok && ret != StreamEnd && ret != SequenceError {
        NotSpoiled(taken, rest, bytes, data);
      } else {
        Now();
        if d.s.at == Output {
          WithinBlock(taken, rest, bytes, data, dr, output.m.b, output.calculatedBlockCRC, done, output.Remaining(),
            put);
        } else {
          Between(taken, rest, bytes, data, dr);
        }
      }
    }
  }

  lemma GivenBack(taken: seq<int>, rest: seq<int>, bytes: seq<int>, data: seq<int>) returns (d: Driver)
    requires Compressor.GivesBack(Fresh(), bytes, data) && bytes == taken + rest
    ensures Bytes(taken) && Bytes(rest) && d == Decode(Begun(ByteBits(taken) + ByteBits(rest))) && !d.wrong &&
      d.s.at == Idle && d.out == data
    ensures taken == bytes ==> ByteBits(rest) == []
  {
    hide Decode;
    assert forall i :: 0 <= i < |rest| ==> rest[i] == bytes[|taken| + i];
    assert forall i :: 0 <= i < |taken| ==> taken[i] == bytes[i];
    hide ByteBits;
    ByteBitsJoin(taken, rest);
    d := Decode(Begun(ByteBits(bytes)));
  }

  lemma NotSpoiled(taken: seq<int>, rest: seq<int>, bytes: seq<int>, data: seq<int>)
    requires Compressor.GivesBack(Fresh(), bytes, data) && bytes == taken + rest
    ensures Bytes(taken) && !Spoiled(taken)
  {
    hide Decode, Compressor.GivesBack, ByteBits;
    var d := GivenBack(taken, rest, bytes, data);
  }

  /** Output only grows. */
  lemma {:induction false} OutGrows(d: Driver)
    ensures !Decode(d).wrong ==> d.out <= Decode(d).out
    decreases |d.left|, d.s.at == Output
  {
    hide OutputStep, RunOn;
    if d.s.at == Output {
      OutputAlone(d, d.left);
      StepGrows(d);
      if !OutputStep(d).wrong { OutGrows(OutputStep(d)); }
    } else {
      var r := RunOn(d.s, d.left);
      RunConsumes(d.s, d.left);
      if r.0.at == Output { OutGrows(d.(s := r.0, left := r.1)); }
    }
  }

  lemma StepGrows(d: Driver)
    ensures !OutputStep(d).wrong ==> d.out <= OutputStep(d).out && OutputStep(d).s.at != Output
  {
    hide Shown, InverseBwt.Unsort, UnRle, Complete, CrcFor, Combine, AsNumber;
  }

  lemma Between(taken: seq<int>, rest: seq<int>, bytes: seq<int>, data: seq<int>, dr: Driver)
    requires Compressor.GivesBack(Fresh(), bytes, data) && bytes == taken + rest && Bytes(taken) &&
      Follows(taken, dr) && dr.s.at != Output
    ensures dr.out <= data && (dr.s.at == Idle ==> dr.out == data)
    ensures taken == bytes && RunOn(dr.s, dr.left) == (dr.s, dr.left) ==> dr.s.at == Idle
  {
    hide Decode, Compressor.GivesBack, ByteBits, RunOn;
    var d := GivenBack(taken, rest, bytes, data);
    var d0 := dr.(left := dr.left + ByteBits(rest));
    OutGrows(d0);
    if dr.s.at == Idle { DecodeStops(d0); }
    if taken == bytes && RunOn(dr.s, dr.left) == (dr.s, dr.left) {
      assert dr.left + [] == dr.left;
      DecodeWaits(dr);
    }
  }

  lemma DecodeWaits(d: Driver)
    requires RunOn(d.s, d.left) == (d.s, d.left) && d.s.at != Output
    ensures Decode(d).s == d.s
  {
    hide OutputStep, RunOn;
  }

  lemma WithinBlock(taken: seq<int>, rest: seq<int>, bytes: seq<int>, data: seq<int>, dr: Driver, b: seq<int>,
      crc: bv32, done: seq<int>, more: seq<int>, put: seq<int>)
    requires Compressor.GivesBack(Fresh(), bytes, data) && bytes == taken + rest && Bytes(taken) &&
      Follows(taken, dr) && dr.s.at == Output
    requires Putting(dr, b, crc, done, more, put)
    ensures put <= data
  {
    hide Decode, Compressor.GivesBack, ByteBits, RunOn, Putting, OutputStep;
    var d := GivenBack(taken, rest, bytes, data);
    var d0 := dr.(left := dr.left + ByteBits(rest));
    DecodeOutput(d0);
    OutGrows(OutputStep(d0));
    OutputAlone(dr, d0.left);
    BlockOut(dr, b, crc, done, more, put);
  }

  lemma BlockOut(dr: Driver, b: seq<int>, crc: bv32, done: seq<int>, more: seq<int>, put: seq<int>)
    requires Putting(dr, b, crc, done, more, put)
    ensures !OutputStep(dr).wrong ==> put <= OutputStep(dr).out
  {
    hide Shown, InverseBwt.Unsort, UnRle, Complete, CrcFor, CrcOf, Combine, AsNumber;
    Assoc(dr.out, done, more);
  }

  /** Compression followed by decompression: the output is the input, whatever the sizes of the pieces in which the one
      and the other take their input and hand over their output. */
  lemma RoundTrip(c: Compressor.Stream, r: Stream, ret: Return, full: bool)
    requires c.Valid() && c.past.ended && c.state_out_pos == |c.zbits|
    requires r.After(ret, full) && r.taken <= c.Delivered()
    ensures r.put <= c.past.consumed && (ret == StreamEnd ==> r.put == c.past.consumed)
    ensures ret == Ok || ret == StreamEnd || ret == SequenceError
    ensures ret == Ok && r.taken == c.Delivered() ==> full
  {
    FreshIs();
    hide *;
    c.AllComesBack(Fresh());
    r.ComesBack(c.Delivered(), c.past.consumed, ret, full);
  }

  lemma FreshIs()
    ensures Fresh().at == Magic(0)
  {
  }

  lemma CodeIs(s: State)
    ensures CodeFor(s) != SequenceError && (CodeFor(s) == Ok || CodeFor(s) == StreamEnd ==> !s.at.Failed?)
    ensures CodeFor(s) == Ok ==> s.at == Output || Reading(s.at)
    ensures CodeFor(s) == StreamEnd ==> s.at == Idle
    ensures CodeFor(s) != Ok && CodeFor(s) != StreamEnd ==> s.at.Failed? || s.at.Stuck?
  {
  }

  lemma NoBytesLeft(held: seq<bool>, next_in: seq<int>)
    requires Bytes(next_in)
    ensures next_in == [] ==> held + ByteBits(next_in) == held
  {
  }
}

/** unRLE_obuf_to_output_FAST and _SMALL: the bytes of a block, fetched in either form and changed back if they were
    changed, expanded into whatever output space a call offers. */
module BlockOutput {

  import opened Rotations
  import opened Counting
  import opened Rle
  import opened Sequences
  import opened BlockCrc
  import opened InverseBwt
  import opened InverseBwtSmall
  import opened RleDecoder
  import opened SmallDecoder
  import opened Randomise

  /** Where the bytes come from: tt, or in the small form ll16, ll4 and cftab. */
  datatype Tables = Tables(small: bool, randomised: bool, tt: seq<int>, links: Links, blockSize100k: int)

  /** What they mean, and the block that is put out. */
  datatype Meaning = Meaning(fast: Source, cycle: Cycle, b: seq<int>)

  /** The bytes as they are fetched. */
  ghost function Fetched(t: Tables, m: Meaning): seq<int> { if t.small then m.cycle.b else m.fast.b }

  /** The next byte to be fetched is number used. */
  ghost predicate Walking(t: Tables, m: Meaning, tPos: int, used: int, place: int, mask: Mask) {
    && (if t.small then Linked(t.links, m.cycle) && At(m.cycle, tPos, used, place)
        else Walks(m.fast, t.tt, t.blockSize100k, tPos, used, place))
    && m.b == Shown(t.randomised, Fetched(t, m)) && Bytes(m.b) && used >= 0
    && (t.randomised ==> mask == MaskAfter(used))
  }

  lemma FetchedByte(t: Tables, m: Meaning, tPos: int, used: int, place: int, mask: Mask, c: int)
    requires Walking(t, m, tPos, used, place, mask) && 0 <= c < 256 &&
      (used < |Fetched(t, m)| ==> c == Fetched(t, m)[used])
    requires t.randomised ==> 0 <= mask.at < 512
    ensures |m.b| == |Fetched(t, m)|
    ensures var k1 := if t.randomised then Flipped(c, Updated(mask)) else c;
      0 <= k1 < 256 && (used < |m.b| ==> k1 == m.b[used])
    ensures t.randomised ==> Updated(mask) == MaskAfter(used + 1)
  {
    hide Flipped, Updated, Linked, At, Walks;
    if t.randomised {
      NextMask(used);
      FlippedByte(c, Updated(mask));
    }
  }

  lemma NextMask(n: nat)
    ensures MaskAfter(n + 1) == Updated(MaskAfter(n)) && 0 <= MaskAfter(n).at < 512
  {
    hide Updated;
  }

  /** BZ_GET_FAST or BZ_GET_SMALL; for a randomised block BZ_RAND_UPD_MASK and the mask. */
  method GetByte(t: Tables, tPos: int, used: int, mask: Mask, ghost place: int, ghost m: Meaning)
    returns (error: bool, k1: int, tPos': int, mask': Mask, ghost place': int)
    requires Walking(t, m, tPos, used, place, mask)
    ensures !error && 0 <= k1 < 256 && Walking(t, m, tPos', used + 1, place', mask') &&
      (used < |m.b| ==> k1 == m.b[used])
  {
    hide Linked, At, Walks, Shown, Updated, Flipped, MaskAfter;
    if t.small {
      error, k1, tPos', place' := Follow(t.links, tPos, used, place, m.cycle);
    } else {
      var used';
      error, k1, tPos', used', place' := Fetch(t.tt, t.blockSize100k, tPos, used, place, m.fast);
    }
    mask' := mask;
    if t.randomised { NextMask(used); }
    LengthIs(t, m, tPos, used, place, mask);
    FetchedByte(t, m, tPos, used, place, mask, k1);
    if t.randomised {
      mask' := Updated(mask);
      k1 := Flipped(k1, mask');
    }
  }

  lemma LengthIs(t: Tables, m: Meaning, tPos: int, used: int, place: int, mask: Mask)
    requires Walking(t, m, tPos, used, place, mask)
    ensures |m.b| == |Fetched(t, m)|
  {
    hide Linked, At, Walks, MaskAfter, Flipped;
  }

  /** The tables of a block l, with its origin, as BZ2_decompress leaves them. */
  ghost predicate Ready(t: Tables, l: seq<int>, origPtr: int, turns: nat) {
    && Bytes(l) && 0 <= origPtr < |l|
    && if t.small then
         |l| <= 100000 * t.links.blockSize100k && Shape(t.links.ll16, t.links.ll4, |l|) && |t.links.cftab| == 257 &&
         (forall c :: 0 <= c <= 256 ==> t.links.cftab[c] == Below(l, c)) && IsPermutation(RanksUp(l), |l|) &&
         Reversed(RanksUp(l), SmallEntries(t.links.ll16, t.links.ll4, |l|), origPtr, turns)
       else |l| <= 100000 * t.blockSize100k && FastTable(l, t.tt, Inverse(l))
  }

  /** The start of output: the walk begins at the origin. */
  lemma WalkStarts(t: Tables, l: seq<int>, origPtr: int, turns: nat) returns (m: Meaning, place: int)
    requires Ready(t, l, origPtr, turns)
    ensures 0 <= origPtr && (origPtr < |t.tt| || t.small)
    ensures Walking(t, m, if t.small then origPtr else t.tt[origPtr] / 256, 0, place, Mask(0, 0)) &&
      m.b == Shown(t.randomised, Unsort(l, origPtr))
    ensures |m.b| == |l| > 0
  {
    hide Walks, Linked, At, Unsort, Inverse, Shape, Reversed, FastTable, IsPermutation, RanksUp, Below, SmallEntries;
    UnsortBytes(l, origPtr);
    var u := Unsort(l, origPtr);
    ShownBytes(t.randomised, u);
    m := Meaning(Source(u, l, Inverse(l)), Cycle(u, l, origPtr, turns), Shown(t.randomised, u));
    if t.small {
      StartsAt(t.links, m.cycle);
      place := turns;
    } else {
      TableLength(l, t.tt, Inverse(l));
      StartWalks(t.tt, origPtr, t.blockSize100k, l);
      place := origPtr;
    }
  }

  lemma TableLength(l: seq<int>, tt: seq<int>, next: seq<int>)
    requires FastTable(l, tt, next)
    ensures |l| <= |tt|
  {
  }

  /** The part of DState that output works on. The ghost fields say what it means. */
  class Output {
    const t: Tables
    const save_nblock: int
    var tPos: int
    var nblock_used: int
    var k0: int
    var state_out_ch: int
    var state_out_len: int
    var calculatedBlockCRC: bv32
    /** rNToGo and rTPos */
    var mask: Mask
    ghost const m: Meaning
    ghost var place: int

    ghost predicate Valid()
      reads this
    {
      && Walking(t, m, tPos, nblock_used, place, mask) && save_nblock == |m.b| && Bytes(m.b)
      && Ahead(m.b, nblock_used, k0) && state_out_len >= 0 && 0 <= state_out_ch < 256
    }

    /** What is still to be put out. */
    ghost function Remaining(): seq<int>
      reads this
      requires Valid()
    {
      Rep(state_out_ch, state_out_len) + Rest(m.b, nblock_used)
    }

    /** When no byte is left the block was complete. */
    lemma AllPut()
      requires Valid() && nblock_used == save_nblock + 1 && state_out_len == 0
      ensures Complete(m.b) && Remaining() == []
    {
      hide Walking;
      assert m.b[|m.b|..] == [];
    }

    /** The first byte is fetched ahead. */
    constructor (t: Tables, origPtr: int, nblock: int, ghost l: seq<int>, ghost turns: nat)
      requires Ready(t, l, origPtr, turns) && nblock == |l|
      ensures Valid() && m.b == Shown(t.randomised, Unsort(l, origPtr)) && save_nblock == nblock &&
        calculatedBlockCRC == 0xffff_ffff
      ensures Remaining() == UnRle(m.b) && this.t == t
    {
      hide Walking, Complete, Unsort, UnRle, Ready, Shown, Rep;
      ghost var meaning, at := WalkStarts(t, l, origPtr, turns);
      var pos := if t.small then origPtr else t.tt[origPtr] / 256;
      var error, first, mask1;
      error, first, pos, mask1, at := GetByte(t, pos, 0, Mask(0, 0), at, meaning);
      this.t, save_nblock, m := t, nblock, meaning;
      tPos, nblock_used, k0, mask, place := pos, 1, first, mask1, at;
      state_out_ch, state_out_len, calculatedBlockCRC := 0, 0, 0xffff_ffff;
      BytesShown(t, meaning, pos, 1, at, mask1);
      RepNone(0, UnRle(meaning.b));
      assert meaning.b[0..] == meaning.b;
    }

    /** BZ_GET_FAST or BZ_GET_SMALL with the mask, and one more byte used. */
    method Get() returns (error: bool, k1: int)
      requires Walking(t, m, tPos, nblock_used, place, mask)
      modifies this`tPos, this`nblock_used, this`place, this`mask
      ensures Walking(t, m, tPos, nblock_used, place, mask) && nblock_used == old(nblock_used) + 1 && !error &&
        0 <= k1 < 256
      ensures old(nblock_used) < |m.b| ==> k1 == m.b[old(nblock_used)]
    {
      hide Walking;
      error, k1, tPos, mask, place := GetByte(t, tPos, nblock_used, mask, place, m);
      nblock_used := nblock_used + 1;
    }

    /** Takes the next run. */
    method StartRun() returns (error: bool)
      requires Valid() && nblock_used <= save_nblock && state_out_len == 0
      modifies this`tPos, this`nblock_used, this`place, this`mask, this`k0, this`state_out_ch, this`state_out_len
      ensures Valid() && !error && nblock_used > old(nblock_used)
      ensures Complete(m.b) ==> Remaining() == old(Remaining())
    {
      hide Walking, UnRle, Complete, Lead, Rep, Ahead, Rest;
      ghost var b, i := m.b, nblock_used - 1;
      AheadIs(b, nblock_used, k0);
      RepNone(state_out_ch, Rest(b, nblock_used));
      state_out_len := 1;
      state_out_ch := k0;
      var k1;
      error, k1 := Get();
      if error { return; }
      if nblock_used == save_nblock + 1 || k1 != k0 {
        ShortRun(b, i, 1, if nblock_used == save_nblock + 1 then k0 else k1);
        if nblock_used != save_nblock + 1 { k0 := k1; }
        return;
      }
      state_out_len := 2;
      error, k1 := Get();
      if error { return; }
      if nblock_used == save_nblock + 1 || k1 != k0 {
        ShortRun(b, i, 2, if nblock_used == save_nblock + 1 then k0 else k1);
        if nblock_used != save_nblock + 1 { k0 := k1; }
        return;
      }
      state_out_len := 3;
      error, k1 := Get();
      if error { return; }
      if nblock_used == save_nblock + 1 || k1 != k0 {
        ShortRun(b, i, 3, if nblock_used == save_nblock + 1 then k0 else k1);
        if nblock_used != save_nblock + 1 { k0 := k1; }
        return;
      }
      error, k1 := Get();
      if error { return; }
      state_out_len := k1 + 4;
      error, k0 := Get();
      if error { return; }
      FullRun(b, i, k1, k0);
    }

    /** Puts out the current run, as far as there is room. */
    method PutRun(out0: seq<int>, room: nat, ghost start: bv32) returns (out: seq<int>, avail_out: nat)
      requires Valid() && Bytes(out0) && calculatedBlockCRC == CrcOf(start, out0)
      modifies this`state_out_len, this`calculatedBlockCRC
      ensures Valid() && Bytes(out) && calculatedBlockCRC == CrcOf(start, out) && |out| + avail_out == |out0| + room
      ensures avail_out > 0 ==> state_out_len == 0
      ensures out + Remaining() == out0 + old(Remaining())
    {
      hide Update, CrcOf, Rep, Walking, Rest, Complete, UnRle;
      ghost var rest := Rest(m.b, nblock_used);
      out, avail_out := out0, room;
      while true
        invariant Valid() && Bytes(out) && calculatedBlockCRC == CrcOf(start, out) && |out| + avail_out == |out0| + room
        invariant out + Rep(state_out_ch, state_out_len) == out0 + old(Rep(state_out_ch, state_out_len))
        decreases state_out_len
      {
        if avail_out == 0 { break; }
        if state_out_len == 0 { break; }
        RepFirst(state_out_ch, state_out_len, out);
        CrcSnoc(start, out, state_out_ch);
        out := out + [state_out_ch];
        calculatedBlockCRC := Update(calculatedBlockCRC, state_out_ch as bv32);
        state_out_len := state_out_len - 1;
        avail_out := avail_out - 1;
      }
      Assoc(out, Rep(state_out_ch, state_out_len), rest);
      Assoc(out0, old(Rep(state_out_ch, state_out_len)), rest);
    }

    /** Where the walk stands tells whether the block was complete. */
    lemma Settles()
      requires Valid() && nblock_used > save_nblock
      ensures Complete(m.b) <==> nblock_used == save_nblock + 1
    {
      hide Walking;
      assert nblock_used == save_nblock + 1 ==> m.b[nblock_used - 1..] == [];
    }

    lemma Range()
      requires Valid()
      ensures nblock_used <= save_nblock + 2
    {
      hide Walking, Complete;
    }

    /** The loop that works on the fields in place: unRLE_obuf_to_output_SMALL, and _FAST for a randomised block. */
    method UnRlePlain(room: nat) returns (corrupt: bool, out: seq<int>)
      requires Valid()
      modifies this
      ensures Valid() && Bytes(out) && |out| <= room && calculatedBlockCRC == CrcOf(old(calculatedBlockCRC), out)
      ensures Complete(m.b) ==> !corrupt && old(Remaining()) == out + Remaining()
      ensures Complete(m.b) && |out| < room ==> nblock_used == save_nblock + 1 && state_out_len == 0
      ensures !Complete(m.b) && |out| < room ==> corrupt
    {
      hide Output.Valid, Output.Remaining, Complete, CrcOf;
      ghost var all, start := Remaining(), calculatedBlockCRC;
      Range();
      CrcNone(start);
      assert [] + all == all;
      corrupt, out := false, [];
      var avail_out: nat := room;
      while true
        invariant Valid() && Bytes(out) && |out| + avail_out == room && calculatedBlockCRC == CrcOf(start, out) &&
          nblock_used <= save_nblock + 2
        invariant Complete(m.b) ==> all == out + Remaining()
        decreases save_nblock + 3 - nblock_used
      {
        out, avail_out := PutRun(out, avail_out, start);
        if avail_out == 0 { return; }
        if nblock_used > save_nblock { Settles(); }
        if nblock_used == save_nblock + 1 { return; }
        if nblock_used > save_nblock + 1 { return true, out; }
        corrupt := StartRun();
        Range();
        if corrupt { return; }
      }
    }

    /** unRLE_obuf_to_output_FAST for a block that is not randomised: the loop on local copies. */
    method UnRleFast(avail_out: nat) returns (corrupt: bool, out: seq<int>)
      requires Valid() && !t.small && !t.randomised
      modifies this
      ensures Valid() && Bytes(out) && |out| <= avail_out
      ensures !corrupt ==> calculatedBlockCRC == CrcOf(old(calculatedBlockCRC), out)
      ensures Complete(m.b) ==> !corrupt && old(Remaining()) == out + Remaining()
      ensures Complete(m.b) && |out| < avail_out ==> nblock_used == save_nblock + 1 && state_out_len == 0
      ensures !Complete(m.b) && |out| < avail_out ==> corrupt
    {
      hide Walks, Complete, UnRle, CrcOf, Ahead;
      var c_tPos, c_nblock_used, c_k0, c_ch, c_len, c_crc;
      ghost var c_place;
      corrupt, out, c_tPos, c_nblock_used, c_k0, c_ch, c_len, c_crc, c_place :=
        Expand(t.tt, t.blockSize100k, save_nblock, tPos, nblock_used, k0, state_out_ch, state_out_len,
          calculatedBlockCRC, avail_out, place, m.fast);
      if !corrupt {
        tPos, nblock_used, k0, state_out_ch, state_out_len, calculatedBlockCRC := c_tPos, c_nblock_used, c_k0, c_ch,
          c_len, c_crc;
        place := c_place;
        AheadUsed(m.b, nblock_used, k0);
      }
    }

    /** The output of a block, in either form, randomised or not. However it is cut into calls, what they put out is
        what the block stands for; corruption is reported only if the block is incomplete, and then always, once there
        is room. */
    method PutOut(avail_out: nat) returns (corrupt: bool, out: seq<int>)
      requires Valid()
      modifies this
      ensures Valid() && Bytes(out) && |out| <= avail_out
      ensures !corrupt ==> calculatedBlockCRC == CrcOf(old(calculatedBlockCRC), out)
      ensures Complete(m.b) ==> !corrupt && old(Remaining()) == out + Remaining()
      ensures Complete(m.b) && |out| < avail_out ==> nblock_used == save_nblock + 1 && state_out_len == 0
      ensures !Complete(m.b) && |out| < avail_out ==> corrupt
    {
      hide Output.Valid, Output.Remaining, Complete, CrcOf;
      if t.small || t.randomised {
        corrupt, out := UnRlePlain(avail_out);
      } else {
        corrupt, out := UnRleFast(avail_out);
      }
    }
  }

  lemma AheadIs(b: seq<int>, used: int, k0: int)
    requires Ahead(b, used, k0)
    ensures used >= 1 && 0 <= k0 < 256 && (used <= |b| ==> k0 == b[used - 1])
  {
    hide Complete;
  }

  /** A run of n < 4 bytes from byte i on, with what follows it, if there is something, fetched ahead. */
  lemma ShortRun(b: seq<int>, i: int, n: nat, k0: int)
    requires Bytes(b) && 0 <= i && 1 <= n < 4 && i + n <= |b| && Ahead(b, i + 1, b[i]) && 0 <= k0 < 256
    requires (n > 1 ==> b[i + 1] == b[i]) && (n > 2 ==> b[i + 2] == b[i]) && (i + n < |b| ==> k0 == b[i + n] != b[i])
    ensures Ahead(b, i + n + 1, k0) && Rep(b[i], n) + Rest(b, i + n + 1) == Rest(b, i + 1)
  {
    hide UnRle, Complete, Lead, Rep;
    RunShort(b, i, n);
  }

  /** Four equal bytes, and what was fetched as the count and after it. */
  lemma FullRun(b: seq<int>, i: int, k1: int, k0: int)
    requires Bytes(b) && 0 <= i && i + 4 <= |b| && b[i + 1] == b[i] && b[i + 2] == b[i] && b[i + 3] == b[i] &&
      Ahead(b, i + 1, b[i])
    requires 0 <= k1 < 256 && 0 <= k0 < 256 && (i + 4 < |b| ==> k1 == b[i + 4]) && (i + 5 < |b| ==> k0 == b[i + 5])
    ensures Ahead(b, i + 6, k0) && (Complete(b) ==> Rep(b[i], 4 + k1) + Rest(b, i + 6) == Rest(b, i + 1))
  {
    hide UnRle, Complete, Lead, Rep;
    RunFull(b, i);
  }

  lemma AheadUsed(b: seq<int>, used: int, k0: int)
    requires Ahead(b, used, k0)
    ensures used >= 1
  {
  }

  lemma CrcNone(start: bv32)
    ensures CrcOf(start, []) == start
  {
  }

  lemma BytesShown(t: Tables, m: Meaning, tPos: int, used: int, place: int, mask: Mask)
    requires Walking(t, m, tPos, used, place, mask)
    ensures Bytes(m.b)
  {
    hide Walks, Linked, At, Shown, MaskAfter;
  }
}

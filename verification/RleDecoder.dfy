/** unRLE_obuf_to_output_FAST: the bytes of a block, taken off the inverse table and expanded into whatever output
    space a call offers. */
module RleDecoder {

  import opened Rotations
  import opened Counting
  import opened Rle
  import opened Sequences
  import opened BlockCrc
  import opened InverseBwt

  // ----- fetching bytes -----

  /** What the block is and how the table stores it. */
  datatype Source = Source(b: seq<int>, l: seq<int>, next: seq<int>)

  /** The table walks through b, and the next byte to be fetched is number used. */
  ghost predicate Walks(src: Source, tt: seq<int>, blockSize100k: int, tPos: int, used: int, place: int) {
    && Bytes(src.l) && FastTable(src.l, tt, src.next) && |src.l| <= 100000 * blockSize100k && Bytes(src.b)
    && |src.b| == |src.l|
    && (forall k :: 0 <= k < |src.l| ==> 0 <= src.next[k] < |src.l|)
    && 0 <= place < |src.l| && tPos == src.next[place] && 0 <= used
    && (used <= |src.b| ==> Emit(src.l, src.next, place, |src.b| - used) == src.b[used..])
  }

  /** BZ_GET_FAST_C, with the count of bytes used going up. */
  method Fetch(tt: seq<int>, blockSize100k: int, tPos: int, used: int, ghost place: int, ghost src: Source)
    returns (error: bool, k1: int, tPos': int, used': int, ghost place': int)
    requires Walks(src, tt, blockSize100k, tPos, used, place)
    ensures Walks(src, tt, blockSize100k, tPos', used', place') && used' == used + 1 && !error && 0 <= k1 < 256
    ensures used < |src.b| ==> k1 == src.b[used]
  {
    hide RankUp;
    if used < |src.b| { EmitNext(src.l, src.next, place, |src.b| - used, []); }
    error, k1, tPos' := GetFast(tt, tPos, blockSize100k, src.l, src.next);
    place' := src.next[place];
    used' := used + 1;
  }

  /** The byte that has been fetched ahead is k0. A block that has been overrun was incomplete. */
  ghost predicate Ahead(b: seq<int>, used: int, k0: int) {
    && 1 <= used <= |b| + 2 && 0 <= k0 < 256
    && (used <= |b| ==> k0 == b[used - 1])
    && (used <= |b| + 1 ==> Complete(b) == Complete(b[used - 1..]))
    && (used == |b| + 2 ==> !Complete(b))
  }

  /** What the bytes from the one fetched ahead on stand for. */
  ghost function Rest(b: seq<int>, used: int): seq<int>
    requires Bytes(b) && 1 <= used
  {
    if used <= |b| then UnRle(b[used - 1..]) else []
  }

  /** A run that is still to be put out: one byte that has just been found, or len of them. */
  ghost function Current(one: bool, ch: int, len: int): seq<int>
    requires len >= 0
  {
    if one then [ch] else Rep(ch, len)
  }

  /** A run of n < 4 bytes at byte i of a block, followed by another byte or by the end. */
  lemma RunShort(b: seq<int>, i: int, n: nat)
    requires Bytes(b) && 0 <= i && 1 <= n < 4 && i + n <= |b| && (n > 1 ==> b[i + 1] == b[i]) &&
      (n > 2 ==> b[i + 2] == b[i])
    requires i + n == |b| || b[i + n] != b[i]
    ensures UnRle(b[i..]) == Rep(b[i], n) + Rest(b, i + n + 1) && Complete(b[i..]) == Complete(b[i + n..])
  {
    var d := b[i..];
    assert n > 1 ==> d[1] == b[i + 1];
    assert n > 2 ==> d[2] == b[i + 2];
    assert n < |d| ==> d[n] == b[i + n];
    assert Lead(d) == n;
    assert d[n..] == b[i + n..];
  }

  /** Four equal bytes at byte i: with the count that follows them they are a run, without it the block is
      incomplete. */
  lemma RunFull(b: seq<int>, i: int)
    requires Bytes(b) && 0 <= i && i + 4 <= |b| && b[i + 1] == b[i] && b[i + 2] == b[i] && b[i + 3] == b[i]
    ensures i + 4 < |b| ==>
      UnRle(b[i..]) == Rep(b[i], 4 + b[i + 4]) + Rest(b, i + 6) && Complete(b[i..]) == Complete(b[i + 5..])
    ensures i + 4 == |b| ==> !Complete(b[i..])
  {
    var d := b[i..];
    assert d[1] == b[i + 1] && d[2] == b[i + 2] && d[3] == b[i + 3];
    assert i + 4 < |b| ==> d[4] == b[i + 4] && d[5..] == b[i + 5..];
  }

  lemma RepOne(c: int)
    ensures Rep(c, 1) == [c]
  {
  }

  /** Takes the next run from the table: one byte by itself, or a length to be put out. */
  method StartRun(tt: seq<int>, blockSize100k: int, save_nblock: int, tPos0: int, used0: int, k00: int, len0: int,
      ghost place0: int, ghost src: Source)
    returns (error: bool, one: bool, ch: int, len: int, k0: int, tPos: int, used: int, ghost place: int)
    requires Walks(src, tt, blockSize100k, tPos0, used0, place0) && save_nblock == |src.b| && used0 <= save_nblock &&
      len0 >= 0
    requires Bytes(src.b) && Ahead(src.b, used0, k00)
    ensures Walks(src, tt, blockSize100k, tPos, used, place) && !error && 0 <= ch < 256 && len >= 0 && used > used0
    ensures Ahead(src.b, used, k0) &&
      (Complete(src.b) ==> Current(one, ch, len) + Rest(src.b, used) == Rest(src.b, used0))
  {
    ghost var b, i := src.b, used0 - 1;
    hide Walks, UnRle, Complete, Lead, Rep;
    ch, k0, len := k00, k00, len0;
    one := false;
    var k1;
    RepOne(ch);
    error, k1, tPos, used, place := Fetch(tt, blockSize100k, tPos0, used0, place0, src);
    if k1 != k0 || used == save_nblock + 1 {
      RunShort(b, i, 1);
      if k1 != k0 { k0 := k1; }
      one := true;
      return;
    }
    len := 2;
    error, k1, tPos, used, place := Fetch(tt, blockSize100k, tPos, used, place, src);
    if used == save_nblock + 1 {
      RunShort(b, i, 2);
      return;
    }
    if k1 != k0 {
      RunShort(b, i, 2);
      k0 := k1;
      return;
    }
    len := 3;
    error, k1, tPos, used, place := Fetch(tt, blockSize100k, tPos, used, place, src);
    if used == save_nblock + 1 {
      RunShort(b, i, 3);
      return;
    }
    if k1 != k0 {
      RunShort(b, i, 3);
      k0 := k1;
      return;
    }
    RunFull(b, i);
    error, k1, tPos, used, place := Fetch(tt, blockSize100k, tPos, used, place, src);
    len := k1 + 4;
    error, k0, tPos, used, place := Fetch(tt, blockSize100k, tPos, used, place, src);
  }

  // ----- putting bytes out -----

  lemma CrcSnoc(crc: bv32, s: seq<int>, c: int)
    requires Bytes(s) && 0 <= c < 256
    ensures Bytes(s + [c]) && CrcOf(crc, s + [c]) == Update(CrcOf(crc, s), c as bv32)
  {
    hide Update;
    assert (s + [c])[..|s|] == s;
  }

  lemma RepFirst(c: int, n: nat, x: seq<int>)
    requires n > 0
    ensures x + Rep(c, n) == x + [c] + Rep(c, n - 1)
  {
  }

  /** Writes the current run but for its last byte, as far as there is room. */
  method PutRun(out0: seq<int>, avail: nat, ch: int, len0: int, crc0: bv32, ghost start: bv32)
    returns (out: seq<int>, cs_avail_out: nat, len: int, crc: bv32)
    requires 0 <= ch < 256 && len0 >= 1 && Bytes(out0) && crc0 == CrcOf(start, out0)
    ensures Bytes(out) && crc == CrcOf(start, out) && |out| + cs_avail_out == |out0| + avail
    ensures len >= 1 && (cs_avail_out == 0 || len == 1) && out + Rep(ch, len) == out0 + Rep(ch, len0)
  {
    hide Update, CrcOf, Rep;
    out, cs_avail_out, len, crc := out0, avail, len0, crc0;
    while true
      invariant Bytes(out) && crc == CrcOf(start, out) && |out| + cs_avail_out == |out0| + avail && len >= 1
      invariant out + Rep(ch, len) == out0 + Rep(ch, len0)
      decreases len
    {
      if cs_avail_out == 0 { return; }
      if len == 1 { break; }
      RepFirst(ch, len, out);
      CrcSnoc(start, out, ch);
      out := out + [ch];
      crc := Update(crc, ch as bv32);
      len := len - 1;
      cs_avail_out := cs_avail_out - 1;
    }
  }

  lemma RepNone(c: int, x: seq<int>)
    ensures x + Rep(c, 0) == x && Rep(c, 0) + x == x
  {
  }

  /** Puts out the current run, unless the room ends first; then what is left of it is remembered in len. */
  method PutCurrent(one: bool, out0: seq<int>, avail: nat, ch: int, len0: int, crc0: bv32, ghost start: bv32)
    returns (out: seq<int>, cs_avail_out: nat, len: int, crc: bv32, full: bool)
    requires 0 <= ch < 256 && len0 >= 0 && Bytes(out0) && crc0 == CrcOf(start, out0)
    ensures Bytes(out) && crc == CrcOf(start, out) && |out| + cs_avail_out == |out0| + avail && len >= 0
    ensures full ==> cs_avail_out == 0 && out + Rep(ch, len) == out0 + Current(one, ch, len0)
    ensures !full ==> out == out0 + Current(one, ch, len0)
  {
    hide CrcOf, Update, Rep;
    out, cs_avail_out, len, crc, full := out0, avail, len0, crc0, false;
    RepOne(ch);
    if one || len > 0 {
      if !one {
        out, cs_avail_out, len, crc := PutRun(out, cs_avail_out, ch, len, crc, start);
        if cs_avail_out == 0 {
          full := true;
          return;
        }
      }
      // s_state_out_len_eq_one
      if cs_avail_out == 0 {
        len := 1;
        full := true;
        return;
      }
      CrcSnoc(start, out, ch);
      out := out + [ch];
      crc := Update(crc, ch as bv32);
      cs_avail_out := cs_avail_out - 1;
    } else {
      RepNone(ch, out);
    }
  }

  /** The loop of unRLE_obuf_to_output_FAST on its local copies. */
  method Expand(tt: seq<int>, blockSize100k: int, save_nblock: int, tPos0: int, used0: int, k00: int, ch0: int,
      len0: int, crc0: bv32, avail_out: nat, ghost place0: int, ghost src: Source)
    returns (corrupt: bool, out: seq<int>, c_tPos: int, c_nblock_used: int, c_k0: int, c_ch: int, c_len: int,
      c_crc: bv32, ghost c_place: int)
    requires Walks(src, tt, blockSize100k, tPos0, used0, place0) && save_nblock == |src.b| && Bytes(src.b)
    requires Ahead(src.b, used0, k00) && len0 >= 0 && 0 <= ch0 < 256
    ensures Walks(src, tt, blockSize100k, c_tPos, c_nblock_used, c_place) && Ahead(src.b, c_nblock_used, c_k0) &&
      c_len >= 0 && 0 <= c_ch < 256
    ensures Bytes(out) && |out| <= avail_out && c_crc == CrcOf(crc0, out)
    ensures Complete(src.b) ==>
              !corrupt && Rep(ch0, len0) + Rest(src.b, used0) == out + (Rep(c_ch, c_len) + Rest(src.b, c_nblock_used))
    ensures Complete(src.b) && |out| < avail_out ==> c_nblock_used == save_nblock + 1 && c_len == 0
    ensures !Complete(src.b) && |out| < avail_out ==> corrupt
  {
    ghost var b := src.b;
    ghost var all := Rep(ch0, len0) + Rest(b, used0);
    c_tPos, c_nblock_used, c_k0, c_ch, c_len, c_crc, c_place := tPos0, used0, k00, ch0, len0, crc0, place0;
    out := [];
    var cs_avail_out: nat := avail_out;
    var one, full := false, false;
    assert CrcOf(crc0, out) == crc0 && all == out + (Current(one, c_ch, c_len) + Rest(b, c_nblock_used)) &&
      Complete(b[|b|..]);
    hide Walks, UnRle, Complete, CrcOf, Rep, Update;
    corrupt := false;
    while true
      invariant Walks(src, tt, blockSize100k, c_tPos, c_nblock_used, c_place) && Ahead(b, c_nblock_used, c_k0)
      invariant c_len >= 0 && 0 <= c_ch < 256 && Bytes(out) && |out| + cs_avail_out == avail_out &&
        c_crc == CrcOf(crc0, out)
      invariant Complete(b) ==> all == out + (Current(one, c_ch, c_len) + Rest(b, c_nblock_used))
      decreases save_nblock + 3 - c_nblock_used
    {
      Assoc(out, Current(one, c_ch, c_len), Rest(b, c_nblock_used));
      out, cs_avail_out, c_len, c_crc, full := PutCurrent(one, out, cs_avail_out, c_ch, c_len, c_crc, crc0);
      if full {
        Assoc(out, Rep(c_ch, c_len), Rest(b, c_nblock_used));
        break;
      }
      if c_nblock_used > save_nblock + 1 {
        corrupt := true;
        break;
      }
      if c_nblock_used == save_nblock + 1 {
        c_len := 0;
        RepNone(c_ch, []);
        break;
      }
      var error;
      error, one, c_ch, c_len, c_k0, c_tPos, c_nblock_used, c_place :=
        StartRun(tt, blockSize100k, save_nblock, c_tPos, c_nblock_used, c_k0, c_len, c_place, src);
      if error {
        corrupt := true;
        break;
      }
    }
  }

  lemma StartWalks(tt: seq<int>, origPtr: int, blockSize100k: int, l: seq<int>)
    requires Bytes(l) && FastTable(l, tt, Inverse(l)) && 0 <= origPtr < |l| <= 100000 * blockSize100k
    ensures Bytes(Unsort(l, origPtr)) &&
      Walks(Source(Unsort(l, origPtr), l, Inverse(l)), tt, blockSize100k, tt[origPtr] / 256, 0, origPtr)
  {
    UnsortBytes(l, origPtr);
    Unpack(l[origPtr], Inverse(l)[origPtr]);
    var b := Unsort(l, origPtr);
    assert b[0..] == b;
    hide RankUp;
  }

  /** Only bytes come out of bytes. */
  lemma UnsortBytes(l: seq<int>, origPtr: int)
    requires Bytes(l) && 0 <= origPtr < |l|
    ensures Bytes(Unsort(l, origPtr))
  {
    EmitBytes(l, Inverse(l), origPtr, |l|);
  }

  lemma {:induction false} EmitBytes(l: seq<int>, next: seq<int>, s: int, m: nat)
    requires Bytes(l) && |next| == |l| && (forall k :: 0 <= k < |l| ==> 0 <= next[k] < |l|) && 0 <= s < |l|
    ensures Bytes(Emit(l, next, s, m))
    decreases m
  {
    if m > 0 { EmitBytes(l, next, next[s], m - 1); }
  }
}

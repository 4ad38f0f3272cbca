/** deflate's matchers: input becomes literals and matches, greedily or lazily. */
module Deflate {

  import opened Powers
  import opened Rotations
  import opened HashChains
  import opened Lz77
  import opened LongestMatch
  import opened DeflateWindow
  import opened Window
  import opened Sequences

  /** What a level stands for. */
  datatype Config = Config(good_match: nat, max_lazy: nat, nice_match: nat, max_chain: nat)

  predicate GoodConfig(c: Config) { c.nice_match <= MAX_MATCH && c.max_chain >= 4 }

  /** configuration_table. */
  function ConfigFor(level: nat): (c: Config)
    requires level <= 9
    ensures level > 0 ==> GoodConfig(c)
  {
    match level
    case 0 => Config(0, 0, 0, 0)
    case 1 => Config(4, 4, 8, 4)
    case 2 => Config(4, 5, 16, 8)
    case 3 => Config(4, 6, 32, 32)
    case 4 => Config(4, 4, 16, 16)
    case 5 => Config(8, 16, 32, 32)
    case 6 => Config(8, 16, 128, 128)
    case 7 => Config(8, 32, 128, 256)
    case 8 => Config(32, 128, 258, 1024)
    case _ => Config(32, 258, 258, 4096)
  }

  /** The table's function for the level: deflate_slow, or one of deflate_fast and, for level 0, deflate_stored. */
  predicate IsSlow(level: nat) { level > 3 }

  datatype Strategy = DefaultStrategy | Filtered | HuffmanOnly | Rle | Fixed

  const TOO_FAR := 4096
  const WIN_INIT := 258

  datatype Flush = NoFlush | PartialFlush | SyncFlush | FullFlush | Finish | Block

  /** Their numbers. */
  function Number5(f: Flush): int {
    match f
    case NoFlush => 0
    case PartialFlush => 1
    case SyncFlush => 2
    case FullFlush => 3
    case Finish => 4
    case Block => 5
  }

  /** RANK: Block comes between NoFlush and PartialFlush. */
  function Rank(f: int): int { 2 * f - (if f > 4 then 9 else 0) }

  /** The output of a call: whether there is no room at all, whether output was pending and whether writing it takes all
      the room, and whether there is no room left at the end. */
  datatype Room = Room(none: bool, pending: bool, blocked: bool, noneLeft: bool)

  datatype BlockState = NeedMore | BlockDone | FinishStarted | FinishDone

  datatype Return = StreamError | BufError | Nothing | State(state: BlockState)

  /** A window of 256 bytes is not supported; one of 512 is taken instead. */
  function AtLeastNine(w_bits: nat): nat { if w_bits == 8 then 9 else w_bits }

  /** deflate_state, as far as matches are concerned. */
  class Matcher {
    const level: nat
    const strategy: Strategy
    const w_size: nat
    const keys: Keys
    const config: Config
    const pending_buf_size: nat
    const window: array<int>
    const prev: array<int>
    const head: array<int>
    var ins_h: bv32
    var strstart: nat
    /** Where the next stored block begins. Only deflate_stored cuts its output into blocks here. */
    var block_start: int
    var lookahead: nat
    var insert: nat
    var high_water: nat
    var match_length: nat
    var prev_length: nat
    var match_start: int
    var prev_match: int
    var match_available: bool
    /** The input that is still to be read. */
    var next_in: seq<int>
    var tokens: seq<Token>
    /** The status after the input has ended. */
    var finished: bool
    var last_flush: int
    /** All input that was supplied. */
    ghost var supplied: seq<int>
    /** All input that was read; the first byte of the window; the strings in the hash table. */
    ghost var data: seq<int>
    ghost var base: nat
    ghost var ins: set<int>

    ghost predicate Shape()
      reads `next_in
    {
      && 512 <= w_size == prev.Length && window.Length == 2 * w_size && head.Length == Number(keys.mask) + 1
      && window != prev && window != head && prev != head && GoodKeys(keys) && (level > 0 ==> GoodConfig(config))
      && Bytes(next_in)
      && pending_buf_size >= 512
    }

    ghost function Now(): View
      reads `ins, `data, `base, `strstart, `lookahead, `insert, `ins_h, window, prev, head
    {
      View(window[..], head[..], prev[..], ins, data, base, strstart, lookahead, insert, ins_h)
    }

    function MaxDist(): int { w_size - MIN_LOOKAHEAD }

    /** Without the hash table there are no matches but runs, and none at all at level 0. */
    predicate Allowed(t: Token) {
      t.Literal? || (if Plain() then strategy == Rle && t.dist == 1 else level > 0)
    }

    /** The strategies that do not use the hash table, nor the function of the level. */
    predicate Plain() { strategy == HuffmanOnly || strategy == Rle }

    /** deflateInit2_, deflateReset and lm_init. memory is what the window happens to hold; the table of heads is
        cleared, and the rest of the memory may hold anything. */
    constructor (level: nat, w_bits: nat, memLevel: nat, strategy: Strategy, memory: seq<int>)
      requires level <= 9 && 8 <= w_bits <= 15 && 1 <= memLevel <= 9
      requires Bytes(memory) && |memory| == 2 * Pow2(AtLeastNine(w_bits))
      ensures Valid() && supplied == [] && tokens == [] && !finished && w_size == Pow2(AtLeastNine(w_bits))
      ensures fresh(window) && fresh(prev) && fresh(head)
    {
      hide Ready, Codes, HeldBack, GoodKeys, Number, Pow2, MaskFor;
      KeysGood(memLevel);
      MaskSize(memLevel);
      var windowBits := AtLeastNine(w_bits);
      WindowSize(windowBits);
      PendingSize(memLevel);
      var k := KeysFor(memLevel);
      this.level, this.strategy, w_size, keys, config := level, strategy, Pow2(windowBits), k, ConfigFor(level);
      pending_buf_size := Pow2(memLevel + 6) * 4;
      window := new int[|memory|](i requires 0 <= i < |memory| => memory[i]);
      prev := new int[Pow2(windowBits)];
      head := new int[Pow2(memLevel + 7)](i => 0);
      strstart, block_start, lookahead, insert, ins_h, high_water := 0, 0, 0, 0, 0, 0;
      match_length, prev_length, match_available, match_start, prev_match := MIN_MATCH - 1, MIN_MATCH - 1, false, 0, 0;
      next_in, tokens, finished, last_flush, supplied, data, base, ins := [], [], false, 0, [], [], 0, {};
      new;
      assert window[..] == memory;
      StartReady(Now(), keys);
      NoTokens(data, MaxDist());
      NoneHeld(MaxDist());
    }

    /** What holds between two calls. */
    ghost predicate Valid()
      reads this, window, prev, head
    {
      && Shape() && high_water <= window.Length && supplied == data + next_in
      && (if Plain() then Unhashed()
          else if level == 0 then Sound(Now(), keys) && Stored()
          else if IsSlow(level) then Ready(Now(), keys) && Lazy()
          else Ready(Now(), keys) && match_length < MIN_MATCH && prev_length == MIN_MATCH - 1 && Coded())
      && (finished ==> next_in == [] && lookahead == 0 && Codes(tokens, data, |data|, MaxDist()))
    }

    /** The bytes of the upper half move down, and all positions with them. */
    method SlideWindow()
      requires Shape() && Steady(Now(), keys) && strstart >= w_size + MaxDist()
      modifies this`strstart, this`block_start, this`match_start, this`base, this`ins, window, prev, head
      ensures Shape() && Steady(Now(), keys) && (old(Ready(Now(), keys)) ==> Ready(Now(), keys))
      ensures base + strstart == old(base + strstart) && base + match_start == old(base + match_start)
      ensures base + block_start == old(base + block_start) && insert == old(insert) && base == old(base) + w_size
      ensures 1 <= strstart == old(strstart) - w_size && lookahead == old(lookahead)
    {
      hide Ready, Steady, GoodKeys;
      ghost var v := Now();
      SlideFits(v, keys);
      ghost var was := window[..];
      MemCopy(window, 0, window[w_size..]);
      match_start := match_start - w_size;
      strstart := strstart - w_size;
      block_start := block_start - w_size;
      SlideTable(head, w_size);
      SlideTable(prev, w_size);
      base := base + w_size;
      ins := SlidSet(ins, w_size);
      SlidReady(v, keys, window[..]);
    }

    /** INSERT_STRING: the string at str becomes the head of its chain; returns the head before it. */
    method InsertString(str: nat) returns (hash_head: int)
      requires Shape() && SoundTo(Now(), keys, str) && str + 3 <= strstart + lookahead && HashReady(Now(), keys, str)
      modifies this`ins_h, this`ins, prev, head
      ensures Shape() && SoundTo(Now(), keys, str + 1) && HashReady(Now(), keys, str + 1)
      ensures str + 3 <= window.Length && Bytes(window[..]) &&
        InChain(Now(), keys, hash_head, HashAt(window[..], str, keys), str)
    {
      hide GoodKeys, SoundTo, HashReady, HashAt, UpdateHash, ByteWord, Number, InChain;
      ghost var v := Now();
      SoundBasics(v, keys, str);
      Insert(v, keys, str);
      HeadLink(v, keys, str);
      ins_h := UpdateHash(ins_h, ByteWord(window[str + 2]), keys.shift, keys.mask);
      var h := Number(ins_h);
      hash_head := head[h];
      prev[Slot(str, w_size)] := hash_head;
      head[h] := str;
      ins := if str == 0 then ins else ins + {str};
      assert Now() == WithString(v, keys, str);
      ChainKept(v, keys, hash_head, HashAt(v.w, str, keys), str);
    }

    /** The hash of two bytes, ready for the third. */
    method BeginHash(str: nat)
      requires Shape() && Bytes(window[..]) && str + 2 <= window.Length
      modifies this`ins_h
      ensures Shape() && HashReady(Now(), keys, str) && Now() == old(Now()).(ins_h := ins_h)
    {
      hide GoodKeys, HashReady, UpdateHash, ByteWord;
      ghost var v := Now();
      HashBegun(v, keys, str);
      ins_h := ByteWord(window[str]);
      ins_h := UpdateHash(ins_h, ByteWord(window[str + 1]), keys.shift, keys.mask);
    }

    /** The first of the strings that are waiting. */
    method EnterOne()
      requires Shape() && insert > 0 && insert <= strstart && lookahead + insert >= MIN_MATCH
      requires SoundTo(Now(), keys, strstart - insert) && HashReady(Now(), keys, strstart - insert)
      modifies this`ins_h, this`ins, this`insert, prev, head
      ensures Shape() && insert == old(insert) - 1 && SoundTo(Now(), keys, strstart - insert) &&
        HashReady(Now(), keys, strstart - insert)
    {
      hide GoodKeys, SoundTo, HashReady, HashAt, InChain, Bytes, GoodConfig, Number;
      var hash_head := InsertString(strstart - insert);
      ghost var v := Now();
      insert := insert - 1;
      SameTable(v, Now(), keys, strstart - insert);
    }

    /** The strings that could not be entered before for want of their third byte. */
    method EnterPending()
      requires Shape() && Sound(Now(), keys) && lookahead + insert >= MIN_MATCH
      modifies this`ins_h, this`ins, this`insert, prev, head
      ensures Shape() && Ready(Now(), keys) && insert <= old(insert)
    {
      hide GoodKeys, SoundTo, HashReady;
      var str := strstart - insert;
      SoundBasics(Now(), keys, str);
      SoundIgnores(Now(), keys, str);
      BeginHash(str);
      while insert > 0
        invariant Shape() && str == strstart - insert && SoundTo(Now(), keys, str) && HashReady(Now(), keys, str)
        invariant (insert > 0 ==> lookahead + insert >= MIN_MATCH) && insert <= old(insert)
        decreases insert
      {
        EnterOne();
        str := str + 1;
        if lookahead + insert < MIN_MATCH { break; }
      }
    }

    /** read_buf: at most size bytes of input go behind the lookahead. */
    method ReadBuf(size: nat) returns (len: nat)
      requires Shape() && Sound(Now(), keys) && strstart + lookahead + size <= window.Length
      modifies this`next_in, this`lookahead, this`data, window
      ensures Shape() && Sound(Now(), keys) && len == (if |old(next_in)| < size then |old(next_in)| else size)
      ensures data == old(data) + old(next_in)[..len] && next_in == old(next_in)[len..] &&
        lookahead == old(lookahead) + len
    {
      hide GoodKeys, SoundTo, Sound;
      ghost var v := Now();
      len := |next_in|;
      if len > size { len := size; }
      var more := next_in[..len];
      BytesParts(next_in, len);
      MemCopy(window, strstart + lookahead, more);
      ReadSound(v, keys, window[..], more);
      lookahead := lookahead + len;
      next_in := next_in[len..];
      data := data + more;
    }

    /** The bytes behind the input that longest_match may look at are set to zero the first time. */
    method ZeroBehind()
      requires Shape() && Steady(Now(), keys) && high_water <= window.Length
      modifies this`high_water, window
      ensures Shape() && Steady(Now(), keys) && (old(Ready(Now(), keys)) ==> Ready(Now(), keys)) &&
        high_water <= window.Length
    {
      hide GoodKeys, Ready, Steady;
      ghost var v := Now();
      SteadyBasics(v, keys);
      if high_water < window.Length {
        var curr := strstart + lookahead;
        if high_water < curr {
          var init := window.Length - curr;
          if init > WIN_INIT { init := WIN_INIT; }
          ZeroMem(window, curr, init);
          high_water := curr + init;
        } else if high_water < curr + WIN_INIT {
          var init := curr + WIN_INIT - high_water;
          if init > window.Length - high_water { init := window.Length - high_water; }
          ZeroMem(window, high_water, init);
          high_water := high_water + init;
        }
        Behind(v, keys, window[..]);
      }
    }

    /** fill_window: slides when the window is almost full, and reads until there is enough lookahead or no more
        input. */
    method FillWindow()
      requires Shape() && Steady(Now(), keys) && lookahead < MIN_LOOKAHEAD && high_water <= window.Length
      modifies this`strstart, this`block_start, this`lookahead, this`insert, this`ins_h, this`high_water,
        this`match_start, this`next_in, this`data, this`base, this`ins, window, prev, head
      ensures Shape() && Steady(Now(), keys) && (old(Ready(Now(), keys)) ==> Ready(Now(), keys)) &&
        high_water <= window.Length && strstart + MIN_LOOKAHEAD <= window.Length
      ensures data + next_in == old(data + next_in) && |old(data)| <= |data| && base + strstart == old(base + strstart)
      ensures base + block_start == old(base + block_start) && insert <= old(insert)
      ensures base == if old(strstart) >= w_size + MaxDist() then old(base) + w_size else old(base)
      ensures base + match_start == old(base + match_start) && (old(strstart) > 0 ==> strstart > 0)
      ensures lookahead + |next_in| == old(lookahead + |next_in|) && old(lookahead) <= lookahead
      ensures lookahead >= MIN_LOOKAHEAD || next_in == []
    {
      hide GoodKeys, Ready, Steady;
      SteadyBasics(Now(), keys);
      var more := window.Length - lookahead - strstart;
      if strstart >= w_size + MaxDist() {
        SlideWindow();
        more := more + w_size;
      }
      if |next_in| > 0 {
        assert more >= 2;
        TakeInput(more);
        // The test at the end of the original's loop never sends it round again: there was room for enough lookahead.
        assert !(lookahead < MIN_LOOKAHEAD && |next_in| != 0);
      }
      ZeroBehind();
    }

    /** Input into the window, and the strings that were waiting for it into the table. */
    method TakeInput(more: nat)
      requires Shape() && Steady(Now(), keys) && strstart + lookahead + more <= window.Length
      modifies this`lookahead, this`insert, this`ins_h, this`next_in, this`data, this`ins, window, prev, head
      ensures Shape() && Ready(Now(), keys) && Steady(Now(), keys) && data + next_in == old(data + next_in) &&
        |old(data)| <= |data|
      ensures lookahead == old(lookahead) + (if |old(next_in)| < more then |old(next_in)| else more)
      ensures lookahead + |next_in| == old(lookahead + |next_in|) && insert <= old(insert)
    {
      hide GoodKeys, Ready, Sound;
      ghost var rest, was := next_in, data;
      var n := ReadBuf(more);
      assert was + rest[..n] + rest[n..] == was + rest;
      if lookahead + insert >= MIN_MATCH {
        EnterPending();
      } else {
        FewReady(Now(), keys);
      }
      ReadySteady(Now(), keys);
    }

    /** One byte on: the string at strstart has been dealt with. */
    method Advance()
      requires Shape() && Entered(Now(), keys) && lookahead > 0
      modifies this`strstart, this`lookahead
      ensures Shape() && Ready(Now(), keys) && strstart == old(strstart) + 1 && lookahead == old(lookahead) - 1
    {
      hide GoodKeys, Entered, Ready;
      NextString(Now(), keys);
      strstart, lookahead := strstart + 1, lookahead - 1;
    }

    /** The string at strstart goes into the table, if all of it is there. */
    method EnterHere() returns (hash_head: int)
      requires Shape() && Ready(Now(), keys)
      modifies this`ins_h, this`ins, prev, head
      ensures Shape() && Entered(Now(), keys) && (hash_head == 0 || Candidate(Now(), keys, hash_head))
    {
      hide GoodKeys, Entered, Ready, SoundTo, HashReady, HashAt, InChain, Candidate;
      hash_head := 0;
      if lookahead >= MIN_MATCH {
        ReadyLong(Now(), keys);
        hash_head := InsertString(strstart);
        EnteredLong(Now(), keys);
        if hash_head != 0 { IsCandidate(Now(), keys, hash_head); }
      } else {
        EnteredShort(Now(), keys);
      }
    }

    /** The search of the chain that begins at hash_head. */
    method Search(hash_head: int) returns (len: nat, start: int)
      requires level > 0 && Shape() && Entered(Now(), keys) && Candidate(Now(), keys, hash_head) &&
        strstart - hash_head <= MaxDist()
      requires strstart + MIN_LOOKAHEAD <= window.Length && 1 <= prev_length <= MAX_MATCH
      ensures len <= lookahead
      ensures (start == match_start && len == if prev_length < lookahead then prev_length else lookahead)
           || (Found(window[..], start, strstart, len, MaxDist()) && (len > prev_length || len == lookahead))
    {
      CandidateChain(Now(), keys, hash_head, MaxDist());
      hide GoodKeys, Entered, SoundTo, HashReady, HashAt, Candidate, Chains, OnChain, Found;
      len, start := LongestMatch.LongestMatch(window[..], prev[..], hash_head, strstart, lookahead, prev_length,
        config.good_match, config.nice_match, config.max_chain, match_start, head[..], ins, keys);
    }

    // ----- deflate_fast -----

    /** The tokens stand for all input before strstart. */
    ghost predicate Coded()
      reads `tokens, `data, `base, `strstart
    {
      Codes(tokens, data, base + strstart, MaxDist())
    }

    /** One turn of deflate_fast: a match if there is one, else a literal. */
    method FastStep()
      requires level > 0 && Shape() && Ready(Now(), keys) && lookahead > 0 && strstart + MIN_LOOKAHEAD <= window.Length
      requires match_length < MIN_MATCH && prev_length == MIN_MATCH - 1 && Coded()
      modifies this`strstart, this`lookahead, this`ins_h, this`ins, this`match_length, this`match_start, this`tokens,
        prev, head
      ensures Shape() && Ready(Now(), keys) && strstart + lookahead == old(strstart + lookahead) &&
        lookahead < old(lookahead)
      ensures match_length < MIN_MATCH && Coded()
    {
      hide GoodKeys, Ready, Entered, Codes, Candidate, Found, HashReady;
      ReadyBasics(Now(), keys);
      var hash_head := EnterHere();
      if hash_head != 0 && strstart - hash_head <= MaxDist() {
        match_length, match_start := Search(hash_head);
      }
      if match_length >= MIN_MATCH {
        TallyMatch();
        if match_length <= config.max_lazy && lookahead - match_length >= MIN_MATCH {
          EnterMatch(match_length - 1);
        } else {
          SkipMatch(match_length);
        }
        match_length := 0;
      } else {
        TallyLiteral(strstart);
        Advance();
      }
    }

    /** _tr_tally_dist for a match at strstart. */
    method TallyMatch()
      requires Shape() && Entered(Now(), keys) && Found(window[..], match_start, strstart, match_length, MaxDist())
      requires MIN_MATCH <= match_length <= lookahead && Coded()
      modifies this`tokens
      ensures Shape() && Entered(Now(), keys) && Codes(tokens, data, base + strstart + match_length, MaxDist()) &&
        match_length <= MAX_MATCH
    {
      hide GoodKeys, Entered, Codes, Found;
      FoundRepeats(Now(), keys, match_start, match_length, MaxDist());
      CodesMatch(tokens, data, base + strstart, strstart - match_start, match_length, MaxDist());
      tokens := tokens + [Match(strstart - match_start, match_length)];
    }

    /** _tr_tally_lit for the byte at window position i. */
    method TallyLiteral(i: nat)
      requires Shape() && Entered(Now(), keys) && i < strstart + lookahead && Codes(tokens, data, base + i, MaxDist())
      modifies this`tokens
      ensures Shape() && Entered(Now(), keys) && Codes(tokens, data, base + i + 1, MaxDist())
    {
      hide GoodKeys, Entered, Codes;
      EnteredData(Now(), keys);
      WindowByte(Now(), keys, i);
      CodesLiteral(tokens, data, base + i, MaxDist());
      tokens := tokens + [Literal(window[i])];
    }

    /** All strings of a match go into the table; the first is there already. */
    method EnterMatch(count: nat)
      requires Shape() && Entered(Now(), keys) && count + 1 <= lookahead
      modifies this`strstart, this`lookahead, this`ins_h, this`ins, prev, head
      ensures Shape() && Ready(Now(), keys) && strstart == old(strstart) + count + 1 &&
        lookahead == old(lookahead) - count - 1
    {
      hide GoodKeys, Ready, Entered, Candidate;
      for i := 0 to count
        invariant Shape() && Entered(Now(), keys) && strstart == old(strstart) + i && lookahead == old(lookahead) - i
      {
        Advance();
        var hash_head := EnterHere();
      }
      Advance();
    }

    /** The strings of a long match stay out of the table; the hash begins afresh. */
    method SkipMatch(count: nat)
      requires Shape() && Entered(Now(), keys) && 1 <= count <= lookahead && strstart + count + 2 <= window.Length
      modifies this`strstart, this`lookahead, this`ins_h
      ensures Shape() && Ready(Now(), keys) && strstart == old(strstart) + count && lookahead == old(lookahead) - count
    {
      hide GoodKeys, Entered, HashReady, SoundTo;
      ghost var v := Now();
      EnteredSkipped(v, keys, count);
      strstart, lookahead := strstart + count, lookahead - count;
      SoundBasics(Now(), keys, strstart);
      SoundIgnores(Now(), keys, strstart - insert);
      BeginHash(strstart);
      SkippedReady(Now(), keys);
    }

    /** What becomes of a flush at the end of the input: strings that are still short of bytes are left for the next
        call. */
    method LeavePending()
      requires Shape() && Ready(Now(), keys) && lookahead == 0
      modifies this`insert
      ensures Shape() && Ready(Now(), keys)
    {
      hide GoodKeys, Ready;
      ghost var v := Now();
      insert := if strstart < MIN_MATCH - 1 then strstart else MIN_MATCH - 1;
      PendingReady(v, keys, insert);
    }

    lemma Bounds()
      requires Ready(Now(), keys)
      ensures strstart + lookahead <= window.Length && |data| == base + strstart + lookahead
    {
      hide Ready;
      ReadyBasics(Now(), keys);
    }

    lemma CodedEnd()
      requires Coded() && |data| == base + strstart
      ensures Codes(tokens, data, |data|, MaxDist())
    {
      hide Codes;
    }

    /** FillWindow, with what the tokens stand for. */
    method FillCoded()
      requires Shape() && Ready(Now(), keys) && lookahead < MIN_LOOKAHEAD && high_water <= window.Length && Coded()
      modifies this`strstart, this`block_start, this`lookahead, this`insert, this`ins_h, this`high_water,
        this`match_start, this`next_in, this`data, this`base, this`ins, window, prev, head
      ensures Shape() && Ready(Now(), keys) && high_water <= window.Length &&
        strstart + MIN_LOOKAHEAD <= window.Length && Coded()
      ensures data + next_in == old(data + next_in) && |old(data)| <= |data|
      ensures lookahead + |next_in| == old(lookahead + |next_in|) && (lookahead >= MIN_LOOKAHEAD || next_in == [])
    {
      hide GoodKeys, Ready, Steady, Codes;
      ghost var data0, all := data, data + next_in;
      ReadySteady(Now(), keys);
      FillWindow();
      CodedMore(tokens, data0, data, next_in, all, base + strstart, MaxDist());
    }

    /** deflate_fast. full says whether, after tokens that fill a block, the output has no room left. */
    method DeflateFast(flush: Flush, full: seq<Token> -> bool) returns (state: BlockState)
      requires level > 0 && Shape() && Ready(Now(), keys) && high_water <= window.Length && match_length < MIN_MATCH &&
        prev_length == MIN_MATCH - 1 && Coded()
      modifies this`strstart, this`block_start, this`lookahead, this`insert, this`ins_h, this`high_water,
        this`match_length, this`match_start, this`next_in, this`tokens, this`data, this`base, this`ins, window, prev,
        head
      ensures Shape() && Ready(Now(), keys) && high_water <= window.Length && match_length < MIN_MATCH &&
        prev_length == MIN_MATCH - 1 && Coded()
      ensures data + next_in == old(data + next_in) && |old(data)| <= |data|
      ensures state == NeedMore && flush == NoFlush ==> next_in == [] || full(tokens)
      ensures state == BlockDone || state == FinishDone || state == FinishStarted ==>
        flush != NoFlush && next_in == [] && lookahead == 0 && Codes(tokens, data, |data|, MaxDist())
    {
      hide Shape, Coded, GoodKeys, Ready, Codes;
      while true
        invariant Shape() && Ready(Now(), keys) && high_water <= window.Length && match_length < MIN_MATCH &&
          prev_length == MIN_MATCH - 1 && Coded()
        invariant data + next_in == old(data + next_in) && |old(data)| <= |data|
        decreases lookahead + |next_in|
      {
        if lookahead < MIN_LOOKAHEAD {
          FillCoded();
          if lookahead < MIN_LOOKAHEAD && flush == NoFlush { return NeedMore; }
          if lookahead == 0 { break; }
        }
        Bounds();
        FastStep();
        if full(tokens) { return NeedMore; }
      }
      Bounds();
      CodedEnd();
      LeavePending();
      if flush == Finish { return if full(tokens) then FinishStarted else FinishDone; }
      state := if full(tokens) then NeedMore else BlockDone;
    }

    // ----- deflate_slow -----

    /** The tokens stand for all input before strstart, or all but the last byte; a match that is held back begins
        there. */
    ghost predicate Lazy()
      reads `match_available, `strstart, `tokens, `data, `base, `match_length, `match_start
    {
      (match_available ==> strstart > 0) &&
        HeldBack(tokens, data, base + strstart, match_available, match_length, base + match_start, MaxDist())
    }

    /** The match that begins at strstart, if it is better than the one before it; remembers that one. */
    method FindLonger(hash_head: int)
      requires level > 0 && Shape() && Entered(Now(), keys) && (hash_head == 0 || Candidate(Now(), keys, hash_head))
      requires strstart + MIN_LOOKAHEAD <= window.Length && MIN_MATCH - 1 <= match_length <= MAX_MATCH
      modifies this`prev_length, this`prev_match, this`match_length, this`match_start
      ensures Shape() && Entered(Now(), keys) && prev_length == old(match_length) && prev_match == old(match_start)
      ensures MIN_MATCH - 1 <= match_length <= MAX_MATCH
      ensures match_length >= MIN_MATCH && match_length > prev_length ==>
        match_length <= lookahead && Found(window[..], match_start, strstart, match_length, MaxDist())
    {
      hide GoodKeys, Entered, Candidate, Found;
      if hash_head != 0 { CandidateLong(Now(), keys, hash_head); }
      prev_length, prev_match := match_length, match_start;
      match_length := MIN_MATCH - 1;
      if hash_head != 0 && prev_length < config.max_lazy && strstart - hash_head <= MaxDist() {
        match_length, match_start := Search(hash_head);
        FoundShort(window[..], match_start, strstart, match_length, MaxDist());
        if match_length <= 5 && (strategy == Filtered ||
          (match_length == MIN_MATCH && strstart - match_start > TOO_FAR)) {
          match_length := MIN_MATCH - 1;
        }
      }
    }

    /** One turn of deflate_slow: the match that was held back, or a literal in its place, or nothing yet. */
    method SlowStep()
      requires level > 0 && Shape() && Ready(Now(), keys) && lookahead > 0 &&
        strstart + MIN_LOOKAHEAD <= window.Length && Lazy()
      modifies this`strstart, this`lookahead, this`ins_h, this`ins, this`match_length, this`match_start,
        this`prev_length, this`prev_match, this`match_available, this`tokens, prev, head
      ensures Shape() && Ready(Now(), keys) && strstart + lookahead == old(strstart + lookahead) &&
        lookahead < old(lookahead) && Lazy()
    {
      hide GoodKeys, Ready, Entered, Codes, Candidate, Found, Repeats;
      ReadyBasics(Now(), keys);
      var hash_head := EnterHere();
      FindLonger(hash_head);
      if prev_length >= MIN_MATCH && match_length <= prev_length {
        EmitHeld();
      } else {
        HoldNext();
      }
    }

    /** The match that was held back is not surpassed. */
    method EmitHeld()
      requires Shape() && Entered(Now(), keys) && lookahead > 0 && strstart > 0 && prev_length >= MIN_MATCH
      requires HeldBack(tokens, data, base + strstart, true, prev_length, base + prev_match, MaxDist())
      modifies this`strstart, this`lookahead, this`ins_h, this`ins, this`match_length, this`prev_length,
        this`match_available, this`tokens, prev, head
      ensures Shape() && Ready(Now(), keys) && strstart + lookahead == old(strstart + lookahead) &&
        lookahead < old(lookahead) && Lazy()
    {
      hide GoodKeys, Ready, Entered, Codes, Repeats;
      EnteredData(Now(), keys);
      HeldFits(tokens, data, base + strstart, prev_length, base + prev_match, MaxDist());
      CodesMatch(tokens, data, base + strstart - 1, strstart - 1 - prev_match, prev_length, MaxDist());
      tokens := tokens + [Match(strstart - 1 - prev_match, prev_length)];
      EnterMatch(prev_length - 2);
      prev_length, match_available, match_length := 0, false, MIN_MATCH - 1;
    }

    /** A literal for the byte before strstart, if it is still due; the byte at strstart waits. */
    method HoldNext()
      requires Shape() && Entered(Now(), keys) && lookahead > 0 && MIN_MATCH - 1 <= match_length <= MAX_MATCH &&
        (match_available ==> strstart > 0)
      requires Codes(tokens, data, if match_available then base + strstart - 1 else base + strstart, MaxDist())
      requires match_length >= MIN_MATCH ==>
        match_length <= lookahead && Found(window[..], match_start, strstart, match_length, MaxDist())
      modifies this`strstart, this`lookahead, this`match_available, this`tokens
      ensures Shape() && Ready(Now(), keys) && strstart + lookahead == old(strstart + lookahead) &&
        lookahead < old(lookahead) && Lazy()
    {
      hide GoodKeys, Ready, Entered, Codes, Found, Repeats;
      EnteredData(Now(), keys);
      if match_length >= MIN_MATCH { FoundRepeats(Now(), keys, match_start, match_length, MaxDist()); }
      if match_available {
        TallyLiteral(strstart - 1);
      } else {
        match_available := true;
      }
      Advance();
    }

    /** FillWindow, with what is held back. */
    method FillLazy()
      requires Shape() && Ready(Now(), keys) && lookahead < MIN_LOOKAHEAD && high_water <= window.Length && Lazy()
      modifies this`strstart, this`block_start, this`lookahead, this`insert, this`ins_h, this`high_water,
        this`match_start, this`next_in, this`data, this`base, this`ins, window, prev, head
      ensures Shape() && Ready(Now(), keys) && high_water <= window.Length &&
        strstart + MIN_LOOKAHEAD <= window.Length && Lazy()
      ensures data + next_in == old(data + next_in) && |old(data)| <= |data|
      ensures lookahead + |next_in| == old(lookahead + |next_in|) && (lookahead >= MIN_LOOKAHEAD || next_in == [])
    {
      hide GoodKeys, Ready, Steady, Codes, Repeats, HeldBack;
      ghost var data0, all := data, data + next_in;
      ReadySteady(Now(), keys);
      FillWindow();
      HeldMore(tokens, data0, data, next_in, all, base + strstart, match_available, match_length, base + match_start,
        MaxDist());
    }

    /** deflate_slow. */
    method DeflateSlow(flush: Flush, full: seq<Token> -> bool) returns (state: BlockState)
      requires level > 0 && Shape() && Ready(Now(), keys) && high_water <= window.Length && Lazy()
      modifies this`strstart, this`block_start, this`lookahead, this`insert, this`ins_h, this`high_water,
        this`match_length, this`match_start, this`prev_length, this`prev_match, this`match_available, this`next_in,
        this`tokens, this`data, this`base, this`ins, window, prev, head
      ensures Shape() && Ready(Now(), keys) && high_water <= window.Length && Lazy()
      ensures data + next_in == old(data + next_in) && |old(data)| <= |data|
      ensures state == NeedMore && flush == NoFlush ==> next_in == [] || full(tokens)
      ensures state == BlockDone || state == FinishDone || state == FinishStarted ==>
        flush != NoFlush && next_in == [] && lookahead == 0 && Codes(tokens, data, |data|, MaxDist()) &&
          !match_available
    {
      hide GoodKeys, Ready, Codes, Repeats, HeldBack;
      while true
        invariant Shape() && Ready(Now(), keys) && high_water <= window.Length && Lazy()
        invariant data + next_in == old(data + next_in) && |old(data)| <= |data|
        decreases lookahead + |next_in|
      {
        if lookahead < MIN_LOOKAHEAD {
          FillLazy();
          if lookahead < MIN_LOOKAHEAD && flush == NoFlush { return NeedMore; }
          if lookahead == 0 { break; }
        }
        ReadyBasics(Now(), keys);
        SlowStep();
        if full(tokens) { return NeedMore; }
      }
      ReadyBasics(Now(), keys);
      EndSlow();
      if flush == Finish { return if full(tokens) then FinishStarted else FinishDone; }
      state := if full(tokens) then NeedMore else BlockDone;
    }

    /** The end of deflate_slow: the last byte, if it is still due. */
    method EndSlow()
      requires Shape() && Ready(Now(), keys) && Lazy() && lookahead == 0 && |data| == base + strstart
      modifies this`insert, this`match_available, this`tokens
      ensures Shape() && Ready(Now(), keys) && Lazy() && Codes(tokens, data, |data|, MaxDist()) && !match_available
    {
      hide GoodKeys, Ready, Codes, Repeats;
      HeldEnd(tokens, data, base + strstart, match_available, match_length, base + match_start, MaxDist());
      if match_available {
        EnteredShort(Now(), keys);
        TallyLiteral(strstart - 1);
        match_available := false;
      }
      LeavePending();
    }

    // ----- deflate_stored -----

    /** The most bytes a stored block takes: its length has sixteen bits, and it goes through pending_buf with a head of
        five bytes. */
    function MaxBlock(): int
    {
      if 0xffff > pending_buf_size - 5 then pending_buf_size - 5 else 0xffff
    }

    /** The tokens stand for all input before block_start; not so much follows that it would have to be put out. */
    ghost predicate Stored()
      reads `tokens, `data, `base, `strstart, `block_start, `insert
    {
      && insert == 0 && 0 <= block_start <= strstart && strstart - block_start < MaxDist()
      && strstart - block_start < MaxBlock()
      && Codes(tokens, data, base + block_start, MaxDist()) && forall t :: t in tokens ==> Allowed(t)
    }

    /** FLUSH_BLOCK_ONLY at level 0: the bytes from block_start on go out as they are. */
    method StoreBlock()
      requires Shape() && Sound(Now(), keys) && 0 <= block_start <= strstart <= block_start + MaxBlock()
      requires Codes(tokens, data, base + block_start, MaxDist()) && forall t :: t in tokens ==> Allowed(t)
      modifies this`tokens, this`block_start
      ensures Shape() && Sound(Now(), keys) && block_start == strstart &&
        Codes(tokens, data, base + block_start, MaxDist())
      ensures forall t :: t in tokens ==> Allowed(t)
    {
      hide GoodKeys, Sound, Codes;
      for i := block_start to strstart
        invariant Shape() && Sound(Now(), keys) && block_start == old(block_start) &&
          Codes(tokens, data, base + i, MaxDist())
        invariant forall t :: t in tokens ==> Allowed(t)
      {
        SoundByte(Now(), keys, i);
        CodesLiteral(tokens, data, base + i, MaxDist());
        tokens := tokens + [Literal(window[i])];
      }
      block_start := strstart;
    }

    /** FillWindow at level 0. block_start stays in the window. */
    method FillStored()
      requires Shape() && Sound(Now(), keys) && lookahead <= 1 && high_water <= window.Length && Stored()
      modifies this`strstart, this`block_start, this`lookahead, this`insert, this`ins_h, this`high_water,
        this`match_start, this`next_in, this`data, this`base, this`ins, window, prev, head
      ensures Shape() && Sound(Now(), keys) && high_water <= window.Length && Stored()
      ensures data + next_in == old(data + next_in) && |old(data)| <= |data|
      ensures lookahead + |next_in| == old(lookahead + |next_in|) && (lookahead > 0 || next_in == [])
    {
      hide GoodKeys, Ready, Sound, Codes;
      assert strstart < w_size + MaxDist() || block_start >= w_size;
      ghost var data0, all := data, data + next_in;
      FillWindow();
      CodedMore(tokens, data0, data, next_in, all, base + block_start, MaxDist());
    }

    /** One turn: all that was read goes into blocks, as far as these are full or might be lost when the window
        slides. */
    method StoredStep(full: seq<Token> -> bool) returns (blocked: bool)
      requires Shape() && Sound(Now(), keys) && lookahead > 0 && Stored()
      modifies this`strstart, this`block_start, this`lookahead, this`tokens
      ensures Shape() && Sound(Now(), keys) && strstart + lookahead == old(strstart + lookahead) &&
        lookahead < old(lookahead) && Stored()
      ensures blocked ==> full(tokens)
    {
      hide GoodKeys, Sound, Codes;
      ghost var v := Now();
      strstart := strstart + lookahead;
      lookahead := 0;
      var max_start := block_start + MaxBlock();
      if strstart == 0 || strstart >= max_start {
        lookahead := strstart - max_start;
        strstart := max_start;
        SoundOn(v, keys, strstart);
        StoreBlock();
        if full(tokens) { return true; }
      } else {
        SoundOn(v, keys, strstart);
      }
      if strstart - block_start >= MaxDist() {
        StoreBlock();
        if full(tokens) { return true; }
      }
      blocked := false;
    }

    /** The end of deflate_stored: what is left goes into a last block. */
    method EndStored(flush: Flush, full: seq<Token> -> bool) returns (state: BlockState)
      requires Shape() && Sound(Now(), keys) && Stored() && lookahead == 0 && flush != NoFlush
      modifies this`insert, this`block_start, this`tokens
      ensures Shape() && Sound(Now(), keys) && Stored() && block_start == strstart &&
        Codes(tokens, data, |data|, MaxDist())
    {
      hide GoodKeys, Sound, Codes;
      SoundEnd(Now(), keys);
      insert := 0;
      if flush == Finish {
        StoreBlock();
        return if full(tokens) then FinishStarted else FinishDone;
      }
      if strstart > block_start {
        StoreBlock();
        if full(tokens) { return NeedMore; }
      }
      state := BlockDone;
    }

    /** deflate_stored. No string goes into the table. */
    method DeflateStored(flush: Flush, full: seq<Token> -> bool) returns (state: BlockState)
      requires Shape() && Sound(Now(), keys) && high_water <= window.Length && Stored()
      modifies this`strstart, this`block_start, this`lookahead, this`insert, this`ins_h, this`high_water,
        this`match_start, this`next_in, this`tokens, this`data, this`base, this`ins, window, prev, head
      ensures Shape() && Sound(Now(), keys) && high_water <= window.Length && Stored()
      ensures data + next_in == old(data + next_in) && |old(data)| <= |data|
      ensures state == NeedMore && flush == NoFlush ==> next_in == [] || full(tokens)
      ensures state == BlockDone || state == FinishDone || state == FinishStarted ==>
        flush != NoFlush && next_in == [] && lookahead == 0 && block_start == strstart &&
          Codes(tokens, data, |data|, MaxDist())
    {
      hide GoodKeys, Sound, Codes;
      while true
        invariant Shape() && Sound(Now(), keys) && high_water <= window.Length && Stored()
        invariant data + next_in == old(data + next_in) && |old(data)| <= |data|
        decreases lookahead + |next_in|
      {
        if lookahead <= 1 {
          FillStored();
          if lookahead == 0 && flush == NoFlush { return NeedMore; }
          if lookahead == 0 { break; }
        }
        var blocked := StoredStep(full);
        if blocked { return NeedMore; }
      }
      state := EndStored(flush, full);
    }

    // ----- deflate_huff and deflate_rle -----

    /** No string goes into the table and none waits for it; the tokens stand for all input before strstart. */
    ghost predicate Unhashed()
      reads `tokens, `ins, `data, `base, `strstart, `lookahead, `insert, `ins_h, window, prev, head
    {
      Sound(Now(), keys) && insert == 0 && Coded() && forall t :: t in tokens ==> Allowed(t)
    }

    /** FillWindow when strings are passed by. */
    method FillUnhashed()
      requires Shape() && Unhashed() && lookahead < MIN_LOOKAHEAD && high_water <= window.Length
      modifies this`strstart, this`block_start, this`lookahead, this`insert, this`ins_h, this`high_water,
        this`match_start, this`next_in, this`data, this`base, this`ins, window, prev, head
      ensures Shape() && Unhashed() && high_water <= window.Length && strstart + MIN_LOOKAHEAD <= window.Length
      ensures data + next_in == old(data + next_in) && |old(data)| <= |data|
      ensures lookahead + |next_in| == old(lookahead + |next_in|) && (lookahead >= MIN_LOOKAHEAD || next_in == [])
    {
      hide GoodKeys, Ready, Sound, Codes;
      ghost var data0, all := data, data + next_in;
      FillWindow();
      CodedMore(tokens, data0, data, next_in, all, base + strstart, MaxDist());
    }

    /** The byte at strstart as a literal. */
    method LiteralHere()
      requires Shape() && Unhashed() && lookahead > 0
      modifies this`strstart, this`lookahead, this`tokens
      ensures Shape() && Unhashed() && strstart == old(strstart) + 1 && lookahead == old(lookahead) - 1
    {
      hide GoodKeys, Sound, Codes;
      SoundByte(Now(), keys, strstart);
      CodesLiteral(tokens, data, base + strstart, MaxDist());
      SoundOn(Now(), keys, strstart + 1);
      tokens := tokens + [Literal(window[strstart])];
      lookahead := lookahead - 1;
      strstart := strstart + 1;
    }

    /** The run of match_length bytes at strstart as a match with the byte before it. */
    method RunHere()
      requires strategy == Rle && Shape() && Unhashed() && 0 < strstart && MIN_MATCH <= match_length <= lookahead &&
        match_length <= MAX_MATCH
      requires strstart + lookahead <= window.Length
      requires forall i :: strstart <= i < strstart + match_length ==> window[i] == window[strstart - 1]
      modifies this`strstart, this`lookahead, this`match_length, this`tokens
      ensures Shape() && Unhashed() && strstart + lookahead == old(strstart + lookahead) && lookahead < old(lookahead)
    {
      hide GoodKeys, Sound, Codes, Repeats;
      RunRepeats(Now(), keys, match_length);
      CodesMatch(tokens, data, base + strstart, 1, match_length, MaxDist());
      SoundOn(Now(), keys, strstart + match_length);
      tokens := tokens + [Match(1, match_length)];
      lookahead := lookahead - match_length;
      strstart := strstart + match_length;
      match_length := 0;
    }

    /** How many bytes from strstart on equal the byte before: 0 if they are fewer than three, and at most MAX_MATCH. */
    method RunLength() returns (len: nat)
      requires 0 < strstart && strstart + MAX_MATCH < window.Length
      ensures len == 0 || MIN_MATCH <= len <= MAX_MATCH
      ensures forall i :: strstart <= i < strstart + len ==> window[i] == window[strstart - 1]
      ensures 0 < len < MAX_MATCH ==> window[strstart + len] != window[strstart - 1]
      ensures len == 0 ==> exists i :: strstart <= i < strstart + MIN_MATCH && window[i] != window[strstart - 1]
    {
      var before := window[strstart - 1];
      if before != window[strstart] || before != window[strstart + 1] || before != window[strstart + 2] { return 0; }
      var strend := strstart + MAX_MATCH;
      var scan := strstart + 3;
      while window[scan] == before && scan < strend
        invariant strstart + 3 <= scan <= strend
        invariant forall i :: strstart <= i < scan ==> window[i] == before
      {
        scan := scan + 1;
      }
      len := MAX_MATCH - (strend - scan);
    }

    /** One turn of deflate_rle: a run, or else a literal. */
    method RleStep()
      requires strategy == Rle && Shape() && Unhashed() && lookahead > 0 && strstart + MAX_MATCH < window.Length
      modifies this`strstart, this`lookahead, this`match_length, this`tokens
      ensures Shape() && Unhashed() && strstart + lookahead == old(strstart + lookahead) && lookahead < old(lookahead)
    {
      hide GoodKeys, Sound, Codes, Repeats;
      SoundFits(Now(), keys);
      match_length := 0;
      if lookahead >= MIN_MATCH && strstart > 0 {
        match_length := RunLength();
        if match_length > lookahead { match_length := lookahead; }
      }
      if match_length >= MIN_MATCH { RunHere(); } else { LiteralHere(); }
    }

    /** The end of both. */
    method EndUnhashed(flush: Flush, full: seq<Token> -> bool) returns (state: BlockState)
      requires Shape() && Unhashed() && lookahead == 0 && flush != NoFlush
      modifies this`insert
      ensures Shape() && Unhashed() && Codes(tokens, data, |data|, MaxDist())
    {
      hide GoodKeys, Sound, Codes;
      SoundEnd(Now(), keys);
      insert := 0;
      if flush == Finish { return if full(tokens) then FinishStarted else FinishDone; }
      state := if full(tokens) then NeedMore else BlockDone;
    }

    /** deflate_huff: literals only. */
    method DeflateHuff(flush: Flush, full: seq<Token> -> bool) returns (state: BlockState)
      requires Shape() && Unhashed() && high_water <= window.Length
      modifies this`strstart, this`block_start, this`lookahead, this`insert, this`ins_h, this`high_water,
        this`match_length, this`match_start, this`next_in, this`tokens, this`data, this`base, this`ins, window, prev,
        head
      ensures Shape() && Unhashed() && high_water <= window.Length
      ensures data + next_in == old(data + next_in) && |old(data)| <= |data|
      ensures state == NeedMore && flush == NoFlush ==> next_in == [] || full(tokens)
      ensures state == BlockDone || state == FinishDone || state == FinishStarted ==>
        flush != NoFlush && next_in == [] && lookahead == 0 && Codes(tokens, data, |data|, MaxDist())
    {
      hide GoodKeys, Sound, Codes;
      while true
        invariant Shape() && Unhashed() && high_water <= window.Length
        invariant data + next_in == old(data + next_in) && |old(data)| <= |data|
        decreases lookahead + |next_in|
      {
        if lookahead == 0 {
          FillUnhashed();
          if lookahead == 0 {
            if flush == NoFlush { return NeedMore; }
            break;
          }
        }
        match_length := 0;
        LiteralHere();
        if full(tokens) { return NeedMore; }
      }
      state := EndUnhashed(flush, full);
    }

    /** deflate_rle: matches with the byte before only. */
    method DeflateRle(flush: Flush, full: seq<Token> -> bool) returns (state: BlockState)
      requires strategy == Rle && Shape() && Unhashed() && high_water <= window.Length
      modifies this`strstart, this`block_start, this`lookahead, this`insert, this`ins_h, this`high_water,
        this`match_length, this`match_start, this`next_in, this`tokens, this`data, this`base, this`ins, window, prev,
        head
      ensures Shape() && Unhashed() && high_water <= window.Length
      ensures data + next_in == old(data + next_in) && |old(data)| <= |data|
      ensures state == NeedMore && flush == NoFlush ==> next_in == [] || full(tokens)
      ensures state == BlockDone || state == FinishDone || state == FinishStarted ==>
        flush != NoFlush && next_in == [] && lookahead == 0 && Codes(tokens, data, |data|, MaxDist())
    {
      hide GoodKeys, Sound, Codes;
      while true
        invariant Shape() && Unhashed() && high_water <= window.Length
        invariant data + next_in == old(data + next_in) && |old(data)| <= |data|
        decreases lookahead + |next_in|
      {
        if lookahead <= MAX_MATCH {
          FillUnhashed();
          if lookahead <= MAX_MATCH && flush == NoFlush { return NeedMore; }
          if lookahead == 0 { break; }
        }
        SoundFits(Now(), keys);
        RleStep();
        if full(tokens) { return NeedMore; }
      }
      state := EndUnhashed(flush, full);
    }

    // ----- a call -----

    /** There is nothing to do: no input, and a flush that is not more than the one before it. */
    predicate Repeated(more: seq<int>, flush: Flush)
      reads this`next_in, this`last_flush
    {
      next_in == [] && more == [] && Rank(Number5(flush)) <= Rank(last_flush) && flush != Finish
    }

    /** deflate, as far as the matcher is concerned: more input is supplied, and the function of the level is called. At
        any time the tokens stand for a beginning of all the input that was supplied, over however many calls, and once
        the input has been declared finished they stand for all of it. */
    method Deflate(more: seq<int>, flush: Flush, full: seq<Token> -> bool, room: Room) returns (ret: Return)
      requires Valid() && Bytes(more)
      modifies this, window, prev, head
      ensures Valid() && GoodTokens(tokens, MaxDist()) && Expand(tokens) <= supplied &&
        (finished ==> Expand(tokens) == supplied)
      ensures forall t :: t in tokens ==> Allowed(t)
      ensures ret.StreamError? <==> old(finished) && flush != Finish
      ensures ret.BufError? <==>
        (!ret.StreamError? &&
        (room.none || (!room.pending && old(Repeated(more, flush))) ||
          (old(finished) && more != [] && !(room.pending && room.blocked))))
      ensures ret.StreamError? || ret.BufError? ==> tokens == old(tokens) && supplied == old(supplied)
      ensures !ret.StreamError? && !ret.BufError? && !(old(finished) && more != []) ==> supplied == old(supplied) + more
      ensures finished == (old(finished) || ret == State(FinishStarted) || ret == State(FinishDone))
      ensures ret == State(BlockDone) ==> Expand(tokens) == supplied
      ensures ret == State(BlockDone) && flush == FullFlush ==> Forgotten()
    {
      hide *;
      Standing();
      if finished && flush != Finish { return StreamError; }
      if room.none { return BufError; }
      var repeated := Repeated(more, flush);
      SetFlush(Number5(flush));
      if room.pending {
        if room.blocked {
          SetFlush(-1);
          if !finished || |more| == 0 { Supply(more); }
          Standing();
          return Nothing;
        }
      } else if repeated {
        return BufError;
      }
      if finished && |more| != 0 { return BufError; }
      Supply(more);
      ret := Nothing;
      if |next_in| != 0 || lookahead != 0 || (flush != NoFlush && !finished) {
        NotFinished();
        var state := Run(flush, full);
        ret := State(state);
        if state == BlockDone && flush == FullFlush { Forget(); }
        if room.noneLeft && state != FinishDone { SetFlush(-1); }
      }
      Standing();
    }

    method SetFlush(f: int)
      requires Valid()
      modifies this`last_flush
      ensures Valid() && last_flush == f
    {
      hide Ready, Codes, HeldBack, GoodKeys, GoodConfig;
      last_flush := f;
    }

    /** No string before this point is known any more. */
    ghost predicate Forgotten()
      reads this`ins, this`strstart, this`base, this`data, head
    {
      ins == {} && strstart == 0 && base == |data| && forall h :: 0 <= h < head.Length ==> head[h] == 0
    }

    /** Nothing is held back. */
    ghost predicate AtEnd()
      reads `match_available, `block_start, `strstart
    {
      (IsSlow(level) ==> !match_available) && (level == 0 ==> block_start == strstart)
    }

    /** CLEAR_HASH, and the window begins anew. */
    method ForgetStrings()
      requires Shape() && Sound(Now(), keys) && lookahead == 0 && insert >= 0
      modifies this`strstart, this`block_start, this`insert, this`ins, this`base, head
      ensures Shape() && Ready(Now(), keys) && Forgotten() && strstart == block_start == 0 && insert == 0 &&
        base == old(base + strstart)
    {
      hide GoodKeys, Number, Chains, GoodHash;
      ClearHash(head);
      ins := {};
      base := base + strstart;
      strstart := 0;
      block_start := 0;
      insert := 0;
      StartAgain(Now(), keys);
    }

    method Forget()
      requires Valid() && lookahead == 0 && !finished && (Plain() || AtEnd())
      modifies this`strstart, this`block_start, this`insert, this`ins, this`base, head
      ensures Valid() && Forgotten() && tokens == old(tokens) && supplied == old(supplied)
    {
      hide GoodKeys, Ready, Sound, Codes, Repeats, Forgotten;
      if level > 0 && !Plain() { ReadySound(Now(), keys); }
      ForgetStrings();
      ReadySound(Now(), keys);
    }

    method Supply(more: seq<int>)
      requires Valid() && Bytes(more) && (finished ==> more == [])
      modifies this`next_in, this`supplied
      ensures Valid() && supplied == old(supplied) + more && next_in == old(next_in) + more
    {
      hide Ready, Codes, HeldBack, GoodKeys;
      Assoc(data, next_in, more);
      next_in := next_in + more;
      supplied := supplied + more;
    }

    lemma NotFinished()
      requires Valid()
      ensures next_in != [] || lookahead != 0 ==> !finished
    {
      hide Ready, Codes, HeldBack, GoodKeys;
    }

    /** The function of the level. */
    method Run(flush: Flush, full: seq<Token> -> bool) returns (state: BlockState)
      requires Valid() && !finished
      modifies this, window, prev, head
      ensures Valid() && supplied == old(supplied) &&
        (state == BlockDone ==> Expand(tokens) == supplied && lookahead == 0)
      ensures state == BlockDone ==> (Plain() || AtEnd())
      ensures finished == (state == FinishStarted || state == FinishDone)
    {
      hide Shape, Now, Unhashed, Stored, Lazy, Coded, Ready, Sound, Codes;
      if strategy == HuffmanOnly {
        state := DeflateHuff(flush, full);
      } else if strategy == Rle {
        state := DeflateRle(flush, full);
      } else if level == 0 {
        state := DeflateStored(flush, full);
      } else if IsSlow(level) {
        state := DeflateSlow(flush, full);
      } else {
        state := DeflateFast(flush, full);
      }
      finished := state == FinishStarted || state == FinishDone;
      if state == BlockDone { CodesAll(tokens, data, MaxDist()); }
    }

    lemma Standing()
      requires Valid()
      ensures GoodTokens(tokens, MaxDist()) && Expand(tokens) <= supplied && (finished ==> Expand(tokens) == supplied)
      ensures forall t :: t in tokens ==> Allowed(t)
    {
      hide Ready, GoodKeys, GoodTokens, Repeats;
      assert supplied[..|data|] == data;
    }
  }

  /** pending_buf has four bytes for each of the 2^(memLevel + 6) tokens of a block. */
  lemma PendingSize(memLevel: nat)
    requires memLevel >= 1
    ensures Pow2(memLevel + 6) * 4 >= 512
  {
    Pow2Add(7, memLevel - 1);
    assert Pow2(7) == 128;
  }

  lemma SoundByte(v: View, k: Keys, i: int)
    requires Sound(v, k) && 0 <= i < End(v)
    ensures End(v) <= |v.w| && 0 <= v.base && v.base + i < |v.data| && v.w[i] == v.data[v.base + i] && 0 <= v.w[i] < 256
  {
    hide Chains, GoodKeys;
  }

  /** With no string waiting, strstart may move on. */
  lemma SoundOn(v: View, k: Keys, to: int)
    requires Sound(v, k) && v.insert == 0 && v.strstart <= to <= End(v)
    ensures Sound(v.(strstart := to, lookahead := End(v) - to), k)
  {
    hide Chains, GoodKeys;
  }

  lemma SoundFits(v: View, k: Keys)
    requires Sound(v, k)
    ensures End(v) <= |v.w|
  {
    hide Chains, GoodKeys;
  }

  lemma RunRepeats(v: View, k: Keys, len: int)
    requires Sound(v, k) && 0 < v.strstart && 0 <= len <= v.lookahead && End(v) <= |v.w|
    requires forall i :: v.strstart <= i < v.strstart + len ==> v.w[i] == v.w[v.strstart - 1]
    ensures Repeats(v.data, v.base + v.strstart, 1, len)
  {
    hide Chains, GoodKeys;
    var n := v.base + v.strstart;
    forall j | n - 1 <= j < n + len ensures v.data[j] == v.w[v.strstart - 1] {
      assert v.w[j - v.base] == v.data[v.base + (j - v.base)];
    }
    assert forall j :: n <= j < n + len ==> v.data[j] == v.data[j - 1];
  }

  lemma SoundEnd(v: View, k: Keys)
    requires Sound(v, k)
    ensures |v.data| == v.base + v.strstart + v.lookahead
  {
    hide Chains, GoodKeys;
  }

  lemma WindowSize(w_bits: nat)
    requires 9 <= w_bits
    ensures Pow2(w_bits) >= 512
  {
    Pow2Add(9, w_bits - 9);
    assert Pow2(9) == 512;
  }

  method ClearHash(head: array<int>)
    modifies head
    ensures forall h :: 0 <= h < head.Length ==> head[h] == 0
  {
    for h := 0 to head.Length
      invariant forall g :: 0 <= g < h ==> head[g] == 0
    {
      head[h] := 0;
    }
  }

  lemma StartAgain(v: View, k: Keys)
    requires GoodKeys(k) && Bytes(v.w) && |v.prev| >= 512 && |v.w| == 2 * |v.prev| && |v.head| == Number(k.mask) + 1 &&
      Bytes(v.data)
    requires forall h :: 0 <= h < |v.head| ==> v.head[h] == 0
    requires v == View(v.w, v.head, v.prev, {}, v.data, |v.data|, 0, 0, 0, v.ins_h)
    ensures Ready(v, k)
  {
    hide GoodHash, Number, Chains;
    ChainsStart(v.w, v.head, v.prev, k);
  }

  lemma StartReady(v: View, k: Keys)
    requires GoodKeys(k) && Bytes(v.w) && |v.prev| >= 512 && |v.w| == 2 * |v.prev| && |v.head| == Number(k.mask) + 1
    requires (forall h :: 0 <= h < |v.head| ==> v.head[h] == 0) &&
      v == View(v.w, v.head, v.prev, {}, [], 0, 0, 0, 0, v.ins_h)
    ensures Ready(v, k)
  {
    hide GoodHash, Number, Chains;
    ChainsStart(v.w, v.head, v.prev, k);
  }

  lemma CodesAll(tokens: seq<Token>, data: seq<int>, maxDist: int)
    requires Codes(tokens, data, |data|, maxDist)
    ensures Expand(tokens) == data
  {
  }

  lemma NoneHeld(maxDist: int)
    ensures HeldBack([], [], 0, false, MIN_MATCH - 1, 0, maxDist)
  {
    NoTokens([], maxDist);
  }

  /** Every entry moves down with the window, or becomes nothing. */
  method SlideTable(a: array<int>, n: nat)
    modifies a
    ensures a[..] == Slid(old(a[..]), n)
  {
    for i := 0 to a.Length
      invariant forall j :: 0 <= j < i ==> a[j] == if old(a[j]) >= n then old(a[j]) - n else 0
      invariant forall j :: i <= j < a.Length ==> a[j] == old(a[j])
    {
      var m := a[i];
      a[i] := if m >= n then m - n else 0;
    }
  }

  lemma SlideFits(v: View, k: Keys)
    requires Steady(v, k) && v.strstart >= 2 * |v.prev| - MIN_LOOKAHEAD
    ensures |v.w| == 2 * |v.prev|
  {
  }

  lemma SlidReady(v: View, k: Keys, w': seq<int>)
    requires Steady(v, k) && v.strstart >= 2 * |v.prev| - MIN_LOOKAHEAD && Patched(v.w, w', 0, v.w[|v.prev|..])
    ensures var n := |v.prev|;
            var v' := v.(w := w', head := Slid(v.head, n), prev := Slid(v.prev, n), ins := SlidSet(v.ins, n),
              base := v.base + n, strstart := v.strstart - n);
            Steady(v', k) && (Ready(v, k) ==> Ready(v', k))
  {
    hide Chains, HashReady, Windowed, Slid, SlidSet;
    var n := |v.prev|;
    SlideFits(v, k);
    assert Bytes(v.w) by { WindowBytes(v); }
    PatchedBytes(v.w, w', 0, v.w[n..]);
    forall i | 0 <= i < n ensures w'[i] == v.w[i + n] { assert w'[0 + i] == v.w[n..][i]; }
    Slide(v, k, w');
  }

  lemma WindowBytes(v: View)
    requires Windowed(v)
    ensures Bytes(v.w)
  {
  }

  lemma SoundBasics(v: View, k: Keys, top: int)
    requires SoundTo(v, k, top)
    ensures Bytes(v.w) && |v.w| == 2 * |v.prev| && End(v) <= |v.w| && |v.prev| >= 512 && GoodKeys(k)
  {
    hide GoodKeys;
  }

  lemma ChainKept(v: View, k: Keys, q: int, h: int, str: int)
    requires SoundTo(v, k, str) && 0 <= str && str + 3 <= End(v) && HashReady(v, k, str) && InChain(v, k, q, h, str)
    ensures |v.head| == Number(k.mask) + 1 && 0 < |v.prev| && str + 3 <= |v.w| &&
      InChain(WithString(v, k, str), k, q, h, str)
  {
    hide GoodKeys, HashAt, Number, UpdateHash;
  }

  /** Soundness does not depend on ins_h. */
  lemma SoundIgnores(v: View, k: Keys, top: int)
    requires SoundTo(v, k, top)
    ensures forall h :: SoundTo(v.(ins_h := h), k, top)
  {
    hide Chains, GoodKeys;
  }

  /** Nor does it, or the hash, on how many strings are pending. */
  lemma SameTable(v: View, v': View, k: Keys, top: int)
    requires SoundTo(v, k, top) && HashReady(v, k, top) && v' == v.(insert := v'.insert)
    ensures SoundTo(v', k, top) && HashReady(v', k, top)
  {
    hide Chains, GoodKeys;
  }

  lemma BytesParts(x: seq<int>, n: nat)
    requires Bytes(x) && n <= |x|
    ensures Bytes(x[..n]) && Bytes(x[n..])
  {
  }

  lemma ReadSound(v: View, k: Keys, w': seq<int>, more: seq<int>)
    requires Sound(v, k) && Bytes(more) && Patched(v.w, w', End(v), more)
    ensures Sound(v.(w := w', data := v.data + more, lookahead := v.lookahead + |more|), k)
  {
    hide Sound;
    Read(v, k, w', more);
  }

  lemma ReadyBasics(v: View, k: Keys)
    requires Ready(v, k)
    ensures Bytes(v.w) && |v.w| == 2 * |v.prev| && 0 <= End(v) <= |v.w| && |v.prev| >= 512 &&
      0 <= v.insert <= v.strstart && v.insert < MIN_MATCH
    ensures |v.data| == v.base + End(v)
  {
    hide GoodKeys, Link, HashReady, Inserted;
  }

  lemma SteadyBasics(v: View, k: Keys)
    requires Steady(v, k)
    ensures Bytes(v.w) && |v.w| == 2 * |v.prev| && 0 <= End(v) <= |v.w| && |v.prev| >= 512 &&
      0 <= v.insert <= v.strstart && v.insert < MIN_MATCH
    ensures |v.data| == v.base + End(v)
  {
    hide GoodKeys, Link, Inserted;
  }

  lemma ReadySteady(v: View, k: Keys)
    requires Ready(v, k)
    ensures Steady(v, k)
  {
    hide Chains, GoodKeys, HashReady;
  }

  lemma ReadySound(v: View, k: Keys)
    requires Ready(v, k)
    ensures Sound(v, k)
  {
    hide Sound;
  }

  lemma FewReady(v: View, k: Keys)
    requires Sound(v, k) && v.lookahead + v.insert < MIN_MATCH
    ensures Ready(v, k)
  {
    hide SoundTo;
  }

  /** zmemzero. */
  method ZeroMem(a: array<int>, at: nat, n: nat)
    requires at + n <= a.Length
    modifies a
    ensures forall i :: 0 <= i < a.Length ==> a[i] == if at <= i < at + n then 0 else old(a[i])
  {
    for k := 0 to n
      invariant forall i :: 0 <= i < a.Length ==> a[i] == if at <= i < at + k then 0 else old(a[i])
    {
      a[at + k] := 0;
    }
  }

  // ----- one string -----

  /** The string at strstart is in the table if all of it is there. */
  ghost predicate Entered(v: View, k: Keys) {
    if v.lookahead >= MIN_MATCH then SoundTo(v, k, v.strstart + 1) && HashReady(v, k, v.strstart + 1) &&
      v.insert == 0 && v.strstart >= 0
    else Ready(v, k)
  }

  lemma NextString(v: View, k: Keys)
    requires Entered(v, k) && v.lookahead > 0
    ensures Ready(v.(strstart := v.strstart + 1, lookahead := v.lookahead - 1), k)
  {
    hide Chains, GoodKeys;
  }

  lemma ReadyLong(v: View, k: Keys)
    requires Ready(v, k) && v.lookahead >= MIN_MATCH
    ensures SoundTo(v, k, v.strstart) && HashReady(v, k, v.strstart) && v.strstart + 3 <= End(v) && v.insert == 0 &&
      v.strstart >= 0
  {
    hide Chains, GoodKeys;
  }

  lemma EnteredLong(v: View, k: Keys)
    requires SoundTo(v, k, v.strstart + 1) && HashReady(v, k, v.strstart + 1) && v.insert == 0 && v.strstart >= 0 &&
      v.lookahead >= MIN_MATCH
    ensures Entered(v, k)
  {
    hide Chains, GoodKeys;
  }

  lemma EnteredShort(v: View, k: Keys)
    requires Ready(v, k) && v.lookahead < MIN_MATCH
    ensures Entered(v, k)
  {
    hide Ready;
  }

  /** A string before strstart with the same hash. */
  ghost predicate Candidate(v: View, k: Keys, q: int) {
    && GoodKeys(k) && Bytes(v.w) && v.lookahead >= MIN_MATCH && 0 <= v.strstart && v.strstart + 3 <= |v.w| && q in v.ins
    && 0 < q < v.strstart && q + 3 <= |v.w| && HashAt(v.w, q, k) == HashAt(v.w, v.strstart, k)
  }

  lemma IsCandidate(v: View, k: Keys, q: int)
    requires GoodKeys(k) && Bytes(v.w) && v.lookahead >= MIN_MATCH && 0 <= v.strstart && v.strstart + 3 <= |v.w|
    requires InChain(v, k, q, HashAt(v.w, v.strstart, k), v.strstart) && q != 0
    ensures Candidate(v, k, q)
  {
    hide GoodKeys, HashAt;
  }

  lemma CandidateChain(v: View, k: Keys, q: int, maxDist: int)
    requires Entered(v, k) && Candidate(v, k, q) && v.strstart - q <= maxDist
    ensures Chains(v.w, v.head, v.prev, v.ins, v.strstart + v.lookahead, k) &&
      OnChain(v.w, v.ins, k, q, v.strstart, maxDist)
    ensures v.lookahead >= 3 && |v.prev| >= MIN_LOOKAHEAD && forall p :: p in v.ins ==> p <= v.strstart
  {
    hide GoodKeys, HashAt, Chains;
  }

  lemma EnteredData(v: View, k: Keys)
    requires Entered(v, k)
    ensures Bytes(v.w) && Bytes(v.data) && |v.data| == v.base + v.strstart + v.lookahead && v.base >= 0 &&
      v.strstart >= 0 && v.lookahead >= 0
    ensures End(v) <= |v.w|
  {
    hide Chains, GoodKeys, HashReady;
  }

  lemma WindowByte(v: View, k: Keys, i: int)
    requires Entered(v, k) && 0 <= i < End(v)
    ensures End(v) <= |v.w| && 0 <= v.base && v.base + i < |v.data| && v.w[i] == v.data[v.base + i]
  {
    hide Chains, GoodKeys, HashReady;
  }

  /** A match in the window repeats input. */
  lemma FoundRepeats(v: View, k: Keys, start: int, len: nat, maxDist: int)
    requires Entered(v, k) && Found(v.w, start, v.strstart, len, maxDist) && len <= v.lookahead
    ensures Repeats(v.data, v.base + v.strstart, v.strstart - start, len) && 1 <= v.strstart - start <= maxDist &&
      len <= MAX_MATCH
  {
    hide Chains, GoodKeys, HashReady;
    var d := v.strstart - start;
    forall i | v.base + v.strstart <= i < v.base + v.strstart + len ensures v.data[i] == v.data[i - d] {
      assert v.w[i - v.base - d] == v.w[i - v.base - d + (v.strstart - start)];
      assert v.w[i - v.base] == v.data[v.base + (i - v.base)] &&
        v.w[i - v.base - d] == v.data[v.base + (i - v.base - d)];
    }
  }

  lemma EnteredSkipped(v: View, k: Keys, count: nat)
    requires Entered(v, k) && 1 <= count <= v.lookahead
    ensures var v' := v.(strstart := v.strstart + count, lookahead := v.lookahead - count);
            SoundTo(v', k, v'.strstart) && Sound(v', k) && (v'.insert == 0 || v'.lookahead + v'.insert < MIN_MATCH)
  {
    hide Chains, GoodKeys, HashReady;
  }

  lemma SkippedReady(v: View, k: Keys)
    requires Sound(v, k) && (v.insert == 0 || v.lookahead + v.insert < MIN_MATCH) && HashReady(v, k, v.strstart)
    ensures Ready(v, k)
  {
    hide SoundTo, HashReady;
  }

  lemma PendingReady(v: View, k: Keys, insert: int)
    requires Ready(v, k) && v.lookahead == 0 && 0 <= insert < MIN_MATCH && insert <= v.strstart
    ensures Ready(v.(insert := insert), k)
  {
    hide Chains, GoodKeys;
    assert Inserted(v.w, v.ins, End(v)) by { ChainsInserted(v, k); }
  }

  lemma ChainsInserted(v: View, k: Keys)
    requires Chains(v.w, v.head, v.prev, v.ins, End(v), k)
    ensures Inserted(v.w, v.ins, End(v))
  {
  }

  /** Input that is read does not change what the tokens stand for. */
  lemma CodedMore(tokens: seq<Token>, data0: seq<int>, data: seq<int>, rest: seq<int>, all: seq<int>, n: int,
      maxDist: int)
    requires Codes(tokens, data0, n, maxDist) && |data0| <= |data| && data + rest == all && data0 <= all
    ensures Codes(tokens, data, n, maxDist)
  {
    hide GoodTokens, Expand;
    assert data == all[..|data|] && data0 == all[..|data0|];
    assert data[..n] == data0[..n];
  }

  // ----- a match held back -----

  ghost predicate HeldBack(tokens: seq<Token>, data: seq<int>, at: int, available: bool, length: int, start: int,
      maxDist: int) {
    && Codes(tokens, data, if available then at - 1 else at, maxDist) && MIN_MATCH - 1 <= length <= MAX_MATCH
    && (length >= MIN_MATCH ==> available && Repeats(data, at - 1, at - 1 - start, length) && at - 1 - start <= maxDist)
  }

  lemma HeldFits(tokens: seq<Token>, data: seq<int>, at: int, length: int, start: int, maxDist: int)
    requires length >= MIN_MATCH && HeldBack(tokens, data, at, true, length, start, maxDist)
    ensures at - 1 + length <= |data|
  {
  }

  lemma HeldMore(tokens: seq<Token>, data0: seq<int>, data: seq<int>, rest: seq<int>, all: seq<int>, at: int,
      available: bool, length: int, start: int, maxDist: int)
    requires HeldBack(tokens, data0, at, available, length, start, maxDist) && |data0| <= |data| &&
      data + rest == all && data0 <= all
    ensures HeldBack(tokens, data, at, available, length, start, maxDist)
  {
    hide Codes;
    CodedMore(tokens, data0, data, rest, all, if available then at - 1 else at, maxDist);
    assert data == all[..|data|] && data0 == all[..|data0|];
    assert forall i :: 0 <= i < |data0| ==> data[i] == data0[i];
  }

  /** Without lookahead no match is held back. */
  lemma HeldEnd(tokens: seq<Token>, data: seq<int>, at: int, available: bool, length: int, start: int, maxDist: int)
    requires HeldBack(tokens, data, at, available, length, start, maxDist) && at == |data|
    ensures length < MIN_MATCH
  {
  }

  lemma CandidateLong(v: View, k: Keys, q: int)
    requires Candidate(v, k, q)
    ensures v.lookahead >= MIN_MATCH
  {
    hide GoodKeys, HashAt;
  }

  lemma FoundShort(w: seq<int>, start: int, strstart: int, len: int, maxDist: int)
    ensures Found(w, start, strstart, len, maxDist) ==> len <= MAX_MATCH
  {
  }
}

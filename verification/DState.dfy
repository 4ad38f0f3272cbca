/** BZ2_decompress: a call takes up at the label where the one before ran out of input, with its locals restored. */
module DecompressState {

  import opened Powers
  import opened Rotations
  import opened Counting
  import opened Mtf
  import opened MtfRows
  import opened MtfEncode
  import opened HuffmanCodes
  import opened BitStream
  import opened BitReader
  import opened Machine
  import opened MachineSound
  import opened MachineRun
  import opened DStateView
  import InverseBwt
  import InverseBwtSmall
  import O = BlockOutput

  const WORD := 0x1_0000_0000

  /** (x << 8) | c, in 32 bits. */
  function Append(x: int, c: int): int { (x * 256 + c) % WORD }

  class DState {
    var state: Label
    /** The save area. */
    var save: Locals
    var blockSize100k: int
    var currBlockNo: int
    var storedBlockCRC: int
    var storedCombinedCRC: int
    var blockRandomised: bool
    var origPtr: int
    var inUse16: seq<bool>
    var inUse: seq<bool>
    var nInUse: int
    var seqToUnseq: seq<int>
    var selectorMtf: seq<int>
    var selector: seq<int>
    var len: seq<seq<int>>
    var limit: seq<seq<int>>
    var base: seq<seq<int>>
    var perm: seq<seq<int>>
    var minLens: seq<int>
    var unzftab: seq<int>
    const mtfa: array<int>
    const mtfbase: array<int>
    const smallDecompress: bool
    /** tt, or in the small form ll16 */
    var tt: array<int>
    var ll4: seq<int>
    var cftab: seq<int>
    ghost var turns: nat
    const reader: Reader
    /** Where the machine is. */
    ghost var s: State

    ghost predicate Apart()
      reads this`tt
    {
      mtfa != mtfbase && tt != mtfa && tt != mtfbase
    }

    ghost function HeadNow(): Head
      reads this`state, this`blockSize100k, this`currBlockNo, this`storedBlockCRC, this`storedCombinedCRC,
        this`blockRandomised, this`origPtr
    {
      Head(state, blockSize100k, currBlockNo, storedBlockCRC, storedCombinedCRC, blockRandomised, origPtr)
    }

    ghost function MapsNow(): Maps
      reads this`inUse16, this`inUse, this`nInUse, this`seqToUnseq, this`selectorMtf, this`selector
    {
      Maps(inUse16, inUse, nInUse, seqToUnseq, selectorMtf, selector)
    }

    ghost function CodesNow(): Codes
      reads this`len, this`limit, this`base, this`perm, this`minLens
    {
      Codes(len, limit, base, perm, minLens)
    }

    ghost function BodyNow(): Body
      reads this`unzftab, this`tt, this`ll4, this`cftab, this`turns, mtfa, mtfbase, tt
    {
      Body(unzftab, mtfa[..], mtfbase[..], tt[..], smallDecompress, ll4, cftab, turns)
    }

    ghost function Now(): Fields
      reads this`state, this`blockSize100k, this`currBlockNo, this`storedBlockCRC, this`storedCombinedCRC,
        this`blockRandomised, this`origPtr
      reads this`inUse16, this`inUse, this`nInUse, this`seqToUnseq, this`selectorMtf, this`selector
      reads this`len, this`limit, this`base, this`perm, this`minLens, this`unzftab, this`tt, this`ll4, this`cftab,
        this`turns, mtfa, mtfbase, tt
    {
      Fields(HeadNow(), MapsNow(), CodesNow(), BodyNow())
    }

    /** What every call finds and leaves, unless it fails. */
    ghost predicate Valid()
      reads this, reader, mtfa, mtfbase, tt
    {
      Apart() && reader.Valid() && Near(s) && Agree(Now(), save, s)
    }

    /** BZ2_bzDecompressInit, as far as this part is concerned. */
    constructor (small: bool)
      ensures Valid() && smallDecompress == small && fresh(reader) && fresh(mtfa) && fresh(mtfbase) && fresh(tt) &&
        s == Fresh() && reader.Left() == []
    {
      hide Agree, Near, Reader.Valid, Fresh;
      state, save := Magic(0), NO_LOCALS;
      blockSize100k, currBlockNo, storedBlockCRC, storedCombinedCRC, blockRandomised, origPtr := 0, 0, 0, 0, false, 0;
      inUse16, inUse, nInUse, seqToUnseq := seq(16, k => false), seq(256, k => false), 0, seq(256, k => 0);
      selectorMtf, selector := seq(MAX_SELECTORS, k => 0), seq(MAX_SELECTORS, k => 0);
      var row := seq(MAX_ALPHA_SIZE, k => 0);
      var rows := [row, row, row, row, row, row];
      len, limit, base, perm, minLens := rows, rows, rows, rows, [0, 0, 0, 0, 0, 0];
      unzftab := seq(256, k => 0);
      mtfa, mtfbase, tt := new int[MTFA_SIZE], new int[16], new int[0];
      smallDecompress, ll4, cftab, turns := small, [], [], 0;
      reader := new Reader();
      s := Fresh();
      new;
      StartAgrees(Now());
    }

    // ----- headers -----

    /** The bytes BZh. */
    method TakeMagic(l: Locals, k: int, uc: int, ghost s: State) returns (ret: Return)
      requires s.at == Magic(k) && 0 <= k < 3 && Agree(Now(), l, s) && 0 <= uc < 256
      modifies this`state
      ensures Outcome(ret, Now(), l, StepMagic(s, k, uc))
    {
      hide Agree, Outcome, MapsNow, CodesNow, BodyNow, Sizes, Step;
      ghost var f, t := Now(), StepMagic(s, k, uc);
      HeadParts(f, l, s);
      if uc != (if k == 0 then 0x42 else if k == 1 then 0x5a else 0x68) {
        Failing(Now(), l, t, DataErrorMagic);
        return Bad(DataErrorMagic);
      }
      state := Magic(k + 1);
      HeadKept(f, Now(), l, t);
      ret := Ok;
    }

    method Allocate(n: nat)
      requires Apart()
      modifies this`tt
      ensures Apart() && fresh(tt) && tt.Length == n && BodyNow().tt == tt[..] &&
        BodyNow() == old(BodyNow()).(tt := tt[..])
    {
      tt := new int[n];
    }

    /** The block size is known; the array for the block is allocated. */
    method SetSize(l: Locals, uc: int, ghost s: State)
      requires s.at == Magic(3) && Apart() && Agree(Now(), l, s) && 0x31 <= uc <= 0x39
      modifies this`state, this`blockSize100k, this`tt
      ensures Apart() && fresh(tt) && Outcome(Ok, Now(), l, StepMagic(s, 3, uc))
    {
      hide Agree, Outcome, MapsNow, CodesNow, BodyNow, Sizes, Step, StepMagic, Apart, Heads, Roomy, Framed;
      ghost var f := Now();
      HeadParts(f, l, s);
      blockSize100k := uc - 0x30;
      Allocate(blockSize100k * 100000);
      state := BlkHdr(0);
      SizeTaken(f, Now(), l, s, uc);
    }

    /** The block size; then the array for the block is allocated. */
    method TakeBlockSize(l: Locals, uc: int, ghost s: State) returns (ret: Return)
      requires s.at == Magic(3) && Apart() && Agree(Now(), l, s) && 0 <= uc < 256
      modifies this`state, this`blockSize100k, this`tt
      ensures Apart() && (tt == old(tt) || fresh(tt)) && Outcome(ret, Now(), l, StepMagic(s, 3, uc))
    {
      hide *;
      if uc < 0x31 || uc > 0x39 {
        blockSize100k := uc;
        SizeRefused(Now(), l, s, uc);
        return Bad(DataErrorMagic);
      }
      SetSize(l, uc, s);
      ret := Ok;
    }

    method TakeBlkHdr(l: Locals, k: int, uc: int, ghost s: State) returns (ret: Return)
      requires s.at == BlkHdr(k) && 0 <= k < 6 && HasBlockSize(s) && Agree(Now(), l, s) && 0 <= uc < 256
      modifies this`state, this`currBlockNo, this`storedBlockCRC
      ensures Outcome(ret, Now(), l, StepBlkHdr(s, k, uc))
    {
      hide Agree, Outcome, MapsNow, CodesNow, BodyNow, Sizes, Step;
      ghost var f, t := Now(), StepBlkHdr(s, k, uc);
      HeadParts(f, l, s);
      if k == 0 && uc == 0x17 {
        state := EndHdr(1);
      } else {
        if uc != BLKHDR[k] {
          Failing(Now(), l, t, DataError);
          return Bad(DataError);
        }
        if k < 5 {
          state := BlkHdr(k + 1);
        } else {
          currBlockNo := currBlockNo + 1;
          storedBlockCRC := 0;
          state := BlkCrc(0);
        }
      }
      HeadKept(f, Now(), l, t);
      ret := Ok;
    }

    method TakeBlkCrc(l: Locals, k: int, uc: int, ghost s: State) returns (ret: Return)
      requires s.at == BlkCrc(k) && 0 <= k < 4 && HasBlockSize(s) && Agree(Now(), l, s) && 0 <= uc < 256
      modifies this`state, this`storedBlockCRC
      ensures Outcome(ret, Now(), l, StepBlkCrc(s, k, uc))
    {
      hide Agree, Outcome, MapsNow, CodesNow, BodyNow, Sizes, Step;
      ghost var f, t := Now(), StepBlkCrc(s, k, uc);
      HeadParts(f, l, s);
      storedBlockCRC := Append(storedBlockCRC, uc);
      state := if k < 3 then BlkCrc(k + 1) else RandBit;
      HeadKept(f, Now(), l, t);
      ret := Ok;
    }

    method TakeRandBit(l: Locals, bit: int, ghost s: State) returns (ret: Return)
      requires s.at == RandBit && HasBlockSize(s) && Agree(Now(), l, s) && 0 <= bit < 2
      modifies this`state, this`blockRandomised, this`origPtr
      ensures Outcome(ret, Now(), l, s.(blockRandomised := bit == 1, origPtr := 0, at := OrigPtr(0)))
    {
      hide Agree, Outcome, MapsNow, CodesNow, BodyNow, Sizes, Step;
      ghost var f := Now();
      HeadParts(f, l, s);
      blockRandomised := bit == 1;
      origPtr := 0;
      state := OrigPtr(0);
      HeadKept(f, Now(), l, s.(blockRandomised := bit == 1, origPtr := 0, at := OrigPtr(0)));
      ret := Ok;
    }

    method TakeOrigPtr(l0: Locals, k: int, uc: int, ghost s: State) returns (l: Locals, ret: Return)
      requires s.at == OrigPtr(k) && 0 <= k < 3 && HasBlockSize(s) && s.origPtr >= 0 && Agree(Now(), l0, s) &&
        0 <= uc < 256
      modifies this`state, this`origPtr
      ensures Outcome(ret, Now(), l, StepOrigPtr(s, k, uc))
    {
      hide Agree, Outcome, MapsNow, CodesNow, BodyNow, Sizes, Step;
      ghost var f, t := Now(), StepOrigPtr(s, k, uc);
      HeadParts(f, l0, s);
      l := l0;
      origPtr := origPtr * 256 + uc;
      if k < 2 {
        state := OrigPtr(k + 1);
        HeadKept(f, Now(), l, t);
        return l, Ok;
      }
      if origPtr < 0 || origPtr > 10 + 100000 * blockSize100k {
        Failing(Now(), l, t, DataError);
        return l, Bad(DataError);
      }
      l := l.(i := 0);
      state := Mapping1;
      NoSixteens(f, Now(), l, t);
      ret := Ok;
    }

    method TakeEndHdr(l: Locals, k: int, uc: int, ghost s: State) returns (ret: Return)
      requires s.at == EndHdr(k) && 0 <= k < 6 && Agree(Now(), l, s) && 0 <= uc < 256
      modifies this`state, this`storedCombinedCRC
      ensures Outcome(ret, Now(), l, StepEndHdr(s, k, uc))
    {
      hide Agree, Outcome, MapsNow, CodesNow, BodyNow, Sizes, Step;
      ghost var f, t := Now(), StepEndHdr(s, k, uc);
      HeadParts(f, l, s);
      if uc != ENDHDR[k] {
        Failing(Now(), l, t, DataError);
        return Bad(DataError);
      }
      if k < 5 {
        state := EndHdr(k + 1);
      } else {
        storedCombinedCRC := 0;
        state := CombinedCrc(0);
      }
      HeadKept(f, Now(), l, t);
      ret := Ok;
    }

    method TakeCombinedCrc(l: Locals, k: int, uc: int, ghost s: State) returns (ret: Return)
      requires s.at == CombinedCrc(k) && 0 <= k < 4 && Agree(Now(), l, s) && 0 <= uc < 256
      modifies this`state, this`storedCombinedCRC
      ensures Outcome(ret, Now(), l, StepCombinedCrc(s, k, uc))
    {
      hide Agree, Outcome, MapsNow, CodesNow, BodyNow, Sizes, Step;
      ghost var f, t := Now(), StepCombinedCrc(s, k, uc);
      HeadParts(f, l, s);
      storedCombinedCRC := Append(storedCombinedCRC, uc);
      state := if k < 3 then CombinedCrc(k + 1) else Idle;
      HeadKept(f, Now(), l, t);
      ret := if k < 3 then Ok else StreamEnd;
    }

    // ----- the mapping table -----

    method TakeMapping1(l0: Locals, bit: int, ghost s: State) returns (l: Locals, ret: Return)
      requires s.at == Mapping1 && 0 <= s.i == |s.inUse16| < 16 && Agree(Now(), l0, s)
      modifies this`state, this`inUse16, this`inUse, this`nInUse, this`seqToUnseq
      ensures Outcome(ret, Now(), l, StepMapping1(s, bit))
    {
      hide Agree, Outcome, CodesNow, BodyNow, Framed, Step, ToMapping2;
      ghost var f := Now();
      SixteensAre(f, l0, s);
      inUse16 := inUse16[l0.i := bit == 1];
      l := l0.(i := l0.i + 1);
      ghost var s1 := s.(inUse16 := s.inUse16 + [bit == 1], i := s.i + 1);
      if l.i < 16 {
        MoreSixteens(f, Now(), l, s, s1);
        return l, Ok;
      }
      inUse := seq(256, k => false);
      FramedStays(f, Now(), s, s1.(inUse := seq(256, k => false)));
      l, ret := NextSixteen(l, 0, s1.(inUse := seq(256, k => false)));
    }

    method TakeMapping2(l0: Locals, bit: int, ghost s: State) returns (l: Locals, ret: Return)
      requires s.at == Mapping2 && |s.inUse16| == 16 && |s.inUse| == 256 && 0 <= s.i < 16 && 0 <= s.j < 16 &&
        Agree(Now(), l0, s)
      modifies this`state, this`inUse, this`nInUse, this`seqToUnseq
      ensures Outcome(ret, Now(), l, StepMapping2(s, bit))
    {
      hide Agree, Outcome, CodesNow, BodyNow, Framed, Step, ToMapping2;
      ghost var f := Now();
      BytesAre(f, l0, s);
      l := l0;
      ghost var s1 := if bit == 1 then s.(inUse := s.inUse[16 * s.i + s.j := true]) else s;
      if bit == 1 { inUse := inUse[l.i * 16 + l.j := true]; }
      if l.j + 1 < 16 {
        l := l.(j := l.j + 1);
        MoreBytes(f, Now(), l, s, s1.(j := s.j + 1));
        return l, Ok;
      }
      FramedStays(f, Now(), s, s1);
      l, ret := NextSixteen(l, l.i + 1, s1);
    }

    /** Goes on with the next sixteen bytes of which some are in use, or to the end of the table. */
    method NextSixteen(l0: Locals, from: nat, ghost s: State) returns (l: Locals, ret: Return)
      requires from <= 16 && inUse16 == s.inUse16 && inUse == s.inUse
      requires Framed(Now(), s) && MapSizes(MapsNow()) && (s.at == Mapping1 || s.at == Mapping2)
      modifies this`state, this`nInUse, this`seqToUnseq
      ensures Outcome(ret, Now(), l, ToMapping2(s, from))
    {
      hide Agree, Outcome, CodesNow, BodyNow, Framed, Step, ToMapping2;
      ghost var f, t := Now(), ToMapping2(s, from);
      var i := from;
      while i < 16 && !inUse16[i]
        invariant from <= i <= 16 && NextUsed(inUse16, i) == NextUsed(inUse16, from)
      {
        i := i + 1;
      }
      l := l0.(i := i);
      if i < 16 {
        l := l.(j := 0);
        state := Mapping2;
        SixteenFound(f, Now(), l, s, from);
        return l, Ok;
      }
      MakeMaps();
      MapsMade(s, from);
      if nInUse == 0 {
        Failing(Now(), l, t, DataError);
        return l, Bad(DataError);
      }
      l := l.(alphaSize := nInUse + 2);
      state := Selector1;
      MapComplete(f, Now(), l, s, from);
      ret := Ok;
    }

    /** makeMaps_d */
    method MakeMaps()
      requires |inUse| == |seqToUnseq| == 256
      modifies this`nInUse, this`seqToUnseq
      ensures |seqToUnseq| == 256 && nInUse == |InUseList(inUse, 256)| && seqToUnseq[..nInUse] == InUseList(inUse, 256)
    {
      nInUse := 0;
      for i := 0 to 256
        invariant |seqToUnseq| == 256 && nInUse == |InUseList(inUse, i)| && seqToUnseq[..nInUse] == InUseList(inUse, i)
      {
        if inUse[i] {
          seqToUnseq := seqToUnseq[nInUse := i];
          nInUse := nInUse + 1;
        }
      }
    }

    // ----- the selectors -----

    method TakeSelector1(l0: Locals, v: int, ghost s: State) returns (l: Locals, ret: Return)
      requires s.at == Selector1 && Agree(Now(), l0, s)
      modifies this`state
      ensures Outcome(ret, Now(), l, if v < 2 || v > 6 then Fail(s) else s.(nGroups := v, at := Selector2))
    {
      hide Agree, Outcome, MapsNow, CodesNow, BodyNow, Framed, Mapped, Step;
      ghost var f := Now();
      SelectorsAre(f, l0, s);
      l := l0.(nGroups := v);
      if l.nGroups < 2 || l.nGroups > 6 {
        Failing(Now(), l, Fail(s), DataError);
        return l, Bad(DataError);
      }
      state := Selector2;
      GroupsCounted(f, Now(), l0, l, s, v);
      ret := Ok;
    }

    method TakeSelector2(l0: Locals, v: int, ghost s: State) returns (l: Locals, ret: Return)
      requires s.at == Selector2 && Agree(Now(), l0, s)
      modifies this`state
      ensures Outcome(ret, Now(), l, if v < 1 then Fail(s)
        else s.(nSelectors := v, selectorMtf := [], i := 0, j := 0, at := Selector3))
    {
      hide Agree, Outcome, MapsNow, CodesNow, BodyNow, Framed, Mapped, Step;
      ghost var f := Now();
      SelectorsAre(f, l0, s);
      l := l0.(nSelectors := v);
      if l.nSelectors < 1 {
        Failing(Now(), l, Fail(s), DataError);
        return l, Bad(DataError);
      }
      l := l.(i := 0, j := 0);
      state := Selector3;
      SelectorsCounted(f, Now(), l0, l, s, v);
      ret := Ok;
    }

    /** One bit of a selector. */
    method TakeSelector3(l0: Locals, bit: int, ghost s: State) returns (l: Locals, ret: Return)
      requires s.at == Selector3 && Near(s) && Agree(Now(), l0, s)
      modifies this`state, this`selectorMtf, this`selector
      ensures Outcome(ret, Now(), l, StepSelector3(s, bit))
    {
      hide Agree, Outcome, MapsNow, CodesNow, BodyNow, Framed, Mapped, Near, Step, Entries;
      if bit == 0 {
        l, ret := KeepSelector(l0, s);
        return l, ret;
      }
      ghost var f, t := Now(), StepSelector3(s, bit);
      SelectorsAre(f, l0, s);
      SelectorRange(s);
      l := l0.(j := l0.j + 1);
      if l.j >= l.nGroups {
        Failing(Now(), l, t, DataError);
        return l, Bad(DataError);
      }
      MoreSelectors(f, Now(), l0, l, s, t);
      ret := Ok;
    }

    /** All selectors are read; they come back from their list places. */
    method EndSelectors(ghost f: Fields, ghost l0: Locals, l1: Locals, ghost s: State, ghost read: seq<int>)
        returns (l: Locals)
      requires s.at == Selector3 && Framed(f, s) && Mapped(f.maps, l0, s) && l0.nGroups == s.nGroups &&
        l0.nSelectors == s.nSelectors
      requires MapSizes(f.maps) && Now() == f.(maps := f.maps.(selectorMtf := selectorMtf)) &&
        |selectorMtf| == |f.maps.selectorMtf|
      requires l1 == l0.(i := l1.i) && read == s.selectorMtf + [s.j] &&
        0 <= l1.nSelectors == l1.i == |read| <= MAX_SELECTORS
      requires selectorMtf[..l1.i] == read && 2 <= l1.nGroups <= 6 &&
        (forall k :: 0 <= k < |read| ==> 0 <= read[k] < l1.nGroups)
      requires StepSelector3(s, 0) == s.(selectorMtf := read, i := s.i + 1, j := 0, t := 0, len := [], at := Coding1,
                                         selector := Entries(Identity(s.nGroups), read))
      modifies this`state, this`selector
      ensures Outcome(Ok, Now(), l, StepSelector3(s, 0))
    {
      hide Outcome, CodesNow, BodyNow, Framed, Mapped, Entries, StepSelector3;
      selector := UndoSelectors(selector, selectorMtf, l1.nGroups, l1.nSelectors, read);
      l := l1.(t := 0);
      state := Coding1;
      SelectorsUndone(f, Now(), l0, l, s, StepSelector3(s, 0));
    }

    /** The end of a selector. The room in selectorMtf is not checked. */
    method KeepSelector(l0: Locals, ghost s: State) returns (l: Locals, ret: Return)
      requires s.at == Selector3 && Near(s) && Agree(Now(), l0, s)
      modifies this`state, this`selectorMtf, this`selector
      ensures Outcome(ret, Now(), l, StepSelector3(s, 0))
    {
      hide Agree, Outcome, CodesNow, BodyNow, Framed, Mapped, Near, Step, Entries, StepSelector3;
      ghost var f, t := Now(), StepSelector3(s, 0);
      SelectorsAre(f, l0, s);
      SelectorRange(s);
      SelectorKept(s);
      l := l0;
      if l.i >= |selectorMtf| {
        Overrunning(Now(), l, t);
        return l, Overrun;
      }
      selectorMtf := selectorMtf[l.i := l.j];
      ghost var read := s.selectorMtf + [s.j];
      l := l.(i := l.i + 1);
      assert selectorMtf[..l.i] == read;
      if l.i < l.nSelectors {
        l := l.(j := 0);
        MoreSelectors(f, Now(), l0, l, s, t);
        return l, Ok;
      }
      l := EndSelectors(f, l0, l, s, read);
      ret := Ok;
    }

    // ----- the coding tables -----

    /** The check of curr. */
    method TryCurr(l: Locals, ghost f: Fields, ghost l0: Locals, ghost s: State, ghost t: State) returns (ret: Return)
      requires Framed(f, s) && (s.at == Coding1 || s.at == Coding2 || s.at == Coding3) && Chosen(f.maps, l0, s)
      requires Now() == f.(codes := CodesNow()) && CodeSizes(CodesNow()) && Rowed(CodesNow().len, t.len)
      requires l == l0.(i := l.i, curr := l.curr) && l.i == t.i && l.curr == t.curr && l0.t == t.t
      requires t == s.(i := t.i, curr := t.curr, len := t.len)
      modifies this`state
      ensures Outcome(ret, Now(), l, CheckCurr(t))
    {
      hide Agree, Outcome, MapsNow, CodesNow, BodyNow, Framed, Chosen, CodeSizes, Rowed;
      if l.curr < 1 || l.curr > 20 {
        Failing(Now(), l, CheckCurr(t), DataError);
        return Bad(DataError);
      }
      state := Coding2;
      StateOf(f, s);
      LengthNext(f, Now(), l0, l, s, t.(at := Coding2));
      ret := Ok;
    }

    method TakeCoding1(l0: Locals, v: int, ghost s: State) returns (l: Locals, ret: Return)
      requires s.at == Coding1 && Sound(s) && Agree(Now(), l0, s)
      modifies this`state
      ensures Outcome(ret, Now(), l, CheckCurr(s.(curr := v, i := 0, len := s.len + [[]])))
    {
      hide Agree, Outcome, MapsNow, BodyNow, Framed, Chosen, Rowed, Sound, CheckCurr, HasSelectors;
      ghost var f := Now();
      CodingAre(f, l0, s);
      CodingRange(s);
      RowStarts(len, s.len);
      l := l0.(curr := v, i := 0);
      ret := TryCurr(l, f, l0, s, s.(curr := v, i := 0, len := s.len + [[]]));
    }

    method TakeCoding3(l0: Locals, bit: int, ghost s: State) returns (l: Locals, ret: Return)
      requires s.at == Coding3 && Sound(s) && Agree(Now(), l0, s)
      modifies this`state
      ensures Outcome(ret, Now(), l, CheckCurr(s.(curr := if bit == 0 then s.curr + 1 else s.curr - 1)))
    {
      hide Agree, Outcome, MapsNow, BodyNow, Framed, Chosen, Rowed, Sound, CheckCurr, HasSelectors;
      ghost var f := Now();
      CodingAre(f, l0, s);
      l := l0.(curr := if bit == 0 then l0.curr + 1 else l0.curr - 1);
      ret := TryCurr(l, f, l0, s, s.(curr := if bit == 0 then s.curr + 1 else s.curr - 1));
    }

    /** The decoding tables of every code. */
    method CreateTables(alphaSize: int, nGroups: int, ghost lens: seq<seq<int>>)
      requires CodeSizes(CodesNow()) && 0 <= nGroups == |lens| <= N_GROUPS && Rowed(len, lens) &&
        0 <= alphaSize <= MAX_ALPHA_SIZE
      requires forall k :: 0 <= k < nGroups ==> GoodLengths(lens[k]) && |lens[k]| == alphaSize
      modifies this`limit, this`base, this`perm, this`minLens
      ensures CodeSizes(CodesNow()) && Tabled(CodesNow(), lens, nGroups)
    {
      hide GoodLengths, Built, Tables, MinOf, MaxOf;
      for t := 0 to nGroups
        invariant CodeSizes(CodesNow()) && Tabled(CodesNow(), lens, t)
      {
        var length := len[t][..alphaSize];
        assert length == lens[t];
        var minLen, maxLen, limitRow, baseRow, permRow := CreateRow(length, alphaSize);
        limit, base, perm := limit[t := limitRow], base[t := baseRow], perm[t := permRow];
        minLens := minLens[t := minLen];
      }
    }

    method StartSymbols(l0: Locals, ghost f: Fields, ghost was: Locals, ghost s: State, ghost s1: State)
        returns (l: Locals, ret: Return)
      requires Apart() && Framed(f, s) && s.at == Coding2 && Sound(s) && s.t + 1 >= s.nGroups && Chosen(f.maps, was, s)
      requires s1 == s.(len := s.len[s.t := s.len[s.t] + [s.curr]], i := s.i + 1) && s1.i >= |Used(s)| + 2
      requires Now() == f.(codes := CodesNow()) && CodeSizes(CodesNow()) && Rowed(CodesNow().len, s1.len) &&
        l0 == was.(i := l0.i, t := l0.t)
      modifies this`state, this`limit, this`base, this`perm, this`minLens, this`unzftab, mtfa, mtfbase
      ensures Apart() && Outcome(ret, Now(), l, GetMtfVal(AllRead(s1), false))
    {
      hide Agree, Outcome, Framed, Chosen, Rowed, Tabled, Sound, GetMtfVal, InUseList, Shows, Going, Decoding,
        GoodLengths, CodeSizes;
      GoodRows(s, s1);
      AlphaSize(f.maps, was, s);
      CodingRange(s);
      BodySizesOf(f, s);
      CreateTables(l0.alphaSize, l0.nGroups, s1.len);
      l := l0.(EOB := nInUse + 1, nblockMAX := 100000 * blockSize100k, groupNo := -1, groupPos := 0, nblock := 0);
      unzftab := seq(256, i => 0);
      MtfRows.Init(mtfa, mtfbase);
      assert Identity(256) == seq(256, i => i);
      SymbolsStart(f, Now(), was, l, s, s1);
      l, ret := StartCode(l, false, AllRead(s1));
    }

    /** The start of GET_MTF_VAL: a new group takes the next selector and its tables. */
    method StartCode(l0: Locals, inRun: bool, ghost s: State) returns (l: Locals, ret: Return)
      requires Going(Now(), l0, s, inRun) && (s.groupPos != 0 ==> Grouped(l0, s))
      modifies this`state
      ensures Outcome(ret, Now(), l, GetMtfVal(s, inRun))
    {
      hide Agree, Outcome, BodyNow, Framed, GetMtfVal, InUseList, Going, Decoding, CodeSizes;
      ghost var f, t := Now(), GetMtfVal(s, inRun);
      GoingAt(f, l0, s, inRun);
      NextCode(s, inRun);
      l := l0;
      if l.groupPos == 0 {
        l := l.(groupNo := l.groupNo + 1);
        if l.groupNo >= l.nSelectors {
          Failing(Now(), l, t, DataError);
          return l, Bad(DataError);
        }
        var gSel := selector[l.groupNo];
        l := l.(groupPos := G_SIZE, gSel := gSel, gMinlen := minLens[gSel], gLimit := limit[gSel], gPerm := perm[gSel],
          gBase := base[gSel]);
      }
      l := l.(groupPos := l.groupPos - 1, zn := l.gMinlen);
      state := MtfFirst(inRun);
      CodeStarted(f, Now(), l0, l, s, inRun);
      ret := Ok;
    }

    /** A bit that ends a length or announces a change of it. */
    method TakeCoding2(l0: Locals, bit: int, ghost s: State) returns (l: Locals, ret: Return)
      requires s.at == Coding2 && Sound(s) && Apart() && Agree(Now(), l0, s)
      modifies this`state, this`len, this`limit, this`base, this`perm, this`minLens, this`unzftab, mtfa, mtfbase
      ensures Apart() && Outcome(ret, Now(), l, StepCoding2(s, bit))
    {
      hide Agree, Outcome, MapsNow, CodesNow, BodyNow, Framed, Chosen, Rowed, Sound, CheckCurr, HasSelectors,
        StepCoding2, AfterLength, OneLength;
      ghost var f := Now();
      Coding2Is(s, bit);
      if bit != 0 {
        CodingAre(f, l0, s);
        state := Coding3;
        LengthNext(f, Now(), l0, l0, s, s.(at := Coding3));
        return l0, Ok;
      }
      l, ret := KeepLength(l0, s);
    }

    /** The end of a length. */
    method KeepLength(l0: Locals, ghost s: State) returns (l: Locals, ret: Return)
      requires s.at == Coding2 && Sound(s) && Apart() && Agree(Now(), l0, s) && 0 <= s.t < |s.len|
      modifies this`state, this`len, this`limit, this`base, this`perm, this`minLens, this`unzftab, mtfa, mtfbase
      ensures Apart() && Outcome(ret, Now(), l, AfterLength(s, OneLength(s)))
    {
      hide Agree, Outcome, MapsNow, BodyNow, Framed, Chosen, Rowed, Sound, CheckCurr, HasSelectors, GetMtfVal,
        InUseList;
      ghost var f := Now();
      CodingAre(f, l0, s);
      CodingRange(s);
      AlphaSize(f.maps, l0, s);
      RowLong(len, s.len, l0.t);
      l := l0;
      RowGrows(len, s.len, l.t, l.i, l.curr);
      len := len[l.t := len[l.t][l.i := l.curr]];
      l := l.(i := l.i + 1);
      ghost var s1 := OneLength(s);
      if l.i < l.alphaSize {
        ret := TryCurr(l, f, l0, s, s1);
        return l, ret;
      }
      l := l.(t := l.t + 1);
      if l.t < l.nGroups {
        state := Coding1;
        LengthNext(f, Now(), l0, l, s, s1.(t := s.t + 1, at := Coding1));
        return l, Ok;
      }
      l, ret := StartSymbols(l, f, l0, s, s1);
    }

    // ----- the symbols -----

    method TakeFirstBits(l0: Locals, v: nat, inRun: bool, ghost s: State) returns (l: Locals, ret: Return)
      requires s.at == MtfFirst(inRun) && Sound(s) && Apart() && Agree(Now(), l0, s)
      modifies this`state, this`unzftab, this`ll4, this`cftab, this`turns, mtfa, mtfbase, tt
      ensures Apart() && Outcome(ret, Now(), l, TestCode(s.(zvec := v), inRun))
    {
      hide Agree, Outcome, Testing, Sound, TestCode, Now;
      l := l0.(zvec := v);
      FirstTest(Now(), l0, l, s, v, inRun);
      l, ret := TestBits(l, inRun, s.(zvec := v));
    }

    method TakeMoreBits(l0: Locals, zj: nat, inRun: bool, ghost s: State) returns (l: Locals, ret: Return)
      requires s.at == MtfMore(inRun) && Sound(s) && Apart() && Agree(Now(), l0, s) && zj < 2
      modifies this`state, this`unzftab, this`ll4, this`cftab, this`turns, mtfa, mtfbase, tt
      ensures Apart() && Outcome(ret, Now(), l, TestCode(s.(zvec := s.zvec * 2 + zj), inRun))
    {
      hide Agree, Outcome, Testing, Sound, TestCode, Now, Going, Grouped;
      ReadingAre(Now(), l0, s, inRun);
      l := l0.(zvec := l0.zvec * 2 + zj);
      MoreTest(Now(), l0, l, s, zj, inRun);
      l, ret := TestBits(l, inRun, s.(zvec := s.zvec * 2 + zj));
    }

    /** The loop of GET_MTF_VAL, from one bit to the next, and the look-up of the symbol. */
    method TestBits(l0: Locals, inRun: bool, ghost s: State) returns (l: Locals, ret: Return)
      requires Apart() && Testing(Now(), l0, s, inRun)
      modifies this`state, this`unzftab, this`ll4, this`cftab, this`turns, mtfa, mtfbase, tt
      ensures Apart() && Outcome(ret, Now(), l, TestCode(s, inRun))
    {
      hide Agree, Outcome, Framed, Going, TestCode, Decoding, Tables, MinOf, Beyond, LimitOf, SymbolOf, GoodLengths,
        Symbol, InRun, BodyNow;
      ghost var f := Now();
      TestIs(s, inRun);
      l := l0;
      if l.zn > 20 {
        Failing(Now(), l, Fail(s), DataError);
        return l, Bad(DataError);
      }
      LookUp(l, s);
      if l.zvec <= l.gLimit[l.zn] {
        var x := l.zvec - l.gBase[l.zn];
        if x < 0 || x >= MAX_ALPHA_SIZE { return l, Bad(DataError); }
        var nextSym := l.gPerm[x];
        GoingAt(f, l0, s, inRun);
        SymbolRange(s, inRun);
        if inRun {
          l, ret := TakeInRun(l, nextSym, s);
        } else {
          l, ret := TakeSymbol(l, nextSym, s);
        }
        return l, ret;
      }
      l := l.(zn := l.zn + 1);
      state := MtfMore(inRun);
      OneMoreBit(f, Now(), l0, l, s, inRun);
      ret := Ok;
    }

    /** A symbol at the top of the loop: the end of the block, the first digit of a run, or a byte. */
    method TakeSymbol(l0: Locals, nextSym: int, ghost s: State) returns (l: Locals, ret: Return)
      requires Apart() && Going(Now(), l0, s, false) && Grouped(l0, s) && 0 <= nextSym < |Used(s)| + 2
      modifies this`state, this`unzftab, this`ll4, this`cftab, this`turns, mtfa, mtfbase, tt
      ensures Apart() && Outcome(ret, Now(), l, Symbol(s, nextSym))
    {
      hide *;
      SymbolAre(Now(), l0, s, false);
      SymbolCases(s, nextSym);
      RunSymbols();
      if nextSym == l0.EOB {
        ret := FinishBlock(l0, s);
        return l0, ret;
      }
      if nextSym == RUNA || nextSym == RUNB {
        l := l0.(es := -1, N := 1);
        DigitGoes(Now(), l0, l, s);
        l, ret := TakeDigit(l, nextSym, s.(es := -1, N := 1));
        return l, ret;
      }
      l, ret := TakeByte(l0, nextSym, s);
    }

    method TakeByte(l0: Locals, nextSym: int, ghost s: State) returns (l: Locals, ret: Return)
      requires Apart() && Going(Now(), l0, s, false) && Grouped(l0, s) && RUNB < nextSym <= |Used(s)|
      modifies this`state, this`unzftab, this`ll4, this`cftab, this`turns, mtfa, mtfbase, tt
      ensures Apart() && Outcome(ret, Now(), l, Symbol(s, nextSym))
    {
      hide Agree, Outcome, CodesNow, Going, Grouped, Symbol, GetMtfVal, InUseList, Shows, Collected, ToFront, ListHolds;
      ghost var f, u := Now(), Used(s);
      SymbolAre(f, l0, s, false);
      SymbolCases(s, nextSym);
      l := l0;
      if l.nblock >= l.nblockMAX {
        Failing(Now(), l, Symbol(s, nextSym), DataError);
        return l, Bad(DataError);
      }
      ByteUsed(f.maps, s, nextSym - 1);
      var uc := MtfRows.Front(mtfa, mtfbase, nextSym - 1, s.list);
      var byte := seqToUnseq[uc];
      CollectOne(tt[..], l.nblock, unzftab, s.block, byte);
      unzftab := unzftab[byte := unzftab[byte] + 1];
      tt[l.nblock] := byte;
      l := l.(nblock := l.nblock + 1);
      StillGoing(f, Now(), l0, l, s, OneByte(s, nextSym - 1), false, false);
      l, ret := StartCode(l, false, OneByte(s, nextSym - 1));
    }

    /** A digit of a run. */
    method TakeDigit(l0: Locals, nextSym: int, ghost s: State) returns (l: Locals, ret: Return)
      requires Apart() && Going(Now(), l0, s, false) && Grouped(l0, s) && (nextSym == RUNA || nextSym == RUNB)
      requires l0.es == s.es >= -1 && l0.N == s.N >= 1
      modifies this`state
      ensures Outcome(ret, Now(), l, RunDigit(s, nextSym))
    {
      hide Agree, Outcome, MapsNow, CodesNow, BodyNow, Going, Grouped, RunDigit, GetMtfVal, InUseList;
      ghost var f := Now();
      DigitCases(s, nextSym);
      l := l0;
      if l.N >= 2 * 1024 * 1024 {
        Failing(Now(), l, Fail(s), DataError);
        return l, Bad(DataError);
      }
      l := l.(es := if nextSym == RUNA then l.es + (0 + 1) * l.N else l.es + (1 + 1) * l.N);
      l := l.(N := l.N * 2);
      NextDigitGoes(f, l0, l, s, nextSym);
      l, ret := StartCode(l, true, s.(es := s.es + (nextSym + 1) * s.N, N := s.N * 2));
    }

    /** A symbol after a digit: one more, or the run is put down and the symbol is looked at afresh. */
    method TakeInRun(l0: Locals, nextSym: int, ghost s: State) returns (l: Locals, ret: Return)
      requires Apart() && Going(Now(), l0, s, true) && Grouped(l0, s) && 0 <= nextSym < |Used(s)| + 2
      modifies this`state, this`unzftab, this`ll4, this`cftab, this`turns, mtfa, mtfbase, tt
      ensures Apart() && Outcome(ret, Now(), l, InRun(s, nextSym))
    {
      hide *;
      RunAre(Now(), l0, s);
      SymbolAre(Now(), l0, s, true);
      RunCases(s, nextSym);
      RunSymbols();
      if nextSym == RUNA || nextSym == RUNB {
        l, ret := TakeDigit(l0, nextSym, s);
        return l, ret;
      }
      var full;
      l, full := PutRun(l0, s);
      if full {
        RunTooLong(s, nextSym);
        Failing(Now(), l, InRun(s, nextSym), DataError);
        return l, Bad(DataError);
      }
      RunHasRoom(s, nextSym);
      l, ret := TakeSymbol(l, nextSym, RunEnded(s));
    }

    /** The end of a run: its byte, the front of the list, is put down as often as its digits say. */
    method PutRun(l0: Locals, ghost s: State) returns (l: Locals, full: bool)
      requires Apart() && Going(Now(), l0, s, true) && Grouped(l0, s)
      requires l0.es == s.es >= 0 && |s.list| > 0 && 0 <= s.list[0] < |Used(s)|
      modifies this`unzftab, tt
      ensures Apart() && full == (|s.block| + s.es + 1 > 100000 * s.blockSize100k)
      ensures !full ==> Going(Now(), l, RunEnded(s), false) && Grouped(l, RunEnded(s))
    {
      hide CodesNow, Going, Grouped, InUseList, Shows, Collected, ListHolds;
      ghost var f := Now();
      SymbolAre(f, l0, s, true);
      FrontShown(mtfa[..], mtfbase[..], s.list);
      ByteUsed(f.maps, s, 0);
      l := l0.(es := l0.es + 1);
      var uc := seqToUnseq[mtfa[mtfbase[0]]];
      BytesOf(tt[..], l.nblock, unzftab, s.block);
      unzftab := unzftab[uc := unzftab[uc] + l.es];
      ghost var t0 := tt[..];
      var nblock;
      nblock, full := FillRun(tt, l.nblock, l.nblockMAX, uc, l.es);
      if full { return l, full; }
      CollectRun(t0, tt[..], l.nblock, f.body.unzftab, s.block, uc, l.es);
      l := l.(nblock := nblock, es := 0);
      StillGoing(f, Now(), l0, l, s, RunEnded(s), true, false);
    }

    /** The end of a block: its counts are checked and the table of successors is built in tt. */
    method FinishBlock(l: Locals, ghost s: State) returns (ret: Return)
      requires Apart() && Going(Now(), l, s, false)
      modifies this`state, this`ll4, this`cftab, this`turns, tt
      ensures Outcome(ret, Now(), l, if s.origPtr >= |s.block| then Fail(s) else s.(at := Output))
    {
      hide Agree, Outcome, MapsNow, CodesNow, Going, InUseList, Shows, Collected, ListHolds, O.Ready, CountEq, Below;
      ghost var f := Now();
      SymbolAre(f, l, s, false);
      BytesOf(tt[..], l.nblock, unzftab, s.block);
      if origPtr < 0 || origPtr >= l.nblock {
        Failing(Now(), l, Fail(s), DataError);
        return Bad(DataError);
      }
      var ok, places := CheckedPlaces(unzftab, l.nblock, s.block);
      if !ok { return Bad(DataError); }
      BuildInverse(places, l.nblock, s);
      state := Output;
      BlockDone(f, Now(), l, s);
      ret := Ok;
    }

    /** The inverse, in the form that was asked for. */
    method BuildInverse(places: array<int>, nblock: nat, ghost s: State)
      requires Apart() && places != tt && places != mtfa && places != mtfbase && places.Length == 257 &&
        nblock <= tt.Length
      requires s.block == tt[..nblock] && Bytes(s.block) &&
        0 <= origPtr == s.origPtr < nblock <= 100000 * s.blockSize100k <= 900000
      requires forall c :: 0 <= c <= 256 ==> places[c] == Below(s.block, c)
      modifies this`ll4, this`cftab, this`turns, tt, places
      ensures O.Ready(TablesOf(BodyNow(), s), s.block, s.origPtr, turns)
      ensures BodyNow() == old(BodyNow()).(tt := tt[..], ll4 := ll4, cftab := cftab, turns := turns)
    {
      hide CountEq, Below;
      cftab := places[..];
      if smallDecompress {
        var nibbles := new int[(1 + tt.Length) / 2](k => 0);
        InverseBwtSmall.StartShape(tt[..], nibbles[..], nblock);
        turns := InverseBwtSmall.Link(tt, nibbles, nblock, cftab, origPtr);
        ll4 := nibbles[..];
      } else {
        ghost var next := InverseBwt.BuildFast(tt, nblock, places, s.block);
        InverseBwt.InverseUnique(s.block, next);
      }
    }

    // ----- a call -----

    /** The code behind the label: from what has been read to the next read. */
    method TakeHeader(l0: Locals, v: nat, ghost s: State) returns (l: Locals, ret: Return)
      requires Heading(s.at) && Reading(s.at) && Sound(s) && state == s.at && Apart() && Agree(Now(), l0, s) &&
        v < Pow2(Need(s))
      modifies this`state, this`blockSize100k, this`currBlockNo, this`storedBlockCRC, this`storedCombinedCRC,
        this`blockRandomised, this`origPtr, this`tt
      ensures Apart() && (tt == old(tt) || fresh(tt)) && Outcome(ret, Now(), l, Step(s, v))
    {
      hide Agree, Outcome, Now, Apart, Step, Sound, StepMagic, StepBlkHdr, StepBlkCrc, StepOrigPtr, StepEndHdr,
        StepCombinedCrc, HasBlockSize, Pow2;
      HeaderRanges(s);
      HeaderSteps(s, v);
      Narrow(v, Need(s));
      l := l0;
      match state {
        case Magic(k) => if k < 3 { ret := TakeMagic(l, k, v, s); } else { ret := TakeBlockSize(l, v, s); }
        case BlkHdr(k) => ret := TakeBlkHdr(l, k, v, s);
        case BlkCrc(k) => ret := TakeBlkCrc(l, k, v, s);
        case RandBit => ret := TakeRandBit(l, v, s);
        case OrigPtr(k) => l, ret := TakeOrigPtr(l, k, v, s);
        case EndHdr(k) => ret := TakeEndHdr(l, k, v, s);
        case CombinedCrc(k) => ret := TakeCombinedCrc(l, k, v, s);
      }
    }

    method TakeTables(l0: Locals, v: nat, ghost s: State) returns (l: Locals, ret: Return)
      requires Reading(s.at) && !Heading(s.at) && !s.at.MtfFirst? && !s.at.MtfMore? && Near(s) && state == s.at &&
        Apart() && Agree(Now(), l0, s)
      requires v < Pow2(Need(s))
      modifies this`state, this`inUse16, this`inUse, this`nInUse, this`seqToUnseq, this`selectorMtf, this`selector,
        this`len, this`limit, this`base, this`perm, this`minLens, this`unzftab, mtfa, mtfbase
      ensures Apart() && Outcome(ret, Now(), l, Step(s, v))
    {
      hide Agree, Outcome, Now, Step, Sound, Near, StepMapping1, StepMapping2, StepSelector3, StepCoding2, CheckCurr,
        Pow2;
      if state != Selector3 { NearSound(s); }
      if state == Mapping1 || state == Mapping2 { MappingRanges(s); }
      StepMapping(s, v);
      BodySteps(s, v);
      CodeSteps(s, v);
      Narrow(v, Need(s));
      match state {
        case Mapping1 => l, ret := TakeMapping1(l0, v, s);
        case Mapping2 => l, ret := TakeMapping2(l0, v, s);
        case Selector1 => l, ret := TakeSelector1(l0, v, s);
        case Selector2 => l, ret := TakeSelector2(l0, v, s);
        case Selector3 => l, ret := TakeSelector3(l0, v, s);
        case Coding1 => l, ret := TakeCoding1(l0, v, s);
        case Coding2 => l, ret := TakeCoding2(l0, v, s);
        case Coding3 => l, ret := TakeCoding3(l0, v, s);
      }
    }

    method TakeBits(l0: Locals, v: nat, ghost s: State) returns (l: Locals, ret: Return)
      requires Reading(s.at) && Near(s) && state == s.at && Apart() && Agree(Now(), l0, s) && v < Pow2(Need(s))
      modifies this`state, this`blockSize100k, this`currBlockNo, this`storedBlockCRC, this`storedCombinedCRC,
        this`blockRandomised, this`origPtr, this`inUse16, this`inUse, this`nInUse, this`seqToUnseq, this`selectorMtf,
        this`selector, this`len, this`limit, this`base, this`perm, this`minLens, this`unzftab, this`tt, this`ll4,
        this`cftab, this`turns, mtfa, mtfbase, tt
      ensures Apart() && (tt == old(tt) || fresh(tt)) && Outcome(ret, Now(), l, Step(s, v))
    {
      hide Agree, Outcome, Now, Step, Sound, Near, TestCode, Pow2;
      if state != Selector3 { NearSound(s); }
      BodySteps(s, v);
      Narrow(v, Need(s));
      if Heading(state) {
        l, ret := TakeHeader(l0, v, s);
      } else if state.MtfFirst? {
        l, ret := TakeFirstBits(l0, v, state.inRun, s);
      } else if state.MtfMore? {
        l, ret := TakeMoreBits(l0, v, state.inRun, s);
      } else {
        l, ret := TakeTables(l0, v, s);
      }
    }

    lemma Entered(l: Locals)
      requires Valid() && (l == save || (state == Magic(0) && l == NO_LOCALS))
      ensures Apart() && reader.Valid() && Near(s) && Agree(Now(), l, s) && state == s.at
    {
      hide Sizes, Roomy, Near;
    }

    /** The number of bits that the label asks for. */
    lemma Asks(l: Locals)
      requires Agree(Now(), l, s) && Near(s) && Reading(s.at)
      ensures state == s.at && 0 < Width(state, l.zn) == Need(s) <= 20
    {
      hide Agree, Near, Need;
      WidthIs(Now(), l, s);
    }

    lemma AtLabel(l: Locals)
      requires Agree(Now(), l, s)
      ensures state == s.at
    {
      hide Agree;
      AgreeState(Now(), l, s);
    }

    /** One GET_BITS and the code behind it. */
    method ReadAndTake(l0: Locals) returns (l: Locals, ret: Return, stop: bool)
      requires Apart() && reader.Valid() && Near(s) && Agree(Now(), l0, s) && Reading(s.at)
      modifies this, reader, mtfa, mtfbase, tt
      ensures Apart() && reader.Valid() && (tt == old(tt) || fresh(tt)) && ret == CodeFor(s)
      ensures ret == Ok || ret == StreamEnd ==> Near(s) && Agree(Now(), l, s)
      ensures RunOn(s, reader.Left()) == RunOn(old(s), old(reader.Left())) &&
        (stop ==> RunOn(s, reader.Left()) == (s, reader.Left()))
      ensures !stop ==> ret == Ok && Reading(s.at) && |reader.Left()| < |old(reader.Left())|
      ensures stop && ret == Ok && s.at != Output ==> reader.next_in == []
      ensures EndOf(reader.next_in, old(reader.next_in))
    {
      hide *;
      Asks(l0);
      ghost var left := reader.Left();
      var ok, v := reader.GetBits(Width(state, l0.zn));
      if !ok {
        RunWaits(s, left);
        GoesOn(s);
        return l0, Ok, true;
      }
      RunStep(s, left);
      NearStep(s, v);
      l, ret := TakeBits(l0, v, s);
      s := Step(s, v);
      Settles(ret, Now(), l, s);
      if ret == Ok { AtLabel(l); }
      stop := ret != Ok || state == Output;
      if stop { RunWaits(s, reader.Left()); }
    }

    /** BZ2_decompress: a call takes up where the one before ran out of input. It takes exactly the steps that the bits
        offered by this call and left over by those before allow: the state it leaves, in fields and saved locals, and
        the bits it leaves, in the buffer and the input, are those of the run. */
    method Decompress() returns (ret: Return)
      requires Valid() && Reading(state)
      modifies this, reader, mtfa, mtfbase, tt
      ensures reader.Valid() && Apart() && (tt == old(tt) || fresh(tt)) && ret == CodeFor(s) &&
        (ret == Ok || ret == StreamEnd ==> Valid())
      ensures (s, reader.Left()) == RunOn(old(s), old(reader.Left()))
      ensures ret == Ok && s.at != Output ==> reader.next_in == []
      ensures EndOf(reader.next_in, old(reader.next_in))
    {
      hide Agree, Now, Step, Near, RunOn, Need, Reader.Left, Reader.Valid, CodeFor, Reading, Apart, EndOf, Taken;
      ret := Ok;
      var l := if state == Magic(0) then NO_LOCALS else save;
      Entered(l);
      ghost var s0, left0, input := s, reader.Left(), reader.next_in;
      NoneTaken(input);
      var stop := false;
      while !stop
        invariant Apart() && reader.Valid() && (tt == old(tt) || fresh(tt))
        invariant !stop ==> Near(s) && Agree(Now(), l, s) && Reading(s.at)
        invariant stop ==> ret == CodeFor(s) && (ret == Ok || ret == StreamEnd ==> Near(s) && Agree(Now(), l, s))
        invariant stop ==>
          RunOn(s, reader.Left()) == (s, reader.Left()) && (ret == Ok && s.at != Output ==> reader.next_in == [])
        invariant RunOn(s, reader.Left()) == RunOn(s0, left0) && EndOf(reader.next_in, input)
        decreases !stop, |reader.Left()|
      {
        ghost var rest := reader.next_in;
        l, ret, stop := ReadAndTake(l);
        EndsOf(reader.next_in, rest, input);
      }
      save := l;
    }

    lemma StateIs()
      requires Valid()
      ensures state == s.at && storedBlockCRC == s.storedBlockCRC && storedCombinedCRC == s.storedCombinedCRC &&
        reader.Valid()
    {
      hide Sizes, Roomy, Near, Alive;
    }

    lemma NotStuck()
      requires Valid()
      ensures !s.at.Stuck?
    {
      hide Agree;
    }

    /** What output starts from. */
    lemma AtOutput()
      requires Valid() && state == Output
      ensures s.at == Output && save.nblock == |s.block| && O.Ready(TablesOf(BodyNow(), s), s.block, s.origPtr, turns)
      ensures blockRandomised == s.blockRandomised
      ensures origPtr == s.origPtr && blockSize100k == s.blockSize100k &&
        0 <= s.origPtr < |s.block| <= 100000 * s.blockSize100k
    {
      hide Agree, Near, O.Ready;
      OutputAre(Now(), save, s);
    }

    /** BZ2_bzDecompress, when a block has been put out. */
    method NextBlock()
      requires Valid() && state == Output
      modifies this`state, this`s
      ensures Valid() && s == old(s).(at := BlkHdr(0)) && state == BlkHdr(0)
    {
      hide Agree, Near, MapsNow, CodesNow, BodyNow;
      ghost var f := Now();
      OutputAre(f, save, s);
      state := BlkHdr(0);
      BlockPut(f, Now(), save, s);
      s := s.(at := BlkHdr(0));
    }
  }

  /** Puts es copies of uc behind the first nblock entries, unless the block is full first. */
  method FillRun(tt: array<int>, nblock0: nat, nblockMAX: int, uc: int, es0: nat) returns (nblock: nat, full: bool)
    requires nblock0 <= nblockMAX == tt.Length
    modifies tt
    ensures full == (nblock0 + es0 > nblockMAX)
    ensures !full ==> nblock == nblock0 + es0 && tt[..nblock] == old(tt[..nblock0]) + Repeat(uc, es0)
  {
    nblock := nblock0;
    var es := es0;
    ghost var t0 := tt[..nblock0];
    while es > 0
      invariant 0 <= es <= es0 && nblock == nblock0 + es0 - es <= nblockMAX
      invariant tt[..nblock] == t0 + Repeat(uc, es0 - es)
    {
      if nblock >= nblockMAX { return nblock, true; }
      RepeatSnoc(uc, es0 - es);
      tt[nblock] := uc;
      assert tt[..nblock + 1] == tt[..nblock] + [uc];
      nblock := nblock + 1;
      es := es - 1;
    }
    full := false;
  }

  /** The table of first places behind the three checks on the counts; whatever the block, they hold. */
  method CheckedPlaces(unzftab: seq<int>, nblock: nat, ghost block: seq<int>) returns (ok: bool, places: array<int>)
    requires Bytes(block) && |block| == nblock && |unzftab| == 256 &&
      forall c :: 0 <= c < 256 ==> unzftab[c] == CountEq(block, c)
    ensures ok && fresh(places) && places.Length == 257 && forall c :: 0 <= c <= 256 ==> places[c] == Below(block, c)
  {
    hide CountEq, Below;
    CountsInRange(block, unzftab);
    ok := AllWithin(unzftab, nblock);
    places := InverseBwt.Cftab(block, unzftab);
    if !ok { return; }
    PlacesInRange(block, places[..]);
    ok := AllWithin(places[..], nblock);
    if !ok { return; }
    ok := Ascending(places[..]);
  }

  /** All entries are from 0 to n. */
  method AllWithin(table: seq<int>, n: int) returns (ok: bool)
    ensures ok == forall c :: 0 <= c < |table| ==> 0 <= table[c] <= n
  {
    for i := 0 to |table|
      invariant forall c :: 0 <= c < i ==> 0 <= table[c] <= n
    {
      if table[i] < 0 || table[i] > n { return false; }
    }
    ok := true;
  }

  method Ascending(table: seq<int>) returns (ok: bool)
    ensures ok == forall c :: 1 <= c < |table| ==> table[c - 1] <= table[c]
  {
    for i := 1 to |table| + 1
      invariant forall c :: 1 <= c < i && c < |table| ==> table[c - 1] <= table[c]
    {
      if i < |table| && table[i - 1] > table[i] { return false; }
    }
    ok := true;
  }

  /** Undoes the move-to-front coding of the selectors, on a list of at most six. */
  method UndoSelectors(selector0: seq<int>, selectorMtf: seq<int>, nGroups: int, nSelectors: int, ghost read: seq<int>)
      returns (selector: seq<int>)
    requires 0 <= nGroups <= N_GROUPS && 0 <= nSelectors <= |selectorMtf| && |selector0| >= nSelectors &&
      selectorMtf[..nSelectors] == read
    requires forall k :: 0 <= k < |read| ==> 0 <= read[k] < nGroups
    ensures |selector| == |selector0| && selector[..nSelectors] == Entries(Identity(nGroups), read)
  {
    hide Entries, After, ToFront;
    var pos := new int[N_GROUPS];
    for v := 0 to nGroups
      invariant forall k :: 0 <= k < v ==> pos[k] == k
    {
      pos[v] := v;
    }
    selector := selector0;
    NoneUndone(Identity(nGroups));
    assert pos[..nGroups] == Identity(nGroups) && read[..0] == [];
    for i := 0 to nSelectors
      invariant |selector| == |selector0| && pos[..nGroups] == After(Identity(nGroups), read[..i])
      invariant selector[..i] == Entries(Identity(nGroups), read[..i])
    {
      var v := selectorMtf[i];
      assert v == read[i] && read[..i + 1] == read[..i] + [read[i]];
      OneUndone(Identity(nGroups), read[..i], v);
      ghost var was := selector[..i];
      var tmp := Pull(pos, nGroups, v);
      selector := selector[i := tmp];
      assert selector[..i + 1] == was + [tmp];
    }
    assert read[..nSelectors] == read;
  }

  /** The tables of one code, as rows of limit, base and perm. */
  method CreateRow(length: seq<int>, alphaSize: int)
      returns (minLen: int, maxLen: int, limit: seq<int>, base: seq<int>, perm: seq<int>)
    requires alphaSize == |length| && GoodLengths(length)
    ensures Built(length, limit, base, perm, minLen)
  {
    hide MinOf, MaxOf, Tables;
    minLen, maxLen := FindRange(length, alphaSize);
    GoodRange(length);
    var l, b, p := new int[MAX_ALPHA_SIZE], new int[MAX_ALPHA_SIZE], new int[MAX_ALPHA_SIZE];
    CreateDecodeTables(l, b, p, length, minLen, maxLen, alphaSize);
    limit, base, perm := l[..], b[..], p[..];
  }

  lemma NoneUndone(list: seq<int>)
    ensures After(list, []) == list && Entries(list, []) == []
  {
  }

  lemma OneUndone(list: seq<int>, ps: seq<int>, v: int)
    requires (forall k :: 0 <= k < |ps| ==> 0 <= ps[k] < |list|) && 0 <= v < |list|
    ensures Entries(list, ps + [v]) == Entries(list, ps) + [After(list, ps)[v]]
    ensures After(list, ps + [v]) == ToFront(After(list, ps), v)
  {
    EntriesJoin(list, ps, [v]);
    assert [v][1..] == [];
    assert Entries(After(list, ps), [v]) == [After(list, ps)[v]];
  }

  /** Moves entry v to the front. */
  method Pull(pos: array<int>, ghost n: int, v0: int) returns (tmp: int)
    requires 0 <= v0 < n <= pos.Length
    modifies pos
    ensures tmp == old(pos[v0]) && pos[..n] == ToFront(old(pos[..n]), v0)
  {
    ghost var was := pos[..n];
    var v := v0;
    tmp := pos[v];
    while v > 0
      invariant 0 <= v <= v0
      invariant forall k :: 0 <= k <= v || v0 < k < n ==> pos[k] == was[k]
      invariant forall k :: v < k <= v0 ==> pos[k] == was[k - 1]
    {
      pos[v] := pos[v - 1];
      v := v - 1;
    }
    pos[0] := tmp;
    assert forall k :: 0 <= k < n ==> pos[..n][k] == ToFront(was, v0)[k];
  }
}

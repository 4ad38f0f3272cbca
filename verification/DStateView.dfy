/** What the fields of DState and the locals of BZ2_decompress mean: which of them hold which part of the machine's
    state at each label. */
module DStateView {

  import opened Powers
  import opened Rotations
  import opened Counting
  import opened Mtf
  import opened MtfRows
  import opened MtfEncode
  import opened HuffmanCodes
  import opened BitStream
  import opened Machine
  import opened MachineSound
  import opened MachineRun
  import InverseBwt
  import O = BlockOutput
  import SmallDecoder

  datatype Return = Ok | StreamEnd | SequenceError | Bad(error: Error)
    // no code of the original: it writes behind one of its arrays here, and what follows is not defined
    | Overrun

  /** The locals that are saved when a call returns and restored when the next one begins. */
  datatype Locals = Locals(
    i: int, j: int, t: int, alphaSize: int, nGroups: int, nSelectors: int, EOB: int, groupNo: int, groupPos: int,
    nblockMAX: int, nblock: int, es: int, N: int, curr: int, zn: int, zvec: int,
    gSel: int, gMinlen: int, gLimit: seq<int>, gBase: seq<int>, gPerm: seq<int>)

  const NO_LOCALS := Locals(0, 0, 0, 0, 0, 0, 0, 0, 0, 0, 0, 0, 0, 0, 0, 0, 0, 0, [], [], [])

  /** The fields of DState, the arrays by their contents. */
  datatype Fields = Fields(head: Head, maps: Maps, codes: Codes, body: Body)

  datatype Head = Head(state: Label, blockSize100k: int, currBlockNo: int, storedBlockCRC: int, storedCombinedCRC: int,
    blockRandomised: bool, origPtr: int)

  datatype Maps = Maps(inUse16: seq<bool>, inUse: seq<bool>, nInUse: int, seqToUnseq: seq<int>, selectorMtf: seq<int>,
      selector: seq<int>)

  datatype Codes = Codes(len: seq<seq<int>>, limit: seq<seq<int>>, base: seq<seq<int>>, perm: seq<seq<int>>,
      minLens: seq<int>)

  /** tt is ll16 in the small form, which needs ll4 and cftab as well; turns is how often its pointer reversal goes
      round. */
  datatype Body = Body(unzftab: seq<int>, mtfa: seq<int>, mtfbase: seq<int>, tt: seq<int>, small: bool, ll4: seq<int>,
      cftab: seq<int>, turns: nat)

  /** What output works on. */
  ghost function TablesOf(b: Body, s: State): O.Tables {
    O.Tables(b.small, s.blockRandomised, b.tt, SmallDecoder.Links(b.tt, b.ll4, b.cftab, s.blockSize100k),
      s.blockSize100k)
  }

  const N_GROUPS := 6
  const MAX_ALPHA_SIZE := 258

  /** The sizes of the arrays. */
  ghost predicate MapSizes(m: Maps) {
    |m.inUse16| == 16 && |m.inUse| == |m.seqToUnseq| == 256 && |m.selectorMtf| == |m.selector| == MAX_SELECTORS
  }

  ghost predicate CodeSizes(c: Codes) {
    |c.len| == |c.limit| == |c.base| == |c.perm| == |c.minLens| == N_GROUPS &&
      forall k :: 0 <= k < N_GROUPS ==> |c.len[k]| == MAX_ALPHA_SIZE
  }

  ghost predicate BodySizes(b: Body) { |b.unzftab| == 256 && |b.mtfa| == MTFA_SIZE && |b.mtfbase| == 16 }

  ghost predicate Sizes(f: Fields) { MapSizes(f.maps) && CodeSizes(f.codes) && BodySizes(f.body) }

  /** k bytes of a number that was zero. */
  ghost predicate Partly(x: int, k: int) {
    0 <= x && (k <= 0 ==> x < 1) && (k == 1 ==> x < 0x100) && (k == 2 ==> x < 0x1_0000) && (k == 3 ==> x < 0x100_0000)
  }

  ghost predicate Heads(h: Head, s: State) {
    && h.state == s.at && h.blockSize100k == s.blockSize100k && h.currBlockNo == s.currBlockNo
    && h.storedBlockCRC == s.storedBlockCRC && h.storedCombinedCRC == s.storedCombinedCRC
    && h.blockRandomised == s.blockRandomised && h.origPtr == s.origPtr
    && (s.at.BlkCrc? ==> Partly(s.storedBlockCRC, s.at.k))
    && (s.at.CombinedCrc? ==> Partly(s.storedCombinedCRC, s.at.k))
  }

  /** From the first block header on, tt has its size. */
  ghost predicate Roomy(tt: seq<int>, s: State) {
    !s.at.Magic? && !s.at.EndHdr? && !s.at.CombinedCrc? && !s.at.Idle? ==>
      HasBlockSize(s) && |tt| == 100000 * s.blockSize100k
  }

  ghost predicate Mapped(m: Maps, l: Locals, s: State) {
    && m.inUse == s.inUse && m.nInUse == |Used(s)| <= |m.seqToUnseq| && m.seqToUnseq[..m.nInUse] == Used(s)
    && l.alphaSize == m.nInUse + 2
  }

  ghost predicate Chosen(m: Maps, l: Locals, s: State) {
    && Mapped(m, l, s) && l.nGroups == s.nGroups && l.nSelectors == s.nSelectors
    && 0 <= l.nSelectors <= |m.selector| && m.selector[..l.nSelectors] == s.selector
  }

  /** The lengths read so far, row by row. */
  ghost predicate Rowed(len: seq<seq<int>>, read: seq<seq<int>>) {
    |read| <= |len| && forall k :: 0 <= k < |read| ==> |read[k]| <= |len[k]| && len[k][..|read[k]|] == read[k]
  }

  /** The tables of one code. */
  ghost predicate Built(len: seq<int>, limit: seq<int>, base: seq<int>, perm: seq<int>, minLen: int) {
    Tables(len, limit, base, perm) && minLen == MinOf(len)
  }

  ghost predicate Tabled(c: Codes, lens: seq<seq<int>>, n: int) {
    && 0 <= n <= |lens| && n <= |c.limit| && n <= |c.base| && n <= |c.perm| && n <= |c.minLens|
    && forall k :: 0 <= k < n ==> Built(lens[k], c.limit[k], c.base[k], c.perm[k], c.minLens[k])
  }

  /** The symbols of the block so far, and how often each byte is among them. */
  ghost predicate Collected(tt: seq<int>, nblock: int, unzftab: seq<int>, block: seq<int>) {
    && 0 <= nblock == |block| <= |tt| && tt[..nblock] == block && Bytes(block)
    && |unzftab| == 256 && forall c :: 0 <= c < 256 ==> unzftab[c] == CountEq(block, c)
  }

  /** The code that is being read has its tables at hand. */
  ghost predicate Grouped(l: Locals, s: State) {
    && l.gSel == s.gSel && 0 <= s.gSel < |s.len| && Built(s.len[s.gSel], l.gLimit, l.gBase, l.gPerm, l.gMinlen)
  }

  /** Everything that is alive while symbols are read, but for the code that is being read. */
  ghost predicate Receiving(f: Fields, l: Locals, s: State) {
    && Chosen(f.maps, l, s) && Tabled(f.codes, s.len, |s.len|) && l.EOB == f.maps.nInUse + 1
    && Collected(f.body.tt, l.nblock, f.body.unzftab, s.block) && l.nblockMAX == 100000 * s.blockSize100k
    && Shows(f.body.mtfa, f.body.mtfbase, s.list) && f.body.mtfbase[0] > 0
    && l.groupNo == s.groupNo && l.groupPos == s.groupPos
  }

  ghost predicate Running(l: Locals, s: State, inRun: bool) {
    inRun ==> l.es == s.es && l.N == s.N
  }

  /** At every label: the fields and locals that are alive hold the machine's state. */
  ghost predicate Alive(f: Fields, l: Locals, s: State) {
    match s.at
    case Mapping1 => 0 <= l.i == s.i <= |f.maps.inUse16| && f.maps.inUse16[..l.i] == s.inUse16
    case Mapping2 => f.maps.inUse16 == s.inUse16 && f.maps.inUse == s.inUse && l.i == s.i && l.j == s.j
    case Selector1 => Mapped(f.maps, l, s)
    case Selector2 => Mapped(f.maps, l, s) && l.nGroups == s.nGroups
    case Selector3 =>
      Mapped(f.maps, l, s) && l.nGroups == s.nGroups && l.nSelectors == s.nSelectors && l.j == s.j &&
      0 <= l.i == s.i <= |f.maps.selectorMtf| && f.maps.selectorMtf[..l.i] == s.selectorMtf
    case Coding1 => Chosen(f.maps, l, s) && l.t == s.t && Rowed(f.codes.len, s.len)
    case Coding2 | Coding3 => Chosen(f.maps, l, s) && l.t == s.t && Rowed(f.codes.len, s.len) && l.i == s.i &&
      l.curr == s.curr
    case MtfFirst(inRun) => Receiving(f, l, s) && Grouped(l, s) && Running(l, s, inRun) && l.zn == s.zn
    case MtfMore(inRun) => Receiving(f, l, s) && Grouped(l, s) && Running(l, s, inRun) && l.zn == s.zn &&
      l.zvec == s.zvec
    case Output => l.nblock == |s.block| && O.Ready(TablesOf(f.body, s), s.block, s.origPtr, f.body.turns)
    case _ => true
  }

  ghost predicate Framed(f: Fields, s: State) { Sizes(f) && Heads(f.head, s) && Roomy(f.body.tt, s) }

  ghost predicate Agree(f: Fields, l: Locals, s: State) { Framed(f, s) && Alive(f, l, s) }

  /** Labels inside a block. */
  ghost predicate Inside(at: Label) { at.Mapping1? || at.Mapping2? || at.Selector1? || at.Selector2? || at.Selector3? ||
      at.Coding1?
    || at.Coding2? || at.Coding3? || at.MtfFirst? || at.MtfMore? || at.Output? }

  /** Within a block the head fields stay. */
  ghost predicate Carries(s: State, t: State) {
    && Inside(s.at) && Inside(t.at) && t.blockSize100k == s.blockSize100k && t.currBlockNo == s.currBlockNo
    && t.storedBlockCRC == s.storedBlockCRC && t.storedCombinedCRC == s.storedCombinedCRC
    && t.blockRandomised == s.blockRandomised && t.origPtr == s.origPtr
  }

  lemma FramedStays(f: Fields, f': Fields, s: State, t: State)
    requires Framed(f, s) && Carries(s, t) && f'.head == f.head.(state := t.at)
    requires f'.maps == f.maps || MapSizes(f'.maps)
    requires f'.codes == f.codes || CodeSizes(f'.codes)
    requires f'.body == f.body || (BodySizes(f'.body) && |f'.body.tt| == |f.body.tt|)
    ensures Framed(f', t)
  {
    hide MapSizes, CodeSizes, BodySizes;
  }

  lemma StateOf(f: Fields, s: State)
    requires Framed(f, s)
    ensures f.head.state == s.at
  {
  }

  /** The state that the decompressor goes on with. */
  lemma Proceeds(f: Fields, l: Locals, t: State)
    requires Framed(f, t) && Alive(f, l, t) && Inside(t.at)
    ensures Outcome(Ok, f, l, t)
  {
    hide Framed, Alive;
  }

  /** More selectors have been announced than there is room for. */
  ghost predicate Overbooked(s: State) {
    s.at == Selector3 && HasGroups(s) && 0 <= s.j < s.nGroups &&
      0 <= s.i == |s.selectorMtf| <= MAX_SELECTORS < s.nSelectors
    && forall k :: 0 <= k < |s.selectorMtf| ==> 0 <= s.selectorMtf[k] < s.nGroups
  }

  ghost predicate Near(s: State) { Sound(s) || Overbooked(s) }

  /** What is returned when the machine gets to t. */
  ghost function CodeFor(t: State): Return {
    match t.at
    case Failed(e) => Bad(e)
    case Stuck => Overrun
    case Idle => StreamEnd
    case _ => Ok
  }

  /** The outcome of what is done after a read: the code, and, if the decompressor is to go on, the state. */
  ghost predicate Outcome(ret: Return, f: Fields, l: Locals, t: State) {
    ret == CodeFor(t) && (ret == Ok || ret == StreamEnd ==> Agree(f, l, t))
  }

  /** Where the machine is before the first byte. */
  ghost function Fresh(): State {
    State(Magic(0), 0, 0, 0, 0, false, 0, [], [], 0, 0, 0, 0, 0, [], [], 0, [], 0, 0, 0, 0, 0, 0, 0, [], [])
  }

  predicate Heading(at: Label) {
    at.Magic? || at.BlkHdr? || at.BlkCrc? || at == RandBit || at.OrigPtr? || at.EndHdr? || at.CombinedCrc? || at == Idle
  }

  lemma HeadParts(f: Fields, l: Locals, s: State)
    requires Agree(f, l, s)
    ensures Sizes(f) && Heads(f.head, s) && Roomy(f.body.tt, s) && Framed(f, s)
  {
    hide Sizes, Heads, Roomy, Alive;
  }

  /** In the headers nothing but the head fields is alive. */
  lemma HeadKept(f: Fields, f': Fields, l: Locals, t: State)
    requires Sizes(f) && Heads(f'.head, t) && Roomy(f'.body.tt, t) && Heading(t.at)
    requires f'.maps == f.maps && f'.codes == f.codes && f'.body == f.body.(tt := f'.body.tt)
    ensures Outcome(if t.at == Idle then StreamEnd else Ok, f', l, t)
  {
    hide MapSizes, CodeSizes, Heads, Roomy, HasBlockSize;
  }

  /** Anything but a digit from 1 to 9 is not a block size. */
  lemma SizeRefused(f: Fields, l: Locals, s: State, uc: int)
    requires s.at == Magic(3) && !(0x31 <= uc <= 0x39)
    ensures Outcome(Bad(DataErrorMagic), f, l, StepMagic(s, 3, uc))
  {
    hide Outcome;
    Failing(f, l, StepMagic(s, 3, uc), DataErrorMagic);
  }

  /** A digit from 1 to 9 gives the block size; the array for the block has its length now. */
  lemma SizeTaken(f: Fields, f': Fields, l: Locals, s: State, uc: int)
    requires s.at == Magic(3) && Sizes(f) && Heads(f.head, s) && 0x31 <= uc <= 0x39
    requires f'.head == f.head.(state := BlkHdr(0), blockSize100k := uc - 0x30) && |f'.body.tt| == (uc - 0x30) * 100000
    requires f'.maps == f.maps && f'.codes == f.codes && f'.body == f.body.(tt := f'.body.tt)
    ensures Outcome(Ok, f', l, StepMagic(s, 3, uc))
  {
    hide Sizes, Outcome;
    HeadKept(f, f', l, StepMagic(s, 3, uc));
  }

  lemma NoSixteens(f: Fields, f': Fields, l: Locals, t: State)
    requires Sizes(f) && Heads(f'.head, t) && Roomy(f'.body.tt, t) && t.at == Mapping1 && l.i == t.i == 0 &&
      t.inUse16 == []
    requires f' == f.(head := f'.head)
    ensures Outcome(Ok, f', l, t)
  {
    hide Heads, Roomy, HasBlockSize;
  }

  lemma Failing(f: Fields, l: Locals, t: State, e: Error)
    requires t.at == Failed(e)
    ensures Outcome(Bad(e), f, l, t)
  {
    hide Agree;
  }

  // ----- the mapping table -----

  lemma SixteensAre(f: Fields, l: Locals, s: State)
    requires Agree(f, l, s) && s.at == Mapping1
    ensures Framed(f, s) && f.head.state == s.at && MapSizes(f.maps) && 0 <= l.i == s.i <= 16 &&
      f.maps.inUse16[..l.i] == s.inUse16
  {
    hide CodeSizes, BodySizes, Roomy;
  }

  lemma MoreSixteens(f: Fields, f': Fields, l: Locals, s: State, t: State)
    requires Framed(f, s) && s.at == Mapping1 && f' == f.(maps := f'.maps) && MapSizes(f'.maps) &&
      f.head.state == Mapping1
    requires t == s.(i := l.i, inUse16 := t.inUse16) && 0 <= l.i <= 16 && f'.maps.inUse16[..l.i] == t.inUse16
    ensures Outcome(Ok, f', l, t)
  {
    hide Framed, CodeSizes, BodySizes;
    FramedStays(f, f', s, t);
    Proceeds(f', l, t);
  }

  lemma BytesAre(f: Fields, l: Locals, s: State)
    requires Agree(f, l, s) && s.at == Mapping2
    ensures Framed(f, s) && f.head.state == s.at && MapSizes(f.maps) && l.i == s.i && l.j == s.j &&
      f.maps.inUse16 == s.inUse16 && f.maps.inUse == s.inUse
  {
    hide CodeSizes, BodySizes, Roomy;
  }

  lemma MoreBytes(f: Fields, f': Fields, l: Locals, s: State, t: State)
    requires Framed(f, s) && s.at == Mapping2 && f' == f.(maps := f'.maps) && MapSizes(f'.maps) &&
      f.head.state == Mapping2
    requires t == s.(j := l.j, inUse := f'.maps.inUse) && f'.maps.inUse16 == s.inUse16 && l.i == s.i
    ensures Outcome(Ok, f', l, t)
  {
    hide Framed, CodeSizes, BodySizes;
    FramedStays(f, f', s, t);
    Proceeds(f', l, t);
  }

  lemma SixteenFound(f: Fields, f': Fields, l: Locals, s: State, from: nat)
    requires Framed(f, s) && (s.at == Mapping1 || s.at == Mapping2) && |s.inUse16| == 16
    requires f' == f.(head := f.head.(state := Mapping2)) && f.maps.inUse16 == s.inUse16 && f.maps.inUse == s.inUse
    requires l.i == NextUsed(s.inUse16, from) < 16 && l.j == 0
    ensures Outcome(Ok, f', l, ToMapping2(s, from))
  {
    hide Framed, MapSizes, CodeSizes, BodySizes;
    FramedStays(f, f', s, ToMapping2(s, from));
    Proceeds(f', l, ToMapping2(s, from));
  }

  lemma {:induction false} NoneUsed(inUse: seq<bool>, n: nat)
    requires n <= |inUse|
    ensures |InUseList(inUse, n)| == 0 <==> forall c :: 0 <= c < n ==> !inUse[c]
  {
    if n > 0 { NoneUsed(inUse, n - 1); }
  }

  lemma MapsMade(s: State, from: nat)
    requires |s.inUse16| == 16 <= NextUsed(s.inUse16, from) && |s.inUse| == 256
    ensures |Used(s)| == 0 ==> ToMapping2(s, from).at == Failed(DataError)
    ensures |Used(s)| > 0 ==> ToMapping2(s, from) == s.(at := Selector1)
  {
    NoneUsed(s.inUse, 256);
    hide InUseList;
  }

  lemma MapComplete(f: Fields, f': Fields, l: Locals, s: State, from: nat)
    requires Framed(f, s) && (s.at == Mapping1 || s.at == Mapping2)
    requires f' == f.(head := f.head.(state := Selector1), maps := f'.maps) && MapSizes(f'.maps)
    requires f'.maps.inUse == s.inUse && |s.inUse| == 256 && f'.maps.nInUse == |Used(s)|
    requires f'.maps.seqToUnseq[..f'.maps.nInUse] == Used(s)
    requires l.alphaSize == f'.maps.nInUse + 2 && ToMapping2(s, from) == s.(at := Selector1)
    ensures Outcome(Ok, f', l, ToMapping2(s, from))
  {
    hide Framed, CodeSizes, BodySizes, InUseList;
    FramedStays(f, f', s, ToMapping2(s, from));
    Proceeds(f', l, ToMapping2(s, from));
  }

  // ----- the selectors -----

  lemma SelectorsAre(f: Fields, l: Locals, s: State)
    requires Agree(f, l, s) && (s.at == Selector1 || s.at == Selector2 || s.at == Selector3)
    ensures Framed(f, s) && MapSizes(f.maps) && f.head.state == s.at && Mapped(f.maps, l, s) &&
      (s.at != Selector1 ==> l.nGroups == s.nGroups)
    ensures s.at == Selector3 ==>
      l.nSelectors == s.nSelectors && l.j == s.j && 0 <= l.i == s.i <= MAX_SELECTORS &&
        f.maps.selectorMtf[..l.i] == s.selectorMtf
  {
    hide CodeSizes, BodySizes, Roomy, Mapped;
  }

  lemma SelectorRange(s: State)
    requires s.at == Selector3 && Near(s)
    ensures 2 <= s.nGroups <= 6 && 0 <= s.j < s.nGroups && 0 <= s.i == |s.selectorMtf| < s.nSelectors
    ensures forall k :: 0 <= k < |s.selectorMtf| ==> 0 <= s.selectorMtf[k] < s.nGroups
  {
    hide InUseList, HasSelectors, HasTables, Decoding;
  }

  lemma SelectorKept(s: State)
    requires s.at == Selector3 && Near(s)
    ensures forall k :: 0 <= k < |s.selectorMtf + [s.j]| ==> 0 <= (s.selectorMtf + [s.j])[k] < s.nGroups
    ensures s.i >= MAX_SELECTORS ==> StepSelector3(s, 0).at == Stuck
    ensures s.i < MAX_SELECTORS && s.i + 1 < s.nSelectors ==>
      StepSelector3(s, 0) == s.(selectorMtf := s.selectorMtf + [s.j], i := s.i + 1, j := 0)
    ensures s.i < MAX_SELECTORS && s.i + 1 >= s.nSelectors ==>
              StepSelector3(s, 0) == s.(selectorMtf := s.selectorMtf + [s.j], i := s.i + 1, j := 0, t := 0, len := [],
                at := Coding1, selector := Entries(Identity(s.nGroups), s.selectorMtf + [s.j]))
  {
    SelectorRange(s);
    hide Near, Entries;
  }

  lemma Overrunning(f: Fields, l: Locals, t: State)
    requires t.at == Stuck
    ensures Outcome(Overrun, f, l, t)
  {
    hide Agree;
  }

  lemma GroupsCounted(f: Fields, f': Fields, l: Locals, l': Locals, s: State, v: int)
    requires Framed(f, s) && s.at == Selector1 && Mapped(f.maps, l, s)
    requires f' == f.(head := f.head.(state := Selector2)) && l' == l.(nGroups := v)
    ensures Outcome(Ok, f', l', s.(nGroups := v, at := Selector2))
  {
    hide Framed, InUseList;
    FramedStays(f, f', s, s.(nGroups := v, at := Selector2));
    Proceeds(f', l', s.(nGroups := v, at := Selector2));
  }

  lemma SelectorsCounted(f: Fields, f': Fields, l: Locals, l': Locals, s: State, v: int)
    requires Framed(f, s) && MapSizes(f.maps) && s.at == Selector2 && Mapped(f.maps, l, s) && l.nGroups == s.nGroups
    requires f' == f.(head := f.head.(state := Selector3)) && l' == l.(nSelectors := v, i := 0, j := 0)
    ensures Outcome(Ok, f', l', s.(nSelectors := v, selectorMtf := [], i := 0, j := 0, at := Selector3))
  {
    hide Framed, InUseList;
    var t := s.(nSelectors := v, selectorMtf := [], i := 0, j := 0, at := Selector3);
    FramedStays(f, f', s, t);
    Proceeds(f', l', t);
  }

  lemma MoreSelectors(f: Fields, f': Fields, l: Locals, l': Locals, s: State, t: State)
    requires Framed(f, s) && s.at == Selector3 && Mapped(f.maps, l, s) && l.nGroups == s.nGroups &&
      l.nSelectors == s.nSelectors
    requires f' == f.(maps := f'.maps) && f'.maps == f.maps.(selectorMtf := f'.maps.selectorMtf) && MapSizes(f'.maps) &&
      f.head.state == Selector3
    requires l' == l.(i := l'.i, j := l'.j) && t == s.(selectorMtf := t.selectorMtf, i := l'.i, j := l'.j)
    requires 0 <= l'.i <= MAX_SELECTORS && f'.maps.selectorMtf[..l'.i] == t.selectorMtf
    ensures Outcome(Ok, f', l', t)
  {
    hide Framed, InUseList;
    FramedStays(f, f', s, t);
    Proceeds(f', l', t);
  }

  lemma SelectorsUndone(f: Fields, f': Fields, l: Locals, l': Locals, s: State, t: State)
    requires Framed(f, s) && s.at == Selector3 && Mapped(f.maps, l, s) && l.nGroups == s.nGroups &&
      l.nSelectors == s.nSelectors
    requires f' == f.(head := f.head.(state := Coding1), maps := f'.maps) && MapSizes(f'.maps)
    requires f'.maps == f.maps.(selectorMtf := f'.maps.selectorMtf, selector := f'.maps.selector)
    requires l' == l.(i := l'.i, j := l'.j, t := 0) && 0 <= l.nSelectors <= MAX_SELECTORS &&
      f'.maps.selector[..l.nSelectors] == t.selector
    requires t == s.(selectorMtf := t.selectorMtf, i := t.i, j := t.j, selector := t.selector, t := 0, len := [],
      at := Coding1)
    ensures Outcome(Ok, f', l', t)
  {
    hide Framed, InUseList;
    FramedStays(f, f', s, t);
    Proceeds(f', l', t);
  }

  // ----- the coding tables -----

  lemma CodingAre(f: Fields, l: Locals, s: State)
    requires Agree(f, l, s) && (s.at == Coding1 || s.at == Coding2 || s.at == Coding3)
    ensures Framed(f, s) && CodeSizes(f.codes) && f.head.state == s.at && Chosen(f.maps, l, s) && l.t == s.t &&
      Rowed(f.codes.len, s.len)
    ensures s.at != Coding1 ==> l.i == s.i && l.curr == s.curr
  {
    hide MapSizes, BodySizes, Roomy, Chosen;
  }

  lemma CodingRange(s: State)
    requires Sound(s) && (s.at == Coding1 || s.at == Coding2 || s.at == Coding3)
    ensures HasSelectors(s) && 2 <= s.nGroups <= 6 && 1 <= |Used(s)| <= 256 && 0 <= s.t < s.nGroups
    ensures s.at == Coding1 ==> |s.len| == s.t
    ensures s.at != Coding1 ==> |s.len| == s.t + 1 && 0 <= s.i == |s.len[s.t]| < |Used(s)| + 2
  {
    hide InUseList, GoodLengths, Decoding;
  }

  lemma RowStarts(len: seq<seq<int>>, read: seq<seq<int>>)
    requires Rowed(len, read) && |read| < |len|
    ensures Rowed(len, read + [[]])
  {
  }

  lemma RowGrows(len: seq<seq<int>>, read: seq<seq<int>>, t: int, i: int, curr: int)
    requires Rowed(len, read) && |read| == t + 1 && 0 <= t && |read[t]| == i < |len[t]|
    ensures Rowed(len[t := len[t][i := curr]], read[t := read[t] + [curr]])
  {
    var row := len[t][i := curr];
    assert row[..i + 1] == len[t][..i] + [curr];
  }

  /** What is alive in front of the next length. */
  lemma LengthNext(f: Fields, f': Fields, l: Locals, l': Locals, s: State, t: State)
    requires Framed(f, s) && (s.at == Coding1 || s.at == Coding2 || s.at == Coding3) && Chosen(f.maps, l, s)
    requires f'.maps == f.maps && f'.body == f.body && f'.head == f.head.(state := t.at) && CodeSizes(f'.codes) &&
      Rowed(f'.codes.len, t.len)
    requires l' == l.(i := l'.i, curr := l'.curr, t := l'.t) && l'.i == t.i && l'.curr == t.curr && l'.t == t.t
    requires t == s.(at := t.at, i := t.i, curr := t.curr, len := t.len, t := t.t) &&
      (t.at == Coding1 || t.at == Coding2 || t.at == Coding3)
    ensures Outcome(Ok, f', l', t)
  {
    hide Framed, InUseList, CodeSizes, Rowed;
    FramedStays(f, f', s, t);
    Proceeds(f', l', t);
  }

  ghost function OneLength(s: State): State
    requires 0 <= s.t < |s.len|
  {
    s.(len := s.len[s.t := s.len[s.t] + [s.curr]], i := s.i + 1)
  }

  ghost function AfterLength(s: State, s1: State): State {
    if s1.i < |Used(s)| + 2 then CheckCurr(s1)
    else if s.t + 1 < s.nGroups then s1.(t := s.t + 1, at := Coding1)
    else GetMtfVal(AllRead(s1), false)
  }

  /** The three ways on after a length. */
  lemma Coding2Is(s: State, v: int)
    requires s.at == Coding2 && Sound(s)
    ensures 0 <= s.t < |s.len| && (v != 0 ==> StepCoding2(s, v) == s.(at := Coding3))
    ensures v == 0 ==> StepCoding2(s, v) == AfterLength(s, OneLength(s))
  {
    hide InUseList, GoodLengths, Decoding, GetMtfVal, CheckCurr;
  }

  /** The start of the symbols. */
  ghost function AllRead(s: State): State {
    s.(t := s.t + 1, groupNo := -1, groupPos := 0, list := Identity(256), block := [])
  }

  lemma AlphaSize(m: Maps, l: Locals, s: State)
    requires Chosen(m, l, s)
    ensures l.alphaSize == |Used(s)| + 2 && l.nGroups == s.nGroups && l.nSelectors == s.nSelectors &&
      m.nInUse == |Used(s)|
  {
    hide InUseList;
  }

  lemma RowLong(len: seq<seq<int>>, read: seq<seq<int>>, t: int)
    requires Rowed(len, read) && 0 <= t < |read|
    ensures |read| <= |len| && |read[t]| <= |len[t]| && len[t][..|read[t]|] == read[t]
  {
  }

  lemma CodeSteps(s: State, v: int)
    ensures s.at == Coding1 ==> Step(s, v) == CheckCurr(s.(curr := v, i := 0, len := s.len + [[]]))
    ensures s.at == Coding2 ==> Step(s, v) == StepCoding2(s, v)
    ensures s.at == Coding3 ==> Step(s, v) == CheckCurr(s.(curr := if v == 0 then s.curr + 1 else s.curr - 1))
  {
    hide CheckCurr, StepCoding2;
  }

  // ----- the symbols -----

  /** Between two symbols, or two digits of a run. */
  ghost predicate Going(f: Fields, l: Locals, s: State, inRun: bool) {
    Framed(f, s) && Inside(s.at) && Receiving(f, l, s) && Running(l, s, inRun) && Decoding(s, inRun)
  }

  lemma GoodRows(s: State, s1: State)
    requires s.at == Coding2 && Sound(s) && s.t + 1 >= s.nGroups
    requires s1 == s.(len := s.len[s.t := s.len[s.t] + [s.curr]], i := s.i + 1) && s1.i >= |Used(s)| + 2
    ensures |s1.len| == s.nGroups &&
      forall k :: 0 <= k < |s1.len| ==> GoodLengths(s1.len[k]) && |s1.len[k]| == |Used(s)| + 2
    ensures Decoding(AllRead(s1), false)
  {
    hide InUseList, MinOf, Sound, GoodLengths;
    TableDone(s, s1);
    CodingRange(s);
    assert Used(s1) == Used(s);
    var t := AllRead(s1);
    forall k | 0 <= k < |s1.len| ensures GoodLengths(s1.len[k]) && |s1.len[k]| == |Used(s)| + 2 {
      assert TableRead(s1, s1.len[k]);
    }
    forall k | 0 <= k < |t.len| ensures TableRead(t, t.len[k]) { assert TableRead(s1, s1.len[k]); }
  }

  lemma NothingCollected(tt: seq<int>, zeros: seq<int>)
    requires |zeros| == 256 && forall c :: 0 <= c < 256 ==> zeros[c] == 0
    ensures Collected(tt, 0, zeros, [])
  {
  }

  /** Everything is alive when the first symbol is to be read. */
  lemma SymbolsStart(f: Fields, f': Fields, l0: Locals, l: Locals, s: State, s1: State)
    requires Framed(f, s) && s.at == Coding2 && Chosen(f.maps, l0, s) && s1 == s.(len := s1.len, i := s1.i) &&
      Decoding(AllRead(s1), false)
    requires f'.head == f.head && f'.maps == f.maps && f'.body.tt == f.body.tt && CodeSizes(f'.codes) &&
      Tabled(f'.codes, s1.len, |s1.len|)
    requires BodySizes(f'.body) && Shows(f'.body.mtfa, f'.body.mtfbase, Identity(256)) && f'.body.mtfbase[0] > 0
    requires forall c :: 0 <= c < 256 ==> f'.body.unzftab[c] == 0
    requires l == l0.(i := l.i, t := l.t, EOB := f.maps.nInUse + 1, nblockMAX := 100000 * s.blockSize100k,
      groupNo := -1, groupPos := 0, nblock := 0)
    ensures Going(f', l, AllRead(s1), false)
  {
    hide Framed, Chosen, Tabled, Shows, CodeSizes, Decoding;
    StateOf(f, s);
    FramedStays(f, f', s, AllRead(s1));
    NothingCollected(f'.body.tt, f'.body.unzftab);
    ChosenStays(f.maps, l0, l, s, AllRead(s1));
  }

  lemma BodySizesOf(f: Fields, s: State)
    requires Framed(f, s)
    ensures BodySizes(f.body) && f.head.blockSize100k == s.blockSize100k
  {
    hide MapSizes, CodeSizes, Roomy;
  }

  lemma GoingAt(f: Fields, l: Locals, s: State, inRun: bool)
    requires Going(f, l, s, inRun)
    ensures Framed(f, s) && Inside(s.at) && Receiving(f, l, s) && Running(l, s, inRun) && Decoding(s, inRun)
    ensures Chosen(f.maps, l, s) && Tabled(f.codes, s.len, |s.len|) && l.groupNo == s.groupNo &&
      l.groupPos == s.groupPos
    ensures f.head.state == s.at && l.nSelectors == s.nSelectors && 0 <= l.nSelectors <= |f.maps.selector| &&
      f.maps.selector[..l.nSelectors] == s.selector
  {
    hide Framed, Decoding, Tabled, Shows, Collected, InUseList;
    StateOf(f, s);
  }

  /** How GET_MTF_VAL begins. */
  lemma NextCode(s: State, inRun: bool)
    requires Decoding(s, inRun)
    ensures -1 <= s.groupNo < s.nSelectors == |s.selector| && 0 <= s.groupPos <= G_SIZE && |s.len| == s.nGroups
    ensures forall k :: 0 <= k < |s.selector| ==> 0 <= s.selector[k] < s.nGroups
    ensures s.groupPos == 0 && s.groupNo + 1 >= s.nSelectors ==> GetMtfVal(s, inRun).at == Failed(DataError)
    ensures s.groupPos == 0 && s.groupNo + 1 < s.nSelectors ==>
      GetMtfVal(s, inRun) == Coded(s, s.groupNo + 1, G_SIZE, s.selector[s.groupNo + 1], inRun)
    ensures s.groupPos != 0 && 0 <= s.gSel < |s.len| ==>
      GetMtfVal(s, inRun) == Coded(s, s.groupNo, s.groupPos, s.gSel, inRun)
  {
    hide InUseList, MinOf, GoodLengths;
  }

  ghost function Coded(s: State, groupNo: int, groupPos: int, gSel: int, inRun: bool): State
    requires 0 <= gSel < |s.len|
  {
    s.(groupNo := groupNo, groupPos := groupPos - 1, gSel := gSel, zn := MinOf(s.len[gSel]), at := MtfFirst(inRun))
  }

  lemma CodeStarted(f: Fields, f': Fields, l0: Locals, l: Locals, s: State, inRun: bool)
    requires Going(f, l0, s, inRun) && f' == f.(head := f.head.(state := MtfFirst(inRun))) && 0 <= l.gSel < |s.len|
    requires l == l0.(groupNo := l.groupNo, groupPos := l.groupPos, gSel := l.gSel, gMinlen := l.gMinlen,
      gLimit := l.gLimit, gBase := l.gBase, gPerm := l.gPerm, zn := l.zn) && l.zn == l.gMinlen
    requires GetMtfVal(s, inRun) == Coded(s, l.groupNo, l.groupPos + 1, l.gSel, inRun) &&
      Built(s.len[l.gSel], l.gLimit, l.gBase, l.gPerm, l.gMinlen)
    ensures Outcome(Ok, f', l, GetMtfVal(s, inRun))
  {
    var t := Coded(s, l.groupNo, l.groupPos + 1, l.gSel, inRun);
    hide Framed, Chosen, Tabled, Shows, Collected, Decoding, GetMtfVal, Tables, MinOf;
    FramedStays(f, f', s, t);
    ChosenStays(f.maps, l0, l, s, t);
    Proceeds(f', l, t);
  }

  lemma ReadingAre(f: Fields, l: Locals, s: State, inRun: bool)
    requires Agree(f, l, s) && Sound(s) && (s.at == MtfFirst(inRun) || s.at == MtfMore(inRun))
    ensures Going(f, l, s, inRun) && Grouped(l, s) && l.zn == s.zn && (s.at == MtfMore(inRun) ==> l.zvec == s.zvec)
  {
    hide Sound, Framed, Chosen, Tabled, Shows, Collected, Decoding, Tables, MinOf;
    ReadingFacts(s, inRun);
  }

  /** The bits that have been read, and what the code makes of them. */
  ghost predicate Testing(f: Fields, l: Locals, s: State, inRun: bool) {
    && Going(f, l, s, inRun) && Grouped(l, s) && l.zn == s.zn && l.zvec == s.zvec
    && 0 <= MinOf(s.len[s.gSel]) <= s.zn <= 21 && GoodLengths(s.len[s.gSel]) && Beyond(s.len[s.gSel], s.zn, s.zvec)
  }

  lemma ZvecRead(f: Fields, l: Locals, l': Locals, s: State, z: int, inRun: bool)
    requires Going(f, l, s, inRun) && Grouped(l, s) && l' == l.(zvec := z)
    ensures Going(f, l', s.(zvec := z), inRun) && Grouped(l', s.(zvec := z))
  {
    var t := s.(zvec := z);
    hide Framed, Chosen, Tabled, Shows, Collected, Decoding, Tables, MinOf;
    GoingAt(f, l, s, inRun);
    FramedStays(f, f, s, t);
    ChosenStays(f.maps, l, l', s, t);
    ReadKeeps(s, z, inRun);
  }

  lemma FirstTest(f: Fields, l: Locals, l': Locals, s: State, z: nat, inRun: bool)
    requires Agree(f, l, s) && Sound(s) && s.at == MtfFirst(inRun) && l' == l.(zvec := z)
    ensures Testing(f, l', s.(zvec := z), inRun)
  {
    hide Agree, Going, Grouped, Sound, Decoding, MinOf, HasTables, First;
    ReadingAre(f, l, s, inRun);
    ReadingFacts(s, inRun);
    ZvecRead(f, l, l', s, z, inRun);
    GoodRange(s.len[s.gSel]);
    FirstZero(s.len[s.gSel], s.zn, s.zn);
  }

  lemma MoreTest(f: Fields, l: Locals, l': Locals, s: State, bit: int, inRun: bool)
    requires Agree(f, l, s) && Sound(s) && s.at == MtfMore(inRun) && 0 <= bit <= 1 && l' == l.(zvec := s.zvec * 2 + bit)
    ensures Testing(f, l', s.(zvec := s.zvec * 2 + bit), inRun)
  {
    hide Agree, Going, Grouped, Sound, Decoding, MinOf, HasTables, Beyond, LimitOf;
    ReadingAre(f, l, s, inRun);
    ReadingFacts(s, inRun);
    ZvecRead(f, l, l', s, s.zvec * 2 + bit, inRun);
    GoodRange(s.len[s.gSel]);
    AnyBitsStop(s.len[s.gSel], s.zn - 1, s.zvec, bit);
  }

  /** The test and the look-up, in the tables and in terms of the lengths. */
  lemma LookUp(l: Locals, s: State)
    requires Grouped(l, s) && GoodLengths(s.len[s.gSel]) && 0 <= MinOf(s.len[s.gSel]) <= s.zn <= 20 &&
      Beyond(s.len[s.gSel], s.zn, s.zvec)
    ensures |l.gLimit| > s.zn && |l.gBase| > s.zn && l.gLimit[s.zn] == LimitOf(s.len[s.gSel], s.zn)
    ensures s.zvec <= LimitOf(s.len[s.gSel], s.zn) ==>
      var x := s.zvec - l.gBase[s.zn];
      0 <= x < |s.len[s.gSel]| <= |l.gPerm| && |s.len[s.gSel]| <= MAX_ALPHA_SIZE &&
        0 <= l.gPerm[x] == SymbolOf(s.len[s.gSel], s.zn, s.zvec) < |s.len[s.gSel]|
  {
    hide *;
    TablesHold(l, s);
    var len := s.len[s.gSel];
    AnyBitsStop(len, s.zn, s.zvec, 0);
    GoodMost(len);
    if s.zvec <= LimitOf(len, s.zn) { SymbolIs(len, s.zn, s.zvec); }
  }

  lemma GoodMost(len: seq<int>)
    requires GoodLengths(len)
    ensures |len| <= MAX_ALPHA_SIZE
  {
  }

  lemma TablesHold(l: Locals, s: State)
    requires Grouped(l, s) && 0 <= s.zn <= 20
    ensures 0 <= s.gSel < |s.len| && |l.gLimit| > s.zn && |l.gBase| > s.zn &&
      l.gLimit[s.zn] == LimitOf(s.len[s.gSel], s.zn)
    ensures MinOf(s.len[s.gSel]) <= s.zn <= MaxOf(s.len[s.gSel]) ==> l.gBase[s.zn] == BaseOf(s.len[s.gSel], s.zn)
    ensures |s.len[s.gSel]| <= |l.gPerm| &&
      forall x :: 0 <= x < |s.len[s.gSel]| ==> l.gPerm[x] == PlaceOf(s.len[s.gSel], x)
  {
    hide MinOf, MaxOf, LimitOf, BaseOf, PlaceOf, GoodLengths;
  }

  lemma SymbolIs(len: seq<int>, zn: nat, zvec: int)
    requires 0 <= zvec - BaseOf(len, zn) < |len|
    ensures SymbolOf(len, zn, zvec) == PlaceOf(len, zvec - BaseOf(len, zn)) && 0 <= SymbolOf(len, zn, zvec) < |len|
  {
    hide BaseOf;
  }

  ghost function LookedUp(s: State, sym: int, inRun: bool): State {
    if inRun then InRun(s, sym) else Symbol(s, sym)
  }

  lemma TestIs(s: State, inRun: bool)
    requires 0 <= s.gSel < |s.len| && 0 <= s.zn
    ensures s.zn > 20 ==> TestCode(s, inRun) == Fail(s)
    ensures s.zn <= 20 && s.zvec > LimitOf(s.len[s.gSel], s.zn) ==>
      TestCode(s, inRun) == s.(zn := s.zn + 1, at := MtfMore(inRun))
    ensures s.zn <= 20 && s.zvec <= LimitOf(s.len[s.gSel], s.zn) && SymbolOf(s.len[s.gSel], s.zn, s.zvec) >= 0 ==>
              TestCode(s, inRun) == LookedUp(s, SymbolOf(s.len[s.gSel], s.zn, s.zvec), inRun)
  {
    hide LimitOf, SymbolOf, InRun, Symbol;
  }

  lemma OneMoreBit(f: Fields, f': Fields, l: Locals, l': Locals, s: State, inRun: bool)
    requires Testing(f, l, s, inRun) && f' == f.(head := f.head.(state := MtfMore(inRun))) && l' == l.(zn := l.zn + 1)
    ensures Outcome(Ok, f', l', s.(zn := s.zn + 1, at := MtfMore(inRun)))
  {
    var t := s.(zn := s.zn + 1, at := MtfMore(inRun));
    hide Framed, Chosen, Tabled, Shows, Collected, Decoding, Tables, MinOf, Beyond, GoodLengths;
    FramedStays(f, f', s, t);
    ChosenStays(f.maps, l, l', s, t);
    Proceeds(f', l', t);
  }

  lemma SymbolRange(s: State, inRun: bool)
    requires Decoding(s, inRun) && 0 <= s.gSel < |s.len|
    ensures |s.len[s.gSel]| == |Used(s)| + 2
  {
    hide InUseList, GoodLengths;
    assert TableRead(s, s.len[s.gSel]);
  }

  /** What is at hand when a symbol has been found. */
  lemma SymbolAre(f: Fields, l: Locals, s: State, inRun: bool)
    requires Going(f, l, s, inRun)
    ensures f.head.state == s.at && f.head.blockSize100k == s.blockSize100k && f.head.origPtr == s.origPtr >= 0 &&
      1 <= s.blockSize100k <= 9
    ensures l.EOB == |Used(s)| + 1 && l.nblockMAX == 100000 * s.blockSize100k == |f.body.tt| &&
      l.nblock == |s.block| <= l.nblockMAX
    ensures Collected(f.body.tt, l.nblock, f.body.unzftab, s.block) && Shows(f.body.mtfa, f.body.mtfbase, s.list) &&
      f.body.mtfbase[0] > 0
    ensures ListHolds(s.list, |Used(s)|) && f.maps.nInUse == |Used(s)| <= |f.maps.seqToUnseq| &&
      f.maps.seqToUnseq[..f.maps.nInUse] == Used(s)
    ensures BodySizes(f.body) && Bytes(Used(s)) && |s.list| == 256 && 1 <= |Used(s)| <= 256
  {
    hide Tabled, GoodLengths, MapSizes, CodeSizes;
  }

  lemma SymbolCases(s: State, sym: int)
    requires ListHolds(s.list, |Used(s)|) && 0 <= sym < |Used(s)| + 2
    ensures sym == |Used(s)| + 1 ==> Symbol(s, sym) == if s.origPtr >= |s.block| then Fail(s) else s.(at := Output)
    ensures sym == RUNA || sym == RUNB ==> Symbol(s, sym) == RunDigit(s.(es := -1, N := 1), sym)
    ensures RUNB < sym <= |Used(s)| ==>
      Symbol(s, sym) == if |s.block| >= 100000 * s.blockSize100k then Fail(s) else GetMtfVal(OneByte(s, sym - 1), false)
  {
    hide InUseList, RunDigit, GetMtfVal;
  }

  ghost function OneByte(s: State, j: int): State
    requires 0 <= j < |s.list| && 0 <= s.list[j] < |Used(s)|
  {
    s.(list := ToFront(s.list, j), block := s.block + [Used(s)[s.list[j]]])
  }

  lemma RunCases(s: State, sym: int)
    requires ListHolds(s.list, |Used(s)|) && 0 <= sym && s.es >= 0
    ensures sym == RUNA || sym == RUNB ==> InRun(s, sym) == RunDigit(s, sym)
    ensures sym > RUNB ==>
      InRun(s, sym) == if |s.block| + s.es + 1 > 100000 * s.blockSize100k then Fail(s) else Symbol(RunEnded(s), sym)
  {
    hide InUseList, RunDigit, Symbol, Repeat;
  }

  ghost function RunEnded(s: State): State
    requires |s.list| > 0 && 0 <= s.list[0] < |Used(s)| && s.es >= 0
  {
    s.(es := s.es + 1, block := s.block + Repeat(Used(s)[s.list[0]], s.es + 1))
  }

  lemma DigitCases(s: State, sym: int)
    ensures RunDigit(s, sym) ==
            if s.N >= 2 * 1024 * 1024 then Fail(s) else GetMtfVal(s.(es := s.es + (sym + 1) * s.N, N := s.N * 2), true)
  {
    hide GetMtfVal;
  }

  /** The fields and locals that a symbol changes. */
  lemma StillGoing(f: Fields, f': Fields, l: Locals, l': Locals, s: State, t: State, inRun0: bool, inRun: bool)
    requires Going(f, l, s, inRun0) && f' == f.(body := f'.body) && BodySizes(f'.body) && |f'.body.tt| == |f.body.tt|
    requires l' == l.(nblock := l'.nblock, es := l'.es, N := l'.N) &&
      t == s.(list := t.list, block := t.block, es := t.es, N := t.N)
    requires Collected(f'.body.tt, l'.nblock, f'.body.unzftab, t.block) &&
      Shows(f'.body.mtfa, f'.body.mtfbase, t.list) && f'.body.mtfbase[0] > 0
    requires ListHolds(t.list, |Used(s)|) && |t.block| <= 100000 * s.blockSize100k && Running(l', t, inRun) &&
      (inRun ==> t.es >= 0 && t.N >= 1)
    ensures Going(f', l', t, inRun) && (Grouped(l, s) ==> Grouped(l', t))
  {
    hide Framed, Chosen, Tabled, Shows, Collected, HasTables, ListHolds, InUseList, Built;
    GoingAt(f, l, s, inRun0);
    FramedStays(f, f', s, t);
    ChosenStays(f.maps, l, l', s, t);
    TablesStay(s, t);
  }

  lemma TablesStay(s: State, t: State)
    requires HasTables(s) && t == s.(list := t.list, block := t.block, es := t.es, N := t.N)
    ensures HasTables(t)
  {
    hide InUseList, GoodLengths;
    forall k | 0 <= k < |t.len| ensures TableRead(t, t.len[k]) { assert TableRead(s, s.len[k]); }
  }

  lemma CollectOne(tt: seq<int>, nblock: int, unzftab: seq<int>, block: seq<int>, c: int)
    requires Collected(tt, nblock, unzftab, block) && 0 <= c < 256 && nblock < |tt|
    ensures Collected(tt[nblock := c], nblock + 1, unzftab[c := unzftab[c] + 1], block + [c])
  {
    hide CountEq;
    var tt' := tt[nblock := c];
    assert tt'[..nblock + 1] == tt[..nblock] + [c];
    forall x ensures CountEq(block + [c], x) == CountEq(block, x) + (if x == c then 1 else 0) {
      CountSnoc(block, c, x);
    }
  }

  lemma {:induction false} RepeatCount(block: seq<int>, c: int, n: nat, x: int)
    ensures CountEq(block + Repeat(c, n), x) == CountEq(block, x) + (if x == c then n else 0)
    decreases n
  {
    hide CountEq;
    if n == 0 {
      assert block + Repeat(c, 0) == block;
    } else {
      RepeatCount(block, c, n - 1, x);
      assert block + Repeat(c, n) == (block + Repeat(c, n - 1)) + [c];
      CountSnoc(block + Repeat(c, n - 1), c, x);
    }
  }

  lemma CollectRun(tt: seq<int>, tt': seq<int>, nblock: int, unzftab: seq<int>, block: seq<int>, c: int, n: nat)
    requires Collected(tt, nblock, unzftab, block) && 0 <= c < 256 && |tt'| >= nblock + n &&
      tt'[..nblock + n] == tt[..nblock] + Repeat(c, n)
    ensures Collected(tt', nblock + n, unzftab[c := unzftab[c] + n], block + Repeat(c, n))
  {
    hide CountEq;
    forall x ensures CountEq(block + Repeat(c, n), x) == CountEq(block, x) + (if x == c then n else 0) {
      RepeatCount(block, c, n, x);
    }
  }

  lemma RunSymbols()
    ensures RUNA == 0 && RUNB == 1
  {
  }

  lemma RepeatSnoc(c: int, n: nat)
    ensures Repeat(c, n + 1) == Repeat(c, n) + [c]
  {
  }

  /** The front of the list is where the first row begins. */
  lemma FrontShown(mtfa: seq<int>, mtfbase: seq<int>, list: seq<int>)
    requires Shows(mtfa, mtfbase, list)
    ensures |list| == 256 && |mtfbase| == 16 && 0 <= mtfbase[0] < |mtfa| && mtfa[mtfbase[0]] == list[0]
  {
    assert Cell(mtfbase, 0) == mtfbase[0];
  }

  lemma ByteUsed(m: Maps, s: State, j: int)
    requires m.nInUse == |Used(s)| <= |m.seqToUnseq| && m.seqToUnseq[..m.nInUse] == Used(s) && Bytes(Used(s))
    requires ListHolds(s.list, |Used(s)|) && 0 <= j < |s.list| && (j < |Used(s)|)
    ensures 0 <= s.list[j] < |Used(s)| && m.seqToUnseq[s.list[j]] == Used(s)[s.list[j]] && 0 <= Used(s)[s.list[j]] < 256
    ensures ListHolds(ToFront(s.list, j), |Used(s)|)
  {
    hide InUseList;
    assert m.seqToUnseq[s.list[j]] == m.seqToUnseq[..m.nInUse][s.list[j]];
  }

  lemma RunAre(f: Fields, l: Locals, s: State)
    requires Going(f, l, s, true)
    ensures l.es == s.es >= 0 && l.N == s.N >= 1 && Going(f, l, s, false) && 0 < |s.list| && 0 <= s.list[0] < |Used(s)|
  {
    hide Framed, Receiving, HasTables;
  }

  /** The first digit of a run starts counting. */
  lemma DigitGoes(f: Fields, l: Locals, l': Locals, s: State)
    requires Going(f, l, s, false) && Grouped(l, s) && l' == l.(es := -1, N := 1)
    ensures Going(f, l', s.(es := -1, N := 1), false) && Grouped(l', s.(es := -1, N := 1))
  {
    hide Going, Grouped, Decoding, HasTables;
    Unchanged(f, l, s, false);
    StillGoing(f, f, l, l', s, s.(es := -1, N := 1), false, false);
  }

  lemma NextDigitGoes(f: Fields, l: Locals, l': Locals, s: State, sym: int)
    requires Going(f, l, s, false) && Grouped(l, s) && l.es == s.es >= -1 && l.N == s.N >= 1 &&
      (sym == RUNA || sym == RUNB)
    requires l' == l.(es := s.es + (sym + 1) * s.N, N := s.N * 2)
    ensures Going(f, l', s.(es := s.es + (sym + 1) * s.N, N := s.N * 2), true) &&
      Grouped(l', s.(es := s.es + (sym + 1) * s.N, N := s.N * 2))
  {
    hide Going, Grouped, Decoding, HasTables;
    Unchanged(f, l, s, false);
    StillGoing(f, f, l, l', s, s.(es := s.es + (sym + 1) * s.N, N := s.N * 2), false, true);
  }

  lemma Unchanged(f: Fields, l: Locals, s: State, inRun: bool)
    requires Going(f, l, s, inRun)
    ensures BodySizes(f.body) && Collected(f.body.tt, l.nblock, f.body.unzftab, s.block) &&
      Shows(f.body.mtfa, f.body.mtfbase, s.list)
    ensures f.body.mtfbase[0] > 0 && ListHolds(s.list, |Used(s)|) && |s.block| <= 100000 * s.blockSize100k
  {
    GoingAt(f, l, s, inRun);
    BodySizesOf(f, s);
    hide Framed, Chosen, Tabled, Shows, Collected, ListHolds, HasTables;
  }

  lemma RunTooLong(s: State, sym: int)
    requires ListHolds(s.list, |Used(s)|) && sym > RUNB && s.es >= 0 && |s.block| + s.es + 1 > 100000 * s.blockSize100k
    ensures InRun(s, sym).at == Failed(DataError)
  {
    RunCases(s, sym);
    hide InRun, Symbol, ListHolds;
  }

  lemma RunHasRoom(s: State, sym: int)
    requires ListHolds(s.list, |Used(s)|) && sym > RUNB && s.es >= 0 && |s.block| + s.es + 1 <= 100000 * s.blockSize100k
    ensures 0 < |s.list| && 0 <= s.list[0] < |Used(s)| && InRun(s, sym) == Symbol(RunEnded(s), sym) &&
      |Used(RunEnded(s))| == |Used(s)|
  {
    RunCases(s, sym);
    hide InRun, Symbol, ListHolds;
  }

  /** The checks of the counts, and of what they add up to, cannot fail. */
  lemma CountsInRange(block: seq<int>, unzftab: seq<int>)
    requires |unzftab| == 256 && forall c :: 0 <= c < 256 ==> unzftab[c] == CountEq(block, c)
    ensures forall c :: 0 <= c < 256 ==> 0 <= unzftab[c] <= |block|
  {
    hide CountEq;
    forall c | 0 <= c < 256 ensures 0 <= unzftab[c] <= |block| { CountMost(block, c); }
  }

  lemma PlacesInRange(block: seq<int>, cftab: seq<int>)
    requires |cftab| == 257 && forall c :: 0 <= c <= 256 ==> cftab[c] == Below(block, c)
    ensures forall c :: 0 <= c < 257 ==> 0 <= cftab[c] <= |block|
    ensures forall c :: 1 <= c < 257 ==> cftab[c - 1] <= cftab[c]
  {
    hide Below;
    forall c | 0 <= c < 257 ensures 0 <= cftab[c] <= |block| { BelowMost(block, c); }
    forall c | 1 <= c < 257 ensures cftab[c - 1] <= cftab[c] { BelowMonotone(block, c - 1, c); }
  }

  lemma {:induction false} CountMost(block: seq<int>, c: int)
    ensures CountEq(block, c) <= |block|
  {
    if block != [] { CountMost(block[..|block| - 1], c); }
  }

  /** The table is ready for output. */
  lemma BlockDone(f: Fields, f': Fields, l: Locals, s: State)
    requires Going(f, l, s, false) && f' == f.(head := f.head.(state := Output), body := f'.body) && BodySizes(f'.body)
    requires |f'.body.tt| == |f.body.tt| && O.Ready(TablesOf(f'.body, s), s.block, s.origPtr, f'.body.turns)
    ensures Outcome(Ok, f', l, s.(at := Output))
  {
    SymbolAre(f, l, s, false);
    GoingAt(f, l, s, false);
    hide Going, Framed, Receiving, Collected, Shows, ListHolds, O.Ready;
    FramedStays(f, f', s, s.(at := Output));
    BytesOf(f.body.tt, l.nblock, f.body.unzftab, s.block);
    Proceeds(f', l, s.(at := Output));
  }

  lemma BytesOf(tt: seq<int>, nblock: int, unzftab: seq<int>, block: seq<int>)
    requires Collected(tt, nblock, unzftab, block)
    ensures Bytes(block) && nblock == |block| <= |tt| && tt[..nblock] == block && |unzftab| == 256
    ensures forall c :: 0 <= c < 256 ==> unzftab[c] == CountEq(block, c)
  {
    hide CountEq;
  }

  lemma ChosenStays(m: Maps, l: Locals, l': Locals, s: State, t: State)
    requires Chosen(m, l, s) && l'.alphaSize == l.alphaSize && l'.nGroups == l.nGroups && l'.nSelectors == l.nSelectors
    requires t.inUse == s.inUse && t.nGroups == s.nGroups && t.nSelectors == s.nSelectors && t.selector == s.selector
    ensures Chosen(m, l', t)
  {
    hide InUseList;
  }

  /** The step at each label of the headers. */
  lemma HeaderSteps(s: State, v: int)
    ensures s.at.Magic? ==> Step(s, v) == StepMagic(s, s.at.k, v)
    ensures s.at.BlkHdr? ==> Step(s, v) == StepBlkHdr(s, s.at.k, v)
    ensures s.at.BlkCrc? ==> Step(s, v) == StepBlkCrc(s, s.at.k, v)
    ensures s.at == RandBit ==> Step(s, v) == s.(blockRandomised := v == 1, origPtr := 0, at := OrigPtr(0))
    ensures s.at.OrigPtr? ==> Step(s, v) == StepOrigPtr(s, s.at.k, v)
    ensures s.at.EndHdr? ==> Step(s, v) == StepEndHdr(s, s.at.k, v)
    ensures s.at.CombinedCrc? ==> Step(s, v) == StepCombinedCrc(s, s.at.k, v)
  {
    hide StepMagic, StepBlkHdr, StepBlkCrc, StepOrigPtr, StepEndHdr, StepCombinedCrc;
  }

  lemma StartAgrees(f: Fields)
    requires Sizes(f) && f.head == Head(Magic(0), 0, 0, 0, 0, false, 0)
    ensures Agree(f, NO_LOCALS, Fresh()) && Near(Fresh())
  {
    hide MapSizes, CodeSizes, BodySizes;
  }

  /** Near the tables means near them after the next step, or at an end. */
  lemma NearStep(s: State, v: int)
    requires Near(s) && 0 <= v < Pow2(Need(s))
    ensures Near(Step(s, v)) || Step(s, v).at == Stuck
  {
    if s.at == Selector2 && v > MAX_SELECTORS {
      CountOver(s, v);
    } else if Overbooked(s) {
      OverbookedStep(s, v);
    } else {
      hide *;
      NearIs(s, v);
      StepSound(s, v);
      SoundIsNear(Step(s, v));
    }
  }

  lemma NearIs(s: State, v: int)
    requires Near(s) && !Overbooked(s) && (s.at == Selector2 ==> v <= MAX_SELECTORS)
    ensures Sound(s) && RoomFor(s, v)
  {
    hide Sound, Overbooked;
  }

  lemma SoundIsNear(s: State)
    requires Sound(s)
    ensures Near(s)
  {
    hide Sound;
  }

  lemma CountOver(s: State, v: int)
    requires Near(s) && s.at == Selector2 && v > MAX_SELECTORS
    ensures Near(Step(s, v))
  {
    hide InUseList, HasSelectors, HasTables, Decoding;
    assert Overbooked(Step(s, v));
  }

  lemma OverbookedStep(s: State, v: int)
    requires Overbooked(s)
    ensures Near(Step(s, v)) || Step(s, v).at == Stuck
  {
    hide InUseList, HasSelectors, HasTables, Decoding, Entries;
    var t := Step(s, v);
    if v == 0 {
      if s.i < MAX_SELECTORS { assert Overbooked(t); } else { assert t.at == Stuck; }
    } else if s.j + 1 >= s.nGroups {
      assert Sound(t);
    } else {
      assert Overbooked(t);
    }
  }

  lemma OutputAre(f: Fields, l: Locals, s: State)
    requires Agree(f, l, s) && Near(s) && f.head.state == Output
    ensures s.at == Output && l.nblock == |s.block| && O.Ready(TablesOf(f.body, s), s.block, s.origPtr, f.body.turns)
    ensures f.head.blockRandomised == s.blockRandomised
    ensures f.head.origPtr == s.origPtr && f.head.blockSize100k == s.blockSize100k &&
      0 <= s.origPtr < |s.block| <= 100000 * s.blockSize100k
  {
    hide Sizes, Roomy, HasMap, O.Ready, Receiving, Overbooked;
    AgreeState(f, l, s);
    NearSound(s);
  }

  lemma BlockPut(f: Fields, f': Fields, l: Locals, s: State)
    requires Agree(f, l, s) && Near(s) && s.at == Output && f' == f.(head := f.head.(state := BlkHdr(0)))
    ensures Agree(f', l, s.(at := BlkHdr(0))) && Near(s.(at := BlkHdr(0)))
  {
    hide MapSizes, CodeSizes, BodySizes, O.Ready, InUseList, Overbooked;
  }

  // ----- from a read to the step -----

  /** Labels at which bits are read. */
  predicate Reading(at: Label) { !at.Output? && !at.Idle? && !at.Failed? && !at.Stuck? }

  /** How many bits the label reads. */
  function Width(at: Label, zn: int): int {
    match at
    case Magic(_) | BlkHdr(_) | BlkCrc(_) | OrigPtr(_) | EndHdr(_) | CombinedCrc(_) => 8
    case RandBit | Mapping1 | Mapping2 | Selector3 | Coding2 | Coding3 | MtfMore(_) => 1
    case Selector1 => 3
    case Selector2 => 15
    case Coding1 => 5
    case MtfFirst(_) => zn
    case _ => 0
  }

  lemma WidthIs(f: Fields, l: Locals, s: State)
    requires Agree(f, l, s) && Near(s) && Reading(s.at)
    ensures f.head.state == s.at && 0 < Width(s.at, l.zn) == Need(s) <= 20
  {
    hide Sizes, Receiving, Roomy, Overbooked;
    AgreeState(f, l, s);
    if s.at.MtfFirst? {
      NearSound(s);
      ReadingFacts(s, s.at.inRun);
      GoodRange(s.len[s.gSel]);
      ZnAgrees(f, l, s, s.at.inRun);
    }
  }

  lemma AgreeState(f: Fields, l: Locals, s: State)
    requires Agree(f, l, s)
    ensures f.head.state == s.at
  {
    hide Sizes, Alive;
  }

  lemma ZnAgrees(f: Fields, l: Locals, s: State, inRun: bool)
    requires Agree(f, l, s) && s.at == MtfFirst(inRun)
    ensures l.zn == s.zn
  {
    hide Framed, Receiving, Grouped;
  }

  lemma NearSound(s: State)
    requires Near(s) && s.at != Selector3
    ensures Sound(s)
  {
    hide Sound;
  }

  lemma Narrow(v: nat, n: nat)
    requires v < Pow2(n)
    ensures (n == 1 ==> v < 2) && (n == 8 ==> v < 256)
  {
    assert Pow2(8) == 256 && Pow2(1) == 2;
  }

  lemma HeaderRanges(s: State)
    requires Sound(s) && Heading(s.at)
    ensures s.at.Magic? || s.at.BlkCrc? || s.at.CombinedCrc? ==> 0 <= s.at.k < 4
    ensures s.at.BlkHdr? || s.at.EndHdr? ==> 0 <= s.at.k < 6
    ensures s.at.OrigPtr? ==> 0 <= s.at.k < 3 && s.origPtr >= 0
    ensures s.at.BlkHdr? || s.at.BlkCrc? || s.at == RandBit || s.at.OrigPtr? ==> HasBlockSize(s)
  {
    hide HasGroups, HasMap, Decoding, HasSelectors, HasTables;
  }

  lemma MappingRanges(s: State)
    requires Sound(s) && (s.at == Mapping1 || s.at == Mapping2)
    ensures s.at == Mapping1 ==> 0 <= s.i == |s.inUse16| < 16
    ensures s.at == Mapping2 ==> |s.inUse16| == 16 && |s.inUse| == 256 && 0 <= s.i < 16 && 0 <= s.j < 16
  {
    hide HasGroups, HasMap, Decoding, HasSelectors, HasTables;
  }

  lemma BodySteps(s: State, v: int)
    ensures s.at == Selector1 ==> Step(s, v) == if v < 2 || v > 6 then Fail(s) else s.(nGroups := v, at := Selector2)
    ensures s.at == Selector2 ==>
      Step(s, v) == if v < 1 then Fail(s) else s.(nSelectors := v, selectorMtf := [], i := 0, j := 0, at := Selector3)
    ensures s.at == Selector3 ==> Step(s, v) == StepSelector3(s, v)
    ensures s.at.MtfFirst? ==> Step(s, v) == TestCode(s.(zvec := v), s.at.inRun)
    ensures s.at.MtfMore? ==> Step(s, v) == TestCode(s.(zvec := s.zvec * 2 + v), s.at.inRun)
  {
    hide StepSelector3, TestCode;
  }

  /** One step of the run. */
  lemma RunStep(s: State, bits: seq<bool>)
    requires 0 < Need(s) <= |bits|
    ensures RunOn(s, bits) == RunOn(Step(s, Value(bits[..Need(s)])), bits[Need(s)..])
  {
    hide Step, Need;
  }

  lemma RunWaits(s: State, bits: seq<bool>)
    requires Need(s) == 0 || |bits| < Need(s)
    ensures RunOn(s, bits) == (s, bits)
  {
    hide Step, Need;
  }

  lemma GoesOn(s: State)
    requires Reading(s.at)
    ensures CodeFor(s) == Ok
  {
  }

  lemma Settles(ret: Return, f: Fields, l: Locals, t: State)
    requires Outcome(ret, f, l, t)
    ensures ret == CodeFor(t) && (ret == Ok || ret == StreamEnd ==> Agree(f, l, t))
    ensures ret == Ok || ret == StreamEnd ==> !t.at.Failed? && !t.at.Stuck?
    ensures ret == Ok && t.at != Output ==> Reading(t.at)
    ensures ret != Ok || t.at == Output ==> Need(t) == 0
  {
    hide Agree;
  }
}

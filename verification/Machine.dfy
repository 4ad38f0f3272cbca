/** The decompressor as a machine that asks for bits: what BZ2_decompress does between two calls of GET_BITS. */
module Machine {

  import opened Powers
  import opened Counting
  import opened Mtf
  import opened MtfEncode
  import opened HuffmanCodes
  import opened BitStream

  // ----- the saved state -----

  datatype Error = DataError | DataErrorMagic

  /** Where the decompressor stands: the label of the GET_BITS that it returns to. */
  datatype Label =
    | Magic(k: int) | BlkHdr(k: int) | BlkCrc(k: int) | RandBit | OrigPtr(k: int)
    | Mapping1 | Mapping2 | Selector1 | Selector2 | Selector3 | Coding1 | Coding2 | Coding3
    | MtfFirst(inRun: bool) | MtfMore(inRun: bool)
    | Output | EndHdr(k: int) | CombinedCrc(k: int) | Idle | Failed(error: Error)
    // no label of the original: reached if a step looks or writes outside its tables, which StepSound shows to happen
    // in one case only
    | Stuck

  datatype State = State(
    at: Label,
    blockSize100k: int, currBlockNo: int, storedBlockCRC: int, storedCombinedCRC: int,
    blockRandomised: bool, origPtr: int,
    inUse16: seq<bool>, inUse: seq<bool>,
    i: int, j: int, t: int,
    nGroups: int, nSelectors: int, selectorMtf: seq<int>, selector: seq<int>,
    curr: int, len: seq<seq<int>>,
    groupNo: int, groupPos: int, gSel: int, zn: int, zvec: int,
    es: int, N: int, list: seq<int>, block: seq<int>)

  const BLKHDR := [0x31, 0x41, 0x59, 0x26, 0x53, 0x59]
  const ENDHDR := [0x17, 0x72, 0x45, 0x38, 0x50, 0x90]
  const G_SIZE := 50
  /** The room for selectors in DState: one for every fifty of at most 900000 symbols, and two more. */
  const MAX_SELECTORS := 18002

  function Fail(s: State): State { s.(at := Failed(DataError)) }

  function Lost(s: State): State { s.(at := Stuck) }

  /** How many bits the state asks for; none when there is nothing to read for. */
  function Need(s: State): nat {
    match s.at
    case Magic(_) | BlkHdr(_) | BlkCrc(_) | OrigPtr(_) | EndHdr(_) | CombinedCrc(_) => 8
    case RandBit | Mapping1 | Mapping2 | Selector3 | Coding2 | Coding3 | MtfMore(_) => 1
    case Selector1 => 3
    case Selector2 => 15
    case Coding1 => 5
    case MtfFirst(_) => if s.zn > 0 then s.zn else 0
    case Output | Idle | Failed(_) | Stuck => 0
  }

  // ----- tables of a code -----

  /** The symbol that zn bits with value zvec stand for, if the test against the limit has succeeded. */
  ghost function SymbolOf(len: seq<int>, zn: nat, zvec: int): int {
    var x := zvec - BaseOf(len, zn);
    if 0 <= x < |len| then PlaceOf(len, x) else -1
  }

  // ----- what happens between two reads -----

  /** Header bytes: one constant after the other. */
  ghost function StepMagic(s: State, k: int, v: int): State {
    var magic := s.(at := Failed(DataErrorMagic));
    if k == 0 then (if v == 0x42 then s.(at := Magic(1)) else magic)
    else if k == 1 then (if v == 0x5a then s.(at := Magic(2)) else magic)
    else if k == 2 then (if v == 0x68 then s.(at := Magic(3)) else magic)
    else if 0x31 <= v <= 0x39 then s.(blockSize100k := v - 0x30, at := BlkHdr(0))
    else magic
  }

  ghost function StepBlkHdr(s: State, k: int, v: int): State {
    if !(0 <= k < 6) then Lost(s)
    else if k == 0 && v == ENDHDR[0] then s.(at := EndHdr(1))
    else if v != BLKHDR[k] then Fail(s)
    else if k < 5 then s.(at := BlkHdr(k + 1))
    else s.(currBlockNo := s.currBlockNo + 1, storedBlockCRC := 0, at := BlkCrc(0))
  }

  ghost function StepBlkCrc(s: State, k: int, v: int): State {
    s.(storedBlockCRC := s.storedBlockCRC * 256 + v, at := if k < 3 then BlkCrc(k + 1) else RandBit)
  }

  ghost function StepEndHdr(s: State, k: int, v: int): State {
    if !(0 <= k < 6) then Lost(s)
    else if v != ENDHDR[k] then Fail(s)
    else if k < 5 then s.(at := EndHdr(k + 1))
    else s.(storedCombinedCRC := 0, at := CombinedCrc(0))
  }

  ghost function StepCombinedCrc(s: State, k: int, v: int): State {
    s.(storedCombinedCRC := s.storedCombinedCRC * 256 + v, at := if k < 3 then CombinedCrc(k + 1) else Idle)
  }

  ghost function StepOrigPtr(s: State, k: int, v: int): State {
    var s := s.(origPtr := s.origPtr * 256 + v);
    if k < 2 then s.(at := OrigPtr(k + 1))
    else if s.origPtr > 10 + 100000 * s.blockSize100k then Fail(s)
    else s.(i := 0, inUse16 := [], at := Mapping1)
  }

  /** The first of the sixteens from i on that is in use. */
  function NextUsed(inUse16: seq<bool>, i: nat): (r: nat)
    ensures i <= r
    ensures i <= |inUse16| ==> r <= |inUse16|
    ensures r < |inUse16| ==> inUse16[r]
    ensures forall k :: i <= k < r && k < |inUse16| ==> !inUse16[k]
    decreases |inUse16| - i
  {
    if i >= |inUse16| || inUse16[i] then i else NextUsed(inUse16, i + 1)
  }

  ghost function StepMapping1(s: State, v: int): State {
    var s := s.(inUse16 := s.inUse16 + [v == 1], i := s.i + 1);
    if s.i < 16 then s else ToMapping2(s.(inUse := seq(256, k => false)), 0)
  }

  /** Continues with the sixteen values of the next group in use, or ends the mapping table. */
  ghost function ToMapping2(s: State, from: nat): State {
    var i := NextUsed(s.inUse16, from);
    if i < |s.inUse16| then s.(i := i, j := 0, at := Mapping2)
    else if forall c :: 0 <= c < |s.inUse| ==> !s.inUse[c] then Fail(s)
    else s.(at := Selector1)
  }

  ghost function StepMapping2(s: State, v: int): State {
    var c := 16 * s.i + s.j;
    if !(0 <= c < |s.inUse| && s.i >= 0) then Lost(s)
    else
      var s := if v == 1 then s.(inUse := s.inUse[c := true]) else s;
      if s.j + 1 < 16 then s.(j := s.j + 1)
      else ToMapping2(s, s.i + 1)
  }

  ghost function StepSelector3(s: State, v: int): State {
    if v == 0 && s.i >= MAX_SELECTORS then Lost(s)
    else if v == 0 then
      var s := s.(selectorMtf := s.selectorMtf + [s.j], i := s.i + 1, j := 0);
      if s.i < s.nSelectors then s
      else if s.nGroups < 0 || !(forall k :: 0 <= k < |s.selectorMtf| ==> 0 <= s.selectorMtf[k] < s.nGroups)
           then Lost(s)
      else s.(selector := Entries(Identity(s.nGroups), s.selectorMtf), t := 0, len := [], at := Coding1)
    else if s.j + 1 >= s.nGroups then Fail(s)
    else s.(j := s.j + 1)
  }

  /** The check in front of every bit of a code length. */
  ghost function CheckCurr(s: State): State {
    if s.curr < 1 || s.curr > 20 then Fail(s) else s.(at := Coding2)
  }

  ghost function StepCoding2(s: State, v: int): State {
    if v != 0 then s.(at := Coding3)
    else if s.len == [] then Lost(s)
    else
      var last := |s.len| - 1;
      var s := s.(len := s.len[last := s.len[last] + [s.curr]], i := s.i + 1);
      if s.i < |Used(s)| + 2 then CheckCurr(s)
      else if s.t + 1 < s.nGroups then s.(t := s.t + 1, at := Coding1)
      else GetMtfVal(s.(t := s.t + 1, groupNo := -1, groupPos := 0, list := Identity(256), block := []), false)
  }

  /** The start of GET_MTF_VAL: a new group takes the next selector. */
  ghost function GetMtfVal(s: State, inRun: bool): State {
    if s.groupPos != 0 then FirstBits(s, inRun)
    else if s.groupNo + 1 >= s.nSelectors then Fail(s.(groupNo := s.groupNo + 1))
    else if !(0 <= s.groupNo + 1 < |s.selector|) then Lost(s)
    else FirstBits(s.(groupNo := s.groupNo + 1, groupPos := G_SIZE, gSel := s.selector[s.groupNo + 1]), inRun)
  }

  ghost function FirstBits(s: State, inRun: bool): State {
    if !(0 <= s.gSel < |s.len|) then Lost(s)
    else s.(groupPos := s.groupPos - 1, zn := MinOf(s.len[s.gSel]), at := MtfFirst(inRun))
  }

  /** The loop of GET_MTF_VAL after a read. */
  ghost function TestCode(s: State, inRun: bool): State {
    if s.zn > 20 then Fail(s)
    else if !(0 <= s.gSel < |s.len| && s.zn >= 0) then Lost(s)
    else if s.zvec <= LimitOf(s.len[s.gSel], s.zn) then
      var sym := SymbolOf(s.len[s.gSel], s.zn, s.zvec);
      if sym < 0 then Lost(s) else if inRun then InRun(s, sym) else Symbol(s, sym)
    else s.(zn := s.zn + 1, at := MtfMore(inRun))
  }

  function Used(s: State): seq<int> { InUseList(s.inUse, |s.inUse|) }

  /** A symbol at the top of the loop. */
  ghost function Symbol(s: State, sym: int): State {
    if sym == |Used(s)| + 1 then
      (if s.origPtr >= |s.block| then Fail(s) else s.(at := Output))
    else if sym == RUNA || sym == RUNB then RunDigit(s.(es := -1, N := 1), sym)
    else if |s.block| >= 100000 * s.blockSize100k then Fail(s)
    else if !(0 <= sym - 1 < |s.list| && 0 <= s.list[sym - 1] < |Used(s)|) then Lost(s)
    else GetMtfVal(s.(list := ToFront(s.list, sym - 1), block := s.block + [Used(s)[s.list[sym - 1]]]), false)
  }

  /** One more digit of a run. */
  ghost function RunDigit(s: State, sym: int): State {
    if s.N >= 2 * 1024 * 1024 then Fail(s)
    else GetMtfVal(s.(es := s.es + (sym + 1) * s.N, N := s.N * 2), true)
  }

  /** A symbol inside a run: another digit, or the run ends and the symbol is looked at afresh. */
  ghost function InRun(s: State, sym: int): State {
    if sym == RUNA || sym == RUNB then RunDigit(s, sym)
    else if !(s.es + 1 >= 0 && |s.list| > 0 && 0 <= s.list[0] < |Used(s)|) then Lost(s)
    else if |s.block| + s.es + 1 > 100000 * s.blockSize100k then Fail(s)
    else Symbol(s.(es := s.es + 1, block := s.block + Repeat(Used(s)[s.list[0]], s.es + 1)), sym)
  }

  function Repeat(x: int, n: nat): (r: seq<int>)
    ensures |r| == n && forall k :: 0 <= k < n ==> r[k] == x
  {
    seq(n, k => x)
  }

  /** From one read to the next. */
  ghost function Step(s: State, v: int): State {
    match s.at
    case Magic(k) => StepMagic(s, k, v)
    case BlkHdr(k) => StepBlkHdr(s, k, v)
    case BlkCrc(k) => StepBlkCrc(s, k, v)
    case RandBit => s.(blockRandomised := v == 1, origPtr := 0, at := OrigPtr(0))
    case OrigPtr(k) => StepOrigPtr(s, k, v)
    case Mapping1 => StepMapping1(s, v)
    case Mapping2 => StepMapping2(s, v)
    case Selector1 => if v < 2 || v > 6 then Fail(s) else s.(nGroups := v, at := Selector2)
    case Selector2 => if v < 1 then Fail(s) else s.(nSelectors := v, selectorMtf := [], i := 0, j := 0, at := Selector3)
    case Selector3 => StepSelector3(s, v)
    case Coding1 => CheckCurr(s.(curr := v, i := 0, len := s.len + [[]]))
    case Coding2 => StepCoding2(s, v)
    case Coding3 => CheckCurr(s.(curr := if v == 0 then s.curr + 1 else s.curr - 1))
    case MtfFirst(inRun) => TestCode(s.(zvec := v), inRun)
    case MtfMore(inRun) => TestCode(s.(zvec := s.zvec * 2 + v), inRun)
    case EndHdr(k) => StepEndHdr(s, k, v)
    case CombinedCrc(k) => StepCombinedCrc(s, k, v)
    case Output | Idle | Failed(_) | Stuck => s
  }

  // ----- what every step keeps -----

  ghost predicate HasBlockSize(s: State) { 1 <= s.blockSize100k <= 9 }

  /** The mapping table has been read and something is in use. */
  ghost predicate HasMap(s: State) {
    HasBlockSize(s) && s.origPtr >= 0 && |s.inUse| == 256 && 1 <= |Used(s)| <= 256
  }

  ghost predicate HasGroups(s: State) { HasMap(s) && 2 <= s.nGroups <= 6 }

  ghost predicate HasSelectors(s: State) {
    HasGroups(s) && 1 <= s.nSelectors == |s.selector| <= MAX_SELECTORS &&
      forall k :: 0 <= k < |s.selector| ==> 0 <= s.selector[k] < s.nGroups
  }

  ghost predicate TableRead(s: State, len: seq<int>) { GoodLengths(len) && |len| == |Used(s)| + 2 }

  ghost predicate HasTables(s: State) {
    HasSelectors(s) && |s.len| == s.nGroups && forall t :: 0 <= t < |s.len| ==> TableRead(s, s.len[t])
  }

  /** The first entries of the list are the numbers of the bytes in use. */
  ghost predicate ListHolds(list: seq<int>, n: int) {
    |list| == 256 && 1 <= n <= 256 && forall k :: 0 <= k < n ==> 0 <= list[k] < n
  }

  ghost predicate Decoding(s: State, inRun: bool) {
    && HasTables(s) && ListHolds(s.list, |Used(s)|) && 0 <= s.groupPos <= G_SIZE && -1 <= s.groupNo < s.nSelectors
    && |s.block| <= 100000 * s.blockSize100k && (inRun ==> s.es >= 0 && 1 <= s.N)
  }

  ghost predicate Sound(s: State) {
    match s.at
    case Magic(k) => 0 <= k < 4
    case BlkHdr(k) => 0 <= k < 6 && HasBlockSize(s)
    case BlkCrc(k) => 0 <= k < 4 && HasBlockSize(s)
    case RandBit => HasBlockSize(s)
    case OrigPtr(k) => 0 <= k < 3 && HasBlockSize(s) && s.origPtr >= 0
    case Mapping1 => HasBlockSize(s) && s.origPtr >= 0 && 0 <= s.i == |s.inUse16| < 16
    case Mapping2 => HasBlockSize(s) && s.origPtr >= 0 && |s.inUse16| == 16 && |s.inUse| == 256 && 0 <= s.i < 16 &&
      0 <= s.j < 16
    case Selector1 => HasMap(s)
    case Selector2 => HasGroups(s)
    case Selector3 =>
      HasGroups(s) && 0 <= s.j < s.nGroups && 0 <= s.i == |s.selectorMtf| < s.nSelectors <= MAX_SELECTORS &&
      forall k :: 0 <= k < |s.selectorMtf| ==> 0 <= s.selectorMtf[k] < s.nGroups
    case Coding1 =>
      HasSelectors(s) && 0 <= s.t == |s.len| < s.nGroups && forall t :: 0 <= t < |s.len| ==> TableRead(s, s.len[t])
    case Coding2 | Coding3 =>
      HasSelectors(s) && 0 <= s.t < s.nGroups && |s.len| == s.t + 1 && 1 <= s.curr <= 20 &&
      (forall t :: 0 <= t < s.t ==> TableRead(s, s.len[t])) &&
      0 <= s.i == |s.len[s.t]| < |Used(s)| + 2 && forall i :: 0 <= i < s.i ==> 1 <= s.len[s.t][i] <= 20
    case MtfFirst(inRun) => Decoding(s, inRun) && 0 <= s.gSel < s.nGroups && s.groupPos < G_SIZE &&
      s.zn == MinOf(s.len[s.gSel])
    case MtfMore(inRun) =>
      Decoding(s, inRun) && 0 <= s.gSel < s.nGroups && s.groupPos < G_SIZE && MinOf(s.len[s.gSel]) < s.zn <= 21 &&
      s.zvec > LimitOf(s.len[s.gSel], s.zn - 1) && Beyond(s.len[s.gSel], s.zn - 1, s.zvec)
    case Output => HasMap(s) && 0 <= s.origPtr < |s.block| <= 100000 * s.blockSize100k
    case EndHdr(k) => 0 <= k < 6
    case CombinedCrc(k) => 0 <= k < 4
    case Idle | Failed(_) => true
    case Stuck => false
  }
}

/** The decompressor stays inside its tables, whatever bits it is given, as long as they announce no more selectors than
    there is room for. */
module MachineSound {

  import opened Powers
  import opened Counting
  import opened Mtf
  import opened MtfEncode
  import opened HuffmanCodes
  import opened BitStream
  import opened Machine

  lemma SomeInUse(s: State, c: int)
    requires |s.inUse| == 256 && 0 <= c < 256 && s.inUse[c]
    ensures 1 <= |Used(s)| <= 256
  {
    InUseBack(s.inUse, c);
  }

  lemma MappingSound(s: State, from: nat)
    requires HasBlockSize(s) && s.origPtr >= 0 && |s.inUse16| == 16 && |s.inUse| == 256 && from <= 16
    ensures Sound(ToMapping2(s, from))
  {
    if !(forall c :: 0 <= c < |s.inUse| ==> !s.inUse[c]) {
      var c :| 0 <= c < |s.inUse| && s.inUse[c];
      SomeInUse(s, c);
      SomeInUse(s.(at := Selector1), c);
    }
  }

  lemma SelectorSound(s: State, v: int)
    requires s.at == Selector3 && Sound(s)
    ensures Sound(Step(s, v))
  {
    hide InUseList;
    if v == 0 {
      var sm := s.selectorMtf + [s.j];
      if s.i + 1 >= s.nSelectors {
        EntriesIn(Identity(s.nGroups), sm, s.nGroups);
      }
    }
  }

  /** Entries found in a list that holds numbers below n are below n, and so is the list afterwards. */
  lemma {:induction false} EntriesIn(list: seq<int>, ps: seq<int>, n: int)
    requires forall k :: 0 <= k < |list| ==> 0 <= list[k] < n
    requires forall i :: 0 <= i < |ps| ==> 0 <= ps[i] < |list|
    ensures forall i :: 0 <= i < |ps| ==> 0 <= Entries(list, ps)[i] < n
    decreases |ps|
  {
    if ps != [] {
      EntriesIn(ToFront(list, ps[0]), ps[1..], n);
      assert Entries(list, ps) == [list[ps[0]]] + Entries(ToFront(list, ps[0]), ps[1..]);
    }
  }

  lemma CodingSound(s: State, v: int)
    requires s.at == Coding2 && Sound(s)
    ensures Sound(Step(s, v))
  {
    hide MinOf, InUseList, Step, GoodLengths, GetMtfVal, CheckCurr;
    StepCoding(s, v);
    var s1 := s.(len := s.len[s.t := s.len[s.t] + [s.curr]], i := s.i + 1);
    MoreLengths(s, s1);
    if s1.i >= |Used(s)| + 2 {
      TableDone(s, s1);
      if s.t + 1 >= s.nGroups { LastTable(s1); }
    }
  }

  lemma MoreLengths(s: State, s1: State)
    requires s.at == Coding2 && Sound(s) && s1 == s.(len := s.len[s.t := s.len[s.t] + [s.curr]], i := s.i + 1)
    ensures Used(s1) == Used(s) && Sound(s.(at := Coding3)) && (s1.i < |Used(s)| + 2 ==> Sound(CheckCurr(s1)))
  {
    hide MinOf, InUseList, GoodLengths;
  }

  lemma TableDone(s: State, s1: State)
    requires s.at == Coding2 && Sound(s) && s1 == s.(len := s.len[s.t := s.len[s.t] + [s.curr]], i := s.i + 1) &&
      s1.i >= |Used(s)| + 2
    ensures HasSelectors(s1) && |s1.len| == s.t + 1 && forall t :: 0 <= t < |s1.len| ==> TableRead(s1, s1.len[t])
  {
    hide MinOf, InUseList;
    assert Used(s1) == Used(s);
    forall t | 0 <= t < s.t ensures TableRead(s1, s1.len[t]) { assert TableRead(s, s.len[t]); }
  }

  /** All tables have been read. */
  lemma LastTable(s: State)
    requires HasSelectors(s) && |s.len| == s.nGroups && forall t :: 0 <= t < |s.len| ==> TableRead(s, s.len[t])
    ensures var s2 := s.(t := s.t + 1, groupNo := -1, groupPos := 0, list := Identity(256), block := []);
      Sound(GetMtfVal(s2, false))
  {
    hide MinOf, InUseList, GoodLengths;
    var s2 := s.(t := s.t + 1, groupNo := -1, groupPos := 0, list := Identity(256), block := []);
    assert forall t :: 0 <= t < |s2.len| ==> TableRead(s2, s2.len[t]);
    GetSound(s2, false);
  }

  lemma StepCoding(s: State, v: int)
    requires s.at == Coding2
    ensures Step(s, v) == StepCoding2(s, v)
  {
    hide StepCoding2;
  }

  lemma GetSound(s: State, inRun: bool)
    requires Decoding(s, inRun) && (s.groupPos != 0 ==> 0 <= s.gSel < s.nGroups)
    ensures Sound(GetMtfVal(s, inRun))
  {
    hide MinOf, InUseList;
  }

  lemma TestSound(s: State, inRun: bool)
    requires Decoding(s, inRun) && 0 <= s.gSel < s.nGroups && s.groupPos < G_SIZE
    requires MinOf(s.len[s.gSel]) <= s.zn <= 21 && Beyond(s.len[s.gSel], s.zn, s.zvec)
    ensures Sound(TestCode(s, inRun))
  {
    hide MinOf, MaxOf, LimitOf, BaseOf, Beyond, InUseList, PlaceOf, GetMtfVal;
    var len := s.len[s.gSel];
    GoodRange(len);
    AnyBitsStop(len, s.zn, s.zvec, 0);
    if s.zn <= 20 && s.zvec <= LimitOf(len, s.zn) {
      var sym := SymbolOf(len, s.zn, s.zvec);
      if inRun { InRunSound(s, sym); } else { SymbolSound(s, sym); }
      assert Sound(TestCode(s, inRun));
    } else if s.zn <= 20 {
      assert Sound(TestCode(s, inRun));
    } else {
      assert Sound(TestCode(s, inRun));
    }
  }

  lemma SymbolSound(s: State, sym: int)
    requires Decoding(s, false) && 0 <= s.gSel < s.nGroups && 0 <= sym < |Used(s)| + 2
    ensures Sound(Symbol(s, sym))
  {
    hide MinOf, InUseList, GetMtfVal, InRun;
    if sym == |Used(s)| + 1 {
    } else if sym == RUNA || sym == RUNB {
      DigitSound(s.(es := -1, N := 1), sym);
    } else if |s.block| < 100000 * s.blockSize100k {
      FrontHolds(s.list, |Used(s)|, sym - 1);
      GetSound(s.(list := ToFront(s.list, sym - 1), block := s.block + [Used(s)[s.list[sym - 1]]]), false);
    }
  }

  lemma FrontHolds(list: seq<int>, n: int, j: int)
    requires ListHolds(list, n) && 0 <= j < n
    ensures ListHolds(ToFront(list, j), n)
  {
  }

  lemma DigitSound(s: State, sym: int)
    requires Decoding(s, false) && s.es >= -1 && s.N >= 1 && 0 <= s.gSel < s.nGroups && (sym == RUNA || sym == RUNB)
    ensures Sound(RunDigit(s, sym))
  {
    hide MinOf, InUseList, GetMtfVal;
    if s.N < 2 * 1024 * 1024 {
      NonNegative(sym, s.N);
      assert (sym + 1) * s.N >= 1 by { MulNext(sym, s.N); }
      GetSound(s.(es := s.es + (sym + 1) * s.N, N := s.N * 2), true);
    }
  }

  lemma InRunSound(s: State, sym: int)
    requires Decoding(s, true) && 0 <= s.gSel < s.nGroups && 0 <= sym < |Used(s)| + 2
    ensures Sound(InRun(s, sym))
  {
    hide MinOf, InUseList, GetMtfVal, Symbol, RunDigit;
    if sym == RUNA || sym == RUNB {
      DigitSound(s, sym);
    } else if |s.block| + s.es + 1 <= 100000 * s.blockSize100k {
      SymbolSound(s.(es := s.es + 1, block := s.block + Repeat(Used(s)[s.list[0]], s.es + 1)), sym);
    }
  }

  lemma ReadingFacts(s: State, inRun: bool)
    requires Sound(s) && (s.at == MtfFirst(inRun) || s.at == MtfMore(inRun))
    ensures HasTables(s) && Decoding(s, inRun) && 0 <= s.gSel < s.nGroups == |s.len| && s.groupPos < G_SIZE &&
      GoodLengths(s.len[s.gSel])
    ensures s.at == MtfFirst(inRun) ==> s.zn == MinOf(s.len[s.gSel])
    ensures s.at == MtfMore(inRun) ==> MinOf(s.len[s.gSel]) < s.zn <= 21
    ensures s.at == MtfMore(inRun) ==>
      s.zn > 0 && s.zvec > LimitOf(s.len[s.gSel], s.zn - 1) && Beyond(s.len[s.gSel], s.zn - 1, s.zvec)
  {
    hide InUseList, LimitOf, Beyond, MinOf, GoodLengths;
    GoodRange(s.len[s.gSel]);
  }

  lemma ReadKeeps(s: State, z: int, inRun: bool)
    requires Decoding(s, inRun)
    ensures Decoding(s.(zvec := z), inRun)
  {
    hide InUseList;
  }

  lemma StepFirst(s: State, v: int, inRun: bool)
    requires s.at == MtfFirst(inRun)
    ensures Step(s, v) == TestCode(s.(zvec := v), inRun)
  {
    hide TestCode;
  }

  lemma StepMore(s: State, v: int, inRun: bool)
    requires s.at == MtfMore(inRun)
    ensures Step(s, v) == TestCode(s.(zvec := s.zvec * 2 + v), inRun)
    ensures Pow2(Need(s)) == 2
  {
    hide TestCode;
    assert Pow2(1) == 2;
  }

  /** The first bits of a code: as many as the shortest code has. */
  lemma FirstBitsSound(s: State, v: int, inRun: bool)
    requires s.at == MtfFirst(inRun) && Sound(s) && v >= 0
    ensures Sound(Step(s, v))
  {
    ReadingFacts(s, inRun);
    ReadKeeps(s, v, inRun);
    GoodRange(s.len[s.gSel]);
    FirstZero(s.len[s.gSel], s.zn, s.zn);
    StepFirst(s, v, inRun);
    hide Sound, Decoding, HasTables, TestCode, LimitOf, MinOf, Step;
    TestSound(s.(zvec := v), inRun);
  }

  lemma MoreBitsSound(s: State, v: int, inRun: bool)
    requires s.at == MtfMore(inRun) && Sound(s) && 0 <= v < Pow2(Need(s))
    ensures Sound(Step(s, v))
  {
    hide Sound, Decoding, TestCode, LimitOf, MinOf, Beyond, Step, Need, Pow2;
    StepMore(s, v, inRun);
    ReadingFacts(s, inRun);
    ReadKeeps(s, s.zvec * 2 + v, inRun);
    hide HasTables;
    GoodRange(s.len[s.gSel]);
    AnyBitsStop(s.len[s.gSel], s.zn - 1, s.zvec, v);
    TestSound(s.(zvec := s.zvec * 2 + v), inRun);
  }

  lemma HeaderSound(s: State, v: int)
    requires Sound(s) && v >= 0
    requires s.at.Magic? || s.at.BlkHdr? || s.at.BlkCrc? || s.at == RandBit || s.at.OrigPtr? || s.at.EndHdr? ||
      s.at.CombinedCrc?
    ensures Sound(Step(s, v))
  {
    hide HasMap, HasGroups, HasSelectors, HasTables, Decoding, StepMagic, StepBlkHdr, StepOrigPtr;
    if s.at.Magic? { MagicSound(s, v); }
    else if s.at.BlkHdr? { BlkHdrSound(s, v); }
    else if s.at.OrigPtr? { OrigPtrSound(s, v); }
  }

  lemma MagicSound(s: State, v: int)
    requires Sound(s) && s.at.Magic?
    ensures Sound(StepMagic(s, s.at.k, v))
  {
    hide HasMap, HasGroups, HasSelectors, HasTables, Decoding;
  }

  lemma BlkHdrSound(s: State, v: int)
    requires Sound(s) && s.at.BlkHdr?
    ensures Sound(StepBlkHdr(s, s.at.k, v))
  {
    hide HasMap, HasGroups, HasSelectors, HasTables, Decoding;
  }

  lemma OrigPtrSound(s: State, v: int)
    requires Sound(s) && s.at.OrigPtr? && v >= 0
    ensures Sound(StepOrigPtr(s, s.at.k, v))
  {
    hide HasMap, HasGroups, HasSelectors, HasTables, Decoding;
  }

  lemma MappingStepSound(s: State, v: int)
    requires Sound(s) && (s.at == Mapping1 || s.at == Mapping2)
    ensures Sound(Step(s, v))
  {
    hide Sound, StepMapping1, StepMapping2;
    StepMapping(s, v);
    if s.at == Mapping1 { Mapping1Sound(s, v); } else { Mapping2Sound(s, v); }
  }

  lemma StepMapping(s: State, v: int)
    ensures s.at == Mapping1 ==> Step(s, v) == StepMapping1(s, v)
    ensures s.at == Mapping2 ==> Step(s, v) == StepMapping2(s, v)
  {
    hide StepMapping1, StepMapping2;
  }

  lemma Mapping1Sound(s: State, v: int)
    requires Sound(s) && s.at == Mapping1
    ensures Sound(StepMapping1(s, v))
  {
    hide InUseList, HasGroups, HasSelectors, HasTables, Decoding, ToMapping2;
    if s.i + 1 == 16 {
      MappingSound(s.(inUse16 := s.inUse16 + [v == 1], i := s.i + 1, inUse := seq(256, k => false)), 0);
    }
  }

  lemma Mapping2Sound(s: State, v: int)
    requires Sound(s) && s.at == Mapping2
    ensures Sound(StepMapping2(s, v))
  {
    hide InUseList, HasGroups, HasSelectors, HasTables, Decoding, ToMapping2;
    var c := 16 * s.i + s.j;
    if s.j + 1 == 16 {
      MappingSound(if v == 1 then s.(inUse := s.inUse[c := true]) else s, s.i + 1);
    }
  }

  lemma SelectorStepSound(s: State, v: int)
    requires Sound(s) && (s.at == Selector1 || s.at == Selector2 || s.at == Coding1 || s.at == Coding3) && v >= 0
    requires s.at == Selector2 ==> v <= MAX_SELECTORS
    ensures Sound(Step(s, v))
  {
    hide InUseList, HasTables, Decoding;
  }

  /** The room for selectors suffices for the number that is read. */
  ghost predicate RoomFor(s: State, v: int) { s.at == Selector2 ==> v <= MAX_SELECTORS }

  /** Every step keeps the state sound, whatever the bits it reads, unless they announce more selectors than there is
      room for. */
  lemma StepSound(s: State, v: int)
    requires Sound(s) && 0 <= v < Pow2(Need(s)) && RoomFor(s, v)
    ensures Sound(Step(s, v))
  {
    RoomIs(s, v);
    hide *;
    match s.at
    case Mapping1 | Mapping2 => MappingStepSound(s, v);
    case Selector1 | Selector2 | Coding1 | Coding3 => SelectorStepSound(s, v);
    case Selector3 => SelectorSound(s, v);
    case Coding2 => CodingSound(s, v);
    case MtfFirst(inRun) => FirstBitsSound(s, v, inRun);
    case MtfMore(inRun) => MoreBitsSound(s, v, inRun);
    case Output | Idle | Failed(_) | Stuck => StaySound(s, v);
    case _ => HeaderSound(s, v);
  }

  lemma RoomIs(s: State, v: int)
    requires RoomFor(s, v)
    ensures s.at == Selector2 ==> v <= MAX_SELECTORS
  {
  }

  lemma StaySound(s: State, v: int)
    requires Sound(s) && (s.at == Output || s.at == Idle || s.at.Failed? || s.at == Stuck)
    ensures Sound(Step(s, v))
  {
  }
}

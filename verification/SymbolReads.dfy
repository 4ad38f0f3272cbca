/** Reading the symbols of a block: runs, positions and the end marker, over groups of fifty. */
module SymbolReads {

  import opened Powers
  import opened Counting
  import opened Mtf
  import opened MtfEncode
  import opened HuffmanCodes
  import opened BitStream
  import opened Machine
  import opened MachineSound
  import opened MachineRun
  import opened CodeReads

  /** The bits of the symbols from k on: every symbol by the table that its group of fifty selects. */
  ghost function SymbolBits(len: seq<seq<int>>, selector: seq<int>, syms: seq<int>, k: nat): (r: seq<bool>)
    requires Coded(len, selector, syms)
    decreases |syms| - k
  {
    if k >= |syms| then []
    else
      assert CodedAt(len, selector, syms, k);
      var table := len[selector[k / G_SIZE]];
      Bits(Code(table, syms[k]), table[syms[k]]) + SymbolBits(len, selector, syms, k + 1)
  }

  ghost predicate CodedAt(len: seq<seq<int>>, selector: seq<int>, syms: seq<int>, k: nat) {
    && k < |syms| && k / G_SIZE < |selector| && 0 <= selector[k / G_SIZE] < |len|
    && var table := len[selector[k / G_SIZE]];
      GoodLengths(table) && 0 <= syms[k] < |table| && Code(table, syms[k]) < Pow2(table[syms[k]])
  }

  /** Every symbol has a code in the table of its group. */
  ghost predicate Coded(len: seq<seq<int>>, selector: seq<int>, syms: seq<int>) {
    forall k: nat :: k < |syms| ==> CodedAt(len, selector, syms, k)
  }

  // ----- where the machine is between symbols -----

  /** s has the tables and headers of c; only what changes while symbols are read may differ. */
  ghost predicate Like(s: State, c: State) {
    s == c.(at := s.at, groupNo := s.groupNo, groupPos := s.groupPos, gSel := s.gSel, zn := s.zn, zvec := s.zvec,
            es := s.es, N := s.N, list := s.list, block := s.block)
  }

  /** k symbols have been taken; list and block are what they made, ds are the digits of the run that they end in. */
  ghost predicate Took(s: State, c: State, k: nat, list: seq<int>, block: seq<int>, ds: seq<int>) {
    && Like(s, c) && HasTables(c) && s.list == list && ListHolds(list, |Used(c)|) && s.block == block && AreDigits(ds)
    && s.groupNo == (k + 49) / 50 - 1 && s.groupPos == (50 - k % 50) % 50
    && (k % 50 != 0 ==> k / 50 < |c.selector| && s.gSel == c.selector[k / 50])
    && (ds != [] ==> s.es == RunLength(ds) - 1 && s.N == Pow2(|ds|))
  }

  /** The same, with the first bits of symbol k asked for. */
  ghost predicate Asks(s: State, c: State, k: nat, list: seq<int>, block: seq<int>, ds: seq<int>) {
    && Like(s, c) && HasTables(c) && s.list == list && ListHolds(list, |Used(c)|) && s.block == block && AreDigits(ds)
    && k / 50 < |c.selector| && s.groupNo == k / 50 && s.groupPos == 49 - k % 50 && s.gSel == c.selector[k / 50]
    && s.at == MtfFirst(ds != []) && s.zn == MinOf(s.len[s.gSel])
    && (ds != [] ==> s.es == RunLength(ds) - 1 && s.N == Pow2(|ds|))
  }

  lemma GroupNumbers(k: nat)
    ensures (k + 49) / 50 - 1 == (if k % 50 == 0 then k / 50 - 1 else k / 50)
    ensures (50 - k % 50) % 50 == if k % 50 == 0 then 0 else 50 - k % 50
    ensures (k + 1 + 49) / 50 - 1 == k / 50 && (50 - (k + 1) % 50) % 50 == 49 - k % 50
    ensures (k + 1) % 50 != 0 ==> (k + 1) / 50 == k / 50
  {
  }

  lemma NextAsks(s: State, c: State, k: nat, list: seq<int>, block: seq<int>, ds: seq<int>)
    requires Took(s, c, k, list, block, ds) && k / 50 < c.nSelectors
    ensures Asks(GetMtfVal(s, ds != []), c, k, list, block, ds)
  {
    hide MinOf, InUseList, ListHolds, RunLength, Pow2, TableRead;
    GroupNumbers(k);
  }

  /** With the code of a symbol read, k + 1 symbols are taken, but for what the symbol itself does. */
  lemma AskedTook(s: State, c: State, k: nat, list: seq<int>, block: seq<int>, ds: seq<int>, sym: int)
    requires Asks(s, c, k, list, block, ds) && 0 <= sym < |s.len[s.gSel]|
    ensures s.len[s.gSel][sym] >= 0 && Took(CodeRead(s, sym), c, k + 1, list, block, ds)
  {
    hide MinOf, InUseList, ListHolds, RunLength, Pow2, Code;
    GroupNumbers(k);
    assert TableRead(c, s.len[s.gSel]);
  }

  // ----- what one symbol does -----

  lemma TakeDigit(s: State, c: State, k: nat, list: seq<int>, block: seq<int>, ds: seq<int>, sym: int)
    requires Took(s, c, k, list, block, ds) && (sym == RUNA || sym == RUNB) && Pow2(|ds|) < 0x20_0000
    ensures var s' := s.(es := RunLength(ds) - 1 + (sym + 1) * Pow2(|ds|), N := Pow2(|ds|) * 2);
            Take(s, sym, ds != []) == GetMtfVal(s', true) && Took(s', c, k, list, block, ds + [sym])
  {
    TakeRun(s, c, k, list, block, ds, sym);
    TookDigit(s, c, k, list, block, ds, sym, RunLength(ds) - 1 + (sym + 1) * Pow2(|ds|), Pow2(|ds|) * 2);
  }

  lemma TookDigit(s: State, c: State, k: nat, list: seq<int>, block: seq<int>, ds: seq<int>, sym: int, es: int, N: int)
    requires Took(s, c, k, list, block, ds) && (sym == RUNA || sym == RUNB)
    requires es == RunLength(ds) - 1 + (sym + 1) * Pow2(|ds|) && N == Pow2(|ds|) * 2
    ensures Took(s.(es := es, N := N), c, k, list, block, ds + [sym])
  {
    RunLengthSnoc(ds, sym);
    PowNext(|ds|);
    hide RunLength, Pow2, HasTables, ListHolds, InUseList;
  }

  lemma TakeRun(s: State, c: State, k: nat, list: seq<int>, block: seq<int>, ds: seq<int>, sym: int)
    requires Took(s, c, k, list, block, ds) && (sym == RUNA || sym == RUNB) && Pow2(|ds|) < 0x20_0000
    ensures Take(s, sym, ds != []) ==
      GetMtfVal(s.(es := RunLength(ds) - 1 + (sym + 1) * Pow2(|ds|), N := Pow2(|ds|) * 2), true)
  {
    hide GetMtfVal, InUseList, ListHolds, TableRead, RunLength, Pow2;
    if ds == [] {
      assert RunLength(ds) == 0 && Pow2(|ds|) == 1 by { EmptyRun(); }
    }
  }

  lemma PowNext(k: nat)
    ensures Pow2(k + 1) == 2 * Pow2(k)
  {
  }

  lemma EmptyRun()
    ensures RunLength([]) == 0 && Pow2(0) == 1
  {
  }

  lemma EndRun(s: State, c: State, k: nat, list: seq<int>, block: seq<int>, ds: seq<int>, sym: int)
    requires Took(s, c, k, list, block, ds) && ds != [] && sym > 1 &&
      |block| + RunLength(ds) <= 100000 * c.blockSize100k
    ensures 0 <= list[0] < |Used(c)|
    ensures var s' := s.(es := RunLength(ds), block := block + Repeat(Used(c)[list[0]], RunLength(ds)));
            Take(s, sym, true) == Take(s', sym, false) && Took(s', c, k, list, s'.block, [])
  {
    hide Symbol, InUseList, TableRead, RunLength, Pow2;
  }

  lemma TakePosition(s: State, c: State, k: nat, list: seq<int>, block: seq<int>, sym: int)
    requires Took(s, c, k, list, block, []) && 1 < sym <= |Used(c)| && |block| < 100000 * c.blockSize100k
    ensures 0 <= list[sym - 1] < |Used(c)|
    ensures var s' := s.(list := ToFront(list, sym - 1), block := block + [Used(c)[list[sym - 1]]]);
            Take(s, sym, false) == GetMtfVal(s', false) && Took(s', c, k, s'.list, s'.block, [])
  {
    FrontHolds(list, |Used(c)|, sym - 1);
    hide GetMtfVal, InUseList, TableRead, ListHolds, ToFront;
    assert 0 <= list[sym - 1] < |Used(c)| by { ListAt(list, |Used(c)|, sym - 1); }
  }

  lemma ListAt(list: seq<int>, n: int, j: int)
    requires ListHolds(list, n) && 0 <= j < n
    ensures |list| == 256 && 0 <= list[j] < n
  {
  }

  lemma TakeEnd(s: State, c: State, k: nat, list: seq<int>, block: seq<int>)
    requires Took(s, c, k, list, block, []) && c.origPtr < |block|
    ensures Take(s, |Used(c)| + 1, false) == s.(at := Output)
  {
    hide InUseList, TableRead, ListHolds;
  }

  // ----- what all symbols do -----

  /** Zeros find the front entry again and again. */
  lemma {:induction false} ZerosFind(list: seq<int>, n: nat)
    requires list != []
    ensures Entries(list, Zeros(n)) == Repeat(list[0], n) && After(list, Zeros(n)) == list
  {
    if n > 0 {
      ZerosFind(list, n - 1);
      assert Zeros(n)[1..] == Zeros(n - 1);
      assert ToFront(list, 0) == list;
    }
  }

  /** The positions that follow a run of n zeros. */
  lemma EntriesAfterRun(list: seq<int>, n: nat, ps: seq<int>)
    requires list != [] && forall i :: 0 <= i < |ps| ==> 0 <= ps[i] < |list|
    ensures forall i :: 0 <= i < |Zeros(n) + ps| ==> 0 <= (Zeros(n) + ps)[i] < |list|
    ensures Entries(list, Zeros(n) + ps) == Repeat(list[0], n) + Entries(list, ps)
  {
    ZerosFind(list, n);
    EntriesJoin(list, Zeros(n), ps);
  }

  lemma EntriesFirst(list: seq<int>, p: int, ps: seq<int>)
    requires 0 <= p < |list| && forall i :: 0 <= i < |ps| ==> 0 <= ps[i] < |list|
    ensures forall i :: 0 <= i < |[p] + ps| ==> 0 <= ([p] + ps)[i] < |list|
    ensures Entries(list, [p] + ps) == [list[p]] + Entries(ToFront(list, p), ps)
  {
    assert ([p] + ps)[1..] == ps;
  }

  /** Entries found at positions below n, in a list whose first n entries are below n, are below n. */
  lemma {:induction false} EntriesBelow(list: seq<int>, ps: seq<int>, n: int)
    requires ListHolds(list, n) && forall i :: 0 <= i < |ps| ==> 0 <= ps[i] < n
    ensures forall i :: 0 <= i < |ps| ==> 0 <= ps[i] < |list|
    ensures forall i :: 0 <= i < |ps| ==> 0 <= Entries(list, ps)[i] < n
    decreases |ps|
  {
    if ps != [] {
      FrontHolds(list, n, ps[0]);
      hide ToFront;
      EntriesBelow(ToFront(list, ps[0]), ps[1..], n);
      assert Entries(list, ps) == [list[ps[0]]] + Entries(ToFront(list, ps[0]), ps[1..]);
    }
  }

  /** The bytes that the positions ps make, from a given list on. */
  ghost function Made(used: seq<int>, list: seq<int>, ps: seq<int>): (r: seq<int>)
    requires ListHolds(list, |used|) && forall i :: 0 <= i < |ps| ==> 0 <= ps[i] < |used|
    ensures |r| == |ps|
  {
    EntriesBelow(list, ps, |used|);
    Reindex(used, Entries(list, ps))
  }

  lemma MadeRun(used: seq<int>, list: seq<int>, m: nat, ps: seq<int>)
    requires ListHolds(list, |used|) && forall i :: 0 <= i < |ps| ==> 0 <= ps[i] < |used|
    ensures Made(used, list, Zeros(m) + ps) == Repeat(used[list[0]], m) + Made(used, list, ps)
  {
    hide Entries, ToFront;
    EntriesBelow(list, ps, |used|);
    EntriesAfterRun(list, m, ps);
    EntriesBelow(list, Zeros(m) + ps, |used|);
  }

  lemma MadeOne(used: seq<int>, list: seq<int>, p: int, ps: seq<int>)
    requires ListHolds(list, |used|) && 0 <= p < |used| && forall i :: 0 <= i < |ps| ==> 0 <= ps[i] < |used|
    ensures ListHolds(ToFront(list, p), |used|)
    ensures Made(used, list, [p] + ps) == [used[list[p]]] + Made(used, ToFront(list, p), ps)
  {
    FrontHolds(list, |used|, p);
    hide Entries, ToFront;
    EntriesFirst(list, p, ps);
    EntriesBelow(ToFront(list, p), ps, |used|);
    EntriesBelow(list, [p] + ps, |used|);
  }

  lemma MadeNone(used: seq<int>, list: seq<int>, m: nat)
    requires ListHolds(list, |used|)
    ensures Made(used, list, Zeros(m)) == Repeat(used[list[0]], m)
  {
    assert Zeros(m) + [] == Zeros(m);
    MadeRun(used, list, m, []);
    assert Made(used, list, []) == [];
  }

  /** A run that is being read is no longer than all that will be made. */
  lemma {:induction false} RunIsShort(syms: seq<int>, run: seq<int>)
    requires AreDigits(run)
    ensures |PositionsOf(syms, run)| >= RunLength(run)
    decreases |syms|
  {
    if syms != [] && (syms[0] == RUNA || syms[0] == RUNB) {
      RunIsShort(syms[1..], run + [syms[0]]);
      RunLengthSnoc(run, syms[0]);
      NonNegative(syms[0] + 1, Pow2(|run|));
    }
  }

  /** N stays far below the bound that the decompressor checks. */
  lemma FewDigits(syms: seq<int>, run: seq<int>)
    requires AreDigits(run) && |PositionsOf(syms, run)| <= 900000
    ensures Pow2(|run|) < 0x20_0000
  {
    RunIsShort(syms, run);
    DigitsOfRun(run);
    DigitsFew(RunLength(run));
  }

  /** What is asked of the symbols that are still to come: they end with the end marker, there are selectors for them,
      and what they make fits. */
  ghost predicate Coming(c: State, syms: seq<int>, k: nat, block: seq<int>, ds: seq<int>, ps: seq<int>) {
    && HasTables(c) && Coded(c.len, c.selector, syms) && k < |syms| <= 50 * c.nSelectors && AreDigits(ds)
    && syms[|syms| - 1] == |Used(c)| + 1 && (forall i :: 0 <= i < |syms| - 1 ==> 0 <= syms[i] <= |Used(c)|)
    && ps == PositionsOf(syms[k..|syms| - 1], ds) && (forall i :: 0 <= i < |ps| ==> 0 <= ps[i] < |Used(c)|)
    && |block| + |ps| <= 100000 * c.blockSize100k && c.origPtr < |block| + |ps|
  }

  lemma CodeAsked(s: State, c: State, syms: seq<int>, k: nat, list: seq<int>, block: seq<int>, ds: seq<int>,
      ps: seq<int>)
    requires Asks(s, c, k, list, block, ds) && Coming(c, syms, k, block, ds, ps)
    ensures 0 <= s.gSel < |s.len| && 0 <= syms[k] < |s.len[s.gSel]| && s.len[s.gSel][syms[k]] >= 0
    ensures Took(CodeRead(s, syms[k]), c, k + 1, list, block, ds)
    ensures SymbolBits(c.len, c.selector, syms, k) ==
            Bits(Code(s.len[s.gSel], syms[k]), s.len[s.gSel][syms[k]]) + SymbolBits(c.len, c.selector, syms, k + 1)
    ensures Reads(s, Bits(Code(s.len[s.gSel], syms[k]), s.len[s.gSel][syms[k]]),
      Take(CodeRead(s, syms[k]), syms[k], ds != []))
  {
    hide Took, Take, Bits, Reads, Code, ListHolds, InUseList, PositionsOf, MinOf;
    assert CodedAt(c.len, c.selector, syms, k);
    var table := s.len[s.gSel];
    AskedTook(s, c, k, list, block, ds, syms[k]);
    ReadsCode(s, syms[k], ds != [], Code(table, syms[k]), table[syms[k]]);
  }

  /** The block is done: the end marker has been taken, and all that the positions make has been appended. */
  ghost predicate Finished(t: State, c: State, block: seq<int>, list: seq<int>, ps: seq<int>)
    requires ListHolds(list, |Used(c)|) && forall i :: 0 <= i < |ps| ==> 0 <= ps[i] < |Used(c)|
  {
    t.at == Output && Like(t, c) && t.block == block + Made(Used(c), list, ps)
  }

  /** Positions that follow the run, when the next symbol is not a digit. */
  lemma AfterRun(c: State, syms: seq<int>, k: nat, block: seq<int>, ds: seq<int>, ps: seq<int>) returns (rest: seq<int>)
    requires Coming(c, syms, k, block, ds, ps) && syms[k] > 1
    ensures RunLength(ds) <= |ps|
    ensures syms[k] == |Used(c)| + 1 ==> k == |syms| - 1 && ps == Zeros(RunLength(ds))
    ensures syms[k] <= |Used(c)| ==> k < |syms| - 1 && ps == Zeros(RunLength(ds)) + ([syms[k] - 1] + rest)
    ensures syms[k] <= |Used(c)| ==>
      forall b: seq<int> :: |b| == |block| + RunLength(ds) + 1 ==> Coming(c, syms, k + 1, b, [], rest)
  {
    hide HasTables, InUseList;
    var tail := syms[k..|syms| - 1];
    if k == |syms| - 1 {
      assert tail == [];
      rest := [];
    } else {
      assert tail[0] == syms[k] && tail[1..] == syms[k + 1..|syms| - 1];
      rest := PositionsOf(tail[1..], []);
      assert ps == Zeros(RunLength(ds)) + [syms[k] - 1] + rest;
      forall i | 0 <= i < |rest| ensures 0 <= rest[i] < |Used(c)| { assert rest[i] == ps[RunLength(ds) + 1 + i]; }
    }
  }

  lemma ComingDigit(c: State, syms: seq<int>, k: nat, block: seq<int>, ds: seq<int>, ps: seq<int>)
    requires Coming(c, syms, k, block, ds, ps) && (syms[k] == RUNA || syms[k] == RUNB)
    ensures Coming(c, syms, k + 1, block, ds + [syms[k]], ps) && (k + 1) / 50 < c.nSelectors && Pow2(|ds|) < 0x20_0000
  {
    hide HasTables, InUseList;
    var tail := syms[k..|syms| - 1];
    TablesSize(c);
    hide HasTables, InUseList, Coded;
    assert k < |syms| - 1;
    assert tail[0] == syms[k] && tail[1..] == syms[k + 1..|syms| - 1];
    FewDigits(tail, ds);
  }

  lemma TablesSize(c: State)
    requires HasTables(c)
    ensures 1 <= c.blockSize100k <= 9 && 1 <= |Used(c)| <= 256
  {
  }

  /** The run that ends before a symbol that is not a digit. */
  lemma RunFlushed(u: State, c: State, k: nat, list: seq<int>, block: seq<int>, ds: seq<int>, sym: int)
      returns (v: State)
    requires Took(u, c, k, list, block, ds) && sym > 1 && |block| + RunLength(ds) <= 100000 * c.blockSize100k
    ensures 0 <= list[0] < |Used(c)|
    ensures Take(u, sym, ds != []) == Take(v, sym, false)
    ensures Took(v, c, k, list, block + Repeat(Used(c)[list[0]], RunLength(ds)), [])
  {
    hide InUseList, TableRead, Symbol;
    if ds == [] {
      v := u;
      EmptyRun();
      assert block + Repeat(Used(c)[list[0]], 0) == block;
    } else {
      EndRun(u, c, k, list, block, ds, sym);
      v := u.(es := RunLength(ds), block := block + Repeat(Used(c)[list[0]], RunLength(ds)));
    }
  }

  /** A position: the run before it ends, its byte follows, and the next symbol is asked for. */
  lemma PositionStep(u: State, c: State, syms: seq<int>, k: nat, list: seq<int>, block: seq<int>, ds: seq<int>,
      ps: seq<int>)
    returns (s: State, block': seq<int>, rest: seq<int>)
    requires Took(u, c, k + 1, list, block, ds) && Coming(c, syms, k, block, ds, ps) && 1 < syms[k] <= |Used(c)|
    ensures s == Take(u, syms[k], ds != []) && 0 <= syms[k] - 1 < |list|
    ensures Asks(s, c, k + 1, ToFront(list, syms[k] - 1), block', []) && Coming(c, syms, k + 1, block', [], rest)
    ensures block + Made(Used(c), list, ps) == block' + Made(Used(c), ToFront(list, syms[k] - 1), rest)
  {
    var sym, used, m := syms[k], Used(c), RunLength(ds);
    rest := AfterRun(c, syms, k, block, ds, ps);
    FitsOne(c, syms, k, block, ds, ps, [sym - 1] + rest);
    var v := RunFlushed(u, c, k + 1, list, block, ds, sym);
    var block1 := block + Repeat(used[list[0]], m);
    block' := block1 + [used[list[sym - 1]]];
    assert |block'| == |block| + m + 1;
    MadeSplit(used, list, m, sym - 1, rest, block);
    hide *;
    s := PositionTaken(v, c, k + 1, list, block1, sym);
  }

  lemma PositionTaken(v: State, c: State, k: nat, list: seq<int>, block: seq<int>, sym: int) returns (s: State)
    requires Took(v, c, k, list, block, []) && 1 < sym <= |Used(c)| && |block| < 100000 * c.blockSize100k &&
      k / 50 < c.nSelectors
    ensures s == Take(v, sym, false) && 0 <= sym - 1 < |list| && 0 <= list[sym - 1] < |Used(c)|
    ensures Asks(s, c, k, ToFront(list, sym - 1), block + [Used(c)[list[sym - 1]]], [])
  {
    TakePosition(v, c, k, list, block, sym);
    var s' := v.(list := ToFront(list, sym - 1), block := block + [Used(c)[list[sym - 1]]]);
    hide Took, Take, InUseList, Asks, GetMtfVal, ToFront;
    NextAsks(s', c, k, ToFront(list, sym - 1), block + [Used(c)[list[sym - 1]]], []);
    s := GetMtfVal(s', false);
  }

  lemma MadeSplit(used: seq<int>, list: seq<int>, m: nat, p: int, rest: seq<int>, block: seq<int>)
    requires ListHolds(list, |used|) && 0 <= p < |used| && forall i :: 0 <= i < |rest| ==> 0 <= rest[i] < |used|
    ensures ListHolds(ToFront(list, p), |used|)
    ensures forall i :: 0 <= i < |Zeros(m) + ([p] + rest)| ==> 0 <= (Zeros(m) + ([p] + rest))[i] < |used|
    ensures block + Made(used, list, Zeros(m) + ([p] + rest))
         == block + Repeat(used[list[0]], m) + [used[list[p]]] + Made(used, ToFront(list, p), rest)
  {
    hide Made, Repeat, ToFront;
    MadeOne(used, list, p, rest);
    MadeRun(used, list, m, [p] + rest);
  }

  lemma FitsOne(c: State, syms: seq<int>, k: nat, block: seq<int>, ds: seq<int>, ps: seq<int>, tail: seq<int>)
    requires Coming(c, syms, k, block, ds, ps) && 1 < syms[k] <= |Used(c)| && ps == Zeros(RunLength(ds)) + tail &&
      |tail| >= 1
    ensures |block| + RunLength(ds) < 100000 * c.blockSize100k && (k + 1) / 50 < c.nSelectors
    ensures forall i :: 0 <= i < |tail| ==> 0 <= tail[i] < |Used(c)|
  {
    hide HasTables, InUseList, Coded;
    forall i | 0 <= i < |tail| ensures 0 <= tail[i] < |Used(c)| { assert tail[i] == ps[RunLength(ds) + i]; }
  }

  /** The end marker: the run before it ends and the block is done. */
  lemma EndStep(u: State, c: State, syms: seq<int>, k: nat, list: seq<int>, block: seq<int>, ds: seq<int>, ps: seq<int>)
      returns (t: State)
    requires Took(u, c, k + 1, list, block, ds) && Coming(c, syms, k, block, ds, ps) && syms[k] == |Used(c)| + 1
    ensures t == Take(u, syms[k], ds != []) && k == |syms| - 1 && Finished(t, c, block, list, ps)
  {
    var used, m := Used(c), RunLength(ds);
    TablesSize(c);
    var rest := AfterRun(c, syms, k, block, ds, ps);
    var v := RunFlushed(u, c, k + 1, list, block, ds, syms[k]);
    MadeNone(used, list, m);
    hide Take, InUseList, HasTables, Made, ListHolds, Coded;
    TakeEnd(v, c, k + 1, list, block + Repeat(used[list[0]], m));
    t := v.(at := Output);
  }

  lemma SymbolKind(c: State, syms: seq<int>, k: nat, block: seq<int>, ds: seq<int>, ps: seq<int>)
    requires Coming(c, syms, k, block, ds, ps)
    ensures syms[k] == RUNA || syms[k] == RUNB || 1 < syms[k] <= |Used(c)| || syms[k] == |Used(c)| + 1
  {
  }

  lemma ComingParts(c: State, syms: seq<int>, k: nat, block: seq<int>, ds: seq<int>, ps: seq<int>)
    requires Coming(c, syms, k, block, ds, ps)
    ensures Coded(c.len, c.selector, syms) && k < |syms| && AreDigits(ds) &&
      forall i :: 0 <= i < |ps| ==> 0 <= ps[i] < |Used(c)|
  {
    hide HasTables, Coded, InUseList;
  }

  lemma AsksList(s: State, c: State, k: nat, list: seq<int>, block: seq<int>, ds: seq<int>)
    requires Asks(s, c, k, list, block, ds)
    ensures ListHolds(list, |Used(c)|)
  {
    hide HasTables, InUseList;
  }

  /** Reading the symbols of a block makes the bytes of the block. */
  lemma {:induction false} SymbolsRead(s: State, c: State, syms: seq<int>, k: nat, list: seq<int>, block: seq<int>,
      ds: seq<int>, ps: seq<int>)
    returns (t: State)
    requires Asks(s, c, k, list, block, ds) && Coming(c, syms, k, block, ds, ps)
    ensures Reads(s, SymbolBits(c.len, c.selector, syms, k), t) && Finished(t, c, block, list, ps)
    decreases |syms| - k, 0
  {
    hide *;
    ComingParts(c, syms, k, block, ds, ps);
    AsksList(s, c, k, list, block, ds);
    CodeAsked(s, c, syms, k, list, block, ds, ps);
    SymbolKind(c, syms, k, block, ds, ps);
    var sym, u := syms[k], CodeRead(s, syms[k]);
    var bits := Bits(Code(s.len[s.gSel], sym), s.len[s.gSel][sym]);
    if sym == RUNA || sym == RUNB {
      t := DigitRead(u, c, syms, k, list, block, ds, ps);
    } else if sym <= |Used(c)| {
      var s', block', rest := PositionStep(u, c, syms, k, list, block, ds, ps);
      t := SymbolsRead(s', c, syms, k + 1, ToFront(list, sym - 1), block', [], rest);
      ComingParts(c, syms, k + 1, block', [], rest);
      AsksList(s', c, k + 1, ToFront(list, sym - 1), block', []);
      SameFinish(t, c, block, list, ps, block', ToFront(list, sym - 1), rest);
    } else {
      t := EndStep(u, c, syms, k, list, block, ds, ps);
      NoSymbols(t, c, syms, k + 1);
    }
    ReadsJoin(s, bits, Take(u, sym, ds != []), SymbolBits(c.len, c.selector, syms, k + 1), t);
  }

  lemma {:induction false} DigitRead(u: State, c: State, syms: seq<int>, k: nat, list: seq<int>, block: seq<int>,
      ds: seq<int>, ps: seq<int>)
    returns (t: State)
    requires Took(u, c, k + 1, list, block, ds) && Coming(c, syms, k, block, ds, ps) &&
      (syms[k] == RUNA || syms[k] == RUNB)
    ensures Reads(Take(u, syms[k], ds != []), SymbolBits(c.len, c.selector, syms, k + 1), t) &&
      Finished(t, c, block, list, ps)
    decreases |syms| - k - 1, 1
  {
    hide Took, Take, Reads, InUseList, SymbolBits, HasTables, Made, Like, ListHolds, Asks, GetMtfVal, Finished, Coming;
    ComingParts(c, syms, k, block, ds, ps);
    ComingDigit(c, syms, k, block, ds, ps);
    var sym := syms[k];
    TakeDigit(u, c, k + 1, list, block, ds, sym);
    var s' := u.(es := RunLength(ds) - 1 + (sym + 1) * Pow2(|ds|), N := Pow2(|ds|) * 2);
    NextAsks(s', c, k + 1, list, block, ds + [sym]);
    t := SymbolsRead(GetMtfVal(s', true), c, syms, k + 1, list, block, ds + [sym], ps);
  }

  lemma SameFinish(t: State, c: State, block: seq<int>, list: seq<int>, ps: seq<int>, block': seq<int>, list': seq<int>,
      ps': seq<int>)
    requires ListHolds(list', |Used(c)|) && forall i :: 0 <= i < |ps'| ==> 0 <= ps'[i] < |Used(c)|
    requires ListHolds(list, |Used(c)|) && forall i :: 0 <= i < |ps| ==> 0 <= ps[i] < |Used(c)|
    requires Finished(t, c, block', list', ps') && block + Made(Used(c), list, ps) == block' + Made(Used(c), list', ps')
    ensures Finished(t, c, block, list, ps)
  {
    hide Made, InUseList;
  }

  lemma NoSymbols(t: State, c: State, syms: seq<int>, k: nat)
    requires Coded(c.len, c.selector, syms) && k >= |syms|
    ensures Reads(t, SymbolBits(c.len, c.selector, syms, k), t)
  {
    ReadsNone(t);
  }
}

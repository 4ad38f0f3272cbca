/** Reading one Huffman code: the decompressor, given the bits of a code, arrives at its symbol. */
module CodeReads {

  import opened Powers
  import opened Counting
  import opened HuffmanCodes
  import opened BitStream
  import opened Machine
  import Mtf
  import opened MachineSound
  import opened MachineRun

  /** The first k of the n bits of v. */
  lemma {:induction false} TopBits(v: nat, n: nat, k: nat)
    requires v < Pow2(n) && k <= n
    ensures Value(Bits(v, n)[..k]) == Top(v, n, k)
    decreases n - k
  {
    if k == n {
      assert Bits(v, n)[..n] == Bits(v, n);
      ValueOfBits(v, n);
      TopWhole(v, n);
    } else {
      TopBits(v, n, k + 1);
      var w := Bits(v, n)[..k + 1];
      assert w[..k] == Bits(v, n)[..k];
      TopNext(v, n, k);
    }
  }

  lemma TopNext(v: nat, n: nat, k: nat)
    requires k < n
    ensures Top(v, n, k) == Top(v, n, k + 1) / 2
  {
    var p := Pow2(n - k - 1);
    DivHalf(v, p);
  }

  lemma DivHalf(v: nat, p: nat)
    requires p > 0
    ensures v / (2 * p) == v / p / 2
  {
    var q := v / p / 2;
    var r := v / p % 2;
    assert v / p == 2 * q + r;
    assert v == p * (v / p) + v % p;
    HalfParts(v, p, q, r, v % p);
  }

  lemma HalfParts(v: nat, p: nat, q: nat, r: nat, s: nat)
    requires p > 0 && 0 <= r < 2 && s < p && v == p * (2 * q + r) + s
    ensures v / (2 * p) == q
  {
    assert p * (2 * q + r) == 2 * p * q + p * r;
    assert r == 0 || r == 1;
    DivUnique(v, 2 * p, q, p * r + s);
  }

  /** One more bit. */
  lemma TopSnoc(v: nat, n: nat, k: nat)
    requires v < Pow2(n) && k < n
    ensures Top(v, n, k + 1) == 2 * Top(v, n, k) + (if Bits(v, n)[k] then 1 else 0)
  {
    TopBits(v, n, k);
    TopBits(v, n, k + 1);
    assert Bits(v, n)[..k + 1][..k] == Bits(v, n)[..k];
  }

  /** What the machine does once it has the symbol. */
  ghost function Take(s: State, sym: int, inRun: bool): State {
    if inRun then InRun(s, sym) else Symbol(s, sym)
  }

  lemma GetAnywhere(s: State, inRun: bool, at: Label)
    ensures GetMtfVal(s.(at := at), inRun) == GetMtfVal(s, inRun)
  {
    hide MinOf;
  }

  lemma DigitAnywhere(s: State, sym: int, at: Label)
    ensures RunDigit(s.(at := at), sym) == RunDigit(s, sym)
  {
    hide GetMtfVal;
    GetAnywhere(s.(es := s.es + (sym + 1) * s.N, N := s.N * 2), true, at);
  }

  lemma SymbolAnywhere(s: State, sym: int, at: Label)
    ensures Symbol(s.(at := at), sym) == Symbol(s, sym)
  {
    hide GetMtfVal, RunDigit;
    DigitAnywhere(s.(es := -1, N := 1), sym, at);
    if 0 <= sym - 1 < |s.list| && 0 <= s.list[sym - 1] < |Used(s)| {
      GetAnywhere(s.(list := Mtf.ToFront(s.list, sym - 1), block := s.block + [Used(s)[s.list[sym - 1]]]), false, at);
    }
  }

  /** What is done with a symbol does not depend on the label that it was read at. */
  lemma TakeAnywhere(s: State, sym: int, inRun: bool, at: Label)
    ensures Take(s.(at := at), sym, inRun) == Take(s, sym, inRun)
  {
    hide Symbol, RunDigit;
    SymbolAnywhere(s, sym, at);
    DigitAnywhere(s, sym, at);
    if s.es + 1 >= 0 && |s.list| > 0 && 0 <= s.list[0] < |Used(s)| {
      SymbolAnywhere(s.(es := s.es + 1, block := s.block + Repeat(Used(s)[s.list[0]], s.es + 1)), sym, at);
    }
  }

  /** The state in which the code of symbol sym has been read completely. */
  ghost function CodeRead(s: State, sym: int): State
    requires 0 <= s.gSel < |s.len| && 0 <= sym < |s.len[s.gSel]| && s.len[s.gSel][sym] >= 0
  {
    s.(zn := s.len[s.gSel][sym], zvec := Code(s.len[s.gSel], sym), at := Idle)
  }

  /** sym has a code in the table that is selected, and the code fits its length. */
  ghost predicate HasCode(s: State, sym: int, c: int, n: int) {
    && 0 <= s.gSel < |s.len| && GoodLengths(s.len[s.gSel]) && 0 <= sym < |s.len[s.gSel]|
    && n == s.len[s.gSel][sym] && c == Code(s.len[s.gSel], sym) < Pow2(n)
  }

  /** The test after k bits of the code of sym. */
  lemma TestAt(s: State, sym: int, inRun: bool, k: nat, c: nat, n: nat)
    requires HasCode(s, sym, c, n) && MinOf(s.len[s.gSel]) <= k <= n && s.zn == k && s.zvec == Top(c, n, k)
    ensures k == n ==> TestCode(s, inRun) == Take(CodeRead(s, sym), sym, inRun)
    ensures k < n ==> TestCode(s, inRun) == s.(zn := k + 1, at := MtfMore(inRun))
  {
    var len := s.len[s.gSel];
    hide Take, InRun, Symbol, Code, Top, LimitOf, BaseOf, MinOf, PlaceOf, First, SymbolOf, TestCode, GoodLengths;
    CodeStops(len, sym, k);
    TopWhole(Code(len, sym), len[sym]);
    if k == n {
      SymbolFound(len, sym, s.zvec);
      TestHits(s, sym, inRun);
      assert s.(at := Idle) == CodeRead(s, sym);
      TakeAnywhere(s, sym, inRun, Idle);
    } else {
      TestMisses(s, inRun);
    }
  }

  lemma SymbolFound(len: seq<int>, sym: int, zvec: int)
    requires 0 <= sym < |len| && len[sym] >= 0
    requires 0 <= zvec - BaseOf(len, len[sym]) < |len| && PlaceOf(len, zvec - BaseOf(len, len[sym])) == sym
    ensures SymbolOf(len, len[sym], zvec) == sym
  {
    hide BaseOf, PlaceOf;
  }

  lemma TestHits(s: State, sym: int, inRun: bool)
    requires 0 <= s.zn <= 20 && 0 <= s.gSel < |s.len| && s.zvec <= LimitOf(s.len[s.gSel], s.zn)
    requires SymbolOf(s.len[s.gSel], s.zn, s.zvec) == sym >= 0
    ensures TestCode(s, inRun) == Take(s, sym, inRun)
  {
    hide LimitOf, SymbolOf, InRun, Symbol;
  }

  lemma TestMisses(s: State, inRun: bool)
    requires 0 <= s.zn <= 20 && 0 <= s.gSel < |s.len| && s.zvec > LimitOf(s.len[s.gSel], s.zn)
    ensures TestCode(s, inRun) == s.(zn := s.zn + 1, at := MtfMore(inRun))
  {
    hide LimitOf, SymbolOf, InRun, Symbol;
  }

  /** One bit read between two tests. */
  lemma MoreStep(s: State, sym: int, inRun: bool, k: nat, c: nat, n: nat)
    requires s.at == MtfMore(inRun) && HasCode(s, sym, c, n) && MinOf(s.len[s.gSel]) <= k < n && s.zn == k + 1 &&
      s.zvec == Top(c, n, k)
    ensures Need(s) == 1
    ensures var t := Step(s, Value(Bits(c, n)[k..k + 1]));
            if k + 1 == n then t == Take(CodeRead(s, sym), sym, inRun)
            else t == s.(zn := k + 2, zvec := Top(c, n, k + 1))
  {
    hide Take, TestCode, Code, Top, MinOf, GoodLengths, Bits;
    var v := Value(Bits(c, n)[k..k + 1]);
    OneBit(Bits(c, n), k);
    TopSnoc(c, n, k);
    StepMore(s, v, inRun);
    var s' := s.(zvec := s.zvec * 2 + v);
    TestAt(s', sym, inRun, k + 1, c, n);
    if k + 1 == n { assert CodeRead(s', sym) == CodeRead(s, sym); }
  }

  lemma OneBit(bits: seq<bool>, k: nat)
    requires k < |bits|
    ensures Value(bits[k..k + 1]) == if bits[k] then 1 else 0
  {
    assert bits[k..k + 1] == [bits[k]];
    assert Value([]) == 0;
  }

  /** From k bits of a code to its end, bit by bit. */
  lemma {:induction false} MoreReads(s: State, sym: int, inRun: bool, k: nat, c: nat, n: nat)
    requires s.at == MtfMore(inRun) && HasCode(s, sym, c, n) && MinOf(s.len[s.gSel]) <= k < n && s.zn == k + 1 &&
      s.zvec == Top(c, n, k)
    ensures Reads(s, Bits(c, n)[k..], Take(CodeRead(s, sym), sym, inRun))
    decreases n - k
  {
    hide Take, Step, Code, Top, MinOf, Bits, GoodLengths, Value;
    var bits := Bits(c, n);
    MoreStep(s, sym, inRun, k, c, n);
    assert bits[k..][..1] == bits[k..k + 1] && bits[k..][1..] == bits[k + 1..];
    var t := Step(s, Value(bits[k..k + 1]));
    if k + 1 < n {
      MoreReads(t, sym, inRun, k + 1, c, n);
      assert CodeRead(t, sym) == CodeRead(s, sym);
    }
  }

  lemma FirstWidth(s: State, sym: int, inRun: bool, c: nat, n: nat)
    requires s.at == MtfFirst(inRun) && HasCode(s, sym, c, n) && s.zn == MinOf(s.len[s.gSel])
    ensures 0 < s.zn == Need(s) <= n
  {
    GoodRange(s.len[s.gSel]);
  }

  /** The first read takes as many bits as the shortest code has. */
  lemma FirstStep(s: State, sym: int, inRun: bool, c: nat, n: nat)
    requires s.at == MtfFirst(inRun) && HasCode(s, sym, c, n) && s.zn == MinOf(s.len[s.gSel])
    ensures 0 < s.zn == Need(s) <= n
    ensures var t := Step(s, Value(Bits(c, n)[..s.zn]));
            if s.zn == n then t == Take(CodeRead(s, sym), sym, inRun)
            else t == s.(zn := s.zn + 1, zvec := Top(c, n, s.zn), at := MtfMore(inRun))
  {
    hide Take, Step, Code, Top, MinOf, GoodLengths, Need, TestCode, Bits, Value, Pow2;
    var k := s.zn;
    FirstWidth(s, sym, inRun, c, n);
    TopBits(c, n, k);
    var v := Value(Bits(c, n)[..k]);
    StepFirst(s, v, inRun);
    var s' := s.(zvec := v);
    TestAt(s', sym, inRun, k, c, n);
    if k == n { assert CodeRead(s', sym) == CodeRead(s, sym); }
  }

  /** The bits of the code of sym, no more and no fewer, take the machine to sym. */
  lemma ReadsCode(s: State, sym: int, inRun: bool, c: nat, n: nat)
    requires s.at == MtfFirst(inRun) && HasCode(s, sym, c, n) && s.zn == MinOf(s.len[s.gSel])
    ensures Reads(s, Bits(c, n), Take(CodeRead(s, sym), sym, inRun))
  {
    FirstStep(s, sym, inRun, c, n);
    var k := s.zn;
    var t := Step(s, Value(Bits(c, n)[..k]));
    hide Take, Step, Code, Top, Need, Reads, Bits, Value;
    if k == n {
      assert Bits(c, n)[k..] == [];
      ReadsNone(t);
    } else {
      MoreReads(t, sym, inRun, k, c, n);
      assert CodeRead(t, sym) == CodeRead(s, sym);
    }
    ReadsStep(s, Bits(c, n), k, Take(CodeRead(s, sym), sym, inRun));
  }
}

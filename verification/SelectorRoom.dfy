/** The one way out of the decompressor's tables: a header may announce more selectors than DState has room for. */
module SelectorRoom {

  import opened BitStream
  import opened MtfEncode
  import opened HuffmanCodes
  import opened Machine
  import opened MachineSound
  import opened MachineRun
  import opened BlockReads
  import opened BlockCode
  import StreamCode

  /** Reads selectors, as far as the bits go. */
  ghost function SelectorRun(s: State, bits: seq<bool>): State
    decreases |bits|
  {
    if s.at != Selector3 || bits == [] then s else SelectorRun(Step(s, if bits[0] then 1 else 0), bits[1..])
  }

  function Falses(n: nat): (r: seq<bool>)
    ensures |r| == n && forall k :: 0 <= k < n ==> !r[k]
  {
    seq(n, k => false)
  }

  /** Selectors of one bit each run over the end of the room, if that many are announced. */
  lemma {:induction false} RunsOver(s: State)
    requires s.at == Selector3 && 0 <= s.i <= MAX_SELECTORS < s.nSelectors
    ensures SelectorRun(s, Falses(MAX_SELECTORS + 1 - s.i)).at == Stuck
    decreases MAX_SELECTORS - s.i
  {
    var bits := Falses(MAX_SELECTORS + 1 - s.i);
    if s.i < MAX_SELECTORS {
      var s' := s.(selectorMtf := s.selectorMtf + [s.j], i := s.i + 1, j := 0);
      assert Step(s, 0) == s';
      assert bits[1..] == Falses(MAX_SELECTORS + 1 - s'.i);
      RunsOver(s');
    } else {
      assert Step(s, 0).at == Stuck;
    }
  }

  lemma {:induction false} StaysInside(s: State, bits: seq<bool>)
    requires Sound(s) && s.at != Selector2
    ensures SelectorRun(s, bits).at != Stuck
    decreases |bits|
  {
    if s.at == Selector3 && bits != [] {
      var s' := Step(s, if bits[0] then 1 else 0);
      SelectorSound(s, if bits[0] then 1 else 0);
      StaysInside(s', bits[1..]);
    }
  }

  /** Reading the selectors stays inside the room, whatever bits follow, exactly if no more than that many were
      announced. */
  lemma InsideExactly(s: State, v: int)
    requires Sound(s) && s.at == Selector2 && 0 <= v < 32768
    ensures (forall bits: seq<bool> :: SelectorRun(Step(s, v), bits).at != Stuck) <==> v <= MAX_SELECTORS
  {
    hide SelectorRun, Sound;
    var t := Step(s, v);
    if v <= MAX_SELECTORS {
      SelectorStepSound(s, v);
      forall bits: seq<bool> ensures SelectorRun(t, bits).at != Stuck { StaysInside(t, bits); }
    } else {
      RunsOver(t);
    }
  }

  // ----- an input that does it -----

  /** A block that uses one byte, with one selector. */
  function Small(): Block { Block(0, 0, seq(256, k => k == 0), 2, [0], [[2, 2, 2], [2, 2, 2]], []) }

  lemma SmallIsGood()
    ensures GoodHeader(Small())
  {
    var b := Small();
    assert b.inUse[0];
    OneUsed(b.inUse, 256);
  }

  lemma {:induction false} OneUsed(inUse: seq<bool>, n: nat)
    requires 1 <= n <= |inUse| && inUse[0] && forall k :: 1 <= k < n ==> !inUse[k]
    ensures |InUseList(inUse, n)| == 1
  {
    if n > 1 { OneUsed(inUse, n - 1); }
  }

  /** A stream whose first block has a good front, announces 18003 selectors, and gives each of them one bit. */
  ghost function Input(): seq<bool>
    requires GoodHeader(Small())
  {
    StreamCode.MagicBits(9) + FrontBits(Small()) + (Bits(2, 3) + Bits(MAX_SELECTORS + 1, 15)) +
      Falses(MAX_SELECTORS + 1)
  }

  /** Running on single bits is reading selectors. */
  lemma {:induction false} RunsSelectors(s: State, bits: seq<bool>)
    requires SelectorRun(s, bits).at == Stuck && s.at == Selector3
    ensures RunOn(s, bits).0.at == Stuck
    decreases |bits|
  {
    hide Step;
    if bits != [] {
      var v := if bits[0] then 1 else 0;
      assert Value(bits[..1]) == v by { assert bits[..1][..0] == []; }
      var t := Step(s, v);
      if t.at == Selector3 {
        RunsSelectors(t, bits[1..]);
      } else {
        assert SelectorRun(t, bits[1..]) == t;
      }
    }
  }

  /** Given this input, the decompressor writes behind its room for selectors. */
  lemma TooManySelectors(s: State)
    requires s.at == Magic(0)
    ensures GoodHeader(Small()) && RunOn(s, Input()).0.at == Stuck
  {
    SmallIsGood();
    hide *;
    FrontStuck(s);
  }

  lemma FrontStuck(s: State)
    requires s.at == Magic(0) && GoodHeader(Small())
    ensures RunOn(s, Input()).0.at == Stuck
  {
    var n := MAX_SELECTORS + 1;
    var s1 := s.(blockSize100k := 9, at := BlkHdr(0));
    hide Reads, RunOn, SelectorRun, GoodHeader, FrontBits, Bits, StreamCode.MagicBits, Step, UsedGroups;
    StreamCode.MagicReads(s, 9);
    var s2 := FrontReads(s1, Small());
    CountsRead(s2, 2, n);
    var s3 := s2.(nGroups := 2, nSelectors := n, selectorMtf := [], i := 0, j := 0, at := Selector3);
    ReadsJoin(s, StreamCode.MagicBits(9), s1, FrontBits(Small()), s2);
    ReadsJoin(s, StreamCode.MagicBits(9) + FrontBits(Small()), s2, Bits(2, 3) + Bits(n, 15), s3);
    ReadsRuns(s, StreamCode.MagicBits(9) + FrontBits(Small()) + (Bits(2, 3) + Bits(n, 15)), s3, Falses(n));
    RunsOver(s3);
    RunsSelectors(s3, Falses(n));
  }
}

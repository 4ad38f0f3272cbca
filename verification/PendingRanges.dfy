/** The pending ranges of a quicksort that keeps them on an explicit stack. */
module PendingRanges {

  /** own[p] is the stack slot whose range holds position p, or -1 if p is settled. */
  ghost predicate Slots(stLo: seq<int>, stHi: seq<int>, own: seq<int>, loSt: int, hiSt: int) {
    && |stLo| == |stHi|
    && (forall k :: 0 <= k < |stLo| ==> loSt <= stLo[k] <= stHi[k] + 1 <= hiSt + 1)
    && (forall p :: 0 <= p < |own| && loSt <= p <= hiSt ==> -1 <= own[p] < |stLo|)
    && (forall k, p :: 0 <= k < |stLo| && 0 <= p < |own| && loSt <= p <= hiSt ==>
         (own[p] == k <==> stLo[k] <= p <= stHi[k]))
  }

  function Paint(own: seq<int>, lo: int, hi: int, k: int): (r: seq<int>)
    ensures |r| == |own|
    ensures forall p :: 0 <= p < |own| ==> r[p] == if lo <= p <= hi then k else own[p]
  {
    seq(|own|, p requires 0 <= p < |own| => if lo <= p <= hi then k else own[p])
  }

  /** Slots after the top range was settled. */
  lemma SlotsPop(stLo: seq<int>, stHi: seq<int>, own: seq<int>, loSt: int, hiSt: int)
    requires |stLo| > 0 && Slots(stLo, stHi, own, loSt, hiSt)
    ensures var e := |stLo| - 1; Slots(stLo[..e], stHi[..e], Paint(own, stLo[e], stHi[e], -1), loSt, hiSt)
  {
    var e := |stLo| - 1;
    var own' := Paint(own, stLo[e], stHi[e], -1);
    forall k, p | 0 <= k < e && 0 <= p < |own| && loSt <= p <= hiSt
      ensures own'[p] == k <==> stLo[..e][k] <= p <= stHi[..e][k]
    {
      assert own[p] == k <==> stLo[k] <= p <= stHi[k];
      assert own[p] == e <==> stLo[e] <= p <= stHi[e];
    }
  }

  /** Slots after a new top range was laid over settled positions. */
  lemma SlotsPush(stLo: seq<int>, stHi: seq<int>, own: seq<int>, loSt: int, hiSt: int, lo: int, hi: int)
    requires Slots(stLo, stHi, own, loSt, hiSt) && loSt <= lo <= hi + 1 <= hiSt + 1
    requires forall p :: 0 <= p < |own| && lo <= p <= hi ==> own[p] == -1
    ensures Slots(stLo + [lo], stHi + [hi], Paint(own, lo, hi, |stLo|), loSt, hiSt)
  {
    var own' := Paint(own, lo, hi, |stLo|);
    forall k, p | 0 <= k <= |stLo| && 0 <= p < |own| && loSt <= p <= hiSt
      ensures own'[p] == k <==> (stLo + [lo])[k] <= p <= (stHi + [hi])[k]
    {
      if k < |stLo| {
        assert own[p] == k <==> stLo[k] <= p <= stHi[k];
      }
    }
  }

  lemma SlotsRange(stLo: seq<int>, stHi: seq<int>, own: seq<int>, loSt: int, hiSt: int)
    requires Slots(stLo, stHi, own, loSt, hiSt)
    ensures |stLo| == |stHi|
    ensures |stLo| > 0 ==> var e := |stLo| - 1; loSt <= stLo[e] <= stHi[e] + 1 <= hiSt + 1
  {
  }
}

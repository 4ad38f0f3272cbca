/** A distance longer than the window: accepted in one call, refused in two. */
module InflateFar {

  import opened Powers
  import opened Window
  import opened Lz77
  import opened InflateSlices
  import opened InflateCalls

  /** More literals than the window holds, and a match that goes back to the first of them. */
  function FarTokens(w: nat): (ts: seq<Token>)
    ensures |ts| == w + 2 && ts[w + 1] == Match(w + 1, 3) && forall i :: 0 <= i <= w ==> ts[i] == Literal(0)
  {
    seq(w + 1, i => Literal(0)) + [Match(w + 1, 3)]
  }

  lemma {:induction false} LiteralsExpand(ts: seq<Token>, n: nat)
    requires n <= |ts| && forall i :: 0 <= i < n ==> ts[i].Literal?
    ensures |Expand(ts[..n])| == n
  {
    if n > 0 {
      LiteralsExpand(ts, n - 1);
      assert ts[..n][..n - 1] == ts[..n - 1];
    }
  }

  lemma FarInside(w: nat)
    ensures Inside(FarTokens(w)) && AllExpressible(FarTokens(w)) && |Expand(FarTokens(w))| == w + 4
    ensures forall n :: 0 <= n <= w + 1 ==> |Expand(FarTokens(w)[..n])| == n
  {
    var ts := FarTokens(w);
    hide FarTokens, Expand;
    forall n | 0 <= n <= w + 1 ensures |Expand(ts[..n])| == n { LiteralsExpand(ts, n); }
    ExpandMatch(ts, w + 1);
    assert ts[..w + 2] == ts;
  }

  lemma InsidePart(ts: seq<Token>, n: nat)
    requires Inside(ts) && n <= |ts|
    ensures Inside(ts[..n])
  {
    hide Expand;
    forall i | 0 <= i < n && ts[..n][i].Match?
      ensures 1 <= ts[..n][i].dist <= |Expand(ts[..n][..i])| && ts[..n][i].len >= MIN_MATCH {
      assert ts[..n][..i] == ts[..i];
    }
  }

  /** In the first call nothing is refused. */
  lemma FirstAccepts(ts: seq<Token>, n: nat, starts: seq<int>, size: nat)
    requires Inside(ts) && n <= |ts| && Grown([], starts, 0)
    ensures !Refused(ts[..n], starts, size)
  {
    InsidePart(ts, n);
    assert starts == OneCall(|starts|);
    OneCallAccepts(ts[..n], |starts|, size);
  }

  /** What is put out before all of it is known to be there is a beginning of it. */
  lemma WholeOut(r: Stream, ts: seq<Token>)
    requires r.Valid() && r.mode != Bad && r.all <= ts && (|r.total| >= |Expand(ts)| || (r.all == ts && r.mode == Len))
    ensures r.total == Expand(ts)
  {
    hide Inflater.Valid, Stands, GoodTokens, Pow2, Expand, Sliced, AllExpressible;
    StandsInside(r.mode, r.length, r.offset, r.all, r.total);
    assert r.all == ts[..|r.all|];
    ExpandGrows(ts, |r.all|);
    if r.mode == Len { StandsWhole(r.mode, r.length, r.offset, r.all, r.total); }
  }

  lemma StartsAre(r: Stream)
    requires r.Valid()
    ensures |r.starts| == |r.total| + (if r.mode == Bad then 1 else 0)
  {
    hide Inflater.Valid, Stands, GoodTokens, Pow2, Expand, AllExpressible;
  }

  /** With room for everything the match is accepted. */
  method FarInOneCall(wbits: nat, plenty: bool) returns (r: Stream)
    ensures r.Valid() && r.mode != Bad && r.all == FarTokens(Pow2(wbits)) && r.total == Expand(r.all) &&
      r.s.wbits == wbits
  {
    hide Stream.Valid, FarTokens, Expand, AllExpressible, Refused, Grown, Pow2, Beyond;
    var w := Pow2(wbits);
    var ts := FarTokens(w);
    FarInside(w);
    r := new Stream(wbits);
    var out := new int[w + 5];
    var n, put := r.Inflate(ts, false, false, plenty, out);
    assert r.all == ts[..n];
    FirstAccepts(ts, n, r.starts, w);
    FewOut(r, ts);
    WholeOut(r, ts);
  }

  lemma FewOut(r: Stream, ts: seq<Token>)
    requires r.Valid() && r.mode != Bad && r.all <= ts
    ensures |r.total| <= |Expand(ts)|
  {
    hide Inflater.Valid, Stands, GoodTokens, Pow2, Expand, Sliced, AllExpressible;
    StandsInside(r.mode, r.length, r.offset, r.all, r.total);
    assert r.all == ts[..|r.all|];
    ExpandGrows(ts, |r.all|);
  }

  /** If the first call ends after the literals, the match is refused in the second. */
  method FarInTwoCalls(wbits: nat, plenty: bool) returns (r: Stream)
    ensures r.Valid() && r.mode == Bad && r.all == FarTokens(Pow2(wbits)) && |r.total| == Pow2(wbits) + 1 &&
      r.s.wbits == wbits
  {
    hide Stream.Valid, FarTokens, Expand, AllExpressible, Refused, Grown, Pow2, Beyond;
    var w := Pow2(wbits);
    var ts := FarTokens(w);
    FarInside(w);
    r := new Stream(wbits);
    var out := new int[w + 1];
    var n, put := r.Inflate(ts, false, false, plenty, out);
    assert r.all == ts[..n];
    FirstAccepts(ts, n, r.starts, w);
    FirstFull(r, ts, put, w + 1);
    StartsAre(r);
    WindowHolds(r);
    ghost var starts := r.starts;
    AllRest(ts, n);
    var out' := new int[4];
    var m, put' := r.Inflate(ts[n..], false, false, plenty, out');
    assert r.all == ts[..n + m] by { Rejoin(ts, n, m); }
    SecondRefuses(r, w, starts, put');
  }

  lemma FirstFull(r: Stream, ts: seq<Token>, put: nat, room: nat)
    requires r.Valid() && r.mode != Bad && r.all <= ts && |r.total| == put <= room < |Expand(ts)|
    requires put == room || (r.all == ts && r.mode == Len)
    ensures put == room
  {
    hide Stream.Valid, Expand;
    if put != room { WholeOut(r, ts); }
  }

  /** The window is full. */
  lemma WindowHolds(r: Stream)
    requires r.Valid() && (r.mode == Len || r.mode == Matching || r.mode == Lit) && |r.total| > Pow2(r.s.wbits)
    ensures r.s.whave == Pow2(r.s.wbits)
  {
    hide Inflater.Valid, Stands, GoodTokens, Pow2, Expand, Sliced, AllExpressible;
    Held(r.s);
    WindowFull(r.s);
  }

  lemma FarRefused(starts: seq<int>, w: nat)
    requires |starts| > w + 1 && starts[w + 1] == w + 1
    ensures Refused(FarTokens(w), starts, w)
  {
    hide FarTokens, Expand;
    FarInside(w);
    assert RefusedAt(FarTokens(w), starts, w, w + 1, w + 1);
  }

  lemma SecondRefuses(r: Stream, w: nat, starts: seq<int>, put: nat)
    requires r.Valid() && w == Pow2(r.s.wbits) && r.all <= FarTokens(w) && |starts| == w + 1 &&
      Grown(starts, r.starts, w + 1)
    requires r.mode == Bad <==> Refused(r.all, r.starts, w)
    requires |r.total| == w + 1 + put && (r.mode == Bad ==> Beyond(r.all, |r.total|, put + w))
    requires put == 4 || r.mode == Bad || (r.all == FarTokens(w) && r.mode == Len)
    ensures r.mode == Bad && r.all == FarTokens(w) && put == 0
  {
    hide Stream.Valid, FarTokens, Expand, Pow2;
    var ts := FarTokens(w);
    FarInside(w);
    if r.mode != Bad {
      FewOut(r, ts);
      WholeOut(r, ts);
      StartsAre(r);
      FarRefused(r.starts, w);
    } else {
      assert r.all[|r.all| - 1] == ts[|r.all| - 1];
    }
  }

  lemma AllRest(ts: seq<Token>, n: nat)
    requires AllExpressible(ts) && n <= |ts|
    ensures AllExpressible(ts[n..])
  {
  }

  lemma Rejoin(ts: seq<Token>, n: nat, m: nat)
    requires n + m <= |ts|
    ensures ts[..n] + ts[n..][..m] == ts[..n + m]
  {
  }
}

/** When inflate refuses a distance, given where its calls end. */
module InflateSlices {

  import opened Window
  import opened Lz77

  /** Len stands for LEN to DISTEXT, Done for CHECK and what follows it. */
  datatype Mode = Len | Matching | Lit | Done | Bad

  /** A cutting of the output into calls: starts[n] is where the call begins that puts out byte n. */
  ghost predicate Cutting(starts: seq<int>) {
    forall n :: 0 <= n < |starts| ==> CutAt(starts, n)
  }

  predicate CutAt(starts: seq<int>, n: int)
    requires 0 <= n < |starts|
  {
    starts[n] == n || (n > 0 && starts[n] == starts[n - 1])
  }

  /** k bytes put out in a call that began at byte start. */
  ghost function AllAt(start: int, k: nat): (r: seq<int>)
    ensures |r| == k && forall i :: 0 <= i < k ==> r[i] == start
  {
    seq(k, i => start)
  }

  /** The last bytes so far belong to the call that began at start. */
  ghost predicate Within(starts: seq<int>, start: int) {
    0 <= start && forall n :: start <= n < |starts| ==> starts[n] == start
  }

  lemma CutMore(starts: seq<int>, start: int, k: nat)
    requires Cutting(starts) && Within(starts, start) && start <= |starts|
    ensures Cutting(starts + AllAt(start, k)) && Within(starts + AllAt(start, k), start)
  {
    var more := starts + AllAt(start, k);
    forall n | 0 <= n < |more| ensures CutAt(more, n) {
      if n < |starts| { assert CutAt(starts, n); }
    }
  }

  /** In the call that began at start a distance is in reach of byte n: it lies in the output of that call, or in what
      the window held before it. */
  predicate Reached(dist: int, n: int, start: int, size: int) {
    dist <= n - start + (if start < size then start else size)
  }

  /** Byte n would be copied for token i, and is not in reach. */
  ghost predicate RefusedAt(ts: seq<Token>, starts: seq<int>, size: int, i: int, n: int) {
    && 0 <= i < |ts| && ts[i].Match? && |Expand(ts[..i])| <= n < |Expand(ts[..i])| + ts[i].len && n < |starts|
    && !Reached(ts[i].dist, n, starts[n], size)
  }

  ghost predicate Refused(ts: seq<Token>, starts: seq<int>, size: int) {
    exists i, n :: RefusedAt(ts, starts, size, i, n)
  }

  /** No match goes back before the start. */
  ghost predicate Inside(ts: seq<Token>) {
    forall i :: 0 <= i < |ts| && ts[i].Match? ==> 1 <= ts[i].dist <= |Expand(ts[..i])| && ts[i].len >= MIN_MATCH
  }

  // ----- where calls end makes a difference only for distances beyond the window -----

  lemma {:induction false} StartsBefore(starts: seq<int>, n: int)
    requires Cutting(starts) && 0 <= n < |starts|
    ensures 0 <= starts[n] <= n
    decreases n
  {
    assert CutAt(starts, n);
    if starts[n] != n { StartsBefore(starts, n - 1); }
  }

  /** Distances up to the size of the window are never refused. */
  lemma NeverRefused(ts: seq<Token>, starts: seq<int>, size: nat)
    requires Inside(ts) && Cutting(starts) && forall i :: 0 <= i < |ts| && ts[i].Match? ==> ts[i].dist <= size
    ensures !Refused(ts, starts, size)
  {
    hide Expand;
    if Refused(ts, starts, size) {
      var i, n :| RefusedAt(ts, starts, size, i, n);
      StartsBefore(starts, n);
    }
  }

  /** Everything in one call. */
  ghost function OneCall(n: nat): (starts: seq<int>)
    ensures |starts| == n && Cutting(starts) && forall i :: 0 <= i < n ==> starts[i] == 0
  {
    seq(n, i => 0)
  }

  lemma OneCallAccepts(ts: seq<Token>, n: nat, size: nat)
    requires Inside(ts)
    ensures !Refused(ts, OneCall(n), size)
  {
    hide Expand;
  }

  /** Two calls, the second from byte m on. */
  ghost function TwoCalls(m: nat, n: nat): (starts: seq<int>)
    ensures |starts| == n && Cutting(starts) && forall i :: 0 <= i < n ==> starts[i] == if i < m then 0 else m
  {
    seq(n, i => if i < m then 0 else m)
  }

  /** A call that ends just before a match that reaches beyond the window. */
  lemma TwoCallsRefuse(ts: seq<Token>, i: int, size: nat)
    requires Inside(ts) && 0 <= i < |ts| && ts[i].Match? && ts[i].dist > size
    ensures Refused(ts, TwoCalls(|Expand(ts[..i])|, |Expand(ts)|), size)
  {
    var m := |Expand(ts[..i])|;
    ExpandPart(ts, i + 1);
    ExpandMatch(ts, i);
    hide Expand;
    assert RefusedAt(ts, TwoCalls(m, |Expand(ts)|), size, i, m);
  }

  lemma ExpandMatch(ts: seq<Token>, i: int)
    requires Inside(ts) && 0 <= i < |ts| && ts[i].Match?
    ensures |Expand(ts[..i + 1])| == |Expand(ts[..i])| + ts[i].len
  {
    assert ts[..i + 1][..i] == ts[..i];
  }

  lemma {:induction false} ExpandPart(ts: seq<Token>, n: nat)
    requires n <= |ts|
    ensures |Expand(ts[..n])| <= |Expand(ts)|
    decreases |ts|
  {
    if n == |ts| {
      assert ts[..n] == ts;
    } else {
      ExpandPart(ts[..|ts| - 1], n);
      assert ts[..|ts| - 1][..n] == ts[..n];
    }
  }

  /** For tokens that do not go back before the start, all cuttings into calls are treated alike if and only if no
      distance exceeds the size of the window. */
  lemma SlicingMatters(ts: seq<Token>, size: nat)
    requires Inside(ts)
    ensures (forall s, s' :: Cutting(s) && Cutting(s') && |s| == |s'| == |Expand(ts)| ==>
      (Refused(ts, s, size) <==> Refused(ts, s', size)))
      <==> (forall i :: 0 <= i < |ts| && ts[i].Match? ==> ts[i].dist <= size)
  {
    hide Expand, Refused, Cutting, Inside;
    if forall i :: 0 <= i < |ts| && ts[i].Match? ==> ts[i].dist <= size {
      forall s | Cutting(s) ensures !Refused(ts, s, size) { NeverRefused(ts, s, size); }
    } else {
      var i :| 0 <= i < |ts| && ts[i].Match? && ts[i].dist > size;
      var n := |Expand(ts)|;
      OneCallAccepts(ts, n, size);
      TwoCallsRefuse(ts, i, size);
      assert Refused(ts, OneCall(n), size) != Refused(ts, TwoCalls(|Expand(ts[..i])|, n), size);
    }
  }

  // ----- what a call does -----

  /** The tokens that are complete. */
  ghost function Complete(mode: Mode, all: seq<Token>): seq<Token> {
    if mode == Len || mode == Done || all == [] then all else all[..|all| - 1]
  }

  /** total bytes have been put out for the tokens taken, and byte by byte it is known in which call. The mode is Bad
      exactly if a byte was to be copied that was not in reach in the call that was to put it out. */
  ghost predicate Sliced(mode: Mode, all: seq<Token>, starts: seq<int>, total: nat, size: nat) {
    && |starts| == total + (if mode == Bad then 1 else 0) && Cutting(starts)
    && Inside(Complete(mode, all)) && (mode != Len && mode != Done ==> all != [])
    && (mode == Bad <==> Refused(all, starts, size))
  }

  lemma SlicedStart(size: nat)
    ensures Sliced(Len, [], [], 0, size)
  {
  }

  /** A token is taken when the one before it is complete. */
  lemma SlicedTake(all: seq<Token>, starts: seq<int>, size: nat, t: Token, mode: Mode)
    requires Sliced(Len, all, starts, |Expand(all)|, size) && (mode == Lit || mode == Matching)
    ensures Sliced(mode, all + [t], starts, |Expand(all)|, size)
  {
    var more := all + [t];
    assert more[..|all|] == all;
    hide Expand;
    forall i, n ensures !RefusedAt(more, starts, size, i, n) {
      assert !RefusedAt(all, starts, size, i, n);
      if 0 <= i < |all| { assert more[..i] == all[..i]; }
    }
  }

  /** Bytes of earlier tokens lie before those of the last one. */
  lemma EarlierEnds(all: seq<Token>, i: int)
    requires all != [] && Inside(all[..|all| - 1]) && 0 <= i < |all| - 1 && all[i].Match?
    ensures |Expand(all[..i])| + all[i].len <= |Expand(all[..|all| - 1])|
  {
    var front := all[..|all| - 1];
    assert front[..i] == all[..i] && front[..i + 1] == all[..i + 1];
    ExpandMatch(front, i);
    ExpandPart(front, i + 1);
  }

  /** More of the output, all of it for the last token, is refused exactly if a byte of it is. */
  lemma RefusedMore(all: seq<Token>, starts: seq<int>, more: seq<int>, size: nat)
    requires all != [] && Inside(all[..|all| - 1]) && starts <= more && !Refused(all, starts, size)
    requires |starts| >= |Expand(all[..|all| - 1])|
    ensures var last := |all| - 1;
      Refused(all, more, size) <==> exists n :: |starts| <= n < |more| && RefusedAt(all, more, size, last, n)
  {
    hide Expand;
    if Refused(all, more, size) {
      var i, n :| RefusedAt(all, more, size, i, n);
      assert !RefusedAt(all, starts, size, i, n);
      if i < |all| - 1 { EarlierEnds(all, i); }
      assert RefusedAt(all, more, size, |all| - 1, n);
    }
  }

  lemma SlicedLiteral(all: seq<Token>, starts: seq<int>, start: int, size: nat)
    requires all != [] && all[|all| - 1].Literal? && Sliced(Lit, all, starts, |Expand(all[..|all| - 1])|, size)
    requires Within(starts, start) && start <= |starts|
    ensures Sliced(Len, all, starts + AllAt(start, 1), |Expand(all[..|all| - 1])| + 1, size)
  {
    hide Expand, Cutting;
    CutMore(starts, start, 1);
    RefusedMore(all, starts, starts + AllAt(start, 1), size);
    InsideMore(all);
  }

  lemma InsideMore(all: seq<Token>)
    requires all != [] && Inside(all[..|all| - 1])
    requires var t := all[|all| - 1]; t.Match? ==> 1 <= t.dist <= |Expand(all[..|all| - 1])| && t.len >= MIN_MATCH
    ensures Inside(all)
  {
    hide Expand;
    forall i | 0 <= i < |all| && all[i].Match?
      ensures 1 <= all[i].dist <= |Expand(all[..i])| && all[i].len >= MIN_MATCH {
      if i < |all| - 1 { assert all[..|all| - 1][..i] == all[..i]; }
    }
  }

  /** k bytes of a match, whose distance is in reach. */
  lemma SlicedMatch(all: seq<Token>, starts: seq<int>, start: int, size: nat, k: nat)
    requires Sliced(Matching, all, starts, |starts|, size) && all[|all| - 1].Match? && Within(starts, start) &&
      start <= |starts|
    requires Reached(all[|all| - 1].dist, |starts|, start, size) && |starts| >= |Expand(all[..|all| - 1])|
    requires 1 <= all[|all| - 1].dist <= |Expand(all[..|all| - 1])| && all[|all| - 1].len >= MIN_MATCH
    ensures Sliced(Matching, all, starts + AllAt(start, k), |starts| + k, size) &&
      Sliced(Len, all, starts + AllAt(start, k), |starts| + k, size)
  {
    hide Expand, Cutting;
    var more := starts + AllAt(start, k);
    CutMore(starts, start, k);
    RefusedMore(all, starts, more, size);
    InsideMore(all);
  }

  /** The next byte of a match is not in reach. */
  lemma SlicedBad(all: seq<Token>, starts: seq<int>, start: int, size: nat)
    requires Sliced(Matching, all, starts, |starts|, size) && all[|all| - 1].Match? && Within(starts, start) &&
      start <= |starts|
    requires !Reached(all[|all| - 1].dist, |starts|, start, size)
    requires |Expand(all[..|all| - 1])| <= |starts| < |Expand(all[..|all| - 1])| + all[|all| - 1].len
    ensures Sliced(Bad, all, starts + AllAt(start, 1), |starts|, size)
  {
    hide Expand, Cutting;
    CutMore(starts, start, 1);
    assert RefusedAt(all, starts + AllAt(start, 1), size, |all| - 1, |starts|);
  }

  lemma SlicedDone(all: seq<Token>, starts: seq<int>, total: nat, size: nat)
    requires Sliced(Len, all, starts, total, size)
    ensures Sliced(Done, all, starts, total, size)
  {
  }
}

/** longest_match: along a hash chain, the longest match that is better than what is known. */
module LongestMatch {

  import opened Rotations
  import opened HashChains
  import opened Lz77

  /** The n bytes at a and at b are the same. */
  ghost predicate Same(w: seq<int>, a: int, b: int, n: int) {
    0 <= a && 0 <= b && 0 <= n && a + n <= |w| && b + n <= |w| && forall i :: a <= i < a + n ==> w[i] == w[i + (b - a)]
  }

  /** The comparison loop: three bytes are known to be equal, and at most MAX_MATCH matter. */
  method MatchLength(window: seq<int>, match_: nat, scan: nat) returns (len: nat)
    requires match_ < scan && scan + MAX_MATCH <= |window| && Same(window, match_, scan, 3)
    ensures 3 <= len <= MAX_MATCH && Same(window, match_, scan, len)
    ensures len < MAX_MATCH ==> window[match_ + len] != window[scan + len]
  {
    len := 3;
    while len < MAX_MATCH && window[match_ + len] == window[scan + len]
      invariant 3 <= len <= MAX_MATCH && Same(window, match_, scan, len)
    {
      len := len + 1;
    }
  }

  /** cur is on the chain of the string at strstart, near enough to be a match. */
  ghost predicate OnChain(w: seq<int>, ins: set<int>, k: Keys, cur: int, strstart: int, maxDist: int)
    requires GoodKeys(k) && Bytes(w)
  {
    && cur in ins && 0 < cur < strstart && strstart - cur <= maxDist && cur + 3 <= |w| && strstart + 3 <= |w|
    && HashAt(w, cur, k) == HashAt(w, strstart, k)
  }

  /** The next position on the chain, unless it is too far back. */
  lemma NextOnChain(w: seq<int>, head: seq<int>, prev: seq<int>, ins: set<int>, end: int, k: Keys, cur: int,
      strstart: int)
    requires Chains(w, head, prev, ins, end, k) && |prev| >= MIN_LOOKAHEAD && forall p :: p in ins ==> p <= strstart
    requires OnChain(w, ins, k, cur, strstart, |prev| - MIN_LOOKAHEAD)
    ensures 0 <= Slot(cur, |prev|) < |prev|
    ensures var q := prev[Slot(cur, |prev|)]; var maxDist := |prev| - MIN_LOOKAHEAD;
            q > (if strstart > maxDist then strstart - maxDist else 0) ==> OnChain(w, ins, k, q, strstart, maxDist)
  {
    hide HashAt, GoodHash, Number;
    ChainsFollow(w, head, prev, ins, end, k, cur, strstart);
  }

  /** A match that was found: nearer than maxDist, and as long as said. */
  ghost predicate Found(w: seq<int>, start: int, strstart: int, len: int, maxDist: int) {
    0 < start < strstart && strstart - start <= maxDist && len <= MAX_MATCH && Same(w, start, strstart, len)
  }

  /** The positions on the chain that are tried: cur, and those behind it above limit, n of them at most. */
  function Tried(prev: seq<int>, cur: int, limit: int, n: int): (ps: seq<int>)
    requires |prev| > 0
    decreases n, 1
  {
    [cur] + TriedNext(prev, cur, limit, n)
  }

  function TriedNext(prev: seq<int>, cur: int, limit: int, n: int): (ps: seq<int>)
    requires |prev| > 0
    decreases n, 0
  {
    var i := Slot(cur, |prev|);
    if n > 1 && 0 <= i < |prev| && prev[i] > limit then Tried(prev, prev[i], limit, n - 1) else []
  }

  /** The match at p has no more than len bytes, of those that count. */
  ghost predicate NoLonger(w: seq<int>, p: int, strstart: int, len: int, lookahead: int) {
    forall m :: len < m <= lookahead && m <= MAX_MATCH ==> !Same(w, p, strstart, m)
  }

  ghost predicate NoneLonger(w: seq<int>, ps: seq<int>, strstart: int, len: int, lookahead: int) {
    forall i :: 0 <= i < |ps| ==> NoLonger(w, ps[i], strstart, len, lookahead)
  }

  /** One more position has been tried, and what was best may have grown. */
  lemma OneMoreTried(w: seq<int>, ps: seq<int>, p: int, strstart: int, len: int, len': int, lookahead: int)
    requires NoneLonger(w, ps, strstart, len, lookahead) && len <= len' && NoLonger(w, p, strstart, len', lookahead)
    ensures NoneLonger(w, ps + [p], strstart, len', lookahead)
  {
    hide Same;
    forall i | 0 <= i < |ps| ensures NoLonger(w, ps[i], strstart, len', lookahead) {
      assert NoLonger(w, ps[i], strstart, len, lookahead);
    }
  }

  /** Bytes that differ bound a match. */
  lemma Differ(w: seq<int>, p: int, strstart: int, i: int, len: int, lookahead: int)
    requires 0 <= i <= len && 0 <= p && 0 <= strstart && p + i < |w| && strstart + i < |w| &&
      w[p + i] != w[strstart + i]
    ensures NoLonger(w, p, strstart, len, lookahead)
  {
    forall m | len < m ensures !Same(w, p, strstart, m) { assert i < m && w[p + i] != w[p + i + (strstart - p)]; }
  }

  lemma LongestOf(w: seq<int>, p: int, strstart: int, len: int, lookahead: int)
    requires len >= MAX_MATCH
    ensures NoLonger(w, p, strstart, len, lookahead)
  {
  }

  /** What does not count need not be compared. */
  lemma NoneAtEnd(w: seq<int>, ps: seq<int>, strstart: int, best: int, lookahead: int)
    requires NoneLonger(w, ps, strstart, best, lookahead)
    ensures NoneLonger(w, ps, strstart, if best <= lookahead then best else lookahead, lookahead)
  {
    hide Same;
    forall i | 0 <= i < |ps|
      ensures NoLonger(w, ps[i], strstart, if best <= lookahead then best else lookahead, lookahead) {
      assert NoLonger(w, ps[i], strstart, best, lookahead);
    }
  }

  /** longest_match. The result is the length of the match at match_start if that is better than prev_length; else
      match_start stays as it was. Bytes behind the lookahead may be compared, but do not count. */
  method LongestMatch(window: seq<int>, prev: seq<int>, cur0: int, strstart: nat, lookahead: nat, prev_length: nat,
      good_match: nat, nice0: nat, max_chain_length: nat, match_start0: int, ghost head: seq<int>, ghost ins: set<int>,
      ghost k: Keys)
    returns (len: nat, match_start: int)
    requires Chains(window, head, prev, ins, strstart + lookahead, k) && |prev| >= MIN_LOOKAHEAD &&
             forall p :: p in ins ==> p <= strstart
    requires strstart + MIN_LOOKAHEAD <= |window| && lookahead >= 3 &&
      OnChain(window, ins, k, cur0, strstart, |prev| - MIN_LOOKAHEAD)
    requires 1 <= prev_length <= MAX_MATCH && nice0 <= MAX_MATCH && max_chain_length >= 4
    ensures len <= lookahead
    ensures (match_start == match_start0 && len == if prev_length < lookahead then prev_length else lookahead)
         || (Found(window, match_start, strstart, len, |prev| - MIN_LOOKAHEAD) &&
              (len > prev_length || len == lookahead))
    ensures len >= nice0 || len == lookahead
      || NoneLonger(window, Tried(prev, cur0, Farthest(strstart, |prev|),
           if prev_length >= good_match then max_chain_length / 4 else max_chain_length), strstart, len, lookahead)
  {
    hide HashAt, GoodHash, Number, GoodKeys, Link, Inserted, NoneLonger, NoLonger, Tried, Same;
    match_start := match_start0;
    var chain_length, best_len, nice_match, cur_match := max_chain_length, prev_length, nice0, cur0;
    var maxDist := |prev| - MIN_LOOKAHEAD;
    var limit := if strstart > maxDist then strstart - maxDist else 0;
    if prev_length >= good_match { chain_length := chain_length / 4; }
    if nice_match > lookahead { nice_match := lookahead; }
    ghost var all, done := Tried(prev, cur0, limit, chain_length), [];
    assert done + Tried(prev, cur_match, limit, chain_length) == all;
    NoneYet(window, strstart, best_len, lookahead);
    while true
      invariant OnChain(window, ins, k, cur_match, strstart, maxDist) && chain_length > 0
      invariant prev_length <= best_len <= MAX_MATCH && (best_len == MAX_MATCH ==> best_len == prev_length)
      invariant best_len == prev_length ==> match_start == match_start0
      invariant best_len > prev_length ==> Found(window, match_start, strstart, best_len, maxDist)
      invariant NoneLonger(window, done, strstart, best_len, lookahead) &&
        done + Tried(prev, cur_match, limit, chain_length) == all
      decreases chain_length
    {
      var n := TryMatch(window, prev, cur_match, strstart, lookahead, best_len, head, ins, k);
      OneMoreTried(window, done, cur_match, strstart, best_len, if n > best_len then n else best_len, lookahead);
      TriedFirst(prev, cur_match, limit, chain_length, done);
      done := done + [cur_match];
      if n > best_len {
        match_start := cur_match;
        best_len := n;
        if n >= nice_match { break; }
      }
      NextOnChain(window, head, prev, ins, strstart + lookahead, k, cur_match, strstart);
      TriedMore(prev, cur_match, limit, chain_length, done);
      cur_match := prev[Slot(cur_match, |prev|)];
      if cur_match <= limit { break; }
      chain_length := chain_length - 1;
      if chain_length == 0 { break; }
    }
    NoneAtEnd(window, done, strstart, best_len, lookahead);
    len := if best_len <= lookahead then best_len else lookahead;
    if best_len > prev_length { FoundPart(window, match_start, strstart, best_len, len, maxDist); }
  }

  lemma FoundPart(w: seq<int>, start: int, strstart: int, n: int, len: nat, maxDist: int)
    requires Found(w, start, strstart, n, maxDist) && len <= n
    ensures Found(w, start, strstart, len, maxDist)
  {
  }

  /** One turn: how many bytes match, or 0 if it is known without comparing that they are no more than best_len. */
  method TryMatch(window: seq<int>, ghost prev: seq<int>, cur_match: nat, strstart: nat, ghost lookahead: nat,
      best_len: nat, ghost head: seq<int>, ghost ins: set<int>, ghost k: Keys)
    returns (n: nat)
    requires Chains(window, head, prev, ins, strstart + lookahead, k) &&
      OnChain(window, ins, k, cur_match, strstart, |prev| - MIN_LOOKAHEAD)
    requires strstart + MIN_LOOKAHEAD <= |window| && 1 <= best_len <= MAX_MATCH
    ensures n > best_len ==> Found(window, cur_match, strstart, n, |prev| - MIN_LOOKAHEAD)
    ensures NoLonger(window, cur_match, strstart, if n > best_len then n else best_len, lookahead)
  {
    hide HashAt, GoodHash, Number, GoodKeys, Link, Inserted, NoLonger, Chains;
    if window[cur_match + best_len] == window[strstart + best_len] &&
      window[cur_match + best_len - 1] == window[strstart + best_len - 1]
      && window[cur_match] == window[strstart] && window[cur_match + 1] == window[strstart + 1]
    {
      ChainThird(window, prev, head, ins, strstart + lookahead, k, cur_match, strstart, |prev| - MIN_LOOKAHEAD);
      n := MatchLength(window, cur_match, strstart);
      if n < MAX_MATCH {
        Differ(window, cur_match, strstart, n, if n > best_len then n else best_len, lookahead);
      } else {
        LongestOf(window, cur_match, strstart, if n > best_len then n else best_len, lookahead);
      }
    } else {
      Different(window, cur_match, strstart, best_len, lookahead);
      n := 0;
    }
  }

  /** The positions at or before this one are too far back. */
  function Farthest(strstart: int, wSize: int): int {
    if strstart > wSize - MIN_LOOKAHEAD then strstart - (wSize - MIN_LOOKAHEAD) else 0
  }

  lemma NoneYet(w: seq<int>, strstart: int, len: int, lookahead: int)
    ensures NoneLonger(w, [], strstart, len, lookahead)
  {
  }

  lemma Different(w: seq<int>, p: nat, strstart: nat, len: int, lookahead: int)
    requires 1 <= len <= MAX_MATCH && p < strstart && strstart + MIN_LOOKAHEAD <= |w|
    requires w[p + len] != w[strstart + len] || w[p + len - 1] != w[strstart + len - 1] || w[p] != w[strstart] ||
      w[p + 1] != w[strstart + 1]
    ensures NoLonger(w, p, strstart, len, lookahead)
  {
    hide NoLonger;
    if w[p + len] != w[strstart + len] { Differ(w, p, strstart, len, len, lookahead); }
    else if w[p + len - 1] != w[strstart + len - 1] { Differ(w, p, strstart, len - 1, len, lookahead); }
    else if w[p] != w[strstart] { Differ(w, p, strstart, 0, len, lookahead); }
    else { Differ(w, p, strstart, 1, len, lookahead); }
  }

  lemma TriedFirst(prev: seq<int>, cur: int, limit: int, n: int, done: seq<int>)
    requires |prev| > 0
    ensures done + Tried(prev, cur, limit, n) == done + [cur] + TriedNext(prev, cur, limit, n)
  {
  }

  /** What is behind cur is tried next, if it is near enough and the count allows it. */
  lemma TriedMore(prev: seq<int>, cur: int, limit: int, n: int, done: seq<int>)
    requires |prev| > 0 && n > 0 && 0 <= Slot(cur, |prev|) < |prev|
    ensures var next := prev[Slot(cur, |prev|)];
            done + TriedNext(prev, cur, limit, n) == if next > limit &&
              n > 1 then done + Tried(prev, next, limit, n - 1) else done
  {
  }

  lemma ChainThird(w: seq<int>, prev: seq<int>, head: seq<int>, ins: set<int>, end: int, k: Keys, cur: int,
      strstart: int, maxDist: int)
    requires Chains(w, head, prev, ins, end, k) && OnChain(w, ins, k, cur, strstart, maxDist) &&
      w[cur] == w[strstart] && w[cur + 1] == w[strstart + 1]
    ensures Same(w, cur, strstart, 3)
  {
    hide HashAt, GoodHash, Number;
    ThirdEqual(w, cur, strstart, k);
  }
}

/** Rearranging part of an array in place. */
module Rearrange {

  import opened Rotations

  /** t is s with the elements of [lo, hi) rearranged and everything else kept. */
  ghost predicate Permuted(s: seq<int>, t: seq<int>, lo: int, hi: int) {
    && |s| == |t|
    && multiset(s) == multiset(t)
    && (forall p :: 0 <= p < |s| && !(lo <= p < hi) ==> t[p] == s[p])
  }

  lemma SplitCount(s: seq<int>, lo: int, hi: int, x: int)
    requires 0 <= lo <= hi <= |s|
    ensures multiset(s)[x] == multiset(s[..lo])[x] + multiset(s[lo..hi])[x] + multiset(s[hi..])[x]
  {
    assert s == s[..lo] + s[lo..hi] + s[hi..];
  }

  /** What is found in the rearranged part was in that part before. */
  lemma PermutedSource(s: seq<int>, t: seq<int>, lo: int, hi: int, p: int) returns (q: int)
    requires Permuted(s, t, lo, hi) && 0 <= lo <= p < hi <= |s|
    ensures lo <= q < hi && s[q] == t[p]
  {
    var x := t[p];
    SplitCount(s, lo, hi, x);
    SplitCount(t, lo, hi, x);
    assert s[..lo] == t[..lo] && s[hi..] == t[hi..];
    assert t[p] == t[lo..hi][p - lo];
    assert t[p] in multiset(t[lo..hi]);
    assert t[p] in s[lo..hi];
    var k :| 0 <= k < hi - lo && s[lo..hi][k] == t[p];
    q := lo + k;
  }

  lemma PermutedLength(s: seq<int>, t: seq<int>, lo: int, hi: int)
    requires Permuted(s, t, lo, hi)
    ensures |s| == |t|
  {
  }

  lemma PermutedSelf(s: seq<int>, lo: int, hi: int)
    ensures Permuted(s, s, lo, hi)
  {
  }

  lemma PermutedWiden(s: seq<int>, t: seq<int>, lo: int, hi: int, lo': int, hi': int)
    requires Permuted(s, t, lo, hi) && lo' <= lo && hi <= hi'
    ensures Permuted(s, t, lo', hi')
  {
  }

  /** A rearrangement followed by one of a smaller part. */
  lemma PermutedThen(s: seq<int>, t: seq<int>, u: seq<int>, lo: int, hi: int, lo': int, hi': int)
    requires Permuted(s, t, lo, hi) && Permuted(t, u, lo', hi') && lo <= lo' && hi' <= hi
    ensures Permuted(s, u, lo, hi)
  {
  }

  /** The same, seen in the first n elements only. */
  lemma PermutedPrefix(s: seq<int>, t: seq<int>, lo: int, hi: int, n: int)
    requires Permuted(s, t, lo, hi) && 0 <= lo <= hi <= n <= |s|
    ensures Permuted(s[..n], t[..n], lo, hi)
  {
    assert s == s[..n] + s[n..] && t == t[..n] + t[n..];
    assert s[n..] == t[n..];
    forall x ensures multiset(s[..n])[x] == multiset(t[..n])[x] {
      assert multiset(s)[x] == multiset(s[..n])[x] + multiset(s[n..])[x];
      assert multiset(t)[x] == multiset(t[..n])[x] + multiset(t[n..])[x];
    }
  }

  lemma PermutedExchange(was: seq<int>, s: seq<int>, lo: int, hi: int, i: int, j: int)
    requires Permuted(was, s, lo, hi) && 0 <= lo <= i < j < hi <= |s|
    ensures Permuted(was, s[i := s[j]][j := s[i]], lo, hi)
  {
  }

  lemma {:induction false} CountOnce(s: seq<int>, x: int)
    requires forall i, j :: 0 <= i < j < |s| ==> s[i] != s[j]
    ensures multiset(s)[x] <= 1
  {
    if s != [] {
      CountOnce(s[1..], x);
      assert s == [s[0]] + s[1..];
      if x == s[0] { assert x !in s[1..]; }
    }
  }

  lemma RepeatCounts(t: seq<int>, i: int, j: int)
    requires 0 <= i < j < |t| && t[i] == t[j]
    ensures multiset(t)[t[i]] >= 2
  {
    assert t == t[..j] + t[j..];
    assert t[..j][i] == t[i] && t[j..][0] == t[i];
    assert t[i] in multiset(t[..j]) && t[i] in multiset(t[j..]);
  }

  lemma StaysPermutation(s: seq<int>, t: seq<int>, n: nat)
    requires IsPermutation(s, n) && multiset(s) == multiset(t)
    ensures IsPermutation(t, n)
  {
    assert |t| == |multiset(t)| == |multiset(s)| == |s|;
    forall i | 0 <= i < n ensures 0 <= t[i] < n {
      assert t[i] in multiset(t);
      assert t[i] in s;
    }
    forall i, j | 0 <= i < j < n ensures t[i] != t[j] {
      if t[i] == t[j] {
        RepeatCounts(t, i, j);
        CountOnce(s, t[i]);
      }
    }
  }

  method Swap(a: array<int>, i: int, j: int)
    requires 0 <= i < a.Length && 0 <= j < a.Length
    modifies a
    ensures a[i] == old(a[j]) && a[j] == old(a[i])
    ensures forall p :: 0 <= p < a.Length && p != i && p != j ==> a[p] == old(a[p])
    ensures multiset(a[..]) == old(multiset(a[..]))
  {
    a[i], a[j] := a[j], a[i];
    assert a[..] == old(a[..])[i := old(a[j])][j := old(a[i])];
  }

  /** Exchanges two stretches of n elements. */
  method SwapRanges(a: array<int>, p1: int, p2: int, n: int)
    requires n <= 0 || 0 <= p1 <= p1 + n <= p2 <= p2 + n <= a.Length
    modifies a
    ensures forall p :: p1 <= p < p1 + n ==> a[p] == old(a[p - p1 + p2])
    ensures forall p :: p2 <= p < p2 + n ==> a[p] == old(a[p - p2 + p1])
    ensures forall p :: 0 <= p < a.Length && !(p1 <= p < p1 + n) && !(p2 <= p < p2 + n) ==> a[p] == old(a[p])
    ensures multiset(a[..]) == old(multiset(a[..]))
  {
    var done := 0;
    while done < n
      invariant 0 <= done <= n || n < 0 == done
      invariant forall p :: p1 <= p < p1 + done ==> a[p] == old(a[p - p1 + p2])
      invariant forall p :: p2 <= p < p2 + done ==> a[p] == old(a[p - p2 + p1])
      invariant forall p :: 0 <= p < a.Length && !(p1 <= p < p1 + done) && !(p2 <= p < p2 + done) ==> a[p] == old(a[p])
      invariant multiset(a[..]) == old(multiset(a[..]))
    {
      Swap(a, p1 + done, p2 + done);
      done := done + 1;
    }
  }
}

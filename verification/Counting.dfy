/** Counting entries, and the places that a counting sort gives them. */
module Counting {

  import opened Rotations

  /** How many entries of s equal c. */
  function CountEq(s: seq<int>, c: int): (r: nat)
    ensures r <= |s|
  {
    if s == [] then 0
    else CountEq(s[..|s| - 1], c) + (if s[|s| - 1] == c then 1 else 0)
  }

  /** How many entries of s are smaller than c. */
  function Below(s: seq<int>, c: int): (r: nat)
    ensures r <= |s|
  {
    if s == [] then 0
    else Below(s[..|s| - 1], c) + (if s[|s| - 1] < c then 1 else 0)
  }

  lemma {:induction false} BelowStep(s: seq<int>, c: int)
    ensures Below(s, c + 1) == Below(s, c) + CountEq(s, c)
  {
    if s != [] { BelowStep(s[..|s| - 1], c); }
  }

  lemma {:induction false} BelowMonotone(s: seq<int>, c: int, d: int)
    requires c <= d
    ensures Below(s, c) <= Below(s, d)
  {
    if s != [] { BelowMonotone(s[..|s| - 1], c, d); }
  }

  lemma {:induction false} BelowEnds(s: seq<int>, m: int)
    requires forall i :: 0 <= i < |s| ==> 0 <= s[i] < m
    ensures Below(s, 0) == 0 && Below(s, m) == |s|
  {
    if s != [] { BelowEnds(s[..|s| - 1], m); }
  }

  lemma CountNext(s: seq<int>, i: nat, c: int)
    requires i < |s|
    ensures CountEq(s[..i + 1], c) == CountEq(s[..i], c) + (if s[i] == c then 1 else 0)
  {
    assert s[..i + 1][..i] == s[..i];
  }

  lemma EmptyCount(s: seq<int>, c: int)
    ensures CountEq(s[..0], c) == 0
  {
  }

  lemma {:induction false} NoneEqual(s: seq<int>, c: int)
    requires forall i :: 0 <= i < |s| ==> s[i] != c
    ensures CountEq(s, c) == 0
  {
    if s != [] { NoneEqual(s[..|s| - 1], c); }
  }

  lemma {:induction false} NoneBelow(s: seq<int>, c: int)
    requires forall i :: 0 <= i < |s| ==> s[i] >= c
    ensures Below(s, c) == 0
  {
    if s != [] { NoneBelow(s[..|s| - 1], c); }
  }

  lemma {:induction false} AllSmaller(s: seq<int>, c: int)
    requires forall i :: 0 <= i < |s| ==> s[i] < c
    ensures Below(s, c) == |s|
  {
    if s != [] { AllSmaller(s[..|s| - 1], c); }
  }

  lemma CountSnoc(s: seq<int>, x: int, c: int)
    ensures CountEq(s + [x], c) == CountEq(s, c) + (if x == c then 1 else 0)
  {
    assert (s + [x])[..|s|] == s;
  }

  lemma {:induction false} CountUpdate(s: seq<int>, i: nat, v: int, c: int)
    requires i < |s|
    ensures CountEq(s[i := v], c) == CountEq(s, c) - (if s[i] == c then 1 else 0) + (if v == c then 1 else 0)
  {
    var n := |s| - 1;
    if i < n {
      assert s[i := v][..n] == s[..n][i := v];
      CountUpdate(s[..n], i, v, c);
    } else {
      assert s[i := v][..n] == s[..n];
    }
  }

  lemma {:induction false} CountPrefix(s: seq<int>, i: nat, j: nat, c: int)
    requires i <= j <= |s|
    ensures CountEq(s[..i], c) <= CountEq(s[..j], c)
    ensures i < j && s[i] == c ==> CountEq(s[..i], c) < CountEq(s[..j], c)
    decreases j
  {
    if i < j {
      CountNext(s, j - 1, c);
      CountPrefix(s, i, j - 1, c);
    }
  }

  /** The place of entry i when the entries are laid out by value, equal ones in their order. */
  function RankUp(s: seq<int>, i: nat): int
    requires i < |s|
  {
    Below(s, s[i]) + CountEq(s[..i], s[i])
  }

  /** The place of entry i when equal ones are laid out in reverse order. */
  function RankDown(s: seq<int>, i: nat): int
    requires i < |s|
  {
    Below(s, s[i] + 1) - 1 - CountEq(s[..i], s[i])
  }

  /** Places of entry i lie in the stretch that belongs to its value. */
  lemma RankInBucket(s: seq<int>, i: nat)
    requires i < |s|
    ensures Below(s, s[i]) <= RankUp(s, i) < Below(s, s[i] + 1)
    ensures Below(s, s[i]) <= RankDown(s, i) < Below(s, s[i] + 1)
  {
    hide CountEq, Below;
    assert s[..|s|] == s;
    BelowStep(s, s[i]);
    CountPrefix(s, i, |s|, s[i]);
  }

  /** A smaller value goes to an earlier place. */
  lemma RankByValue(s: seq<int>, i: nat, j: nat)
    requires i < |s| && j < |s| && s[i] < s[j]
    ensures RankUp(s, i) < RankUp(s, j) && RankDown(s, i) < RankDown(s, j)
  {
    RankInBucket(s, i);
    RankInBucket(s, j);
    BelowMonotone(s, s[i] + 1, s[j]);
  }

  /** Among equal values the earlier entry goes first, or last. */
  lemma RankByOrder(s: seq<int>, i: nat, j: nat)
    requires i < j < |s| && s[i] == s[j]
    ensures RankUp(s, i) < RankUp(s, j) && RankDown(s, j) < RankDown(s, i)
  {
    CountPrefix(s, i, j, s[i]);
  }

  lemma RanksDiffer(s: seq<int>, i: nat, j: nat)
    requires i < |s| && j < |s| && i != j
    ensures RankUp(s, i) != RankUp(s, j) && RankDown(s, i) != RankDown(s, j)
  {
    if s[i] < s[j] { RankByValue(s, i, j); }
    else if s[j] < s[i] { RankByValue(s, j, i); }
    else if i < j { RankByOrder(s, i, j); }
    else { RankByOrder(s, j, i); }
  }

  lemma RankInjective(l: seq<int>, i: int, j: int)
    requires 0 <= i < |l| && 0 <= j < |l| && RankUp(l, i) == RankUp(l, j)
    ensures i == j
  {
    hide RankUp;
    if i != j { RanksDiffer(l, i, j); }
  }

  /** The places of all entries. */
  ghost function RanksUp(s: seq<int>): (r: seq<int>)
    ensures |r| == |s| && forall i :: 0 <= i < |r| ==> r[i] == RankUp(s, i)
  {
    seq(|s|, i requires 0 <= i < |s| => RankUp(s, i))
  }

  lemma RanksUpPermute(s: seq<int>)
    ensures IsPermutation(RanksUp(s), |s|)
  {
    var r := RanksUp(s);
    forall i | 0 <= i < |r| ensures 0 <= r[i] < |s| {
      RankInBucket(s, i);
    }
    forall i, j | 0 <= i < j < |r| ensures r[i] != r[j] {
      RanksDiffer(s, i, j);
    }
  }

  /** The values of a permutation are all of 0 .. n-1. */
  lemma Onto(p: seq<int>, n: nat, x: int) returns (i: int)
    requires IsPermutation(p, n) && 0 <= x < n
    ensures 0 <= i < n && p[i] == x
  {
    if x !in p {
      var rest := Range(n) - {x};
      ValuesSize(p);
      var values := set k | 0 <= k < |p| :: p[k];
      assert values <= rest;
      SubsetSize(values, rest);
      assert false;
    }
    i :| 0 <= i < n && p[i] == x;
  }

  /** The entry whose place in the first column is k. */
  ghost function PlaceOf(l: seq<int>, k: int): (i: int)
    requires 0 <= k < |l|
    ensures 0 <= i < |l| && RankUp(l, i) == k
  {
    RanksUpPermute(l);
    var x := OntoAt(RanksUp(l), |l|, k);
    x
  }

  ghost function OntoAt(p: seq<int>, n: nat, x: int): (i: int)
    requires IsPermutation(p, n) && 0 <= x < n
    ensures 0 <= i < n && p[i] == x
  {
    assert exists i :: 0 <= i < n && p[i] == x by { var i := Onto(p, n, x); }
    var i :| 0 <= i < n && p[i] == x;
    i
  }

  /** The set of 0 .. n-1. */
  function Range(n: nat): (r: set<int>)
    ensures |r| == n && forall y :: y in r <==> 0 <= y < n
  {
    if n == 0 then {} else Range(n - 1) + {n - 1}
  }

  lemma Pick<T>(a: set<T>) returns (x: T)
    requires a != {}
    ensures x in a
  {
    x :| x in a;
  }

  lemma {:induction false} SubsetSize(a: set<int>, b: set<int>)
    requires a <= b
    ensures |a| <= |b|
  {
    if a != {} {
      var x := Pick(a);
      SubsetSize(a - {x}, b - {x});
    }
  }

  lemma {:induction false} ValuesSize(p: seq<int>)
    requires forall i, j :: 0 <= i < j < |p| ==> p[i] != p[j]
    ensures |set k | 0 <= k < |p| :: p[k]| == |p|
  {
    if p != [] {
      var q := p[..|p| - 1];
      ValuesSize(q);
      var vp, vq := set k | 0 <= k < |p| :: p[k], set k | 0 <= k < |q| :: q[k];
      forall x | x in vp ensures x in vq + {p[|p| - 1]} {
        var k :| 0 <= k < |p| && p[k] == x;
        if k < |q| { assert q[k] == x; }
      }
      forall x | x in vq ensures x in vp && x != p[|p| - 1] {
        var k :| 0 <= k < |q| && q[k] == x;
        assert p[k] == x;
      }
      assert vp == vq + {p[|p| - 1]};
    }
  }

  /** Distinct entries that all occur in another list of distinct entries are not more than those. */
  lemma Pigeonhole(p: seq<int>, q: seq<int>)
    requires forall i, j :: 0 <= i < j < |p| ==> p[i] != p[j]
    requires forall i, j :: 0 <= i < j < |q| ==> q[i] != q[j]
    requires forall i :: 0 <= i < |p| ==> p[i] in q
    ensures |p| <= |q|
  {
    ValuesSize(p);
    ValuesSize(q);
    var vp, vq := set i | 0 <= i < |p| :: p[i], set i | 0 <= i < |q| :: q[i];
    forall x | x in vp ensures x in vq {
      var i :| 0 <= i < |p| && p[i] == x;
      assert p[i] in q;
    }
    SubsetSize(vp, vq);
  }

  /** An array that holds i at place rank[i], for every i, is a permutation if rank is one. */
  lemma InverseIsPermutation(p: seq<int>, rank: seq<int>, n: nat)
    requires IsPermutation(rank, n) && |p| == n
    requires forall i :: 0 <= i < n ==> p[rank[i]] == i
    ensures IsPermutation(p, n)
    ensures forall k :: 0 <= k < n ==> 0 <= p[k] < n && rank[p[k]] == k
  {
    forall k | 0 <= k < n ensures 0 <= p[k] < n && rank[p[k]] == k {
      var i := Onto(rank, n, k);
    }
  }

  /** The entries of s in the order that p gives. */
  function Reindex(s: seq<int>, p: seq<int>): (r: seq<int>)
    requires forall i :: 0 <= i < |p| ==> 0 <= p[i] < |s|
    ensures |r| == |p| && forall i :: 0 <= i < |p| ==> r[i] == s[p[i]]
  {
    seq(|p|, i requires 0 <= i < |p| => s[p[i]])
  }

  ghost function Places(s: seq<int>, c: int): set<int> {
    set i | 0 <= i < |s| && s[i] == c
  }

  lemma {:induction false} CountIsSize(s: seq<int>, c: int)
    ensures CountEq(s, c) == |Places(s, c)|
  {
    if s != [] {
      var n := |s| - 1;
      CountIsSize(s[..n], c);
      assert Places(s, c) == Places(s[..n], c) + (if s[n] == c then {n} else {});
    }
  }

  lemma {:induction false} ImageSize(p: seq<int>, a: set<int>)
    requires forall i, j :: 0 <= i < j < |p| ==> p[i] != p[j]
    requires forall i :: i in a ==> 0 <= i < |p|
    ensures |set i | i in a :: p[i]| == |a|
  {
    if a != {} {
      var x := Pick(a);
      ImageSize(p, a - {x});
      assert (set i | i in a :: p[i]) == (set i | i in a - {x} :: p[i]) + {p[x]};
    }
  }

  /** Putting entries in another order does not change how many there are of each value. */
  lemma ReindexCount(s: seq<int>, p: seq<int>, c: int)
    requires IsPermutation(p, |s|)
    ensures CountEq(Reindex(s, p), c) == CountEq(s, c)
  {
    hide CountEq;
    var t := Reindex(s, p);
    CountIsSize(s, c);
    CountIsSize(t, c);
    ImageSize(p, Places(t, c));
    forall x | x in Places(s, c) ensures x in (set i | i in Places(t, c) :: p[i]) {
      var i := Onto(p, |s|, x);
      assert i in Places(t, c);
    }
    assert Places(s, c) == (set i | i in Places(t, c) :: p[i]);
  }

  lemma {:induction false} NoneAfter(s: seq<int>, i: nat, j: nat, c: int)
    requires i <= j <= |s| && forall k :: i <= k < j ==> s[k] != c
    ensures CountEq(s[..i], c) == CountEq(s[..j], c)
    decreases j
  {
    if i < j {
      CountNext(s, j - 1, c);
      NoneAfter(s, i, j - 1, c);
    }
  }
}

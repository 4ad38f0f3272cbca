/** The run-length coding in front of the block sort: four equal bytes are followed by a count of further ones. */
module Rle {

  import opened Rotations
  import opened Sequences

  function Rep(c: int, n: nat): (r: seq<int>)
    ensures |r| == n && forall i :: 0 <= i < n ==> r[i] == c
  {
    seq(n, i => c)
  }

  /** How many of the first four bytes are equal to the first. */
  function Lead(b: seq<int>): (n: nat)
    requires b != []
    ensures 1 <= n <= 4 && n <= |b| && forall i :: 0 <= i < n ==> b[i] == b[0]
    ensures n < 4 && n < |b| ==> b[n] != b[0]
  {
    if |b| < 2 || b[1] != b[0] then 1
    else if |b| < 3 || b[2] != b[0] then 2
    else if |b| < 4 || b[3] != b[0] then 3
    else 4
  }

  /** What a block stands for. Four equal bytes at its end, without a count, stand for themselves. */
  function UnRle(b: seq<int>): seq<int>
    requires Bytes(b)
    decreases |b|
  {
    if b == [] then []
    else
      var n := Lead(b);
      if n < 4 then Rep(b[0], n) + UnRle(b[n..])
      else if |b| == 4 then Rep(b[0], 4)
      else Rep(b[0], 4 + b[4]) + UnRle(b[5..])
  }

  /** No run of four is left without its count. */
  predicate Complete(b: seq<int>)
    decreases |b|
  {
    if b == [] then true
    else
      var n := Lead(b);
      if n < 4 then Complete(b[n..]) else |b| > 4 && Complete(b[5..])
  }

  /** How add_pair_to_block writes a run. */
  function Pair(c: int, n: int): (r: seq<int>)
    requires 1 <= n <= 255 && 0 <= c < 256
    ensures Bytes(r) && 1 <= |r| <= 5 && r[0] == c
  {
    if n < 4 then Rep(c, n) else Rep(c, 4) + [n - 4]
  }

  type Length = n: int | 1 <= n <= 255 witness 1

  datatype Run = Run(ch: byte, len: Length)

  /** Runs as the compressor finds them: a run that is not full is followed by one of another byte. */
  ghost predicate Runs(rs: seq<Run>) {
    forall i :: 0 <= i < |rs| - 1 ==> rs[i].ch != rs[i + 1].ch || rs[i].len == 255
  }

  function Written(rs: seq<Run>): (b: seq<int>)
    ensures Bytes(b) && (b == [] <==> rs == []) && (rs != [] ==> b[0] == rs[0].ch)
  {
    if rs == [] then [] else Pair(rs[0].ch, rs[0].len) + Written(rs[1..])
  }

  function Expanded(rs: seq<Run>): (r: seq<int>)
    ensures Bytes(r)
  {
    if rs == [] then [] else Rep(rs[0].ch, rs[0].len) + Expanded(rs[1..])
  }

  /** One run in front of others that do not continue it. */
  lemma PairFirst(c: int, n: int, rest: seq<int>)
    requires 1 <= n <= 255 && 0 <= c < 256 && Bytes(rest) && (n < 4 ==> rest == [] || rest[0] != c)
    ensures UnRle(Pair(c, n) + rest) == Rep(c, n) + UnRle(rest)
    ensures Complete(Pair(c, n) + rest) == Complete(rest)
  {
    var b := Pair(c, n) + rest;
    if n < 4 {
      assert Lead(b) == n && b[n..] == rest;
    } else {
      assert Lead(b) == 4 && b[4] == n - 4 && b[5..] == rest;
    }
  }

  /** The runs come back from what was written, for every sequence of runs. */
  lemma {:induction false} RunsComeBack(rs: seq<Run>)
    requires Runs(rs)
    ensures UnRle(Written(rs)) == Expanded(rs) && Complete(Written(rs))
  {
    if rs != [] {
      var rest := rs[1..];
      forall i | 0 <= i < |rest| - 1 ensures rest[i].ch != rest[i + 1].ch || rest[i].len == 255 {
        assert rest[i] == rs[i + 1] && rest[i + 1] == rs[i + 2];
      }
      RunsComeBack(rest);
      if rest != [] { assert rs[0].ch != rs[0 + 1].ch || rs[0].len == 255; }
      PairFirst(rs[0].ch, rs[0].len, Written(rest));
    }
  }

  lemma {:induction false} WrittenSnoc(rs: seq<Run>, r: Run)
    ensures Written(rs + [r]) == Written(rs) + Pair(r.ch, r.len)
    ensures Expanded(rs + [r]) == Expanded(rs) + Rep(r.ch, r.len)
  {
    if rs == [] {
      assert rs + [r] == [r] && [r][1..] == [];
    } else {
      WrittenSnoc(rs[1..], r);
      assert (rs + [r])[1..] == rs[1..] + [r];
      hide Pair, Rep;
      Assoc(Pair(rs[0].ch, rs[0].len), Written(rs[1..]), Pair(r.ch, r.len));
      Assoc(Rep(rs[0].ch, rs[0].len), Expanded(rs[1..]), Rep(r.ch, r.len));
    }
  }

}

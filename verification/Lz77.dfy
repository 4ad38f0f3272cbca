/** The tokens that deflate's matchers produce, and what they stand for. */
module Lz77 {

  import opened Rotations
  import opened Window

  const MIN_MATCH := 3
  const MAX_MATCH := 258
  const MIN_LOOKAHEAD := 262

  datatype Token = Literal(c: int) | Match(dist: int, len: int)

  /** The data that tokens stand for: literals, and copies of what came before. */
  function Expand(ts: seq<Token>): seq<int> {
    if ts == [] then []
    else
      var d := Expand(ts[..|ts| - 1]);
      match ts[|ts| - 1]
      case Literal(c) => d + [c]
      case Match(dist, len) => if 1 <= dist <= |d| && len >= 0 then Copied(d, dist, len) else d
  }

  /** What may follow tokens that stand for n bytes: matches reach back at most maxDist bytes, and not before the
      start. */
  predicate GoodToken(t: Token, n: int, maxDist: int) {
    match t
    case Literal(c) => 0 <= c < 256
    case Match(dist, len) => 1 <= dist <= maxDist && dist <= n && MIN_MATCH <= len <= MAX_MATCH
  }

  ghost predicate GoodTokens(ts: seq<Token>, maxDist: int) {
    forall i :: 0 <= i < |ts| ==> GoodToken(ts[i], |Expand(ts[..i])|, maxDist)
  }

  /** The tokens stand for the first n bytes of data. */
  ghost predicate Codes(ts: seq<Token>, data: seq<int>, n: int, maxDist: int) {
    0 <= n <= |data| && Expand(ts) == data[..n] && GoodTokens(ts, maxDist)
  }

  lemma GoodSnoc(ts: seq<Token>, t: Token, maxDist: int)
    requires GoodTokens(ts, maxDist) && GoodToken(t, |Expand(ts)|, maxDist)
    ensures GoodTokens(ts + [t], maxDist)
  {
    var us := ts + [t];
    forall i | 0 <= i < |us| ensures GoodToken(us[i], |Expand(us[..i])|, maxDist) {
      if i < |ts| { assert us[..i] == ts[..i]; } else { assert us[..i] == ts; }
    }
  }

  lemma NoTokens(data: seq<int>, maxDist: int)
    ensures Codes([], data, 0, maxDist)
  {
  }

  lemma CodesLiteral(ts: seq<Token>, data: seq<int>, n: int, maxDist: int)
    requires Codes(ts, data, n, maxDist) && n < |data| && 0 <= data[n] < 256
    ensures Codes(ts + [Literal(data[n])], data, n + 1, maxDist)
  {
    var us := ts + [Literal(data[n])];
    assert us[..|us| - 1] == ts;
    assert data[..n] + [data[n]] == data[..n + 1];
    GoodSnoc(ts, Literal(data[n]), maxDist);
  }

  /** The bytes from n on repeat those dist places before. */
  ghost predicate Repeats(data: seq<int>, n: int, dist: int, len: int) {
    1 <= dist <= n && len >= 0 && n + len <= |data| && forall k :: n <= k < n + len ==> data[k] == data[k - dist]
  }

  lemma {:induction false} CopyRepeats(data: seq<int>, n: int, dist: int, len: int)
    requires Repeats(data, n, dist, len)
    ensures Copied(data[..n], dist, len) == data[..n + len]
    decreases len
  {
    if len > 0 {
      CopyRepeats(data, n, dist, len - 1);
      assert data[n + len - 1] == data[n + len - 1 - dist];
      assert data[..n + len] == data[..n + len - 1] + [data[n + len - 1]];
    }
  }

  lemma CodesMatch(ts: seq<Token>, data: seq<int>, n: int, dist: int, len: int, maxDist: int)
    requires Codes(ts, data, n, maxDist) && Repeats(data, n, dist, len) && dist <= maxDist &&
      MIN_MATCH <= len <= MAX_MATCH
    ensures Codes(ts + [Match(dist, len)], data, n + len, maxDist)
  {
    var us := ts + [Match(dist, len)];
    assert us[..|us| - 1] == ts;
    CopyRepeats(data, n, dist, len);
    GoodSnoc(ts, Match(dist, len), maxDist);
  }
}

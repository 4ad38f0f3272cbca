/** Calls of inflate, as far as output and window are concerned: matches that are cut off by the end of the room and
    resumed in a later call, literals, and the decision to update the window. */
module InflateCalls {

  import opened Powers
  import opened Window
  import opened Lz77
  import opened InflateCopy
  import opened InflateSlices
  import Deflate

  /** What the codes of the format can express. */
  predicate Expressible(t: Token) {
    match t
    case Literal(c) => 0 <= c < 256
    case Match(dist, len) => 1 <= dist && MIN_MATCH <= len <= MAX_MATCH
  }

  ghost predicate AllExpressible(ts: seq<Token>) { forall i :: 0 <= i < |ts| ==> Expressible(ts[i]) }

  /** What the tokens before the last one stand for. */
  ghost function Before(all: seq<Token>): seq<int>
    requires all != []
  {
    Expand(all[..|all| - 1])
  }

  /** total is what the tokens taken so far stand for, or lacks what is still due of the last one. */
  ghost predicate Stands(mode: Mode, length: nat, offset: nat, all: seq<Token>, total: seq<int>) {
    match mode
    case Len | Done => total == Expand(all)
    case Lit => all != [] && all[|all| - 1] == Literal(length) && total == Before(all)
    case Matching =>
      all != [] && all[|all| - 1].Match? && all[|all| - 1].dist == offset && 1 <= length <= all[|all| - 1].len &&
      if length == all[|all| - 1].len then total == Before(all)
      else 1 <= offset <= |Before(all)| && total == Copied(Before(all), offset, all[|all| - 1].len - length)
    case Bad => all != [] && Before(all) <= total
  }

  lemma AtLen(length: nat, offset: nat, all: seq<Token>, total: seq<int>)
    requires Stands(Len, length, offset, all, total)
    ensures total == Expand(all)
  {
  }

  lemma DueIs(length: nat, offset: nat, all: seq<Token>, total: seq<int>)
    requires Stands(Matching, length, offset, all, total) && AllExpressible(all)
    ensures length >= 1 && offset >= 1
  {
    assert Expressible(all[|all| - 1]);
  }

  lemma OneMore(all: seq<Token>, t: Token)
    requires AllExpressible(all) && Expressible(t)
    ensures AllExpressible(all + [t])
  {
  }

  lemma TakeLiteral(all: seq<Token>, total: seq<int>, c: nat, offset: nat)
    requires total == Expand(all)
    ensures Stands(Lit, c, offset, all + [Literal(c)], total)
  {
    assert (all + [Literal(c)])[..|all|] == all;
  }

  lemma PutLiteral(all: seq<Token>, total: seq<int>, c: nat, offset: nat)
    requires Stands(Lit, c, offset, all, total)
    ensures Stands(Len, c, offset, all, total + [c])
  {
  }

  lemma TakeMatch(all: seq<Token>, total: seq<int>, dist: nat, len: nat)
    requires total == Expand(all) && len >= 1
    ensures Stands(Matching, len, dist, all + [Match(dist, len)], total)
  {
    assert (all + [Match(dist, len)])[..|all|] == all;
  }

  lemma MatchIsBad(all: seq<Token>, total: seq<int>, dist: nat, len: nat)
    requires Stands(Matching, len, dist, all, total)
    ensures Stands(Bad, 0, dist, all, total)
  {
  }

  /** A piece of a match. */
  lemma PutMatch(all: seq<Token>, h: seq<int>, out0: seq<int>, out: seq<int>, put: nat, dist: nat, len: nat, n: nat)
    requires 0 <= put <= |out0| && Stands(Matching, len, dist, all, SoFar(h, out0, 0, put))
    requires n <= len && Copying(h, out0, out, 0, put, dist, n)
    ensures Stands(if n == len then Len else Matching, len - n, dist, all, SoFar(h, out, 0, put + n))
  {
    hide *;
    CopyMade(h, out0, out, put, dist, n);
    var whole := DueMatch(all, SoFar(h, out0, 0, put), dist, len);
    CopiedJoin(Before(all), dist, whole - len, n);
    MatchDue(all, SoFar(h, out, 0, put + n), dist, len - n, whole);
  }

  lemma CopyMade(h: seq<int>, out0: seq<int>, out: seq<int>, put: nat, dist: nat, n: nat)
    requires Copying(h, out0, out, 0, put, dist, n)
    ensures put + n <= |out| && 1 <= dist <= |SoFar(h, out0, 0, put)| &&
      SoFar(h, out, 0, put + n) == Copied(SoFar(h, out0, 0, put), dist, n)
  {
  }

  /** The bytes of a match that are in place. */
  lemma DueMatch(all: seq<Token>, total: seq<int>, dist: nat, len: nat) returns (whole: nat)
    requires Stands(Matching, len, dist, all, total) && 1 <= dist <= |total|
    ensures all != [] && all[|all| - 1] == Match(dist, whole) && 1 <= len <= whole && 1 <= dist <= |Before(all)|
    ensures total == Copied(Before(all), dist, whole - len)
  {
    whole := all[|all| - 1].len;
    hide Expand;
  }

  lemma MatchDue(all: seq<Token>, total: seq<int>, dist: nat, len: nat, whole: nat)
    requires all != [] && all[|all| - 1] == Match(dist, whole) && len <= whole && 1 <= dist <= |Before(all)|
    requires total == Copied(Before(all), dist, whole - len)
    ensures Stands(if len == 0 then Len else Matching, len, dist, all, total)
  {
    if len == 0 { assert Expand(all) == Copied(Before(all), dist, whole); }
  }

  /** If no distance exceeds the size of the window, none reaches behind it, in whatever call the match is resumed. */
  lemma InReach(s: Inflater, all: seq<Token>, put: nat, out: seq<int>, dist: nat, len: nat)
    requires s.Valid() && put <= |out| && Stands(Matching, len, dist, all, SoFar(s.history, out, 0, put)) &&
      GoodTokens(all, Pow2(s.wbits))
    ensures dist <= put + s.whave
  {
    hide Pow2, Expand;
    Reach(s);
    assert GoodToken(all[|all| - 1], |Before(all)|, Pow2(s.wbits));
    Held(s);
  }

  lemma Held(s: Inflater)
    requires s.Valid()
    ensures s.whave == |s.history| || s.whave == Pow2(s.wbits)
  {
    hide Pow2;
  }

  /** The test that inflate makes, in terms of where its call began: in reach is what this call has put out, and of what
      was put out before it as much as the window holds. */
  lemma ReachExactly(s: Inflater, put: nat, dist: nat)
    requires s.Valid()
    ensures dist <= put + s.whave <==> Reached(dist, |s.history| + put, |s.history|, Pow2(s.wbits))
  {
    hide Pow2;
    Reach(s);
    Held(s);
    WindowFull(s);
  }

  lemma WindowFull(s: Inflater)
    requires s.Valid()
    ensures s.whave <= Pow2(s.wbits)
  {
    hide Pow2;
  }

  /** What a copy of n bytes does to the slices. */
  lemma SliceMatch(all: seq<Token>, starts: seq<int>, total: seq<int>, start: nat, size: nat, dist: nat, len: nat,
      n: nat)
    requires Stands(Matching, len, dist, all, total) && AllExpressible(all) &&
      Sliced(Matching, all, starts, |total|, size)
    requires Within(starts, start) && start <= |total|
    ensures !Reached(dist, |total|, start, size) ==> Sliced(Bad, all, starts + AllAt(start, 1), |total|, size)
    ensures Reached(dist, |total|, start, size) && dist <= |total| && n <= len ==>
              Sliced(if n == len then Len else Matching, all, starts + AllAt(start, n), |total| + n, size)
  {
    hide Expand, Sliced, Within, Copied, AllAt;
    LastMatch(all, total, dist, len);
    StartsLength(Matching, all, starts, |total|, size);
    if Reached(dist, |total|, start, size) {
      if dist <= |total| {
        var whole := DueMatch(all, total, dist, len);
        SlicedMatch(all, starts, start, size, n);
      }
    } else {
      SlicedBad(all, starts, start, size);
    }
  }

  lemma LastMatch(all: seq<Token>, total: seq<int>, dist: nat, len: nat)
    requires Stands(Matching, len, dist, all, total) && AllExpressible(all)
    ensures all != [] && all[|all| - 1].Match? && all[|all| - 1].dist == dist >= 1 && all[|all| - 1].len >= MIN_MATCH
    ensures |Before(all)| <= |total| < |Before(all)| + all[|all| - 1].len
  {
    assert Expressible(all[|all| - 1]);
  }

  lemma StartsLength(mode: Mode, all: seq<Token>, starts: seq<int>, total: nat, size: nat)
    requires Sliced(mode, all, starts, total, size)
    ensures |starts| == total + (if mode == Bad then 1 else 0)
  {
  }

  /** inflate's state between two calls. */
  class Stream {
    const s: Inflater
    var mode: Mode
    var length: nat
    var offset: nat
    /** All tokens that were taken, and all bytes that were put out. */
    ghost var all: seq<Token>
    ghost var total: seq<int>
    /** For every byte put out, where the call began. */
    ghost var starts: seq<int>

    ghost predicate Valid()
      reads this, s, s.window
    {
      && s.Valid() && Stands(mode, length, offset, all, total) && AllExpressible(all)
      && (mode == Len || mode == Matching || mode == Lit ==> s.history == total)
      && (GoodTokens(all, Pow2(s.wbits)) ==> mode != Bad)
      && Sliced(mode, all, starts, |total|, Pow2(s.wbits))
    }

    constructor (wbits: nat)
      ensures Valid() && fresh(s) && fresh(s.window) && all == [] && total == [] && starts == [] && mode == Len &&
        s.wbits == wbits
    {
      s := new Inflater(wbits);
      mode, length, offset, all, total, starts := Len, 0, 0, [], [], [];
      SlicedStart(Pow2(wbits));
    }

    /** Within a call that has put out put bytes. */
    ghost predicate Going(out: seq<int>, put: nat)
      reads this, s, s.window
    {
      && s.Valid() && put <= |out| && Stands(mode, length, offset, all, SoFar(total, out, 0, put))
      && AllExpressible(all)
      && (mode == Len || mode == Matching || mode == Lit ==> s.history == total)
      && (GoodTokens(all, Pow2(s.wbits)) ==> mode != Bad)
      && Sliced(mode, all, starts, |total| + put, Pow2(s.wbits)) && (mode != Bad ==> Within(starts, |total|))
    }

    /** The start of a call. */
    lemma Entering(out: seq<int>)
      requires Valid()
      ensures Going(out, 0)
    {
      hide Inflater.Valid, Stands, GoodTokens, Pow2, Expand;
      assert SoFar(total, out, 0, 0) == total;
      StartsLength(mode, all, starts, |total|, Pow2(s.wbits));
    }

    /** LEN: the next token, to be put out as the room allows. */
    method TakeToken(t: Token, ghost out: seq<int>, ghost put: nat)
      requires Going(out, put) && mode == Len && Expressible(t)
      modifies this`mode, this`length, this`offset, this`all
      ensures all == old(all) + [t] && Going(out, put)
      ensures if t.Literal? then mode == Lit else mode == Matching && length == t.len && offset == t.dist
    {
      hide Inflater.Valid, Stands, SoFar, GoodTokens, Pow2, Expand, Sliced;
      ghost var now := SoFar(s.history, out, 0, put);
      SoFarSize(s.history, out, put);
      AtLen(length, offset, all, now);
      SlicedTake(all, starts, Pow2(s.wbits), t, if t.Literal? then Lit else Matching);
      OneMore(all, t);
      match t {
        case Literal(c) =>
          TakeLiteral(all, now, c, offset);
          length, mode := c, Lit;
        case Match(dist, len) =>
          TakeMatch(all, now, dist, len);
          length, offset, mode := len, dist, Matching;
      }
      all := all + [t];
    }

    /** LEN in inflate_fast: the next token, put out at once. */
    method PutToken(t: Token, out: array<int>, put0: nat) returns (put: nat)
      requires Going(out[..], put0) && mode == Len && Expressible(t) && out != s.window && put0 + 258 <= out.Length
      modifies this`mode, this`length, this`offset, this`all, this`starts, out
      ensures all == old(all) + [t] && put0 <= put <= out.Length && Going(out[..], put) && (mode == Len || mode == Bad)
      ensures mode == Bad ==> put == put0 < out.Length && Beyond(all, |total| + put, put + s.whave)
      ensures Grown(old(starts), starts, |total|)
    {
      hide Inflater.Valid, Stands, SoFar, GoodTokens, Pow2, Expand, Copying, Sliced;
      put := put0;
      TakeToken(t, out[..], put);
      if mode == Lit {
        put := PutByte(out, put);
        return;
      }
      ghost var out0 := out[..];
      var bad, end := MatchFast(s, out, 0, put, offset, length);
      SettleMatch(out0, out[..], put, bad, length);
      starts := starts + AllAt(|total|, if bad then 1 else length);
      put := end;
      length := 0;
      mode := if bad then Bad else Len;
    }

    /** LIT */
    method PutByte(out: array<int>, put0: nat) returns (put: nat)
      requires Going(out[..], put0) && mode == Lit && put0 < out.Length && out != s.window
      modifies this`mode, this`starts, out
      ensures put == put0 + 1 && Going(out[..], put) && mode == Len
      ensures Grown(old(starts), starts, |total|)
    {
      hide Inflater.Valid, Stands, GoodTokens, Pow2, Expand, Sliced;
      ghost var now := SoFar(s.history, out[..], 0, put0);
      LitLast(all, now, length, offset);
      StartsLength(mode, all, starts, |total| + put0, Pow2(s.wbits));
      SlicedLiteral(all, starts, |total|, Pow2(s.wbits));
      starts := starts + AllAt(|total|, 1);
      PutLiteral(all, now, length, offset);
      out[put0] := length;
      put := put0 + 1;
      mode := Len;
      assert SoFar(s.history, out[..], 0, put) == now + [length];
    }

    /** What a copy of n bytes makes of the match that is due. */
    lemma SettleMatch(out0: seq<int>, out: seq<int>, put: nat, bad: bool, n: nat)
      requires Going(out0, put) && mode == Matching && n <= length && (bad <==> offset > put + s.whave)
      requires if bad then out == out0 else Copying(s.history, out0, out, 0, put, offset, n)
      ensures bad ==> !GoodTokens(all, Pow2(s.wbits)) && Stands(Bad, 0, offset, all, SoFar(s.history, out, 0, put))
      ensures !bad ==>
        Stands(if n == length then Len else Matching, length - n, offset, all, SoFar(s.history, out, 0, put + n))
      ensures bad ==>
        Sliced(Bad, all, starts + AllAt(|total|, 1), |total| + put, Pow2(s.wbits)) &&
        Beyond(all, |total| + put, put + s.whave)
      ensures !bad ==>
        Sliced(if n == length then Len else Matching, all, starts + AllAt(|total|, n), |total| + put + n, Pow2(s.wbits))
    {
      hide Inflater.Valid, Stands, SoFar, Copying, GoodTokens, Pow2, Expand, Sliced, AllAt, Within;
      SoFarSize(s.history, out0, put);
      ReachExactly(s, put, offset);
      SliceMatch(all, starts, SoFar(s.history, out0, 0, put), |total|, Pow2(s.wbits), offset, length, n);
      LastMatch(all, SoFar(s.history, out0, 0, put), offset, length);
      if bad {
        MatchIsBad(all, SoFar(s.history, out, 0, put), offset, length);
        if GoodTokens(all, Pow2(s.wbits)) { InReach(s, all, put, out0, offset, length); }
      } else {
        PutMatch(all, s.history, out0, out, put, offset, length, n);
        CopyMade(s.history, out0, out, put, offset, n);
      }
    }

    /** MATCH: one pass. */
    method PutPiece(out: array<int>, put0: nat) returns (put: nat)
      requires Going(out[..], put0) && mode == Matching && put0 < out.Length && out != s.window
      modifies this`mode, this`length, this`starts, out
      ensures put0 <= put <= out.Length && Going(out[..], put)
      ensures Grown(old(starts), starts, |total|)
      ensures mode == Bad ==> Beyond(all, |total| + put, put + s.whave)
      ensures if mode == Bad then put == put0
        else put0 < put && (mode == Len || (mode == Matching && length < old(length)))
    {
      hide Inflater.Valid, Stands, SoFar, Copying, GoodTokens, Pow2, Expand, Sliced;
      ghost var out0 := out[..];
      DueIs(length, offset, all, SoFar(s.history, out0, 0, put0));
      var bad, n := MatchStep(s, out, 0, put0, offset, length, out.Length - put0);
      SettleMatch(out0, out[..], put0, bad, n);
      starts := starts + AllAt(|total|, if bad then 1 else n);
      if bad {
        length, mode := 0, Bad;
        return put0;
      }
      put := put0 + n;
      mode := if n == length then Len else Matching;
      length := length - n;
    }

    /** A turn of inflate's loop: stop says that it has to leave. */
    method Turn(todo: seq<Token>, n0: nat, last: bool, plenty: bool, out: array<int>, put0: nat)
        returns (n: nat, put: nat, stop: bool)
      requires Going(out[..], put0) && AllExpressible(todo) && n0 <= |todo| && out != s.window
      modifies this`mode, this`length, this`offset, this`all, this`starts, out
      ensures Going(out[..], put) && put0 <= put && n0 <= n <= |todo| && old(all) + todo[n0..n] == all
      ensures Grown(old(starts), starts, |total|) && (old(mode) == Bad ==> mode == Bad && put == put0 && n == n0)
      ensures mode == Bad && old(mode) != Bad ==> put < out.Length && Beyond(all, |total| + put, put + s.whave)
      ensures mode == Done ==> (old(mode) == Done && n == n0) || (last && n == |todo|)
      ensures stop ==> put == out.Length || mode == Bad || mode == Done || (n == |todo| && mode == Len)
      ensures !stop ==>
        Left(n, |todo|, put, out.Length, mode, length) < Left(n0, |todo|, put0, out.Length, old(mode), old(length))
    {
      hide Inflater.Valid, Stands, SoFar, Copying, GoodTokens, Pow2, Expand, Sliced;
      n, put, stop := n0, put0, false;
      assert todo[n..n] == [] && all + [] == all;
      match mode {
        case Len =>
          if n < |todo| {
            Each(todo, n);
            if plenty && put + 258 <= out.Length {
              put := PutToken(todo[n], out, put);
            } else {
              TakeToken(todo[n], out[..], put);
            }
            n := n + 1;
            assert todo[n0..n] == [todo[n0]];
          } else if last {
            mode := Done;
            AtEnd(length, offset, all, SoFar(s.history, out[..], 0, put));
            SlicedDone(all, starts, |total| + put, Pow2(s.wbits));
          } else {
            stop := true;
          }
        case Matching =>
          if put == out.Length { stop := true; } else { put := PutPiece(out, put); }
        case Lit =>
          if put == out.Length { stop := true; } else { put := PutByte(out, put); }
        case Done | Bad =>
          stop := true;
      }
    }

    /** inflate, from its first turn to inf_leave. todo are the tokens that the input of this call holds, last says
        whether the end of the last block follows them, finish that the call is made with Z_FINISH, and plenty that
        there is input enough for inflate_fast whenever there is room enough. The call puts out what the tokens stand
        for, as far as there is room. */
    method Inflate(todo: seq<Token>, last: bool, finish: bool, plenty: bool, out: array<int>) returns (n: nat, put: nat)
      requires Valid() && AllExpressible(todo) && out != s.window
      modifies this`mode, this`length, this`offset, this`all, this`total, this`starts, s, s.window, out
      ensures Valid() && (s.window == old(s.window) || fresh(s.window)) && n <= |todo| && put <= out.Length
      ensures mode == Bad <==> Refused(all, starts, Pow2(s.wbits))
      ensures Grown(old(starts), starts, |old(total)|) && (old(mode) == Bad ==> mode == Bad && put == 0)
      ensures old(mode) != Bad ==> (mode == Bad <==> put < out.Length && Beyond(all, |total|, put + old(s.whave)))
      ensures all == old(all) + todo[..n] && total == old(total) + out[..put]
      ensures put == out.Length || mode == Bad || mode == Done || (n == |todo| && mode == Len)
      ensures mode == Done ==> old(mode) == Done || (last && n == |todo|)
    {
      hide Inflater.Valid, Stands, SoFar, GoodTokens, Pow2, Expand, AllExpressible, Sliced, Refused, Beyond;
      n, put := 0, 0;
      Entering(out[..]);
      var stop := false;
      ghost var window := s.window;
      while !stop
        invariant Going(out[..], put) && n <= |todo| && all == old(all) + todo[..n] && s.window == window &&
          total == old(total)
        invariant s.whave == old(s.whave)
        invariant stop ==> put == out.Length || mode == Bad || mode == Done || (n == |todo| && mode == Len)
        invariant Grown(old(starts), starts, |total|) && (old(mode) == Bad ==> mode == Bad && put == 0)
        invariant mode == Bad && old(mode) != Bad ==> put < out.Length && Beyond(all, |total| + put, put + old(s.whave))
        invariant mode == Done ==> (old(mode) == Done && n == 0) || (last && n == |todo|)
        decreases !stop, Left(n, |todo|, put, out.Length, mode, length)
      {
        ghost var m := n;
        n, put, stop := Turn(todo, n, last, plenty, out, put);
        assert todo[..n] == todo[..m] + todo[m..n];
      }
      SoFarSize(total, out[..], put);
      RefusedIff(mode, all, starts, |total| + put, Pow2(s.wbits));
      if mode == Len || mode == Done {
        NotBeyond(mode, length, offset, all, SoFar(total, out[..], 0, put), starts, Pow2(s.wbits), put + s.whave);
      }
      if s.wsize != 0 || (put != 0 && mode != Bad && (mode != Done || !finish)) {
        s.UpdateWindow(out, put, put);
        assert out[put - put..put] == out[..put];
      }
      SoFarIs(total, out[..], put);
      total := total + out[..put];
    }
  }

  /** Bytes were put out in a call that began at start. */
  ghost predicate Grown(was: seq<int>, now: seq<int>, start: int) {
    was <= now && forall n :: |was| <= n < |now| ==> now[n] == start
  }

  /** A match is under way, and its distance is more than far. */
  ghost predicate Beyond(all: seq<Token>, total: int, far: int) {
    && all != [] && all[|all| - 1].Match? && |Before(all)| <= total < |Before(all)| + all[|all| - 1].len
    && all[|all| - 1].dist > far
  }

  lemma RefusedIff(mode: Mode, all: seq<Token>, starts: seq<int>, total: nat, size: nat)
    requires Sliced(mode, all, starts, total, size)
    ensures mode == Bad <==> Refused(all, starts, size)
  {
  }

  lemma NotBeyond(mode: Mode, length: nat, offset: nat, all: seq<Token>, total: seq<int>, starts: seq<int>, size: nat,
      far: int)
    requires Stands(mode, length, offset, all, total) && (mode == Len || mode == Done) &&
      Sliced(mode, all, starts, |total|, size)
    ensures !Beyond(all, |total|, far)
  {
    hide Expand, Refused, Cutting;
    if all != [] && all[|all| - 1].Match? {
      ExpandMatch(all, |all| - 1);
      assert all[..|all|] == all;
    }
  }

  lemma SoFarSize(h: seq<int>, out: seq<int>, put: nat)
    requires put <= |out|
    ensures |SoFar(h, out, 0, put)| == |h| + put
  {
  }

  lemma LitLast(all: seq<Token>, total: seq<int>, c: nat, offset: nat)
    requires Stands(Lit, c, offset, all, total)
    ensures all != [] && all[|all| - 1].Literal? && |total| == |Before(all)|
  {
  }

  lemma SoFarIs(h: seq<int>, out: seq<int>, put: nat)
    requires put <= |out|
    ensures SoFar(h, out, 0, put) == h + out[..put] && (put == 0 ==> h + out[..put] == h)
  {
  }

  /** What is left to be done in a call. */
  function Left(n: nat, all: nat, put: nat, room: nat, mode: Mode, length: nat): int {
    4 * (all - n) + 2 * (room - put) + (if mode == Matching || mode == Lit then 1 else if mode == Len then 2 else 0)
  }

  lemma Each(todo: seq<Token>, n: nat)
    requires AllExpressible(todo) && n < |todo|
    ensures Expressible(todo[n])
  {
  }

  lemma AtEnd(length: nat, offset: nat, all: seq<Token>, total: seq<int>)
    requires Stands(Len, length, offset, all, total)
    ensures Stands(Done, length, offset, all, total)
  {
  }

  // ----- deflate and inflate -----

  lemma ExpandNext(ts: seq<Token>)
    requires ts != []
    ensures Before(ts) <= Expand(ts)
  {
  }

  lemma {:induction false} ExpandGrows(ts: seq<Token>, n: nat)
    requires n <= |ts|
    ensures Expand(ts[..n]) <= Expand(ts)
    decreases |ts|
  {
    hide Expand;
    if n == |ts| {
      assert ts[..n] == ts;
    } else {
      ExpandGrows(ts[..|ts| - 1], n);
      assert ts[..|ts| - 1][..n] == ts[..n];
      ExpandNext(ts);
    }
  }

  lemma CopyGrows(h: seq<int>, dist: nat, m: nat, n: nat)
    requires 1 <= dist <= |h| && m <= n
    ensures Copied(h, dist, m) <= Copied(h, dist, n)
  {
    CopiedJoin(h, dist, m, n - m);
  }

  /** What has been put out is a beginning of what the tokens stand for. */
  lemma StandsInside(mode: Mode, length: nat, offset: nat, all: seq<Token>, total: seq<int>)
    requires Stands(mode, length, offset, all, total) && mode != Bad
    ensures total <= Expand(all)
  {
    if mode == Lit {
      ExpandNext(all);
    } else if mode == Matching {
      ExpandNext(all);
      if length < all[|all| - 1].len {
        CopyGrows(Before(all), offset, all[|all| - 1].len - length, all[|all| - 1].len);
      }
    }
  }

  lemma GoodPart(ts: seq<Token>, n: nat, maxDist: int, size: int)
    requires GoodTokens(ts, maxDist) && n <= |ts| && maxDist <= size
    ensures GoodTokens(ts[..n], size)
  {
    hide Expand;
    forall i | 0 <= i < n ensures GoodToken(ts[..n][i], |Expand(ts[..n][..i])|, size) {
      assert ts[..n][..i] == ts[..i] && ts[..n][i] == ts[i];
    }
  }

  /** Tokens that deflate has produced, over whatever calls, give the input back when inflate is fed with them, over
      whatever calls: never a distance too far back, at any time a beginning of the input, and at the end all of it. */
  lemma RoundTrip(m: Deflate.Matcher, r: Stream)
    requires m.Valid() && m.w_size <= Pow2(r.s.wbits) && r.Valid() && r.all <= m.tokens
    ensures r.mode != Bad && r.total <= m.supplied
    ensures m.finished && r.all == m.tokens && (r.mode == Len || r.mode == Done) ==> r.total == m.supplied
  {
    hide Inflater.Valid, Stands, GoodTokens, Pow2, Expand, AllExpressible, Deflate.Matcher.Valid;
    m.Standing();
    assert r.all == m.tokens[..|r.all|];
    GoodPart(m.tokens, |r.all|, m.MaxDist(), Pow2(r.s.wbits));
    ExpandGrows(m.tokens, |r.all|);
    StandsInside(r.mode, r.length, r.offset, r.all, r.total);
    if r.mode == Len || r.mode == Done { StandsWhole(r.mode, r.length, r.offset, r.all, r.total); }
  }

  lemma StandsWhole(mode: Mode, length: nat, offset: nat, all: seq<Token>, total: seq<int>)
    requires Stands(mode, length, offset, all, total) && (mode == Len || mode == Done)
    ensures total == Expand(all)
  {
  }
}

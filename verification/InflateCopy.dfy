/** The copies that inflate and inflate_fast make: from the window, from the output, or from one and then the other. */
module InflateCopy {

  import opened Powers
  import opened Window

  /** All that was put out: what is in out from beg on belongs to this call. */
  ghost function SoFar(h: seq<int>, out: seq<int>, beg: nat, put: nat): seq<int>
    requires beg <= put <= |out|
  {
    h + out[beg..put]
  }

  /** k bytes of a copy that began at put0 are in place. */
  ghost predicate Copying(h: seq<int>, out0: seq<int>, out: seq<int>, beg: nat, put0: nat, dist: nat, k: nat) {
    && beg <= put0 && put0 + k <= |out0| == |out| && 1 <= dist <= |h| + put0 - beg
    && SoFar(h, out, beg, put0 + k) == Copied(SoFar(h, out0, beg, put0), dist, k)
    && (forall i :: 0 <= i < |out| && !(put0 <= i < put0 + k) ==> out[i] == out0[i])
  }

  lemma CopyingStart(h: seq<int>, out: seq<int>, beg: nat, put0: nat, dist: nat)
    requires beg <= put0 <= |out| && 1 <= dist <= |h| + put0 - beg
    ensures Copying(h, out, out, beg, put0, dist, 0)
  {
  }

  /** The next byte is the one dist places back. */
  lemma CopyingNext(h: seq<int>, out0: seq<int>, out: seq<int>, beg: nat, put0: nat, dist: nat, k: nat, x: int)
    requires Copying(h, out0, out, beg, put0, dist, k) && put0 + k < |out|
    requires x == SoFar(h, out, beg, put0 + k)[|h| + put0 - beg + k - dist]
    ensures Copying(h, out0, out[put0 + k := x], beg, put0, dist, k + 1)
  {
    var out', h0 := out[put0 + k := x], SoFar(h, out0, beg, put0);
    assert SoFar(h, out', beg, put0 + k + 1) == SoFar(h, out, beg, put0 + k) + [x];
    CopiedNext(h0, dist, k, x);
  }

  /** The byte dist places back, if it is in the window. */
  lemma InWindow(h: seq<int>, w: seq<int>, wnext: int, whave: int, out0: seq<int>, out: seq<int>, beg: nat, put0: nat,
      dist: nat, k: nat, d: int)
    requires Ring(w, wnext, whave, h) && Copying(h, out0, out, beg, put0, dist, k) && d == dist - (put0 + k - beg) &&
      1 <= d <= whave
    ensures 0 <= Back(wnext, |w|, d) < |w|
    ensures w[Back(wnext, |w|, d)] == SoFar(h, out, beg, put0 + k)[|h| + put0 - beg + k - dist]
  {
  }

  lemma WindowStep(h: seq<int>, w: seq<int>, wnext: int, whave: int, out0: seq<int>, out: seq<int>, beg: nat, put0: nat,
      dist: nat, k: nat, from: int, d: int)
    requires Ring(w, wnext, whave, h) && Copying(h, out0, out, beg, put0, dist, k) && d == dist - (put0 + k - beg) &&
      1 <= d <= whave
    requires put0 + k < |out| && from == Back(wnext, |w|, d)
    ensures 0 <= from < |w| && Copying(h, out0, out[put0 + k := w[from]], beg, put0, dist, k + 1)
  {
    hide Copying, SoFar, Ring, Back;
    InWindow(h, w, wnext, whave, out0, out, beg, put0, dist, k, d);
    CopyingNext(h, out0, out, beg, put0, dist, k, w[from]);
  }

  lemma BackMoves(wnext: int, size: int, d: int, k: int)
    requires 0 <= k < (if d > wnext then d - wnext else d)
    ensures Back(wnext, size, d - k) == Back(wnext, size, d) + k
  {
  }

  /** Copies n bytes from the window, all of them before its end. */
  method TakeWindow(w: seq<int>, out: array<int>, put: nat, from: nat, n: nat, ghost wnext: int, ghost whave: int,
      ghost h: seq<int>, ghost out0: seq<int>, ghost beg: nat, ghost put0: nat, ghost dist: nat)
    requires 0 <= wnext && Ring(w, wnext, whave, h) && beg <= put0 <= put && put + n <= out.Length
    requires Copying(h, out0, out[..], beg, put0, dist, put - put0)
    requires var d := dist - (put - beg);
      d <= whave && n <= (if d > wnext then d - wnext else d) && (n > 0 ==> from == Back(wnext, |w|, d))
    modifies out
    ensures Copying(h, out0, out[..], beg, put0, dist, put - put0 + n)
  {
    hide Copying, SoFar, Ring, Back;
    ghost var d := dist - (put - beg);
    for k := 0 to n
      invariant Copying(h, out0, out[..], beg, put0, dist, put - put0 + k)
    {
      ghost var now := out[..];
      BackMoves(wnext, |w|, d, k);
      WindowStep(h, w, wnext, whave, out0, now, beg, put0, dist, put - put0 + k, from + k, d - k);
      out[put + k] := w[from + k];
      assert out[..] == now[put + k := w[from + k]];
    }
  }

  /** Copies n bytes from the output of this call; where they overlap, bytes just copied are copied again. */
  method TakeOutput(out: array<int>, put: nat, dist: nat, n: nat, ghost h: seq<int>, ghost out0: seq<int>,
      ghost beg: nat, ghost put0: nat)
    requires beg <= put0 <= put && put + n <= out.Length && (n > 0 ==> dist <= put - beg)
    requires Copying(h, out0, out[..], beg, put0, dist, put - put0)
    modifies out
    ensures Copying(h, out0, out[..], beg, put0, dist, put - put0 + n)
  {
    hide Copying, SoFar;
    for k := 0 to n
      invariant Copying(h, out0, out[..], beg, put0, dist, put - put0 + k)
    {
      ghost var now := out[..];
      InOutput(h, out0, now, beg, put0, dist, put - put0 + k);
      CopyingNext(h, out0, now, beg, put0, dist, put - put0 + k, now[put + k - dist]);
      out[put + k] := out[put + k - dist];
      assert out[..] == now[put + k := now[put + k - dist]];
    }
  }

  lemma InOutput(h: seq<int>, out0: seq<int>, out: seq<int>, beg: nat, put0: nat, dist: nat, k: nat)
    requires Copying(h, out0, out, beg, put0, dist, k) && dist <= put0 + k - beg
    ensures 1 <= dist && out[put0 + k - dist] == SoFar(h, out, beg, put0 + k)[|h| + put0 - beg + k - dist]
  {
  }

  lemma Reach(s: Inflater)
    requires s.Valid()
    ensures s.whave <= |s.history| && s.whave <= s.wsize && (s.whave > 0 ==> s.wsize > 0 && 0 <= s.wnext < s.wsize)
  {
  }

  /** One pass of inflate's state MATCH: as much as lies in one piece. A distance is bad exactly if it reaches behind
      the window. */
  method MatchStep(s: Inflater, out: array<int>, beg: nat, put: nat, offset: nat, length: nat, left: nat)
      returns (bad: bool, n: nat)
    requires s.Valid() && out != s.window && beg <= put && put + left <= out.Length && length >= 1 && left >= 1 &&
      offset >= 1
    modifies out
    ensures bad <==> offset > put - beg + s.whave
    ensures if bad then n == 0 && out[..] == old(out[..])
            else 1 <= n <= length && n <= left && Copying(s.history, old(out[..]), out[..], beg, put, offset, n)
  {
    hide Copying, Ring, Pow2;
    Reach(s);
    ghost var out0 := out[..];
    var copy := put - beg;
    if offset > copy {
      copy := offset - copy;
      if copy > s.whave { return true, 0; }
      CopyingStart(s.history, out0, beg, put, offset);
      var from;
      if copy > s.wnext {
        copy := copy - s.wnext;
        from := s.wsize - copy;
      } else {
        from := s.wnext - copy;
      }
      if copy > length { copy := length; }
      if copy > left { copy := left; }
      TakeWindow(s.window[..], out, put, from, copy, s.wnext, s.whave, s.history, out0, beg, put, offset);
    } else {
      CopyingStart(s.history, out0, beg, put, offset);
      copy := length;
      if copy > left { copy := left; }
      TakeOutput(out, put, offset, copy, s.history, out0, beg, put);
    }
    return false, copy;
  }

  /** inflate_fast's copy of a whole match. */
  method MatchFast(s: Inflater, out: array<int>, beg: nat, put0: nat, dist: nat, len0: nat)
      returns (bad: bool, put: nat)
    requires s.Valid() && out != s.window && beg <= put0 && put0 + len0 <= out.Length && len0 >= 3 && dist >= 1
    modifies out
    ensures bad <==> dist > put0 - beg + s.whave
    ensures if bad then put == put0 && out[..] == old(out[..])
            else put == put0 + len0 && Copying(s.history, old(out[..]), out[..], beg, put0, dist, len0)
  {
    hide Copying, Ring, Pow2;
    Reach(s);
    ghost var out0 := out[..];
    put := put0;
    var len, op := len0, put - beg;
    if dist > op {
      op := dist - op;
      if op > s.whave { return true, put; }
      CopyingStart(s.history, out0, beg, put, dist);
      var from;
      if s.wnext == 0 {
        from := s.wsize - op;
      } else if s.wnext < op {
        from := s.wsize + s.wnext - op;
        op := op - s.wnext;
        if op < len {
          len := len - op;
          TakeWindow(s.window[..], out, put, from, op, s.wnext, s.whave, s.history, out0, beg, put0, dist);
          put := put + op;
          from := 0;
          op := s.wnext;
        }
      } else {
        from := s.wnext - op;
      }
      if op < len {
        len := len - op;
        TakeWindow(s.window[..], out, put, from, op, s.wnext, s.whave, s.history, out0, beg, put0, dist);
        put := put + op;
        TakeOutput(out, put, dist, len, s.history, out0, beg, put0);
      } else {
        TakeWindow(s.window[..], out, put, from, len, s.wnext, s.whave, s.history, out0, beg, put0, dist);
      }
    } else {
      CopyingStart(s.history, out0, beg, put, dist);
      TakeOutput(out, put, dist, len, s.history, out0, beg, put0);
    }
    return false, put + len;
  }
}

/** inflate's sliding window: a ring that holds the last bytes of everything put out so far. */
module Window {

  import opened Powers

  /** Where the byte d places back lies in a ring of n bytes that is written next at wnext. */
  function Back(wnext: int, n: int, d: int): int {
    if d <= wnext then wnext - d else wnext + n - d
  }

  /** The ring w holds the last whave bytes of h. */
  ghost predicate Ring(w: seq<int>, wnext: int, whave: int, h: seq<int>) {
    && 0 <= wnext < |w| && whave == (if |h| < |w| then |h| else |w|) && (whave < |w| ==> wnext == whave)
    && forall d :: 1 <= d <= whave ==> w[Back(wnext, |w|, d)] == h[|h| - d]
  }

  /** w' is w with o written at place at. */
  ghost predicate Patched(w: seq<int>, w': seq<int>, at: int, o: seq<int>) {
    && 0 <= at && at + |o| <= |w| == |w'|
    && (forall i :: 0 <= i < |w| && !(at <= i < at + |o|) ==> w'[i] == w[i])
    && (forall i :: 0 <= i < |o| ==> w'[at + i] == o[i])
  }

  lemma RingWhole(w: seq<int>, h: seq<int>, o: seq<int>)
    requires 0 < |w| <= |o| && w == o[|o| - |w|..]
    ensures Ring(w, 0, |w|, h + o)
  {
  }

  /** The bytes fit before the end of the ring. */
  lemma RingStraight(w: seq<int>, w': seq<int>, wnext: int, whave: int, h: seq<int>, o: seq<int>)
    requires Ring(w, wnext, whave, h) && Patched(w, w', wnext, o)
    ensures var next := wnext + |o|;
            Ring(w', if next == |w| then 0 else next, if whave < |w| then whave + |o| else whave, h + o)
  {
    var n, c, next := |w|, |o|, wnext + |o|;
    var wnext' := if next == n then 0 else next;
    var whave' := if whave < n then whave + c else whave;
    forall d | 1 <= d <= whave' ensures w'[Back(wnext', n, d)] == (h + o)[|h + o| - d] {
      if d <= c {
        assert Back(wnext', n, d) == wnext + (c - d);
      } else {
        assert Back(wnext', n, d) == Back(wnext, n, d - c);
        assert w[Back(wnext, n, d - c)] == h[|h| - (d - c)];
      }
    }
  }

  /** They do not: the rest goes to the start. */
  lemma RingWrapped(w: seq<int>, w1: seq<int>, w2: seq<int>, wnext: int, whave: int, h: seq<int>, o: seq<int>)
    requires Ring(w, wnext, whave, h) && |w| - wnext < |o| < |w|
    requires var k := |w| - wnext; Patched(w, w1, wnext, o[..k]) && Patched(w1, w2, 0, o[k..])
    ensures Ring(w2, |o| - (|w| - wnext), |w|, h + o)
  {
    var n, c, k := |w|, |o|, |w| - wnext;
    var wnext' := c - k;
    forall d | 1 <= d <= n ensures w2[Back(wnext', n, d)] == (h + o)[|h + o| - d] {
      if d <= c - k {
        assert w2[0 + (c - k - d)] == o[k..][c - k - d];
      } else if d <= c {
        assert Back(wnext', n, d) == wnext + (c - d);
        assert w1[wnext + (c - d)] == o[..k][c - d];
      } else {
        assert Back(wnext', n, d) == Back(wnext, n, d - c);
        assert w[Back(wnext, n, d - c)] == h[|h| - (d - c)];
      }
    }
  }

  /** zmemcpy. */
  method MemCopy(dst: array<int>, at: nat, src: seq<int>)
    requires at + |src| <= dst.Length
    modifies dst
    ensures Patched(old(dst[..]), dst[..], at, src)
  {
    for i := 0 to |src|
      invariant forall k :: 0 <= k < dst.Length && !(at <= k < at + i) ==> dst[k] == old(dst[k])
      invariant forall k :: 0 <= k < i ==> dst[at + k] == src[k]
    {
      dst[at + i] := src[i];
    }
  }

  // ----- copies from what was put out: section 3.2.3 of RFC 1951 -----

  /** n more bytes, each a copy of the one that is dist places back at the time. */
  function Copied(h: seq<int>, dist: nat, n: nat): (r: seq<int>)
    requires 1 <= dist <= |h|
    ensures |r| == |h| + n && r[..|h|] == h
  {
    if n == 0 then h
    else
      var r := Copied(h, dist, n - 1);
      r + [r[|r| - dist]]
  }

  /** A copy may be made in pieces. */
  lemma {:induction false} CopiedJoin(h: seq<int>, dist: nat, m: nat, n: nat)
    requires 1 <= dist <= |h|
    ensures Copied(Copied(h, dist, m), dist, n) == Copied(h, dist, m + n)
    decreases n
  {
    if n > 0 { CopiedJoin(h, dist, m, n - 1); }
  }

  /** One more byte. */
  lemma CopiedNext(h: seq<int>, dist: nat, n: nat, x: int)
    requires 1 <= dist <= |h| && x == Copied(h, dist, n)[|h| + n - dist]
    ensures Copied(h, dist, n + 1) == Copied(h, dist, n) + [x]
  {
  }

  /** Any byte is the one that lies dist places before it; the pieces of a longer copy repeat what is before it. */
  lemma {:induction false} CopiedAt(h: seq<int>, dist: nat, n: nat, i: nat)
    requires 1 <= dist <= |h| && |h| <= i < |h| + n
    ensures Copied(h, dist, n)[i] == Copied(h, dist, n)[i - dist]
    decreases n
  {
    if i < |h| + n - 1 { CopiedAt(h, dist, n - 1, i); }
  }

  /** The parts of the state that updatewindow and the copying states of inflate use. */
  class Inflater {
    const wbits: nat
    var window: array<int>
    var wsize: nat
    var whave: nat
    var wnext: nat
    /** Everything put out in earlier calls. */
    ghost var history: seq<int>

    ghost predicate Valid()
      reads this, window
    {
      if wsize == 0 then whave == 0 && wnext == 0 && history == [] && window.Length == 0
      else wsize == window.Length == Pow2(wbits) && Ring(window[..], wnext, whave, history)
    }

    constructor (wbits: nat)
      ensures Valid() && fresh(window) && history == [] && this.wbits == wbits
    {
      this.wbits := wbits;
      window := new int[0];
      wsize, whave, wnext, history := 0, 0, 0, [];
    }

    /** updatewindow: the bytes that this call has put out, which end at end, go into the ring. */
    method UpdateWindow(out: array<int>, end: nat, copy0: nat)
      requires Valid() && copy0 <= end <= out.Length && out != window
      modifies this`window, this`wsize, this`whave, this`wnext, this`history, window
      ensures Valid() && wsize > 0 && history == old(history) + out[end - copy0..end]
      ensures (window == old(window) || fresh(window)) && out[..] == old(out[..])
    {
      hide Pow2, Ring;
      if window.Length == 0 {
        window := new int[Pow2(wbits)];
      }
      if wsize == 0 {
        wsize, wnext, whave := Pow2(wbits), 0, 0;
        RingEmpty(window[..], history);
      }
      var next, have := WriteRing(window, wsize, wnext, whave, out, end, copy0, history);
      history := history + out[end - copy0..end];
      wnext, whave := next, have;
    }

    /** inflateGetDictionary: the window, in order. */
    method GetDictionary() returns (dictionary: seq<int>)
      requires Valid()
      ensures |dictionary| == whave <= |history| && dictionary == history[|history| - whave..]
    {
      dictionary := [];
      if whave > 0 {
        dictionary := window[wnext..wnext + (whave - wnext)] + window[..wnext];
        ghost var w, n := window[..], wsize;
        forall i | 0 <= i < whave ensures dictionary[i] == history[|history| - whave..][i] {
          assert w[Back(wnext, n, whave - i)] == history[|history| - (whave - i)];
        }
      }
    }
  }

  /** The last bytes of the output into the ring: all of it at once, up to its end, or up to its end and on from its
      start. */
  method WriteRing(window: array<int>, wsize: nat, wnext0: nat, whave0: nat, out: array<int>, end: nat, copy0: nat,
      ghost h: seq<int>)
    returns (wnext: nat, whave: nat)
    requires wsize == window.Length && Ring(window[..], wnext0, whave0, h) && copy0 <= end <= out.Length &&
      out != window
    modifies window
    ensures Ring(window[..], wnext, whave, h + out[end - copy0..end])
  {
    hide Ring, Patched;
    ghost var o, w := out[end - copy0..end], window[..];
    Sizes(w, wnext0, whave0, h);
    wnext, whave := wnext0, whave0;
    var copy := copy0;
    if copy >= wsize {
      MemCopy(window, 0, out[end - wsize..end]);
      PatchedWhole(w, window[..], out[end - wsize..end]);
      assert window[..] == o[|o| - wsize..];
      RingWhole(window[..], h, o);
      return 0, wsize;
    }
    var dist := wsize - wnext;
    if dist > copy { dist := copy; }
    MemCopy(window, wnext, out[end - copy..end - copy + dist]);
    ghost var w1 := window[..];
    assert out[end - copy..end - copy + dist] == o[..dist];
    copy := copy - dist;
    if copy > 0 {
      MemCopy(window, 0, out[end - copy..end]);
      assert out[end - copy..end] == o[dist..];
      RingWrapped(w, w1, window[..], wnext, whave, h, o);
      wnext, whave := copy, wsize;
    } else {
      assert o[..dist] == o;
      RingStraight(w, w1, wnext, whave, h, o);
      wnext := wnext + dist;
      if wnext == wsize { wnext := 0; }
      if whave < wsize { whave := whave + dist; }
    }
  }

  lemma PatchedWhole(w: seq<int>, w': seq<int>, o: seq<int>)
    requires Patched(w, w', 0, o) && |o| == |w|
    ensures w' == o
  {
    forall i | 0 <= i < |w'| ensures w'[i] == o[i] { assert w'[0 + i] == o[i]; }
  }

  lemma RingEmpty(w: seq<int>, h: seq<int>)
    requires |w| > 0 && h == []
    ensures Ring(w, 0, 0, h)
  {
  }

  lemma Sizes(w: seq<int>, wnext: int, whave: int, h: seq<int>)
    requires Ring(w, wnext, whave, h)
    ensures 0 <= wnext < |w| && 0 <= whave <= |w|
  {
  }
}

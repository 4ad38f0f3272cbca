/** Running the decompressor on a string of bits, and why it does not matter how the string is cut into calls. */
module MachineRun {

  import opened Powers
  import opened Rotations
  import opened BitStream
  import opened Machine
  import opened MachineSound

  /** Takes steps as long as the state asks for bits and they are there; returns what is left over. */
  ghost function RunOn(s: State, bits: seq<bool>): (r: (State, seq<bool>))
    decreases |bits|
  {
    var n := Need(s);
    if n == 0 || |bits| < n then (s, bits)
    else RunOn(Step(s, Value(bits[..n])), bits[n..])
  }

  /** One call after another, with the bits left over from each kept for the next. */
  ghost function RunCalls(s: State, left: seq<bool>, calls: seq<seq<int>>): (r: (State, seq<bool>))
    requires forall k :: 0 <= k < |calls| ==> Bytes(calls[k])
    decreases |calls|
  {
    if calls == [] then RunOn(s, left)
    else
      var one := RunOn(s, left + ByteBits(calls[0]));
      RunCalls(one.0, one.1, calls[1..])
  }

  ghost function Joined(calls: seq<seq<int>>): (r: seq<int>)
    requires forall k :: 0 <= k < |calls| ==> Bytes(calls[k])
    ensures Bytes(r)
  {
    if calls == [] then []
    else
      var rest := Joined(calls[1..]);
      BytesJoin(calls[0], rest);
      calls[0] + rest
  }

  lemma BytesJoin(x: seq<int>, y: seq<int>)
    requires Bytes(x) && Bytes(y)
    ensures Bytes(x + y)
  {
  }

  /** Stopping for want of bits and going on when more come is the same as having had them all. */
  lemma {:induction false} RunResumes(s: State, a: seq<bool>, b: seq<bool>)
    ensures RunOn(s, a + b) == RunOn(RunOn(s, a).0, RunOn(s, a).1 + b)
    decreases |a|
  {
    hide Step;
    var n := Need(s);
    if n != 0 && |a| >= n {
      assert (a + b)[..n] == a[..n] && (a + b)[n..] == a[n..] + b;
      RunResumes(Step(s, Value(a[..n])), a[n..], b);
    }
  }

  /** A run that has stopped stays where it is. */
  lemma {:induction false} RunSettled(s: State, a: seq<bool>)
    ensures RunOn(RunOn(s, a).0, RunOn(s, a).1) == RunOn(s, a)
    decreases |a|
  {
    hide Step;
    var n := Need(s);
    if n != 0 && |a| >= n { RunSettled(Step(s, Value(a[..n])), a[n..]); }
  }

  /** Suspending is transparent: however the bytes are cut into calls, the state and the bits left over are
      those of one call with all of them. */
  lemma {:induction false} SlicesAgree(s: State, left: seq<bool>, calls: seq<seq<int>>)
    requires forall k :: 0 <= k < |calls| ==> Bytes(calls[k])
    ensures RunCalls(s, left, calls) == RunOn(s, left + ByteBits(Joined(calls)))
    decreases |calls|
  {
    hide ByteBits, RunOn;
    if calls == [] {
      NoBytes(left);
    } else {
      var one := RunOn(s, left + ByteBits(calls[0]));
      SlicesAgree(one.0, one.1, calls[1..]);
      ByteBitsJoin(calls[0], Joined(calls[1..]));
      assert left + (ByteBits(calls[0]) + ByteBits(Joined(calls[1..]))) == left + ByteBits(calls[0]) +
        ByteBits(Joined(calls[1..]));
      RunResumes(s, left + ByteBits(calls[0]), ByteBits(Joined(calls[1..])));
    }
  }

  lemma NoBytes(left: seq<bool>)
    ensures left + ByteBits([]) == left
  {
  }

  /** No block of the run announces more selectors than there is room for. */
  ghost predicate RunFits(s: State, bits: seq<bool>)
    decreases |bits|
  {
    var n := Need(s);
    n == 0 || |bits| < n || (RoomFor(s, Value(bits[..n])) && RunFits(Step(s, Value(bits[..n])), bits[n..]))
  }

  /** Along the whole run the state stays sound. */
  lemma {:induction false} RunSound(s: State, bits: seq<bool>)
    requires Sound(s) && RunFits(s, bits)
    ensures Sound(RunOn(s, bits).0)
    decreases |bits|
  {
    hide Sound, Step, RoomFor;
    var n := Need(s);
    if n != 0 && |bits| >= n {
      StepSound(s, Value(bits[..n]));
      RunSound(Step(s, Value(bits[..n])), bits[n..]);
    }
  }

  // ----- exact consumption -----

  /** The machine goes from s to t by reading exactly these bits. */
  ghost predicate Reads(s: State, bits: seq<bool>, t: State)
    decreases |bits|
  {
    if bits == [] then s == t
    else 0 < Need(s) <= |bits| && Reads(Step(s, Value(bits[..Need(s)])), bits[Need(s)..], t)
  }

  lemma ReadsNone(s: State)
    ensures Reads(s, [], s)
  {
  }

  lemma ReadsStep(s: State, bits: seq<bool>, n: nat, t: State)
    requires 0 < Need(s) == n <= |bits| && Reads(Step(s, Value(bits[..n])), bits[n..], t)
    ensures Reads(s, bits, t)
  {
    hide Step, Need;
  }

  lemma {:induction false} ReadsJoin(s: State, a: seq<bool>, t: State, b: seq<bool>, u: State)
    requires Reads(s, a, t) && Reads(t, b, u)
    ensures Reads(s, a + b, u)
    decreases |a|
  {
    hide Step;
    if a == [] {
      assert a + b == b;
    } else {
      var n := Need(s);
      assert (a + b)[..n] == a[..n] && (a + b)[n..] == a[n..] + b;
      ReadsJoin(Step(s, Value(a[..n])), a[n..], t, b, u);
    }
  }

  lemma {:induction false} ReadsRuns(s: State, a: seq<bool>, t: State, b: seq<bool>)
    requires Reads(s, a, t)
    ensures RunOn(s, a + b) == RunOn(t, b)
    decreases |a|
  {
    hide Step;
    if a == [] {
      assert a + b == b;
    } else {
      var n := Need(s);
      assert (a + b)[..n] == a[..n] && (a + b)[n..] == a[n..] + b;
      ReadsRuns(Step(s, Value(a[..n])), a[n..], t, b);
    }
  }

  /** The bits that a run uses are the front of those it was given. */
  lemma {:induction false} RunReads(s: State, bits: seq<bool>) returns (used: seq<bool>)
    ensures bits == used + RunOn(s, bits).1 && Reads(s, used, RunOn(s, bits).0)
    decreases |bits|
  {
    hide Step, Need, Value;
    var n := Need(s);
    if n == 0 || |bits| < n {
      used := [];
    } else {
      used := RunReads(Step(s, Value(bits[..n])), bits[n..]);
      used := bits[..n] + used;
      assert used[..n] == bits[..n] && used[n..] + RunOn(s, bits).1 == bits[n..];
    }
  }

  /** One number of the width that is asked for. */
  lemma ReadsOne(s: State, v: nat, n: nat)
    requires Need(s) == n > 0 && v < Pow2(n)
    ensures Reads(s, Bits(v, n), Step(s, v))
  {
    hide Step;
    ValueOfBits(v, n);
    assert Bits(v, n)[..n] == Bits(v, n) && Bits(v, n)[n..] == [];
  }
}

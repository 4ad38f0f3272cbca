/** A block on which the comment about descriptors fails: two copies of a zero followed by 5000 times the byte 251. */
module RepeatedBlock {

  import opened Rotations
  import opened Counting
  import opened Powers
  import opened MainOrder
  import opened MainScan
  import opened MainRadix
  import opened MainSort
  import opened Roots
  import opened Descriptors
  import opened BlockSort

  const HALF := 5001

  const FULL := 10002

  function Twice(): (b: seq<int>)
    ensures |b| == FULL && Bytes(b)
    ensures forall i :: 0 <= i < FULL ==> b[i] == if i == 0 || i == HALF then 0 else 251
  {
    seq(FULL, i => if i == 0 || i == HALF then 0 else 251)
  }

  /** Turning it by half of its length, and by no less, changes nothing. */
  lemma RepeatsTwice()
    ensures RootLength(Twice()) == HALF && Repeats(Twice()) == 2
  {
    hide Repeats, RootLength, Turned, Twice;
    HalfTurn();
    forall h | 1 <= h < HALF ensures Turned(Twice(), h) != Twice() { TurnMoves(h); }
    CountOf(Repeats(Twice()));
  }

  lemma HalfTurn()
    ensures Turned(Twice(), HALF) == Twice()
  {
    hide Twice;
    var b := Twice();
    assert |Turned(b, HALF)| == FULL && forall i :: 0 <= i < FULL ==> Turned(b, HALF)[i] == b[i];
  }

  lemma TurnMoves(h: nat)
    requires 1 <= h < HALF
    ensures Turned(Twice(), h) != Twice()
  {
    hide Twice;
    assert Turned(Twice(), h)[0] == Twice()[h];
  }

  lemma CountOf(m: nat)
    requires m * HALF == FULL
    ensures m == 2
  {
  }

  /** The occurrences of c among the first n entries, where only two places have it. */
  lemma {:induction false} TwoPlaces(s: seq<int>, c: int, p: nat, q: nat, n: nat)
    requires n <= |s| && p < q < |s| && forall i :: 0 <= i < |s| ==> (s[i] == c <==> i == p || i == q)
    ensures CountEq(s[..n], c) == (if n > p then 1 else 0) + (if n > q then 1 else 0)
  {
    if n > 0 {
      TwoPlaces(s, c, p, q, n - 1);
      CountNext(s, n - 1, c);
    } else {
      EmptyCount(s, c);
    }
  }

  lemma ZerosTwice()
    ensures CountEq(Twice(), 0) == 2 && CountEq(Twice(), 251) > 2
  {
    var b := Twice();
    hide Twice, CountEq;
    TwoPlaces(b, 0, 0, HALF, FULL);
    assert b[..FULL] == b;
    CountPrefix(b, 1, 2, 251);
    CountPrefix(b, 2, 3, 251);
    CountPrefix(b, 3, 4, 251);
    CountPrefix(b, 4, FULL, 251);
  }

  /** So step 3 gives the two equal rotations that begin with zero the descriptors 0 and 1. */
  lemma NotAllFine()
    ensures !AllFine(Twice())
  {
    RepeatsTwice();
    ZerosTwice();
    var b := Twice();
    hide CountEq, Twice, Repeats;
    assert ShiftsFor(2) == 0 && Pow2(0) == 1;
    assert !Fine(b, CountEq(b, 0));
    assert CountEq(b, 0) <= CountEq(b, 251);
  }

  // ----- the budget suffices -----

  lemma KeyIs(i: int)
    requires 0 <= i < FULL
    ensures Key2(Twice())[i] == (if i == 0 || i == HALF then 251 else if i == HALF - 1 || i == FULL - 1 then 256 * 251
      else 257 * 251)
  {
    hide Twice;
  }

  lemma KeyCounts(c: int)
    requires c != 257 * 251
    ensures CountEq(Key2(Twice()), c) == if c == 251 || c == 256 * 251 then 2 else 0
  {
    hide Key2, Twice, CountEq;
    var k := Key2(Twice());
    forall i | 0 <= i < FULL
      ensures k[i] == (if i == 0 || i == HALF then 251 else if i == HALF - 1 || i == FULL - 1 then 256 * 251
        else 257 * 251)
    {
      KeyIs(i);
    }
    assert k[..FULL] == k;
    if c == 251 {
      TwoPlaces(k, c, 0, HALF, FULL);
    } else if c == 256 * 251 {
      TwoPlaces(k, c, HALF - 1, FULL - 1, FULL);
    } else {
      NoneEqual(k, c);
    }
  }

  lemma {:induction false} DueTwice(k: nat)
    requires k <= PAIRS
    ensures Due(Twice(), Blank(), k) <= ((if k > 251 then 1 else 0) + (if k > 256 * 251 then 1 else 0)) * (FULL + 16)
  {
    hide S, Twice, Blank;
    if k > 0 {
      DueTwice(k - 1);
      SNext(Twice(), k - 1);
      if (k - 1) / 256 != (k - 1) % 256 { KeyCounts(k - 1); }
    }
  }

  lemma EnoughTwice()
    ensures Enough(Twice(), FULL * 9, Blank())
  {
    hide S, Twice, Blank, Due;
    DueTwice(PAIRS);
    forall c | 0 <= c < PAIRS && c / 256 != c % 256 ensures S(Twice(), c + 1) <= S(Twice(), c) + 2 {
      SNext(Twice(), c);
      KeyCounts(c);
    }
  }

  /** mainSort on this block, with the budget of the usual work factor of 30: it finishes, the rotations are in order,
      and the comment about descriptors does not hold. */
  method CommentFails() returns (ptr: array<int>, quadrant: array<int>, budget: int)
    ensures budget >= 0 && ptr.Length == FULL && SortsRotations(Twice(), ptr[..]) &&
      !StrictMeaning(Twice(), quadrant[..])
  {
    hide SortsRotations, StrictMeaning, AllFine, Enough;
    var block := new int[FULL + N_OVERSHOOT](i => if i == 0 || i == HALF then 0 else 251);
    ptr, quadrant := new int[FULL], new int[FULL + N_OVERSHOOT];
    var ftab := new int[PAIRS + 1];
    assert block[..FULL] == Twice();
    NotAllFine();
    EnoughTwice();
    budget := SortMain(ptr, block, quadrant, ftab, FULL, FULL * ((30 - 1) / 3));
    assert ptr[..FULL] == ptr[..];
  }
}

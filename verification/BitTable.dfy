/** A table of bits kept in 32-bit words: the bucket-header bits of the fallback sort. */
module BitTable {

  // ----- one word -----

  function Amount(k: nat): bv5
    requires k < 32
  {
    k as bv5
  }

  function Mask(s: bv5): bv32 { 1 << s }

  function And(x: bv32, y: bv32): bv32 { x & y }

  function With(w: bv32, s: bv5): bv32 { Or(w, Mask(s)) }

  function Or(x: bv32, y: bv32): bv32 { x | y }

  function Without(w: bv32, s: bv5): bv32 { AndNot(w, Mask(s)) }

  function AndNot(x: bv32, y: bv32): bv32 { x & !y }

  predicate Has(w: bv32, s: bv5) { And(w, Mask(s)) != 0 }

  /** Bit k of the word. */
  predicate Bit(w: bv32, k: nat)
    requires k < 32
  {
    Has(w, Amount(k))
  }

  lemma AmountBack(k: nat)
    requires k < 32
    ensures Amount(k) as int == k
  {
  }

  lemma OneHot(i: bv5, j: bv5)
    requires i != j
    ensures And(Mask(i), Mask(j)) == 0
  {
  }

  lemma SameBit(w: bv32, i: bv5)
    ensures Has(With(w, i), i) && !Has(Without(w, i), i)
  {
  }

  lemma OrOther(w: bv32, a: bv32, b: bv32)
    requires And(a, b) == 0
    ensures And(Or(w, a), b) == And(w, b)
  {
  }

  lemma AndNotOther(w: bv32, a: bv32, b: bv32)
    requires And(a, b) == 0
    ensures And(AndNot(w, a), b) == And(w, b)
  {
  }

  lemma OtherBit(w: bv32, i: bv5, j: bv5)
    requires i != j
    ensures Has(With(w, i), j) == Has(w, j)
    ensures Has(Without(w, i), j) == Has(w, j)
  {
    hide Mask, And, Or, AndNot;
    OneHot(i, j);
    OrOther(w, Mask(i), Mask(j));
    AndNotOther(w, Mask(i), Mask(j));
  }

  lemma FullAndEmpty(j: bv5)
    ensures !Has(0, j) && Has(0xffff_ffff, j)
  {
  }

  /** Setting or clearing bit i changes bit i and no other. */
  lemma BitChange(w: bv32, i: nat, j: nat)
    requires i < 32 && j < 32
    ensures Bit(With(w, Amount(i)), j) <==> i == j || Bit(w, j)
    ensures Bit(Without(w, Amount(i)), j) <==> i != j && Bit(w, j)
  {
    hide Has, With, Without, Amount;
    AmountBack(i);
    AmountBack(j);
    if i == j { SameBit(w, Amount(i)); } else { OtherBit(w, Amount(i), Amount(j)); }
  }

  lemma BitConst(j: nat)
    requires j < 32
    ensures !Bit(0, j) && Bit(0xffff_ffff, j)
  {
    FullAndEmpty(Amount(j));
  }

  // ----- the table -----

  predicate IsSet(t: seq<bv32>, z: int)
    requires 0 <= z < 32 * |t|
  {
    Bit(t[z / 32], z % 32)
  }

  method SetBH(t: array<bv32>, z: int)
    requires 0 <= z < 32 * t.Length
    modifies t
    ensures forall y :: 0 <= y < 32 * t.Length ==> (IsSet(t[..], y) <==> y == z || IsSet(old(t[..]), y))
  {
    hide Bit, With;
    t[z / 32] := With(t[z / 32], Amount(z % 32));
    forall y | 0 <= y < 32 * t.Length ensures IsSet(t[..], y) <==> y == z || IsSet(old(t[..]), y) {
      BitChange(old(t[z / 32]), z % 32, y % 32);
    }
  }

  method ClearBH(t: array<bv32>, z: int)
    requires 0 <= z < 32 * t.Length
    modifies t
    ensures forall y :: 0 <= y < 32 * t.Length ==> (IsSet(t[..], y) <==> y != z && IsSet(old(t[..]), y))
  {
    hide Bit, Without;
    t[z / 32] := Without(t[z / 32], Amount(z % 32));
    forall y | 0 <= y < 32 * t.Length ensures IsSet(t[..], y) <==> y != z && IsSet(old(t[..]), y) {
      BitChange(old(t[z / 32]), z % 32, y % 32);
    }
  }

  method ZeroWords(t: array<bv32>, n: int)
    requires 0 <= n <= t.Length
    modifies t
    ensures forall y :: 0 <= y < 32 * n ==> !IsSet(t[..], y)
  {
    hide Bit;
    for i := 0 to n
      invariant forall j :: 0 <= j < i ==> t[j] == 0
    {
      t[i] := 0;
    }
    forall y | 0 <= y < 32 * n ensures !IsSet(t[..], y) {
      BitConst(y % 32);
    }
  }

  ghost predicate AllSet(t: seq<bv32>, from: int, to: int)
    requires 0 <= from && to <= 32 * |t|
  {
    forall y :: from <= y < to ==> IsSet(t, y)
  }

  ghost predicate NoneSet(t: seq<bv32>, from: int, to: int)
    requires 0 <= from && to <= 32 * |t|
  {
    forall y :: from <= y < to ==> !IsSet(t, y)
  }

  lemma WordConst(t: seq<bv32>, z: int)
    requires 0 <= z < 32 * |t| && z % 32 == 0
    ensures t[z / 32] == 0 ==> NoneSet(t, z, z + 32)
    ensures t[z / 32] == 0xffff_ffff ==> AllSet(t, z, z + 32)
  {
    hide Bit;
    forall y | z <= y < z + 32
      ensures y / 32 == z / 32 && (t[z / 32] == 0 ==> !IsSet(t, y)) && (t[z / 32] == 0xffff_ffff ==> IsSet(t, y)) {
      BitConst(y % 32);
    }
  }

  /** The scan that skips whole words finds the first clear bit, as a scan bit by bit would. */
  method NextClear(t: array<bv32>, from: int, ghost end: int) returns (k: int)
    requires 0 <= from <= end < 32 * t.Length && !IsSet(t[..], end)
    ensures from <= k <= end && !IsSet(t[..], k) && AllSet(t[..], from, k)
  {
    hide Bit;
    k := from;
    while IsSet(t[..], k) && k % 32 != 0
      invariant from <= k <= end && AllSet(t[..], from, k)
      decreases end - k
    {
      k := k + 1;
    }
    if IsSet(t[..], k) {
      while t[k / 32] == 0xffff_ffff
        invariant from <= k <= end && k % 32 == 0 && AllSet(t[..], from, k)
        decreases end - k
      {
        WordConst(t[..], k);
        k := k + 32;
      }
      while IsSet(t[..], k)
        invariant from <= k <= end && AllSet(t[..], from, k)
        decreases end - k
      {
        k := k + 1;
      }
    }
  }

  /** The scan that skips whole words finds the first set bit, as a scan bit by bit would. */
  method NextSet(t: array<bv32>, from: int, ghost end: int) returns (k: int)
    requires 0 <= from <= end < 32 * t.Length && IsSet(t[..], end)
    ensures from <= k <= end && IsSet(t[..], k) && NoneSet(t[..], from, k)
  {
    hide Bit;
    k := from;
    while !IsSet(t[..], k) && k % 32 != 0
      invariant from <= k <= end && NoneSet(t[..], from, k)
      decreases end - k
    {
      k := k + 1;
    }
    if !IsSet(t[..], k) {
      while t[k / 32] == 0
        invariant from <= k <= end && k % 32 == 0 && NoneSet(t[..], from, k)
        decreases end - k
      {
        WordConst(t[..], k);
        k := k + 32;
      }
      while !IsSet(t[..], k)
        invariant from <= k <= end && NoneSet(t[..], from, k)
        decreases end - k
      {
        k := k + 1;
      }
    }
  }
}

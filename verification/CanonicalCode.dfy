/** The canonical codes of section 3.2.2 of RFC 1951: a stretch of 2^15 numbers, divided among the symbols by length. */
module CanonicalCode {

  import opened Powers
  import opened Counting
  import opened BitStream
  import opened Backwards

  /** Code lengths; zero for a symbol that does not occur. */
  predicate Lens(lens: seq<int>) { forall i :: 0 <= i < |lens| ==> 0 <= lens[i] <= 15 }

  /** The first code of length n, as the standard computes it. */
  function FirstCode(lens: seq<int>, n: nat): (r: nat)
    decreases n
  {
    if n <= 1 then 0 else 2 * (FirstCode(lens, n - 1) + CountEq(lens, n - 1))
  }

  /** The code of a symbol: codes of one length are consecutive, in the order of the symbols. */
  function CodeOf(lens: seq<int>, sym: int): (r: nat)
    requires 0 <= sym < |lens| && lens[sym] >= 0
  {
    FirstCode(lens, lens[sym]) + CountEq(lens[..sym], lens[sym])
  }

  /** The share of a code of length n. */
  function Share(n: int): (r: nat)
    requires 0 <= n <= 15
    ensures r >= 1
  {
    Pow2(15 - n)
  }

  /** The shares of all codes of up to n bits. */
  function EndOf(lens: seq<int>, n: nat): (r: nat)
    requires n <= 15
  {
    if n == 0 then 0 else EndOf(lens, n - 1) + CountEq(lens, n) * Share(n)
  }

  /** Where the stretch of a symbol begins. */
  function Start(lens: seq<int>, sym: int): (r: nat)
    requires Lens(lens) && 0 <= sym < |lens|
  {
    NonNegative(CodeOf(lens, sym), Share(lens[sym]));
    CodeOf(lens, sym) * Share(lens[sym])
  }

  /** The shares of all symbols. */
  function Kraft15(lens: seq<int>): nat
    requires Lens(lens)
  {
    if lens == [] then 0
    else
      var l := lens[|lens| - 1];
      Kraft15(lens[..|lens| - 1]) + (if l == 0 then 0 else Share(l))
  }

  /** The bits of sym's code are the first bits of s. */
  ghost predicate Begins(lens: seq<int>, sym: int, s: seq<bool>) {
    Lens(lens) && 0 <= sym < |lens| && |s| == 15 && lens[sym] > 0 &&
      s[..lens[sym]] == Bits(CodeOf(lens, sym), lens[sym])
  }

  // ----- shares -----

  lemma ShareTwice(n: int)
    requires 1 <= n <= 15
    ensures Share(n - 1) == 2 * Share(n)
  {
  }

  lemma EndNext(lens: seq<int>, n: nat)
    requires 1 <= n <= 15
    ensures EndOf(lens, n) == EndOf(lens, n - 1) + CountEq(lens, n) * Share(n)
  {
  }

  /** Codes of length n begin where the shorter ones end. */
  lemma {:induction false} FirstAt(lens: seq<int>, n: nat)
    requires 1 <= n <= 15
    ensures FirstCode(lens, n) * Share(n) == EndOf(lens, n - 1)
    decreases n
  {
    hide CountEq, Share;
    if n > 1 {
      FirstAt(lens, n - 1);
      ShareTwice(n);
      EndNext(lens, n - 1);
      Regroup(FirstCode(lens, n - 1), CountEq(lens, n - 1), Share(n));
    }
  }

  lemma {:induction false} EndMonotone(lens: seq<int>, m: nat, n: nat)
    requires m <= n <= 15
    ensures EndOf(lens, m) <= EndOf(lens, n)
    decreases n
  {
    hide Share;
    if m < n {
      EndMonotone(lens, m, n - 1);
      NonNegative(CountEq(lens, n), Share(n));
    }
  }

  /** Where no code has a length between, the shorter ones end where the longer ones do. */
  lemma {:induction false} EndSame(lens: seq<int>, m: nat, n: nat)
    requires m <= n <= 15 && forall i :: 0 <= i < |lens| ==> !(m < lens[i] <= n)
    ensures EndOf(lens, m) == EndOf(lens, n)
    decreases n
  {
    if m < n {
      EndSame(lens, m, n - 1);
      NoneEqual(lens, n);
    }
  }

  lemma {:induction false} EndSnoc(lens: seq<int>, n: nat)
    requires Lens(lens) && n <= 15 && lens != []
    ensures var l := lens[|lens| - 1];
      EndOf(lens, n) == EndOf(lens[..|lens| - 1], n) + (if 1 <= l <= n then Share(l) else 0)
    decreases n
  {
    hide Share;
    if n > 0 {
      EndSnoc(lens, n - 1);
      MulNext(CountEq(lens[..|lens| - 1], n), Share(n));
    }
  }

  lemma {:induction false} EndEmpty(n: nat)
    requires n <= 15
    ensures EndOf([], n) == 0
  {
    if n > 0 { EndEmpty(n - 1); }
  }

  /** All codes together take the shares of all symbols. */
  lemma {:induction false} EndIsKraft(lens: seq<int>)
    requires Lens(lens)
    ensures EndOf(lens, 15) == Kraft15(lens)
  {
    hide EndOf, Share;
    if lens == [] {
      EndEmpty(15);
    } else {
      EndIsKraft(lens[..|lens| - 1]);
      EndSnoc(lens, 15);
    }
  }

  // ----- the symbols in the order of their codes -----

  predicate Before(lens: seq<int>, a: int, b: int)
    requires 0 <= a < |lens| && 0 <= b < |lens|
  {
    lens[a] < lens[b] || (lens[a] == lens[b] && a < b)
  }

  /** w lists the symbols that occur, by length and then by number. */
  ghost predicate Order(lens: seq<int>, w: seq<int>) {
    && Lens(lens) && |w| <= |lens|
    && (forall x :: 0 <= x < |w| ==> 0 <= w[x] < |lens| && 1 <= lens[w[x]] <= 15)
    && (forall x, y :: 0 <= x < y < |w| ==> Before(lens, w[x], w[y]))
    && (forall sym :: 0 <= sym < |lens| && lens[sym] > 0 ==> sym in w)
  }

  lemma OrderAt(lens: seq<int>, w: seq<int>, sym: int) returns (x: int)
    requires Order(lens, w) && 0 <= sym < |lens| && lens[sym] > 0
    ensures 0 <= x < |w| && w[x] == sym
  {
    x :| 0 <= x < |w| && w[x] == sym;
  }

  /** Nothing comes between neighbours. */
  lemma NoneBetween(lens: seq<int>, w: seq<int>, x: int, sym: int)
    requires Order(lens, w) && 0 <= x && x + 1 < |w| && 0 <= sym < |lens| && lens[sym] > 0
    ensures sym == w[x] || sym == w[x + 1] || Before(lens, sym, w[x]) || Before(lens, w[x + 1], sym)
  {
    var y := OrderAt(lens, w, sym);
  }

  lemma NoneFirst(lens: seq<int>, w: seq<int>, sym: int)
    requires Order(lens, w) && |w| > 0 && 0 <= sym < |lens| && lens[sym] > 0
    ensures sym == w[0] || Before(lens, w[0], sym)
  {
    var y := OrderAt(lens, w, sym);
  }

  lemma NoneLast(lens: seq<int>, w: seq<int>, sym: int)
    requires Order(lens, w) && |w| > 0 && 0 <= sym < |lens| && lens[sym] > 0
    ensures sym == w[|w| - 1] || Before(lens, sym, w[|w| - 1])
  {
    var y := OrderAt(lens, w, sym);
  }

  lemma StartIs(lens: seq<int>, sym: int)
    requires Lens(lens) && 0 <= sym < |lens|
    ensures Start(lens, sym) == (FirstCode(lens, lens[sym]) + CountEq(lens[..sym], lens[sym])) * Share(lens[sym])
  {
    hide FirstCode, CountEq, Share;
  }

  /** The stretch of a symbol lies among those of its length. */
  lemma StartIn(lens: seq<int>, sym: int)
    requires Lens(lens) && 0 <= sym < |lens| && lens[sym] > 0
    ensures EndOf(lens, lens[sym] - 1) <= Start(lens, sym)
    ensures Start(lens, sym) + Share(lens[sym]) <= EndOf(lens, lens[sym])
  {
    hide CountEq, Share, EndOf, FirstCode, Start;
    var l, k := lens[sym], CountEq(lens[..sym], lens[sym]);
    assert lens[..|lens|] == lens;
    CountPrefix(lens, sym, |lens|, l);
    StartIs(lens, sym);
    FirstAt(lens, l);
    EndNext(lens, l);
    StretchOf(FirstCode(lens, l), k, CountEq(lens, l), Share(l), EndOf(lens, l - 1), EndOf(lens, l));
  }

  /** The k-th of c equal shares, after f others. */
  lemma StretchOf(f: nat, k: nat, c: nat, p: nat, low: nat, high: nat)
    requires f * p == low && high == low + c * p && k + 1 <= c && p > 0
    ensures low <= (f + k) * p && (f + k) * p + p <= high
    ensures k + 1 == c ==> (f + k) * p + p == high
  {
    MulAdd(f, k, p);
    NonNegative(k, p);
    MulNext(k, p);
    MulCompare(k + 1, c, p);
  }

  /** The first symbol of its length begins where the shorter codes end. */
  lemma StartFirst(lens: seq<int>, sym: int)
    requires Lens(lens) && 0 <= sym < |lens| && lens[sym] > 0 && forall i :: 0 <= i < sym ==> lens[i] != lens[sym]
    ensures Start(lens, sym) == EndOf(lens, lens[sym] - 1)
  {
    NoneEqual(lens[..sym], lens[sym]);
    hide CountEq, Share, EndOf, FirstCode;
    FirstAt(lens, lens[sym]);
  }

  /** The last symbol of its length ends where the codes of that length do. */
  lemma StopLast(lens: seq<int>, sym: int)
    requires Lens(lens) && 0 <= sym < |lens| && lens[sym] > 0 && forall i :: sym < i < |lens| ==> lens[i] != lens[sym]
    ensures Start(lens, sym) + Share(lens[sym]) == EndOf(lens, lens[sym])
  {
    hide CountEq, Share, EndOf, FirstCode, Start;
    var l, k := lens[sym], CountEq(lens[..sym], lens[sym]);
    assert lens[..|lens|] == lens;
    CountNext(lens, sym, l);
    NoneAfter(lens, sym + 1, |lens|, l);
    StartIs(lens, sym);
    FirstAt(lens, l);
    EndNext(lens, l);
    StretchOf(FirstCode(lens, l), k, CountEq(lens, l), Share(l), EndOf(lens, l - 1), EndOf(lens, l));
  }

  /** Of two neighbours of one length the second begins where the first ends. */
  lemma StartSame(lens: seq<int>, a: int, b: int)
    requires Lens(lens) && 0 <= a < b < |lens| && lens[a] == lens[b] > 0 && forall i :: a < i < b ==> lens[i] != lens[a]
    ensures Start(lens, b) == Start(lens, a) + Share(lens[a])
  {
    var l := lens[a];
    CountNext(lens, a, l);
    NoneAfter(lens, a + 1, b, l);
    hide CountEq, Share, FirstCode;
    MulNext(CodeOf(lens, a), Share(l));
  }

  /** Every symbol begins where the one before it ends. */
  lemma Consecutive(lens: seq<int>, w: seq<int>, x: int)
    requires Order(lens, w) && 0 <= x && x + 1 < |w|
    ensures Start(lens, w[x + 1]) == Start(lens, w[x]) + Share(lens[w[x]])
    ensures lens[w[x]] <= lens[w[x + 1]]
    ensures lens[w[x]] < lens[w[x + 1]] ==>
      Start(lens, w[x]) + Share(lens[w[x]]) == EndOf(lens, lens[w[x]]) == EndOf(lens, lens[w[x + 1]] - 1)
  {
    hide CountEq, Share, EndOf, FirstCode, Start, CodeOf;
    var a, b := w[x], w[x + 1];
    assert Before(lens, a, b);
    forall sym | 0 <= sym < |lens| && lens[sym] > 0
      ensures sym == a || sym == b || Before(lens, sym, a) || Before(lens, b, sym)
    {
      NoneBetween(lens, w, x, sym);
    }
    if lens[a] == lens[b] {
      StartSame(lens, a, b);
    } else {
      StopLast(lens, a);
      StartFirst(lens, b);
      EndSame(lens, lens[a], lens[b] - 1);
    }
  }

  lemma StartsAtZero(lens: seq<int>, w: seq<int>)
    requires Order(lens, w) && |w| > 0
    ensures Start(lens, w[0]) == 0 && forall i :: 0 <= i < |lens| && lens[i] > 0 ==> lens[w[0]] <= lens[i]
  {
    hide CountEq, Share, EndOf, FirstCode, Start, CodeOf;
    forall sym | 0 <= sym < |lens| && lens[sym] > 0 ensures sym == w[0] || Before(lens, w[0], sym) {
      NoneFirst(lens, w, sym);
    }
    StartFirst(lens, w[0]);
    EndSame(lens, 0, lens[w[0]] - 1);
    EndNone(lens);
  }

  lemma EndNone(lens: seq<int>)
    ensures EndOf(lens, 0) == 0
  {
  }

  lemma EndsWithAll(lens: seq<int>, w: seq<int>)
    requires Order(lens, w) && |w| > 0
    ensures var a := w[|w| - 1]; Start(lens, a) + Share(lens[a]) == EndOf(lens, lens[a]) == EndOf(lens, 15)
    ensures forall i :: 0 <= i < |lens| ==> lens[i] <= lens[w[|w| - 1]]
  {
    hide CountEq, Share, EndOf, FirstCode, Start, CodeOf;
    var a := w[|w| - 1];
    forall sym | 0 <= sym < |lens| && lens[sym] > 0 ensures sym == a || Before(lens, sym, a) { NoneLast(lens, w, sym); }
    StopLast(lens, a);
    EndSame(lens, lens[a], 15);
  }

  /** Later symbols begin no earlier than the ends of those before them. */
  lemma {:induction false} Apart(lens: seq<int>, w: seq<int>, x: int, y: int)
    requires Order(lens, w) && 0 <= x < y < |w|
    ensures Start(lens, w[x]) + Share(lens[w[x]]) <= Start(lens, w[y])
    decreases y - x
  {
    hide Start, Share, EndOf, Before;
    Consecutive(lens, w, y - 1);
    if x < y - 1 { Apart(lens, w, x, y - 1); }
  }

  /** If the codes do not need more than there is, they fit their lengths. */
  lemma CodeFits(lens: seq<int>, sym: int)
    requires Lens(lens) && 0 <= sym < |lens| && lens[sym] > 0 && Kraft15(lens) <= 0x8000
    ensures CodeOf(lens, sym) < Pow2(lens[sym]) && Start(lens, sym) + Share(lens[sym]) <= 0x8000
  {
    hide CountEq, FirstCode, CodeOf, EndOf, Kraft15, Pow2;
    var l := lens[sym];
    StartIn(lens, sym);
    EndMonotone(lens, l, 15);
    EndIsKraft(lens);
    Pow2Add(l, 15 - l);
    Pow15();
    MulNext(CodeOf(lens, sym), Pow2(15 - l));
    MulCompare(CodeOf(lens, sym) + 1, Pow2(l), Pow2(15 - l));
  }

  lemma Pow15()
    ensures Pow2(15) == 0x8000
  {
    assert Pow2(5) == 0x20 && Pow2(10) == 0x400;
  }

  /** A string begins with the code of a symbol exactly if it lies in the symbol's stretch. */
  lemma BeginsIn(lens: seq<int>, sym: int, s: seq<bool>)
    requires Lens(lens) && 0 <= sym < |lens| && lens[sym] > 0 && Kraft15(lens) <= 0x8000 && |s| == 15
    ensures Begins(lens, sym, s) <==> Start(lens, sym) <= Value(s) < Start(lens, sym) + Share(lens[sym])
  {
    hide CodeOf, Kraft15, Bits, Value, Pow2;
    CodeFits(lens, sym);
    BeginsWith(s, CodeOf(lens, sym), lens[sym]);
  }

  /** No string begins with the codes of two symbols. */
  lemma BeginsOnce(lens: seq<int>, w: seq<int>, a: int, b: int, s: seq<bool>)
    requires Order(lens, w) && Kraft15(lens) <= 0x8000 && Begins(lens, a, s) && Begins(lens, b, s)
    ensures a == b
  {
    hide Start, Share, Kraft15, Order, Value, Bits, CodeOf;
    BeginsIn(lens, a, s);
    BeginsIn(lens, b, s);
    var x := OrderAt(lens, w, a);
    var y := OrderAt(lens, w, b);
    if x < y { Apart(lens, w, x, y); }
    if y < x { Apart(lens, w, y, x); }
  }

  /** Whatever lies below the end of a symbol begins with its code or with an earlier one. */
  lemma {:induction false} Covered(lens: seq<int>, w: seq<int>, x: int, s: seq<bool>) returns (y: int)
    requires Order(lens, w) && Kraft15(lens) <= 0x8000 && 0 <= x < |w| && |s| == 15
    requires Value(s) < Start(lens, w[x]) + Share(lens[w[x]])
    ensures 0 <= y <= x && Begins(lens, w[y], s)
    decreases x
  {
    hide Start, Share, Kraft15, Value, Before, Begins;
    if Value(s) >= Start(lens, w[x]) {
      BeginsIn(lens, w[x], s);
      y := x;
    } else {
      if x == 0 { StartsAtZero(lens, w); }
      Consecutive(lens, w, x - 1);
      y := Covered(lens, w, x - 1, s);
    }
  }
}

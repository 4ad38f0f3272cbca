/** sendMTFValues: tables for the groups of fifty symbols, and the bits of a block. */
module SendBlock {

  import opened Powers
  import opened Counting
  import opened Mtf
  import opened MtfEncode
  import opened HuffmanCodes
  import opened HuffmanLengths
  import opened BitStream
  import opened BitWriter
  import opened Sequences
  import opened BlockReads
  import opened SymbolReads
  import opened Machine

  const MAX_ALPHA := 258

  // ----- frequencies -----

  function SumOf(s: seq<int>): int {
    if s == [] then 0 else SumOf(s[..|s| - 1]) + s[|s| - 1]
  }

  lemma {:induction false} SumUpdate(s: seq<int>, i: nat, v: int)
    requires i < |s|
    ensures SumOf(s[i := v]) == SumOf(s) - s[i] + v
  {
    var n := |s| - 1;
    if i < n {
      assert s[i := v][..n] == s[..n][i := v];
      SumUpdate(s[..n], i, v);
    } else {
      assert s[i := v][..n] == s[..n];
    }
  }

  lemma {:induction false} SumZero(s: seq<int>)
    requires forall i :: 0 <= i < |s| ==> s[i] == 0
    ensures SumOf(s) == 0
  {
    if s != [] { SumZero(s[..|s| - 1]); }
  }

  /** Counting zeros as ones adds at most one per symbol. */
  lemma {:induction false} TotalAtMost(freq: seq<int>, a: int)
    requires 0 <= a <= |freq| && forall i :: 0 <= i < |freq| ==> freq[i] >= 0
    ensures Total(freq, a) <= SumOf(freq[..a]) + a
    decreases a
  {
    if a > 0 {
      TotalAtMost(freq, a - 1);
      assert freq[..a][..a - 1] == freq[..a - 1];
    }
  }

  /** How often symbol v occurs in the groups of table t, among the first n symbols. */
  function Uses(syms: seq<int>, selector: seq<int>, t: int, v: int, n: nat): nat
    requires n <= |syms| && |syms| <= G_SIZE * |selector|
  {
    if n == 0 then 0
    else Uses(syms, selector, t, v, n - 1) + (if selector[(n - 1) / G_SIZE] == t && syms[n - 1] == v then 1 else 0)
  }

  /** The rows hold the frequencies of the first n symbols. */
  ghost predicate Counted(rfreq: seq<int>, syms: seq<int>, selector: seq<int>, nGroups: int, alphaSize: int, n: nat)
    requires n <= |syms| && |syms| <= G_SIZE * |selector|
  {
    && |rfreq| == 6 * MAX_ALPHA && 0 <= nGroups <= 6 && 0 <= alphaSize <= MAX_ALPHA
    && (forall t, v :: 0 <= t < nGroups && 0 <= v < alphaSize ==> Row(rfreq, t)[v] == Uses(syms, selector, t, v, n))
    && (forall t :: 0 <= t < nGroups ==> RowFine(Row(rfreq, t), n))
  }

  lemma CountedStart(rfreq: seq<int>, syms: seq<int>, selector: seq<int>, nGroups: int, alphaSize: int)
    requires |syms| <= G_SIZE * |selector| && |rfreq| == 6 * MAX_ALPHA && 0 <= nGroups <= 6 &&
      0 <= alphaSize <= MAX_ALPHA
    requires forall i :: 0 <= i < |rfreq| ==> rfreq[i] == 0
    ensures Counted(rfreq, syms, selector, nGroups, alphaSize, 0)
  {
    forall t | 0 <= t < nGroups ensures RowFine(Row(rfreq, t), 0) { SumZero(Row(rfreq, t)); }
  }

  lemma CountedStep(r: seq<int>, syms: seq<int>, selector: seq<int>, nGroups: int, alphaSize: int, n: nat)
    requires n < |syms| && |syms| <= G_SIZE * |selector| && Counted(r, syms, selector, nGroups, alphaSize, n)
    requires 0 <= syms[n] < alphaSize && 0 <= selector[n / G_SIZE] < nGroups
    ensures var x := MAX_ALPHA * selector[n / G_SIZE] + syms[n];
            0 <= x < |r| && Counted(r[x := r[x] + 1], syms, selector, nGroups, alphaSize, n + 1)
  {
    RowCounts(r, selector[n / G_SIZE], syms[n], nGroups, n);
    hide Row, RowFine;
  }

  /** rfreq: row t holds the frequencies for table t. */
  method Frequencies(mtfv: seq<int>, selector: seq<int>, nGroups: int, alphaSize: int) returns (rfreq: array<int>)
    requires 0 <= nGroups <= 6 && 2 <= alphaSize <= MAX_ALPHA && |mtfv| <= G_SIZE * |selector|
    requires forall i :: 0 <= i < |mtfv| ==> 0 <= mtfv[i] < alphaSize
    requires forall i :: 0 <= i < |selector| ==> 0 <= selector[i] < nGroups
    ensures fresh(rfreq) && Counted(rfreq[..], mtfv, selector, nGroups, alphaSize, |mtfv|)
  {
    rfreq := new int[6 * MAX_ALPHA](i => 0);
    CountedStart(rfreq[..], mtfv, selector, nGroups, alphaSize);
    hide Counted;
    for i := 0 to |mtfv|
      invariant rfreq.Length == 6 * MAX_ALPHA && Counted(rfreq[..], mtfv, selector, nGroups, alphaSize, i)
    {
      var bt, v := selector[i / G_SIZE], mtfv[i];
      ghost var r := rfreq[..];
      CountedStep(r, mtfv, selector, nGroups, alphaSize, i);
      rfreq[MAX_ALPHA * bt + v] := rfreq[MAX_ALPHA * bt + v] + 1;
      assert rfreq[..] == r[MAX_ALPHA * bt + v := r[MAX_ALPHA * bt + v] + 1];
    }
  }

  function Row(rfreq: seq<int>, t: int): (r: seq<int>)
    requires |rfreq| == 6 * MAX_ALPHA && 0 <= t < 6
    ensures |r| == MAX_ALPHA
  {
    rfreq[MAX_ALPHA * t..MAX_ALPHA * t + MAX_ALPHA]
  }

  ghost predicate RowFine(row: seq<int>, n: int) {
    SumOf(row) <= n && forall v :: 0 <= v < |row| ==> row[v] >= 0
  }

  /** One more symbol raises one frequency of one row. */
  lemma RowCounts(r: seq<int>, bt: int, v: int, nGroups: int, n: int)
    requires |r| == 6 * MAX_ALPHA && 0 <= bt < nGroups <= 6 && 0 <= v < MAX_ALPHA
    requires forall t :: 0 <= t < nGroups ==> RowFine(Row(r, t), n)
    ensures var r' := r[MAX_ALPHA * bt + v := r[MAX_ALPHA * bt + v] + 1];
            (forall t :: 0 <= t < nGroups && t != bt ==> Row(r', t) == Row(r, t)) &&
            Row(r', bt) == Row(r, bt)[v := Row(r, bt)[v] + 1] &&
            (forall t :: 0 <= t < nGroups ==> RowFine(Row(r', t), n + 1))
  {
    var r' := r[MAX_ALPHA * bt + v := r[MAX_ALPHA * bt + v] + 1];
    forall t | 0 <= t < nGroups && t != bt ensures Row(r', t) == Row(r, t) { }
    assert Row(r', bt) == Row(r, bt)[v := Row(r, bt)[v] + 1];
    SumUpdate(Row(r, bt), v, Row(r, bt)[v] + 1);
    hide Row, SumOf;
    forall t | 0 <= t < nGroups ensures RowFine(Row(r', t), n + 1) { assert RowFine(Row(r, t), n); }
  }

  // ----- tables -----

  /** The lengths of one table. */
  method MakeTable(freq: seq<int>, alphaSize: int, ghost n: int) returns (table: seq<int>)
    requires |freq| == MAX_ALPHA && 2 <= alphaSize <= MAX_ALPHA && n <= 1000000 && RowFine(freq, n)
    ensures |table| == alphaSize && GoodTable(table)
  {
    var len := new int[MAX_ALPHA];
    TotalAtMost(freq, alphaSize);
    PrefixSum(freq, alphaSize);
    hide Total, SumOf, Kraft, Pow2;
    MakeCodeLengths(len, freq, alphaSize, 17);
    table := len[..alphaSize];
  }

  /** The lengths of all tables. */
  method MakeTables(rfreq: seq<int>, nGroups: int, alphaSize: int, ghost n: int) returns (len: seq<seq<int>>)
    requires |rfreq| == 6 * MAX_ALPHA && 0 <= nGroups <= 6 && 2 <= alphaSize <= MAX_ALPHA && n <= 1000000
    requires forall t :: 0 <= t < nGroups ==> RowFine(Row(rfreq, t), n)
    ensures |len| == nGroups
    ensures forall t :: 0 <= t < nGroups ==> |len[t]| == alphaSize && GoodTable(len[t])
  {
    len := [];
    for t := 0 to nGroups
      invariant |len| == t && forall u :: 0 <= u < t ==> |len[u]| == alphaSize && GoodTable(len[u])
    {
      var table := MakeTable(Row(rfreq, t), alphaSize, n);
      len := len + [table];
    }
  }

  lemma {:induction false} PrefixSum(s: seq<int>, a: int)
    requires 0 <= a <= |s| && forall v :: 0 <= v < |s| ==> s[v] >= 0
    ensures SumOf(s[..a]) <= SumOf(s)
    decreases |s|
  {
    if a < |s| {
      assert s[..|s| - 1][..a] == s[..a];
      PrefixSum(s[..|s| - 1], a);
    } else {
      assert s[..a] == s;
    }
  }

  /** Lengths from 1 to 17 with Kraft sum one. */
  ghost predicate GoodTable(len: seq<int>) {
    && 2 <= |len| <= MAX_ALPHA && (forall i :: 0 <= i < |len| ==> 1 <= len[i] <= 17)
    && Kraft(len, 17) == Pow2(17)
  }

  /** The codes of one table; assertions 3004 and 3005 hold. */
  method MakeCode(len: seq<int>) returns (code: seq<int>)
    requires GoodTable(len)
    ensures CodesAre(code, len)
  {
    hide MinOf, MaxOf, Code, Kraft;
    var table := new int[MAX_ALPHA];
    var alphaSize := |len|;
    var minLen, maxLen := FindRange(len, alphaSize);
    GoodRange(len);
    assert maxLen <= 17;  // assertion 3004
    assert minLen >= 1;   // assertion 3005
    AssignCodes(table, len, minLen, maxLen, alphaSize);
    CodesFit(len, minLen, maxLen, 17);
    code := table[..alphaSize];
  }

  method MakeCodes(len: seq<seq<int>>) returns (code: seq<seq<int>>)
    requires forall t :: 0 <= t < |len| ==> GoodTable(len[t])
    ensures |code| == |len| && forall t :: 0 <= t < |len| ==> CodesAre(code[t], len[t])
  {
    code := [];
    for t := 0 to |len|
      invariant |code| == t && forall u :: 0 <= u < t ==> CodesAre(code[u], len[u])
    {
      var table := MakeCode(len[t]);
      code := code + [table];
    }
  }

  ghost predicate CodesAre(code: seq<int>, len: seq<int>) {
    |code| == |len| && forall i :: 0 <= i < |len| ==> len[i] >= 0 && code[i] == Code(len, i) < Pow2(len[i])
  }

  // ----- writing -----

  /** One bit. */
  method PutBit(w: Writer, bit: bool)
    requires w.Valid()
    modifies w
    ensures w.Valid() && w.Written() == old(w.Written()) + [bit]
  {
    assert Pow2(1) == 2;
    OneBitIs(bit);
    hide Pow2, Bits;
    w.W(1, if bit then 1 else 0);
  }

  lemma OneBitIs(bit: bool)
    ensures Bits(if bit then 1 else 0, 1) == [bit]
  {
  }

  /** inUse16: the groups that have a byte in use. */
  method FindGroups(inUse: seq<bool>) returns (inUse16: seq<bool>)
    requires |inUse| == 256
    ensures inUse16 == UsedGroups(inUse)
  {
    inUse16 := [];
    for i := 0 to 16
      invariant |inUse16| == i && forall k :: 0 <= k < i ==> (inUse16[k] <==> GroupUsed(inUse, k))
    {
      var used := false;
      for j := 0 to 16
        invariant used <==> exists c :: 16 * i <= c < 16 * i + j && inUse[c]
      {
        if inUse[i * 16 + j] { used := true; }
      }
      inUse16 := inUse16 + [used];
    }
  }

  /** The mapping table. */
  method WriteMap(w: Writer, inUse: seq<bool>)
    requires w.Valid() && |inUse| == 256
    modifies w
    ensures w.Valid() && w.Written() == old(w.Written()) + MapBits(inUse)
  {
    hide UsedGroups, GroupBits, ByteBits, Bits, Holds;
    ghost var before := w.Written();
    var inUse16 := FindGroups(inUse);
    WriteBits(w, inUse16);
    assert before + inUse16 + GroupBits(inUse, 0) == before + MapBits(inUse);
    hide MapBits;
    for i := 0 to 16
      invariant w.Valid() && w.Written() + GroupBits(inUse, i) == before + MapBits(inUse)
    {
      GroupBitsStep(inUse, i, w.Written());
      if inUse16[i] {
        WriteBits(w, inUse[16 * i..16 * i + 16]);
      }
    }
    GroupBitsEnd(inUse, w.Written());
  }

  lemma GroupBitsStep(inUse: seq<bool>, i: int, x: seq<bool>)
    requires |inUse| == 256 && 0 <= i < 16
    ensures UsedGroups(inUse)[i] ==> x + inUse[16 * i..16 * i + 16] + GroupBits(inUse, i + 1) == x + GroupBits(inUse, i)
    ensures !UsedGroups(inUse)[i] ==> GroupBits(inUse, i) == GroupBits(inUse, i + 1)
  {
    GroupBitsAt(inUse, i);
  }

  lemma GroupBitsEnd(inUse: seq<bool>, x: seq<bool>)
    requires |inUse| == 256
    ensures x + GroupBits(inUse, 16) == x
  {
  }

  method WriteBits(w: Writer, bits: seq<bool>)
    requires w.Valid()
    modifies w
    ensures w.Valid() && w.Written() == old(w.Written()) + bits
  {
    hide ByteBits, Bits, Holds;
    ghost var before := w.Written();
    for j := 0 to |bits|
      invariant w.Valid() && w.Written() == before + bits[..j]
    {
      PutBit(w, bits[j]);
      assert before + bits[..j] + [bits[j]] == before + bits[..j + 1];
    }
    assert bits[..|bits|] == bits;
  }

  /** The selectors, as places in a move-to-front list. */
  method WriteSelectors(w: Writer, selectorMtf: seq<int>)
    requires w.Valid() && forall k :: 0 <= k < |selectorMtf| ==> selectorMtf[k] >= 0
    modifies w
    ensures w.Valid() && w.Written() == old(w.Written()) + SelectorBits(selectorMtf, 0)
  {
    ghost var before := w.Written();
    hide Unary;
    for i := 0 to |selectorMtf|
      invariant w.Valid() && w.Written() + SelectorBits(selectorMtf, i) == before + SelectorBits(selectorMtf, 0)
    {
      Assoc(w.Written(), Unary(selectorMtf[i]), SelectorBits(selectorMtf, i + 1));
      WriteUnary(w, selectorMtf[i]);
    }
    assert w.Written() + [] == w.Written();
  }

  method WriteUnary(w: Writer, n: int)
    requires w.Valid() && n >= 0
    modifies w
    ensures w.Valid() && w.Written() == old(w.Written()) + Unary(n)
  {
    ghost var before := w.Written();
    for j := 0 to n
      invariant w.Valid() && w.Written() + Unary(n - j) == before + Unary(n)
    {
      Assoc(w.Written(), [true], Unary(n - j - 1));
      PutBit(w, true);
    }
    PutBit(w, false);
  }

  /** Two bits. */
  method PutTwo(w: Writer, low: bool)
    requires w.Valid()
    modifies w
    ensures w.Valid() && w.Written() == old(w.Written()) + [true, low]
  {
    assert Pow2(2) == 4;
    assert Bits(2, 2) == [true, false] && Bits(3, 2) == [true, true] by { TwoBits(); }
    hide Pow2, Bits;
    w.W(2, if low then 3 else 2);
  }

  lemma TwoBits()
    ensures Bits(2, 2) == [true, false] && Bits(3, 2) == [true, true]
  {
    assert Bits(1, 1) == [true];
  }

  /** The steps from one length to the next. */
  method WriteDelta(w: Writer, curr0: int, l: int)
    requires w.Valid()
    modifies w
    ensures w.Valid() && w.Written() == old(w.Written()) + DeltaBits(curr0, l)
  {
    hide Writer.Valid, Writer.Written;
    ghost var before := w.Written();
    var curr := curr0;
    while curr < l
      invariant w.Valid() && w.Written() + DeltaBits(curr, l) == before + DeltaBits(curr0, l) &&
        (curr <= l || curr == curr0)
      decreases l - curr
    {
      Assoc(w.Written(), [true, false], DeltaBits(curr + 1, l));
      PutTwo(w, false);
      curr := curr + 1;
    }
    while curr > l
      invariant w.Valid() && w.Written() + DeltaBits(curr, l) == before + DeltaBits(curr0, l) && curr >= l
      decreases curr - l
    {
      Assoc(w.Written(), [true, true], DeltaBits(curr - 1, l));
      PutTwo(w, true);
      curr := curr - 1;
    }
    assert w.Written() + [] == w.Written();
  }

  method WriteLengths(w: Writer, table: seq<int>)
    requires w.Valid() && table != [] && 0 <= table[0] < 32
    modifies w
    ensures w.Valid() && w.Written() == old(w.Written()) + (Bits(table[0], 5) + LengthBits(table[0], table, 0))
  {
    assert Pow2(5) == 32;
    hide Pow2, Bits, DeltaBits;
    ghost var before := w.Written();
    var curr := table[0];
    w.W(5, curr);
    ghost var start := before + Bits(table[0], 5);
    for i := 0 to |table|
      invariant w.Valid() && w.Written() + LengthBits(curr, table, i) == start + LengthBits(table[0], table, 0)
    {
      Assoc(w.Written(), DeltaBits(curr, table[i]), [false] + LengthBits(table[i], table, i + 1));
      Assoc(w.Written() + DeltaBits(curr, table[i]), [false], LengthBits(table[i], table, i + 1));
      LengthBitsAt(curr, table, i);
      WriteDelta(w, curr, table[i]);
      curr := table[i];
      PutBit(w, false);
    }
    assert w.Written() + [] == w.Written();
    Assoc(before, Bits(table[0], 5), LengthBits(table[0], table, 0));
  }

  method WriteTables(w: Writer, len: seq<seq<int>>)
    requires w.Valid() && forall t :: 0 <= t < |len| ==> len[t] != [] && 0 <= len[t][0] < 32
    modifies w
    ensures w.Valid() && w.Written() == old(w.Written()) + TablesBits(len, 0)
  {
    hide Bits, LengthBits;
    ghost var before := w.Written();
    for t := 0 to |len|
      invariant w.Valid() && w.Written() + TablesBits(len, t) == before + TablesBits(len, 0)
    {
      Assoc(w.Written(), Bits(len[t][0], 5) + LengthBits(len[t][0], len[t], 0), TablesBits(len, t + 1));
      WriteLengths(w, len[t]);
    }
    assert w.Written() + [] == w.Written();
  }

  /** The codes of the symbols, group by group. */
  method WriteSymbols(w: Writer, mtfv: seq<int>, selector: seq<int>, len: seq<seq<int>>, code: seq<seq<int>>)
    requires w.Valid() && |code| == |len| && Coded(len, selector, mtfv)
    requires forall t :: 0 <= t < |len| ==> GoodTable(len[t]) && CodesAre(code[t], len[t])
    requires G_SIZE * (|selector| - 1) < |mtfv| <= G_SIZE * |selector|
    modifies w
    ensures w.Valid() && w.Written() == old(w.Written()) + SymbolBits(len, selector, mtfv, 0)
  {
    hide GoodTable, CodesAre, ByteBits, Bits, Holds;
    ghost var before, all := w.Written(), SymbolBits(len, selector, mtfv, 0);
    NoSymbolBits(len, selector, mtfv, w.Written());
    var selCtr := 0;
    var gs := 0;
    hide SymbolBits, Coded;
    while gs < |mtfv|
      invariant 0 <= gs <= |mtfv| && 0 <= selCtr && (gs == G_SIZE * selCtr || (gs == |mtfv| && selCtr == |selector|))
      invariant w.Valid() && w.Written() + SymbolBits(len, selector, mtfv, gs) == before + all
      decreases |mtfv| - gs
    {
      var ge := gs + G_SIZE - 1;
      if ge >= |mtfv| { ge := |mtfv| - 1; }
      WriteFifty(w, mtfv, selector, len, code, gs, ge, selCtr);
      gs := ge + 1;
      selCtr := selCtr + 1;
    }
    assert selCtr == |selector|;  // assertion 3007
    NoSymbolBits(len, selector, mtfv, w.Written());
  }

  lemma NoSymbolBits(len: seq<seq<int>>, selector: seq<int>, mtfv: seq<int>, x: seq<bool>)
    requires Coded(len, selector, mtfv)
    ensures x + SymbolBits(len, selector, mtfv, |mtfv|) == x
  {
  }

  lemma InGroup(len: seq<seq<int>>, selector: seq<int>, mtfv: seq<int>, i: int, selCtr: int)
    requires Coded(len, selector, mtfv) && 0 <= G_SIZE * selCtr <= i < G_SIZE * selCtr + G_SIZE && i < |mtfv|
    ensures i / G_SIZE == selCtr && selCtr < |selector| && selector[selCtr] < |len|
  {
    assert CodedAt(len, selector, mtfv, i);
  }

  /** The symbols gs to ge, which form one group. */
  method WriteFifty(w: Writer, mtfv: seq<int>, selector: seq<int>, len: seq<seq<int>>, code: seq<seq<int>>, gs: int,
      ge: int, selCtr: int)
    requires w.Valid() && |code| == |len| && Coded(len, selector, mtfv)
    requires forall t :: 0 <= t < |len| ==> GoodTable(len[t]) && CodesAre(code[t], len[t])
    requires 0 <= gs <= ge < |mtfv| && gs == G_SIZE * selCtr && ge < gs + G_SIZE
    modifies w
    ensures w.Valid()
    ensures w.Written() + SymbolBits(len, selector, mtfv, ge + 1) == old(w.Written()) +
      SymbolBits(len, selector, mtfv, gs)
  {
    hide GoodTable, CodesAre, ByteBits, Bits, Holds, SymbolBits, Coded;
    InGroup(len, selector, mtfv, gs, selCtr);
    assert selector[selCtr] < |len|;  // assertion 3006
    ghost var total := w.Written() + SymbolBits(len, selector, mtfv, gs);
    for i := gs to ge + 1
      invariant w.Valid() && w.Written() + SymbolBits(len, selector, mtfv, i) == total
    {
      InGroup(len, selector, mtfv, i, selCtr);
      WriteSymbol(w, mtfv, selector, len, code, i, selCtr);
    }
  }

  method WriteSymbol(w: Writer, mtfv: seq<int>, selector: seq<int>, len: seq<seq<int>>, code: seq<seq<int>>, i: int,
      selCtr: int)
    requires w.Valid() && |code| == |len| && Coded(len, selector, mtfv) && 0 <= i < |mtfv| && selCtr == i / G_SIZE
    requires forall t :: 0 <= t < |len| ==> GoodTable(len[t]) && CodesAre(code[t], len[t])
    modifies w
    ensures w.Valid()
    ensures w.Written() + SymbolBits(len, selector, mtfv, i + 1) == old(w.Written()) +
      SymbolBits(len, selector, mtfv, i)
  {
    assert CodedAt(len, selector, mtfv, i);
    var t := selector[selCtr];
    var n, c := len[t][mtfv[i]], code[t][mtfv[i]];
    assert GoodTable(len[t]) && CodesAre(code[t], len[t]);
    hide Bits, Code, Pow2, Kraft;
    Assoc(w.Written(), Bits(c, n), SymbolBits(len, selector, mtfv, i + 1));
    w.W(n, c);
  }
}

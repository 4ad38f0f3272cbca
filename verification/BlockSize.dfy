/** How many bits a block can take: each of its parts has a bound that does not depend on what was compressed. */
module BlockSize {

  import opened BitStream
  import opened HuffmanCodes
  import opened Machine
  import opened BlockReads
  import opened SymbolReads
  import opened BlockCode

  /** One table: five bits for the first length, then for every symbol at most nineteen steps of two bits and one bit to
      stop. */
  const TABLE_BITS := 5 + 258 * 39

  /** Everything in a block but its symbols: header, mapping table, counts, selectors and six tables. */
  const FRONT_BITS := 105 + 272 + 18 + 6 * MAX_SELECTORS + 6 * TABLE_BITS

  lemma {:induction false} HeaderSize(k: nat)
    requires k <= 6
    ensures |HeaderBits(k)| == 8 * (6 - k)
    decreases 6 - k
  {
    if k < 6 { HeaderSize(k + 1); }
  }

  lemma {:induction false} GroupSize(inUse: seq<bool>, i: nat)
    requires |inUse| == 256 && i <= 16
    ensures |GroupBits(inUse, i)| <= 16 * (16 - i)
    decreases 16 - i
  {
    if i < 16 { GroupSize(inUse, i + 1); }
  }

  lemma {:induction false} SelectorSize(mtf: seq<int>, i: nat)
    requires i <= |mtf| && forall k :: 0 <= k < |mtf| ==> 0 <= mtf[k] < 6
    ensures |SelectorBits(mtf, i)| <= 6 * (|mtf| - i)
    decreases |mtf| - i
  {
    if i < |mtf| { SelectorSize(mtf, i + 1); }
  }

  lemma {:induction false} DeltaSize(curr: int, l: int)
    requires 1 <= curr <= 20 && 1 <= l <= 20
    ensures |DeltaBits(curr, l)| <= 38 && |DeltaBits(curr, l)| == 2 * (if curr < l then l - curr else curr - l)
    decreases if curr < l then l - curr else curr - l
  {
    if curr < l {
      DeltaSize(curr + 1, l);
    } else if curr > l {
      DeltaSize(curr - 1, l);
    }
  }

  lemma {:induction false} LengthSize(curr: int, table: seq<int>, i: nat)
    requires GoodLengths(table) && 1 <= curr <= 20 && i <= |table|
    ensures |LengthBits(curr, table, i)| <= 39 * (|table| - i)
    decreases |table| - i
  {
    if i < |table| {
      hide DeltaBits;
      DeltaSize(curr, table[i]);
      LengthSize(table[i], table, i + 1);
    }
  }

  lemma {:induction false} TablesSize(tables: seq<seq<int>>, t: nat)
    requires t <= |tables| && AllGood(tables)
    requires forall u :: 0 <= u < |tables| ==> tables[u] != [] && tables[u][0] >= 0
    ensures |TablesBits(tables, t)| <= TABLE_BITS * (|tables| - t)
    decreases |tables| - t
  {
    hide LengthBits, Bits, GoodLengths;
    if t < |tables| {
      FirstGood(tables[t]);
      LengthSize(tables[t][0], tables[t], 0);
      TablesSize(tables, t + 1);
    }
  }

  ghost predicate AllGood(tables: seq<seq<int>>) {
    forall u :: 0 <= u < |tables| ==> GoodLengths(tables[u])
  }

  lemma FirstGood(table: seq<int>)
    requires GoodLengths(table)
    ensures 0 < |table| <= 258 && 1 <= table[0] <= 20
  {
  }

  lemma {:induction false} SymbolSize(len: seq<seq<int>>, selector: seq<int>, syms: seq<int>, k: nat)
    requires Coded(len, selector, syms) && k <= |syms|
    ensures |SymbolBits(len, selector, syms, k)| <= 20 * (|syms| - k)
    decreases |syms| - k
  {
    if k < |syms| {
      hide Code, Coded;
      assert CodedAt(len, selector, syms, k) by { CodedHere(len, selector, syms, k); }
      SymbolSize(len, selector, syms, k + 1);
    }
  }

  lemma CodedHere(len: seq<seq<int>>, selector: seq<int>, syms: seq<int>, k: nat)
    requires Coded(len, selector, syms) && k < |syms|
    ensures CodedAt(len, selector, syms, k)
  {
    hide CodedAt;
  }

  lemma FrontSize(b: Block)
    requires GoodHeader(b)
    ensures |FrontBits(b)| <= 105 + 272
  {
    hide HeaderBits, GroupBits, UsedGroups, UsedBytes;
    HeaderSize(0);
    GroupSize(b.inUse, 0);
  }

  lemma CodeSize(b: Block)
    requires GoodHeader(b)
    ensures |CodeBits(b)| <= 18 + 6 * MAX_SELECTORS + 6 * TABLE_BITS
  {
    hide SelectorBits, TablesBits, UsedBytes, GoodLengths, Bits;
    forall u | 0 <= u < |b.tables| ensures GoodLengths(b.tables[u]) && b.tables[u] != [] && b.tables[u][0] >= 0 {
      FirstGood(b.tables[u]);
    }
    SelectorSize(b.mtf, 0);
    TablesSize(b.tables, 0);
  }

  /** The bits of any good block. */
  lemma BlockTakes(b: Block)
    requires GoodHeader(b) && Coded(b.tables, Selectors(b), b.syms)
    ensures |BlockBits(b)| <= FRONT_BITS + 20 * |b.syms|
  {
    hide Coded, UsedBytes, FrontBits, CodeBits, SymbolBits;
    FrontSize(b);
    CodeSize(b);
    SymbolSize(b.tables, Selectors(b), b.syms, 0);
  }
}

/** inflate_table: the tables from which inflate decodes a canonical Huffman code. */
module BuildTables {

  import opened Powers
  import opened Counting
  import opened BitStream
  import opened Backwards
  import opened CanonicalCode
  import opened TableEntries

  // ----- entering one symbol -----

  /** Writes the entry at every index whose low bits are base. */
  method Replicate(table: array<Entry>, next: nat, base: nat, width: nat, curr: nat, here: Entry)
    requires next + Pow2(curr) <= table.Length && base < Pow2(width) && width <= curr
    modifies table
    ensures Strided(old(table[..]), table[..], next, curr, width, base, here)
  {
    hide Pow2;
    Pow2Add(curr - width, width);
    var incr := Pow2(width);
    var fill := Pow2(curr);
    ghost var k := Pow2(curr - width);
    while true
      invariant fill == k * incr && 0 < k && fill <= Pow2(curr)
      invariant forall i :: 0 <= i < table.Length && !(next + fill <= i < next + Pow2(curr)) ==>
        table[i] == old(table[i])
      invariant forall i :: next + fill <= i < next + Pow2(curr) ==>
        table[i] == if (i - next) % incr == base then here else old(table[i])
      decreases k
    {
      k := k - 1;
      MulNext(k, incr);
      NonNegative(k, incr);
      fill := fill - incr;
      table[next + base + fill] := here;
      forall i | next + fill <= i < next + fill + incr
        ensures table[i] == if (i - next) % incr == base then here else old(table[i])
      {
        DivMod(i - next, incr, k, i - next - fill);
      }
      if fill == 0 { break; }
    }
  }

  // ----- from symbol to symbol -----

  lemma ZeroBits(n: nat)
    ensures Bits(0, n) == Zeros(n)
  {
    if n > 0 { ZeroBits(n - 1); }
  }

  /** The code of the next symbol: one more, then zeros; backwards the zeros do not show. */
  lemma NextCode(lens: seq<int>, w: seq<int>, x: int)
    requires Order(lens, w) && Kraft15(lens) <= 0x8000 && 0 <= x && x + 1 < |w|
    ensures var a, b := w[x], w[x + 1];
            CodeOf(lens, a) + 1 < Pow2(lens[a]) &&
              Lsb(Bits(CodeOf(lens, b), lens[b])) == Lsb(Bits(CodeOf(lens, a) + 1, lens[a]))
  {
    hide CodeOf, Bits, Lsb, Pow2, Kraft15, Share, Before;
    var a, b := w[x], w[x + 1];
    var c, c', l, l' := CodeOf(lens, a), CodeOf(lens, b), lens[a], lens[b];
    Consecutive(lens, w, x);
    CodeFits(lens, b);
    SharesOf(l', l);
    var q, p := Pow2(l' - l), Share(l');
    MulNext(c, Share(l));
    Cancel(c', c + 1, q, p);
    Pow2Add(l, l' - l);
    Smaller(c + 1, Pow2(l), q, c');
    Powers0(l' - l);
    BitsJoin(c + 1, l, 0, l' - l);
    ZeroBits(l' - l);
    LsbZeros(Bits(c + 1, l), l' - l);
  }

  lemma Powers0(n: nat)
    ensures 0 < Pow2(n)
  {
  }

  lemma Cancel(a: nat, b: nat, q: nat, p: nat)
    requires a * p == b * (q * p) && p > 0
    ensures a == b * q
  {
    assert b * (q * p) == (b * q) * p;
    MulCompare(a, b * q, p);
    MulCompare(b * q, a, p);
  }

  lemma Smaller(a: nat, b: nat, q: nat, c: nat)
    requires c == a * q && c < b * q && q > 0
    ensures a < b
  {
    MulCompare(b, a, q);
  }

  /** After the last symbol the code has run out, if it is complete. */
  lemma LastCode(lens: seq<int>, w: seq<int>)
    requires Order(lens, w) && Kraft15(lens) <= 0x8000 && |w| > 0
    ensures var a := w[|w| - 1];
      CodeOf(lens, a) + 1 <= Pow2(lens[a]) && (CodeOf(lens, a) + 1 == Pow2(lens[a]) <==> Kraft15(lens) == 0x8000)
  {
    hide CodeOf, Pow2, Kraft15, Before, EndOf;
    var a := w[|w| - 1];
    CodeFits(lens, a);
    EndsWithAll(lens, w);
    EndIsKraft(lens);
    var c, l := CodeOf(lens, a), lens[a];
    Pow2Add(l, 15 - l);
    Pow15();
    MulNext(c, Share(l));
    if c + 1 < Pow2(l) { Multiples(Share(l), c + 1, Pow2(l)); }
    assert Share(l) * (c + 1) == (c + 1) * Share(l) && Share(l) * Pow2(l) == Pow2(l) * Share(l);
  }

  /** count has one code less of the length of the symbol that is done. */
  lemma CountedDown(count: seq<int>, lens: seq<int>, w: seq<int>, x: int)
    requires Order(lens, w) && 0 <= x < |w| && Remaining(count, lens, w[x])
    ensures var l := lens[w[x]]; var count' := count[l := count[l] - 1];
            (count'[l] == 0 <==> x + 1 == |w| || lens[w[x + 1]] > l) &&
            (x + 1 < |w| ==> l <= lens[w[x + 1]] && Remaining(count', lens, w[x + 1]))
  {
    hide CodeOf, Share, Before, EndOf, Start;
    var l := lens[w[x]];
    var count' := count[l := count[l] - 1];
    RemainingFor(count, lens, w[x], l);
    MulSub(count[l], 1, Share(l));
    if x + 1 == |w| {
      EndsWithAll(lens, w);
      ZeroFactor(count'[l], Share(l));
    } else {
      Consecutive(lens, w, x);
      var b := w[x + 1];
      StartIn(lens, b);
      ZeroFactor(count'[l], Share(l));
      forall m | 1 <= m && lens[b] <= m <= 15 ensures count'[m] * Share(m) == StillFor(lens, b, m) {
        RemainingFor(count, lens, w[x], m);
      }
    }
  }

  lemma ZeroFactor(a: int, p: int)
    requires p > 0
    ensures a * p == 0 <==> a == 0
  {
    if a > 0 { Multiples(p, 0, a); }
    if a < 0 { Multiples(p, a, 0); }
    assert p * a == a * p && p * 0 == 0;
  }

  // ----- the loop over all symbols -----

  /** Where the loop stands: symbol x is to be entered, with these bits of its code backwards, in the table of group
      g. */
  ghost predicate Going(t: seq<Entry>, kind: CodeType, lens: seq<int>, w: seq<int>, x: int, root: nat, drop: nat,
      curr: nat, next: nat, used: nat, g: nat, huff: int, low: int)
    requires Order(lens, w) && |lens| <= Symbols(kind)
  {
    && 0 <= x < |w| && 1 <= root <= 15 && Pow2(root) <= |t|
    && Filling(t, lens, w[x], root, drop, curr, next, used, g) && AllPlaced(t, root, kind, lens, w, x, g, next, used)
    && huff == Lsb(Bits(CodeOf(lens, w[x]), lens[w[x]]))
    && low == (if drop == 0 then -1 else Lsb(Bits(g, root)))
    && (drop != 0 ==> g == GroupOf(lens, w[x], root) && GroupFits(lens, w, x, root, curr, g))
  }

  lemma GoingStart(t: seq<Entry>, kind: CodeType, lens: seq<int>, w: seq<int>, root: nat)
    requires Order(lens, w) && |lens| <= Symbols(kind) && |w| > 0 && 1 <= root <= 15 && Pow2(root) <= |t| &&
      lens[w[0]] <= root
    ensures Going(t, kind, lens, w, 0, root, 0, root, 0, Pow2(root), 0, 0, -1)
  {
    hide Pow2, Begins, Before, FirstCode, CountEq;
    StartsAtZero(lens, w);
    ZeroCode(lens, w[0]);
    ZeroBits(lens[w[0]]);
    LsbZeros([], lens[w[0]]);
    assert [] + Zeros(lens[w[0]]) == Zeros(lens[w[0]]);
  }

  lemma ZeroCode(lens: seq<int>, sym: int)
    requires Lens(lens) && 0 <= sym < |lens| && Start(lens, sym) == 0
    ensures CodeOf(lens, sym) == 0
  {
    hide FirstCode, CountEq, CodeOf, Share;
    ZeroFactor(CodeOf(lens, sym), Share(lens[sym]));
  }

  /** The entries of one symbol are written. */
  method EnterSymbol(table: array<Entry>, kind: CodeType, work: seq<int>, x: int, len: nat, root: nat, drop: nat,
      curr: nat, next: nat, huff: nat, ghost lens: seq<int>, ghost used: nat, ghost g: nat, ghost low: int)
    requires Order(lens, work) && |lens| <= Symbols(kind) && Kraft15(lens) <= 0x8000
    requires Going(table[..], kind, lens, work, x, root, drop, curr, next, used, g, huff, low) && len == lens[work[x]]
    modifies table
    ensures AllPlaced(table[..], root, kind, lens, work, x + 1, g, next, used)
    ensures forall i :: 0 <= i < table.Length && i < next ==> table[i] == old(table[i])
  {
    ghost var t := table[..];
    ghost var code := Bits(CodeOf(lens, work[x]), lens[work[x]]);
    hide Bits, Lsb, Pow2, AllPlaced, CodeOf, Kraft15, Before, Start;
    LsbSplit(code, drop);
    var here := EntryFor(kind, work[x], len - drop);
    assert here == Here(kind, lens, root, work[x]);
    Replicate(table, next, huff / Pow2(drop), len - drop, curr, here);
    OneMorePlaced(t, table[..], kind, lens, work, x, root, drop, curr, next, used, g);
  }

  /** The next symbol belongs to the table that is being filled. */
  lemma SameTable(t0: seq<Entry>, t: seq<Entry>, kind: CodeType, lens: seq<int>, w: seq<int>, x: int, root: nat,
      drop: nat, curr: nat, next: nat, used: nat, g: nat, huff: int, huff': nat, low: int)
    requires Order(lens, w) && |lens| <= Symbols(kind) && Kraft15(lens) <= 0x8000 && x + 1 < |w|
    requires Going(t0, kind, lens, w, x, root, drop, curr, next, used, g, huff, low)
    requires AllPlaced(t, root, kind, lens, w, x + 1, g, next, used) && |t| == |t0| &&
             forall i :: 0 <= i < |t| && i < next ==> t[i] == t0[i]
    requires huff' == Lsb(Bits(CodeOf(lens, w[x + 1]), lens[w[x + 1]])) &&
      !(lens[w[x + 1]] > root && huff' % Pow2(root) != low)
    ensures Going(t, kind, lens, w, x + 1, root, drop, curr, next, used, g, huff', low)
  {
    hide Bits, Lsb, Pow2, AllPlaced, CodeOf, Kraft15, Before, Start, Share, GroupOf, GroupFits;
    OrderLengths(lens, w, x);
    if drop != 0 { StaysInGroup(lens, w, x, root, curr, g, huff'); }
  }

  /** The low bits of the next code select the link of the group: it belongs to the group. */
  lemma StaysInGroup(lens: seq<int>, w: seq<int>, x: int, root: nat, curr: nat, g: nat, huff: nat)
    requires Order(lens, w) && Kraft15(lens) <= 0x8000 && 0 <= x && x + 1 < |w| && 1 <= root <= 15 && root < lens[w[x]]
    requires g == GroupOf(lens, w[x], root) && GroupFits(lens, w, x, root, curr, g)
    requires huff == Lsb(Bits(CodeOf(lens, w[x + 1]), lens[w[x + 1]])) && huff % Pow2(root) == Lsb(Bits(g, root))
    ensures lens[w[x + 1]] > root && lens[w[x + 1]] <= root + curr && GroupFits(lens, w, x + 1, root, curr, g)
    ensures g == GroupOf(lens, w[x + 1], root) && Bits(CodeOf(lens, w[x + 1]), lens[w[x + 1]])[..root] == Bits(g, root)
  {
    hide Bits, Lsb, Pow2, CodeOf, Kraft15, Before, Start, Share, GroupOf;
    var b := w[x + 1];
    OrderLengths(lens, w, x);
    var code := Bits(CodeOf(lens, b), lens[b]);
    LsbSplit(code, root);
    LsbInjective(code[..root], Bits(g, root));
    GroupParts(lens, b, root);
    GroupParts(lens, w[x], root);
    SameGroup(GroupOf(lens, b, root), g, root);
    InGroupBelow(lens, b, root);
  }

  lemma OrderLengths(lens: seq<int>, w: seq<int>, x: int)
    requires Order(lens, w) && 0 <= x && x + 1 < |w|
    ensures lens[w[x]] <= lens[w[x + 1]]
  {
    assert Before(lens, w[x], w[x + 1]);
  }

  lemma SameGroup(g: nat, h: nat, root: nat)
    requires g < Pow2(root) && h < Pow2(root) && Bits(g, root) == Bits(h, root)
    ensures g == h
  {
    hide Bits, Pow2;
    ValueOfBits(g, root);
    ValueOfBits(h, root);
  }

  lemma InGroupBelow(lens: seq<int>, sym: int, root: nat)
    requires Lens(lens) && 0 <= sym < |lens| && root <= 15
    ensures Start(lens, sym) < (GroupOf(lens, sym, root) + 1) * Share(root)
  {
    hide Start, Share;
    var s, p := Start(lens, sym), Share(root);
    assert s == p * (s / p) + s % p;
    MulNext(s / p, p);
    assert p * (s / p) == s / p * p;
  }

  /** The next symbol begins a table of its own. */
  lemma OtherTable(t0: seq<Entry>, t: seq<Entry>, kind: CodeType, lens: seq<int>, w: seq<int>, x: int, root: nat,
      drop: nat, curr: nat, next: nat, used: nat, g: nat, huff: int, huff': nat, low: int)
    requires Order(lens, w) && |lens| <= Symbols(kind) && Kraft15(lens) <= 0x8000 && x + 1 < |w|
    requires Going(t0, kind, lens, w, x, root, drop, curr, next, used, g, huff, low)
    requires AllPlaced(t, root, kind, lens, w, x + 1, g, next, used) && |t| == |t0|
    requires huff' == Lsb(Bits(CodeOf(lens, w[x + 1]), lens[w[x + 1]])) && lens[w[x + 1]] > root &&
      huff' % Pow2(root) != low
    ensures var g' := GroupOf(lens, w[x + 1], root);
            Start(lens, w[x + 1]) == g' * Share(root) && g' < Pow2(root) && huff' % Pow2(root) == Lsb(Bits(g', root)) &&
            Bits(CodeOf(lens, w[x + 1]), lens[w[x + 1]])[..root] == Bits(g', root)
    ensures Pow2(root) <= used && next <= used
  {
    hide Bits, Lsb, Pow2, AllPlaced, CodeOf, Kraft15, Before, Start, Share, GroupOf, GroupFits;
    var b := w[x + 1];
    GroupParts(lens, b, root);
    var code := Bits(CodeOf(lens, b), lens[b]);
    LsbSplit(code, root);
    if lens[w[x]] > root {
      assert drop == root;
    }
    GroupBegins(lens, w, x, root);
  }

  /** The link is in place, and the new table can be filled. */
  lemma GoingOn(t0: seq<Entry>, t: seq<Entry>, kind: CodeType, lens: seq<int>, w: seq<int>, n: int, root: nat, g: nat,
      next: int, used: nat, g': nat, curr': nat, huff': nat)
    requires Order(lens, w) && |lens| <= Symbols(kind) && Kraft15(lens) <= 0x8000 && 0 < n < |w| && 1 <= root <= 15 &&
      Pow2(root) <= |t0|
    requires AllPlaced(t0, root, kind, lens, w, n, g, next, used) && next <= used && Pow2(root) <= used &&
      used + Pow2(curr') <= |t0|
    requires g' == GroupOf(lens, w[n], root) && Start(lens, w[n]) == g' * Share(root) && g' < Pow2(root)
    requires root < lens[w[n]] <= root + curr' <= 15 && GroupFits(lens, w, n, root, curr', g')
    requires huff' == Lsb(Bits(CodeOf(lens, w[n]), lens[w[n]])) &&
      Bits(CodeOf(lens, w[n]), lens[w[n]])[..root] == Bits(g', root)
    requires t == t0[Lsb(Bits(g', root)) := Entry(curr', root, used)]
    ensures Going(t, kind, lens, w, n, root, root, curr', used, used + Pow2(curr'), g', huff', Lsb(Bits(g', root)))
  {
    hide Bits, Lsb, Pow2, AllPlaced, CodeOf, Kraft15, Before, Start, Share, GroupOf, GroupFits;
    NewGroup(t0, kind, lens, w, n, root, g, next, used, g', used + Pow2(curr'), Entry(curr', root, used));
  }

  /** More entries than were set aside. */
  predicate TooMany(kind: CodeType, used: int) {
    (kind == Lengths && used > ENOUGH_LENS) || (kind == Distances && used > ENOUGH_DISTS)
  }

  /** What the space for a table must be. */
  predicate Room(kind: CodeType, length: int, root: nat) {
    match kind case Codes => Pow2(root) <= length case Lengths => ENOUGH_LENS <= length case Distances =>
      ENOUGH_DISTS <= length
  }

  lemma RoomFits(kind: CodeType, length: int, used: int, root: nat)
    requires Room(kind, length, root) && !TooMany(kind, used) && (kind == Codes ==> used == Pow2(root))
    ensures used <= length
  {
    hide Pow2;
  }

  lemma GoingParts(t: seq<Entry>, kind: CodeType, lens: seq<int>, w: seq<int>, x: int, root: nat, drop: nat, curr: nat,
      next: nat, used: nat, g: nat, huff: int, low: int)
    requires Order(lens, w) && |lens| <= Symbols(kind) &&
      Going(t, kind, lens, w, x, root, drop, curr, next, used, g, huff, low)
    ensures 0 <= x < |w| && 1 <= root <= 15 && huff == Lsb(Bits(CodeOf(lens, w[x]), lens[w[x]])) &&
      used == next + Pow2(curr) <= |t|
    ensures Pow2(root) <= used && drop <= lens[w[x]] - 1 && drop + curr <= 15 &&
      (drop == 0 ==> next == 0 && curr == root) && (drop != 0 ==> drop == root)
  {
    hide Bits, Lsb, Pow2, AllPlaced, CodeOf, GroupFits, GroupOf, Before;
  }

  /** A table for the codes that begin with the low root bits of huff. */
  method StartTable(table: array<Entry>, kind: CodeType, count: seq<int>, len: nat, root: nat, curr0: nat, next0: nat,
      used0: nat, huff: nat, max: nat, ghost lens: seq<int>, ghost w: seq<int>, ghost n: int, ghost g0: nat,
      ghost g: nat)
    returns (ret: int, curr: nat, next: nat, used: nat, low: int)
    requires Order(lens, w) && |lens| <= Symbols(kind) && Kraft15(lens) <= 0x8000 && 0 < n < |w| && 1 <= root <= 15
    requires AllPlaced(table[..], root, kind, lens, w, n, g0, next0, used0) && used0 == next0 + Pow2(curr0) &&
      Pow2(root) <= used0 <= table.Length
    requires g == GroupOf(lens, w[n], root) && Start(lens, w[n]) == g * Share(root) && g < Pow2(root)
    requires root < len == lens[w[n]] <= max <= 15 && Remaining(count, lens, w[n]) &&
      forall i :: 0 <= i < |lens| ==> lens[i] <= max
    requires huff == Lsb(Bits(CodeOf(lens, w[n]), lens[w[n]])) &&
      Bits(CodeOf(lens, w[n]), lens[w[n]])[..root] == Bits(g, root)
    requires huff % Pow2(root) == Lsb(Bits(g, root)) && kind != Codes && Room(kind, table.Length, root)
    modifies table
    ensures ret == 0 || (ret == 1 && TooMany(kind, used))
    ensures ret == 0 ==> Going(table[..], kind, lens, w, n, root, root, curr, next, used, g, huff, low)
  {
    hide Bits, Lsb, Pow2, AllPlaced, CodeOf, Kraft15, Before, Start, Share, GroupOf, GroupFits, Going, Remaining, Value;
    ghost var t := table[..];
    next := next0 + Pow2(curr0);
    curr := SubTableBits(count, len, root, max, lens, w, n, g);
    used := used0 + Pow2(curr);
    low := -1;
    if TooMany(kind, used) { return 1, curr, next, used, low; }
    low := huff % Pow2(root);
    table[low] := Entry(curr, root, next);
    GoingOn(t, table[..], kind, lens, w, n, root, g0, next0, used0, g, curr, huff);
    ret := 0;
  }

  lemma NonZero(v: nat, n: nat)
    requires 0 < v < Pow2(n)
    ensures Lsb(Bits(v, n)) != 0
  {
    hide Lsb, Bits, Pow2;
    if Lsb(Bits(v, n)) == 0 {
      LsbZeros([], n);
      assert [] + Zeros(n) == Zeros(n);
      LsbEmpty();
      LsbInjective(Bits(v, n), Zeros(n));
      ZeroBits(n);
      Powers0(n);
      ValueOfBits(0, n);
      ValueOfBits(v, n);
    }
  }

  lemma LsbEmpty()
    ensures Lsb([]) == 0
  {
  }

  /** Whether the code has run out shows in huff. */
  lemma Exhausted(lens: seq<int>, w: seq<int>, huff: nat)
    requires Order(lens, w) && |w| > 0 && Kraft15(lens) <= 0x8000
    requires var a := w[|w| - 1]; var v := Value(Bits(CodeOf(lens, a), lens[a]));
             if v + 1 < Pow2(lens[a]) then huff == Lsb(Bits(v + 1, lens[a])) else huff == 0
    ensures huff == 0 <==> Kraft15(lens) == 0x8000
    ensures var a := w[|w| - 1];
      huff != 0 ==> CodeOf(lens, a) + 1 < Pow2(lens[a]) && huff == Lsb(Bits(CodeOf(lens, a) + 1, lens[a]))
  {
    hide Lsb, Bits, Pow2, CodeOf, Kraft15, Before, Value;
    var a := w[|w| - 1];
    LastCode(lens, w);
    ValueOfBits(CodeOf(lens, a), lens[a]);
    if CodeOf(lens, a) + 1 < Pow2(lens[a]) { NonZero(CodeOf(lens, a) + 1, lens[a]); }
  }

  /** Enters all symbols. Codes for code lengths fit the root table; of the others too long ones are given up. */
  method EnterAll(table: array<Entry>, kind: CodeType, work: seq<int>, lens: seq<int>, count: array<int>, root: nat,
      max: nat)
    returns (ret: int, huff: nat, next: nat, len: nat, drop: nat, used: nat, ghost g: nat)
    requires Order(lens, work) && |lens| <= Symbols(kind) && |work| > 0 && Kraft15(lens) <= 0x8000 && count.Length == 16
    requires max == lens[work[|work| - 1]] && lens[work[0]] <= root <= max && 1 <= root &&
      (kind == Codes ==> root == max)
    requires Remaining(count[..], lens, work[0]) && Room(kind, table.Length, root)
    modifies table, count
    ensures ret == 0 || (ret == 1 && TooMany(kind, used))
    ensures ret == 0 ==>
      1 <= root <= 15 && Pow2(root) <= used <= table.Length && len == max && (huff == 0 <==> Kraft15(lens) == 0x8000)
    ensures ret == 0 ==> next <= used && AllPlaced(table[..], root, kind, lens, work, |work|, g, next, used)
    ensures ret == 0 && max <= root ==> drop == 0 && next == 0
    ensures var a := work[|work| - 1];
      ret == 0 && huff != 0 ==> CodeOf(lens, a) + 1 < Pow2(max) && huff == Lsb(Bits(CodeOf(lens, a) + 1, max))
  {
    hide Bits, Lsb, Pow2, AllPlaced, CodeOf, Kraft15, Before, Start, Share, GroupOf, GroupFits, Going, Filling,
      Remaining, Value;
    var sym, low, curr := 0, -1, root;
    g, len, next, drop, used, huff, ret := 0, lens[work[0]], 0, 0, Pow2(root), 0, 0;
    EndsWithAll(lens, work);
    if TooMany(kind, used) { return 1, huff, next, len, drop, used, g; }
    RoomFits(kind, table.Length, used, root);
    GoingStart(table[..], kind, lens, work, root);
    while true
      invariant 0 <= sym < |work| && len == lens[work[sym]] && count.Length == 16 &&
        Remaining(count[..], lens, work[sym])
      invariant Going(table[..], kind, lens, work, sym, root, drop, curr, next, used, g, huff, low)
      invariant ret == 0 && (len <= root ==> drop == 0 && next == 0)
      decreases |work| - sym
    {
      ghost var t0, huff0, code := table[..], huff, Bits(CodeOf(lens, work[sym]), len);
      GoingParts(t0, kind, lens, work, sym, root, drop, curr, next, used, g, huff, low);
      EnterSymbol(table, kind, work, sym, len, root, drop, curr, next, huff, lens, used, g, low);
      huff := NextBackwards(huff, len, code);
      ghost var c0 := count[..];
      CountedDown(c0, lens, work, sym);
      sym := sym + 1;
      count[len] := count[len] - 1;
      assert count[..] == c0[len := c0[len] - 1];
      if sym == |work| { Exhausted(lens, work, huff); }
      if count[len] == 0 {
        if len == max { break; }
        len := lens[work[sym]];
      }
      NextHuff(lens, work, sym - 1, huff);
      if len > root && huff % Pow2(root) != low {
        OtherTable(t0, table[..], kind, lens, work, sym - 1, root, drop, curr, next, used, g, huff0, huff, low);
        ghost var g0 := g;
        g := GroupOf(lens, work[sym], root);
        drop := root;
        ret, curr, next, used, low := StartTable(table, kind, count[..], len, root, curr, next, used, huff, max, lens,
          work, sym, g0, g);
        if ret == 1 { return; }
      } else {
        SameTable(t0, table[..], kind, lens, work, sym - 1, root, drop, curr, next, used, g, huff0, huff, low);
      }
    }
  }

  /** huff is the code of the next symbol. */
  lemma NextHuff(lens: seq<int>, w: seq<int>, x: int, huff: nat)
    requires Order(lens, w) && Kraft15(lens) <= 0x8000 && 0 <= x && x + 1 < |w|
    requires var v := Value(Bits(CodeOf(lens, w[x]), lens[w[x]]));
             if v + 1 < Pow2(lens[w[x]]) then huff == Lsb(Bits(v + 1, lens[w[x]])) else huff == 0
    ensures huff == Lsb(Bits(CodeOf(lens, w[x + 1]), lens[w[x + 1]]))
  {
    hide Lsb, Bits, Pow2, CodeOf, Kraft15, Before, Value;
    NextCode(lens, w, x);
    ValueOfBits(CodeOf(lens, w[x]), lens[w[x]]);
  }
}

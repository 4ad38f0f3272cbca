/** What the tables of inflate_table hold, and why filling them symbol by symbol keeps it so. */
module TableEntries {

  import opened Powers
  import opened BitStream
  import opened Backwards
  import opened CanonicalCode

  datatype CodeType = Codes | Lengths | Distances

  datatype Entry = Entry(op: int, bits: int, val: int)

  const ENOUGH_LENS := 852
  const ENOUGH_DISTS := 592

  const LBASE := [3, 4, 5, 6, 7, 8, 9, 10, 11, 13, 15, 17, 19, 23, 27, 31, 35, 43, 51, 59, 67, 83, 99, 115, 131, 163,
    195, 227, 258, 0, 0]
  const LEXT := [16, 16, 16, 16, 16, 16, 16, 16, 17, 17, 17, 17, 18, 18, 18, 18, 19, 19, 19, 19, 20, 20, 20, 20, 21, 21,
    21, 21, 16, 72, 78]
  const DBASE := [1, 2, 3, 4, 5, 7, 9, 13, 17, 25, 33, 49, 65, 97, 129, 193, 257, 385, 513, 769, 1025, 1537, 2049, 3073,
    4097, 6145, 8193, 12289, 16385, 24577, 0, 0]
  const DEXT := [16, 16, 16, 16, 17, 17, 18, 18, 19, 19, 20, 20, 21, 21, 22, 22, 23, 23, 24, 24, 25, 25, 26, 26, 27, 27,
    28, 28, 29, 29, 64, 64]

  function Symbols(kind: CodeType): int {
    match kind case Codes => 19 case Lengths => 288 case Distances => 32
  }

  /** What a table says of a symbol: a literal, the end of the block, or a base with extra bits. */
  function EntryFor(kind: CodeType, sym: int, bits: int): (e: Entry)
    requires 0 <= sym < Symbols(kind)
    ensures e.bits == bits && !IsLink(e)
  {
    match kind
    case Codes => Entry(0, bits, sym)
    case Lengths => if sym < 256 then Entry(0, bits, sym)
      else if sym > 256 then Entry(LEXT[sym - 257], bits, LBASE[sym - 257]) else Entry(96, bits, 0)
    case Distances => Entry(DEXT[sym], bits, DBASE[sym])
  }

  function Invalid(bits: int): Entry { Entry(64, bits, 0) }

  /** The entry leads to another table, with op index bits. */
  predicate IsLink(e: Entry) { 0 < e.op < 16 }

  /** Decoding: the low bits of what is to come select an entry; if that is a link, further bits select one of its
      table. */
  ghost predicate Finds(t: seq<Entry>, root: nat, s: seq<bool>, e: Entry, bits: int)
    requires root <= |s|
  {
    Lsb(s[..root]) < |t| &&
    var a := t[Lsb(s[..root])];
    if IsLink(a) then
      && 0 <= a.bits && a.bits + a.op <= |s| && 0 <= a.val + Lsb(s[a.bits..a.bits + a.op]) < |t|
      && e == t[a.val + Lsb(s[a.bits..a.bits + a.op])] && bits == a.bits + e.bits
    else e == a && bits == a.bits
  }

  /** The entry that a symbol has in its table. */
  function Here(kind: CodeType, lens: seq<int>, root: int, sym: int): Entry
    requires 0 <= sym < |lens| <= Symbols(kind)
  {
    EntryFor(kind, sym, if lens[sym] <= root then lens[sym] else lens[sym] - root)
  }

  /** s, which begins with the code of sym, leads to its entry; tables that are linked to end below hi. */
  ghost predicate Placed(t: seq<Entry>, root: nat, hi: int, kind: CodeType, lens: seq<int>, sym: int, s: seq<bool>)
    requires 0 <= sym < |lens| <= Symbols(kind) && root <= 15 == |s|
  {
    Pow2(root) <= |t| && hi <= |t| &&
    var a := t[Lsb(s[..root])];
    if lens[sym] <= root then a == Here(kind, lens, root, sym)
    else
      && IsLink(a) && a.bits == root && Pow2(root) <= a.val && a.val + Pow2(a.op) <= hi && root + a.op <= 15
      && t[a.val + Lsb(s[root..root + a.op])] == Here(kind, lens, root, sym)
  }

  lemma PlacedFinds(t: seq<Entry>, root: nat, hi: int, kind: CodeType, lens: seq<int>, sym: int, s: seq<bool>)
    requires 0 <= sym < |lens| <= Symbols(kind) && root <= 15 == |s| && Placed(t, root, hi, kind, lens, sym, s)
    ensures Finds(t, root, s, Here(kind, lens, root, sym), lens[sym])
  {
  }

  /** s begins with the root bits of group g. */
  ghost predicate InGroup(s: seq<bool>, root: nat, g: nat)
    requires root <= |s|
  {
    s[..root] == Bits(g, root)
  }

  /** The first n symbols can be found; the group whose table is being filled may use the space up to used. */
  ghost predicate AllPlaced(t: seq<Entry>, root: nat, kind: CodeType, lens: seq<int>, w: seq<int>, n: int, g: nat,
      next: int, used: int)
    requires Order(lens, w) && n <= |w| && |lens| <= Symbols(kind) && root <= 15
  {
    forall y, s :: 0 <= y < n && Begins(lens, w[y], s) ==>
      Placed(t, root, if InGroup(s, root, g) then used else next, kind, lens, w[y], s)
  }

  /** The table being filled: the root table, or one for the codes that begin with the root bits of g. */
  ghost predicate Filling(t: seq<Entry>, lens: seq<int>, sym: int, root: nat, drop: nat, curr: nat, next: nat,
      used: nat, g: nat)
    requires Lens(lens) && 0 <= sym < |lens| && lens[sym] > 0
  {
    && 1 <= root <= 15 && used == next + Pow2(curr) <= |t| && lens[sym] - drop <= curr && drop + curr <= 15
    && (if drop == 0 then curr == root && next == 0
        else
          && drop == root && Pow2(root) <= next && lens[sym] > root && 1 <= curr
          && Bits(CodeOf(lens, sym), lens[sym])[..root] == Bits(g, root)
          && t[Lsb(Bits(g, root))] == Entry(curr, root, next))
  }

  /** One symbol's entries have been written: those whose low bits are the rest of its code. */
  ghost predicate Strided(t: seq<Entry>, t': seq<Entry>, next: nat, curr: nat, width: nat, base: int, here: Entry)
    requires next + Pow2(curr) <= |t|
  {
    && |t'| == |t|
    && (forall i :: 0 <= i < |t| && !(next <= i < next + Pow2(curr)) ==> t'[i] == t[i])
    && (forall i :: next <= i < next + Pow2(curr) ==> t'[i] == if (i - next) % Pow2(width) == base then here else t[i])
  }

  /** Which of the entries that the bits u select are written. */
  lemma SelectsWritten(t: seq<Entry>, t': seq<Entry>, next: nat, curr: nat, width: nat, rest: seq<bool>, here: Entry,
      u: seq<bool>)
    requires next + Pow2(curr) <= |t| && Strided(t, t', next, curr, width, Lsb(rest), here) && |u| == curr &&
      |rest| == width <= curr
    ensures t'[next + Lsb(u)] == if u[..width] == rest then here else t[next + Lsb(u)]
  {
    hide Lsb, Pow2;
    LsbSplit(u, width);
    if u[..width] != rest {
      if Lsb(u[..width]) == Lsb(rest) { LsbInjective(u[..width], rest); }
    }
    assert (next + Lsb(u) - next) % Pow2(width) == Lsb(u[..width]);
  }

  /** The part of a code that the table being filled sees. */
  function RestOf(lens: seq<int>, sym: int, drop: nat): (r: seq<bool>)
    requires Lens(lens) && 0 <= sym < |lens| && drop <= lens[sym]
    ensures |r| == lens[sym] - drop
  {
    Bits(CodeOf(lens, sym), lens[sym])[drop..]
  }

  /** The symbol just written can be found. */
  lemma WrittenFound(t: seq<Entry>, t': seq<Entry>, kind: CodeType, lens: seq<int>, sym: int, root: nat, drop: nat,
      curr: nat, next: nat, used: nat, g: nat, s: seq<bool>)
    requires Lens(lens) && |lens| <= Symbols(kind) && Begins(lens, sym, s) &&
      Filling(t, lens, sym, root, drop, curr, next, used, g)
    requires Strided(t, t', next, curr, lens[sym] - drop, Lsb(RestOf(lens, sym, drop)), Here(kind, lens, root, sym))
    requires Pow2(root) <= |t|
    ensures drop == root ==> InGroup(s, root, g)
    ensures Placed(t', root, used, kind, lens, sym, s)
  {
    hide CodeOf, Bits, Lsb, Pow2, Here;
    var u := s[drop..drop + curr];
    var l := lens[sym];
    assert u[..l - drop] == s[..l][drop..] == RestOf(lens, sym, drop);
    SelectsWritten(t, t', next, curr, l - drop, RestOf(lens, sym, drop), Here(kind, lens, root, sym), u);
    if drop == 0 {
      assert u == s[..root];
    } else {
      assert s[..root] == s[..l][..root];
      assert t'[Lsb(s[..root])] == t[Lsb(s[..root])];
    }
  }

  /** The symbols before it still can be found. */
  lemma WrittenKeeps(t: seq<Entry>, t': seq<Entry>, kind: CodeType, lens: seq<int>, w: seq<int>, x: int, y: int,
      root: nat, drop: nat, curr: nat, next: nat, used: nat, g: nat, s: seq<bool>)
    requires Order(lens, w) && Kraft15(lens) <= 0x8000 && |lens| <= Symbols(kind) && 0 <= y < x < |w| &&
      Begins(lens, w[y], s) && root <= 15
    requires Filling(t, lens, w[x], root, drop, curr, next, used, g)
    requires Strided(t, t', next, curr, lens[w[x]] - drop, Lsb(RestOf(lens, w[x], drop)), Here(kind, lens, root, w[x]))
    requires Placed(t, root, if InGroup(s, root, g) then used else next, kind, lens, w[y], s)
    ensures Placed(t', root, if InGroup(s, root, g) then used else next, kind, lens, w[y], s)
  {
    hide Begins, Placed, Strided, Filling, Kraft15, Lsb, Bits, CodeOf, Here, Pow2, RestOf, InGroup, Before;
    OtherCode(lens, w, x, y, s);
    if lens[w[y]] <= root {
      KeepsShort(t, t', kind, lens, w[x], w[y], root, drop, curr, next, used, g, s, if InGroup(s, root, g) then used
        else next);
    } else {
      KeepsLong(t, t', kind, lens, w[x], w[y], root, drop, curr, next, used, g, s);
    }
  }

  /** A string that begins with one code does not begin with a later one. */
  lemma OtherCode(lens: seq<int>, w: seq<int>, x: int, y: int, s: seq<bool>)
    requires Order(lens, w) && Kraft15(lens) <= 0x8000 && 0 <= y < x < |w| && Begins(lens, w[y], s)
    ensures |s| == 15 && 0 < lens[w[y]] <= lens[w[x]] <= 15 && s[..lens[w[x]]] != Bits(CodeOf(lens, w[x]), lens[w[x]])
  {
    hide CodeOf, Bits, Kraft15;
    assert Before(lens, w[y], w[x]);
    if Begins(lens, w[x], s) { BeginsOnce(lens, w, w[y], w[x], s); }
  }

  /** Symbols with codes that fit the root table: only its entries matter. */
  lemma KeepsShort(t: seq<Entry>, t': seq<Entry>, kind: CodeType, lens: seq<int>, sym: int, other: int, root: nat,
      drop: nat, curr: nat, next: nat, used: nat, g: nat, s: seq<bool>, hi: int)
    requires Lens(lens) && |lens| <= Symbols(kind) && 0 <= sym < |lens| && 0 <= other < |lens| && |s| == 15 &&
      0 < lens[sym]
    requires lens[other] <= root <= 15 && s[..lens[sym]] != Bits(CodeOf(lens, sym), lens[sym])
    requires Filling(t, lens, sym, root, drop, curr, next, used, g) && Placed(t, root, hi, kind, lens, other, s)
    requires Strided(t, t', next, curr, lens[sym] - drop, Lsb(RestOf(lens, sym, drop)), Here(kind, lens, root, sym))
    ensures Placed(t', root, hi, kind, lens, other, s)
  {
    hide CodeOf, Bits, Lsb, Pow2, Here;
    if drop == 0 {
      var u := s[..root];
      assert u[..lens[sym]] == s[..lens[sym]];
      SelectsWritten(t, t', next, curr, lens[sym], RestOf(lens, sym, 0), Here(kind, lens, root, sym), u);
    } else {
      assert t'[Lsb(s[..root])] == t[Lsb(s[..root])];
    }
  }

  lemma RestDiffers(code: seq<bool>, s: seq<bool>, root: nat, curr: nat)
    requires root <= |code| <= root + curr <= |s| && s[..|code|] != code && s[..root] == code[..root]
    ensures s[root..root + curr][..|code| - root] != code[root..]
  {
    assert s[root..root + curr][..|code| - root] == s[..|code|][root..];
    assert s[..|code|] == s[..|code|][..root] + s[..|code|][root..];
    assert code == code[..root] + code[root..];
    assert s[..|code|][..root] == s[..root];
  }

  /** Symbols with longer codes: the root entry is a link, to the table being filled or to one that is done. */
  lemma KeepsLong(t: seq<Entry>, t': seq<Entry>, kind: CodeType, lens: seq<int>, sym: int, other: int, root: nat,
      drop: nat, curr: nat, next: nat, used: nat, g: nat, s: seq<bool>)
    requires Lens(lens) && |lens| <= Symbols(kind) && 0 <= sym < |lens| && 0 <= other < |lens| && |s| == 15 &&
      0 < lens[sym]
    requires root < lens[other] <= lens[sym] && s[..lens[sym]] != Bits(CodeOf(lens, sym), lens[sym])
    requires Filling(t, lens, sym, root, drop, curr, next, used, g)
    requires Placed(t, root, if InGroup(s, root, g) then used else next, kind, lens, other, s)
    requires Strided(t, t', next, curr, lens[sym] - drop, Lsb(RestOf(lens, sym, drop)), Here(kind, lens, root, sym))
    ensures Placed(t', root, if InGroup(s, root, g) then used else next, kind, lens, other, s)
  {
    hide CodeOf, Bits, Lsb, Pow2, Here;
    assert drop == root;
    assert t'[Lsb(s[..root])] == t[Lsb(s[..root])];
    if InGroup(s, root, g) {
      RestDiffers(Bits(CodeOf(lens, sym), lens[sym]), s, root, curr);
      SelectsWritten(t, t', next, curr, lens[sym] - root, RestOf(lens, sym, root), Here(kind, lens, root, sym),
        s[root..root + curr]);
    }
  }

  /** One symbol more can be found. */
  lemma OneMorePlaced(t: seq<Entry>, t': seq<Entry>, kind: CodeType, lens: seq<int>, w: seq<int>, x: int, root: nat,
      drop: nat, curr: nat, next: nat, used: nat, g: nat)
    requires Order(lens, w) && Kraft15(lens) <= 0x8000 && |lens| <= Symbols(kind) && 0 <= x < |w| &&
      Pow2(root) <= |t| && root <= 15
    requires Filling(t, lens, w[x], root, drop, curr, next, used, g) &&
      AllPlaced(t, root, kind, lens, w, x, g, next, used)
    requires Strided(t, t', next, curr, lens[w[x]] - drop, Lsb(RestOf(lens, w[x], drop)), Here(kind, lens, root, w[x]))
    ensures AllPlaced(t', root, kind, lens, w, x + 1, g, next, used)
  {
    hide CodeOf, Bits, Lsb, Pow2, Here, Kraft15, RestOf, Placed, Strided, InGroup, Before;
    forall y, s | 0 <= y < x + 1 && Begins(lens, w[y], s)
      ensures Placed(t', root, if InGroup(s, root, g) then used else next, kind, lens, w[y], s)
    {
      if y < x {
        WrittenKeeps(t, t', kind, lens, w, x, y, root, drop, curr, next, used, g, s);
      } else {
        WrittenFound(t, t', kind, lens, w[x], root, drop, curr, next, used, g, s);
        if drop == 0 { PlacedShort(t', root, used, if InGroup(s, root, g) then used else next, kind, lens, w[x], s); }
      }
    }
  }

  lemma PlacedShort(t: seq<Entry>, root: nat, hi: int, hi': int, kind: CodeType, lens: seq<int>, sym: int, s: seq<bool>)
    requires 0 <= sym < |lens| <= Symbols(kind) && root <= 15 == |s| && lens[sym] <= root && hi' <= hi &&
      Placed(t, root, hi, kind, lens, sym, s)
    ensures Placed(t, root, hi', kind, lens, sym, s)
  {
  }

  // ----- from group to group -----

  /** The group of a symbol whose code has more bits than the root table. */
  function GroupOf(lens: seq<int>, sym: int, root: nat): (g: nat)
    requires Lens(lens) && 0 <= sym < |lens| && root <= 15
  {
    DivAtLeast(Start(lens, sym), Share(root), 0);
    Start(lens, sym) / Share(root)
  }

  lemma SharesOf(l: nat, root: nat)
    requires root <= l <= 15
    ensures Share(root) == Pow2(l - root) * Share(l)
  {
    hide Pow2;
    Pow2Add(l - root, 15 - l);
  }

  /** The code of sym by its group and what is left. */
  lemma GroupParts(lens: seq<int>, sym: int, root: nat)
    requires Lens(lens) && 0 <= sym < |lens| && root <= lens[sym] && 0 < lens[sym] && Kraft15(lens) <= 0x8000
    ensures var code, l, g := CodeOf(lens, sym), lens[sym], GroupOf(lens, sym, root);
            g < Pow2(root) && Bits(code, l)[..root] == Bits(g, root) &&
            0 <= code - g * Pow2(l - root) < Pow2(l - root)
  {
    hide CodeOf, Bits, Value, Pow2, Kraft15, Share;
    var code, l := CodeOf(lens, sym), lens[sym];
    CodeFits(lens, sym);
    var x, y := Bits(code, l)[..root], Bits(code, l)[root..];
    assert x + y == Bits(code, l);
    ValueJoin(x, y);
    ValueOfBits(code, l);
    BitsOfValue(x);
    SharesOf(l, root);
    GroupDivides(code, Value(x), Value(y), Pow2(l - root), Share(l));
  }

  lemma GroupDivides(code: nat, g: nat, r: nat, q: nat, p: nat)
    requires code == g * q + r && r < q && p > 0
    ensures q * p > 0 && code * p / (q * p) == g
  {
    Multiples(p, r, q);
    MulAdd(g * q, r, p);
    NonNegative(r, p);
    assert g * q * p == q * p * g;
    assert p * r == r * p && p * q == q * p;
    DivMod(code * p, q * p, g, r * p);
  }

  /** A later symbol in another group is the first of its group. */
  lemma GroupBegins(lens: seq<int>, w: seq<int>, x: int, root: nat)
    requires Order(lens, w) && Kraft15(lens) <= 0x8000 && 0 <= x && x + 1 < |w| && 1 <= root < lens[w[x + 1]]
    requires lens[w[x]] > root ==> GroupOf(lens, w[x + 1], root) != GroupOf(lens, w[x], root)
    ensures Start(lens, w[x + 1]) == GroupOf(lens, w[x + 1], root) * Share(root)
  {
    hide CodeOf, Bits, Pow2, Kraft15, Share, Before;
    Consecutive(lens, w, x);
    var a := w[x];
    var code, l, stop := CodeOf(lens, a), lens[a], Start(lens, w[x + 1]);
    MulNext(code, Share(l));
    assert stop == (code + 1) * Share(l);
    if l <= root {
      SharesOf(root, l);
      Aligned(code + 1, Pow2(root - l), Share(root));
    } else {
      GroupParts(lens, a, root);
      SharesOf(l, root);
      var g, q := GroupOf(lens, a, root), Pow2(l - root);
      var r := code - g * q;
      if r + 1 < q {
        GroupDivides(code + 1, g, r + 1, q, Share(l));
        assert false;
      }
      MulNext(g, q);
      assert code + 1 == (g + 1) * q;
      Aligned(g + 1, q, Share(l));
    }
  }

  lemma Aligned(c: nat, q: nat, p: nat)
    requires p > 0 && q > 0
    ensures c * (q * p) == c * q * p && p * q > 0 && q * p > 0
    ensures c * (q * p) / p == c * q && c * (q * p) == c * (q * p) / (q * p) * (q * p)
  {
    NonNegative(q - 1, p);
    assert q * p == (q - 1) * p + p;
    assert c * (q * p) == c * q * p == p * (c * q) == q * p * c;
    DivMod(c * (q * p), p, c * q, 0);
    DivMod(c * (q * p), q * p, c, 0);
  }

  /** The table of the next group is linked from the root table: everything before still can be found. */
  lemma NewGroup(t: seq<Entry>, kind: CodeType, lens: seq<int>, w: seq<int>, n: int, root: nat, g: nat, next: int,
      used: int, g': nat, used': int, link: Entry)
    requires Order(lens, w) && Kraft15(lens) <= 0x8000 && 0 < n < |w| && |lens| <= Symbols(kind) && 1 <= root <= 15
    requires AllPlaced(t, root, kind, lens, w, n, g, next, used) && next <= used <= used' <= |t| && Pow2(root) <= |t|
    requires Start(lens, w[n]) == g' * Share(root) && g' < Pow2(root)
    ensures AllPlaced(t[Lsb(Bits(g', root)) := link], root, kind, lens, w, n, g', used, used')
  {
    hide CodeOf, Bits, Lsb, Pow2, Kraft15, Share, Placed, Before, Start, Value;
    var t' := t[Lsb(Bits(g', root)) := link];
    forall y, s | 0 <= y < n && Begins(lens, w[y], s)
      ensures Placed(t', root, if InGroup(s, root, g') then used' else used, kind, lens, w[y], s)
    {
      NotInGroup(lens, w, y, n, root, g', s);
      if Lsb(s[..root]) == Lsb(Bits(g', root)) { LsbInjective(s[..root], Bits(g', root)); }
      PlacedElsewhere(t, root, if InGroup(s, root, g) then used else next, used, kind, lens, w[y], s,
        Lsb(Bits(g', root)), link);
    }
  }

  lemma NotInGroup(lens: seq<int>, w: seq<int>, y: int, n: int, root: nat, g: nat, s: seq<bool>)
    requires Order(lens, w) && Kraft15(lens) <= 0x8000 && 0 <= y < n < |w| && 1 <= root <= 15 && Begins(lens, w[y], s)
    requires Start(lens, w[n]) == g * Share(root) && g < Pow2(root)
    ensures |s| == 15 && !InGroup(s, root, g)
  {
    assert |s| == 15;
    hide CodeOf, Bits, Pow2, Kraft15, Before, Start, Value, Begins;
    BeginsIn(lens, w[y], s);
    Apart(lens, w, y, n);
    BeginsWith(s, g, root);
  }

  lemma PlacedElsewhere(t: seq<Entry>, root: nat, hi: int, hi': int, kind: CodeType, lens: seq<int>, sym: int,
      s: seq<bool>, at: int, link: Entry)
    requires 0 <= sym < |lens| <= Symbols(kind) && root <= 15 == |s| && Placed(t, root, hi, kind, lens, sym, s) &&
      hi <= hi' <= |t|
    requires 0 <= at < Pow2(root) <= |t| && at != Lsb(s[..root])
    ensures Placed(t[at := link], root, hi', kind, lens, sym, s)
  {
    hide Lsb, Here, Pow2;
  }

  /** No code of the group needs more than curr bits beyond the root's. */
  ghost predicate GroupFits(lens: seq<int>, w: seq<int>, n: int, root: nat, curr: nat, g: nat)
    requires Order(lens, w) && 0 <= n && root <= 15
  {
    forall y :: n <= y < |w| && Start(lens, w[y]) < (g + 1) * Share(root) ==> lens[w[y]] <= root + curr
  }

  /** What count holds when the first x symbols have been taken away: the shares of each length that are still to
      come. */
  ghost predicate Remaining(count: seq<int>, lens: seq<int>, sym: int)
    requires Lens(lens) && 0 <= sym < |lens|
  {
    |count| == 16 && forall l :: 1 <= l && lens[sym] <= l <= 15 ==> count[l] * Share(l) == StillFor(lens, sym, l)
  }

  /** The shares of the codes of length l, from sym on. */
  ghost function StillFor(lens: seq<int>, sym: int, l: int): int
    requires Lens(lens) && 0 <= sym < |lens| && 1 <= l <= 15
  {
    EndOf(lens, l) - (if l == lens[sym] then Start(lens, sym) else EndOf(lens, l - 1))
  }

  lemma RemainingFor(count: seq<int>, lens: seq<int>, sym: int, l: int)
    requires Lens(lens) && 0 <= sym < |lens| && Remaining(count, lens, sym) && 1 <= l && lens[sym] <= l <= 15
    ensures count[l] * Share(l) == EndOf(lens, l) - (if l == lens[sym] then Start(lens, sym) else EndOf(lens, l - 1))
  {
    hide Share, EndOf, Start;
  }

  /** The loop that finds how many index bits a sub-table needs: enough for all codes of its group. */
  method SubTableBits(count: seq<int>, len: nat, drop: nat, max: nat, ghost lens: seq<int>, ghost w: seq<int>,
      ghost x: int, ghost g: nat) returns (curr: nat)
    requires Order(lens, w) && Kraft15(lens) <= 0x8000 && 0 <= x < |w| && 1 <= drop < lens[w[x]] == len <= max <= 15
    requires Remaining(count, lens, w[x]) && Start(lens, w[x]) == g * Share(drop) &&
      forall i :: 0 <= i < |lens| ==> lens[i] <= max
    ensures len <= drop + curr <= max && GroupFits(lens, w, x, drop, curr, g)
  {
    hide CodeOf, Kraft15, Share, Before, Start, EndOf;
    curr := len - drop;
    var left := Pow2(curr);
    SharesOf(len, drop);
    hide Pow2;
    while curr + drop < max
      invariant len <= curr + drop <= max
      invariant left * Share(drop + curr) ==
        Share(drop) - (if drop + curr == len then 0 else EndOf(lens, drop + curr - 1) - Start(lens, w[x]))
    {
      var m := drop + curr;
      MulSub(left, count[m], Share(m));
      left := left - count[m];
      RemainingFor(count, lens, w[x], m);
      if left <= 0 {
        NonPositive(left, Share(m));
        EnoughForGroup(lens, w, x, drop, curr, g);
        break;
      }
      ShareTwice(m + 1);
      Doubling(left, Share(m + 1));
      curr := curr + 1;
      left := left * 2;
    }
  }

  lemma MulSub(a: int, b: int, p: int)
    ensures (a - b) * p == a * p - b * p
  {
  }

  lemma Doubling(a: int, p: int)
    ensures (a * 2) * p == a * (2 * p)
  {
  }

  lemma NonPositive(a: int, p: int)
    requires a <= 0 && p >= 0
    ensures a * p <= 0
  {
    NonNegative(-a, p);
  }

  lemma EnoughForGroup(lens: seq<int>, w: seq<int>, x: int, root: nat, curr: nat, g: nat)
    requires Order(lens, w) && 0 <= x < |w| && 1 <= root && root + curr <= 15 && Start(lens, w[x]) == g * Share(root)
    requires EndOf(lens, root + curr) >= Start(lens, w[x]) + Share(root)
    ensures GroupFits(lens, w, x, root, curr, g)
  {
    hide CodeOf, Share, Before, Start, EndOf;
    MulNext(g, Share(root));
    forall y | x <= y < |w| && Start(lens, w[y]) < (g + 1) * Share(root) ensures lens[w[y]] <= root + curr {
      if lens[w[y]] > root + curr {
        StartIn(lens, w[y]);
        EndMonotone(lens, root + curr, lens[w[y]] - 1);
      }
    }
  }
}

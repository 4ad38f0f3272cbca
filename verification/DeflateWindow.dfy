/** deflate's window of input, twice the size of the longest distance, and the hash table over it. */
module DeflateWindow {

  import opened Rotations
  import opened HashChains
  import opened Lz77
  import opened Window

  /** The window and the hash table at one moment. data is all input so far, and window position 0 is its byte at base;
      ins are the positions in the table. */
  datatype View = View(w: seq<int>, head: seq<int>, prev: seq<int>, ins: set<int>, data: seq<int>, base: int,
      strstart: int, lookahead: int, insert: int, ins_h: bv32)

  function End(v: View): int { v.strstart + v.lookahead }

  /** What lies before the end of the lookahead is input. */
  ghost predicate Windowed(v: View) {
    && Bytes(v.w) && Bytes(v.data) && v.base >= 0 && v.strstart >= 0 && v.lookahead >= 0 && End(v) <= |v.w|
    && |v.data| == v.base + End(v)
    && forall i :: 0 <= i < End(v) ==> v.w[i] == v.data[v.base + i]
  }

  /** Window and table agree, and no string from top on is in the table. */
  ghost predicate SoundTo(v: View, k: Keys, top: int) {
    && GoodKeys(k) && Windowed(v) && Chains(v.w, v.head, v.prev, v.ins, End(v), k) && |v.prev| >= 512
    && forall p :: p in v.ins ==> p < top
  }

  /** The strings before strstart - insert may be in the table, those behind are not. */
  ghost predicate Sound(v: View, k: Keys) {
    SoundTo(v, k, v.strstart - v.insert) && 0 <= v.insert <= v.strstart
  }

  /** ins_h can take up the third byte of the string at str. */
  ghost predicate HashReady(v: View, k: Keys, str: int) {
    GoodKeys(k) && Bytes(v.w) && 0 <= str && str + 2 <= |v.w| &&
      Rolled(v.ins_h, ByteWord(v.w[str]), ByteWord(v.w[str + 1]), k.shift, k.mask)
  }

  /** The state between two strings. */
  ghost predicate Ready(v: View, k: Keys) {
    && Sound(v, k) && (v.insert == 0 || v.lookahead + v.insert < MIN_MATCH)
    && (v.lookahead >= MIN_MATCH ==> HashReady(v, k, v.strstart))
  }

  /** The same without the hash: strings that were passed by are not in the table. */
  ghost predicate Steady(v: View, k: Keys) {
    Sound(v, k) && v.insert < MIN_MATCH
  }

  // ----- filling the window -----

  /** read_buf: input goes behind the lookahead. */
  lemma Read(v: View, k: Keys, w': seq<int>, more: seq<int>)
    requires Sound(v, k) && Bytes(more) && Patched(v.w, w', End(v), more)
    ensures Sound(v.(w := w', data := v.data + more, lookahead := v.lookahead + |more|), k)
    ensures v.lookahead >= MIN_MATCH && HashReady(v, k, v.strstart) ==>
      HashReady(v.(w := w', data := v.data + more, lookahead := v.lookahead + |more|), k, v.strstart)
  {
    hide Link, GoodHash, HashAt, Rolled;
    PatchedBytes(v.w, w', End(v), more);
    ChainsGrow(v.w, w', v.head, v.prev, v.ins, End(v), End(v) + |more|, k);
    hide Chains, Inserted;
    forall i | End(v) <= i < End(v) + |more| ensures w'[i] == (v.data + more)[v.base + i] {
      assert w'[End(v) + (i - End(v))] == more[i - End(v)];
    }
  }

  lemma PatchedBytes(w: seq<int>, w': seq<int>, at: int, o: seq<int>)
    requires Bytes(w) && Bytes(o) && Patched(w, w', at, o)
    ensures Bytes(w')
  {
    forall i | 0 <= i < |w'| ensures 0 <= w'[i] < 256 {
      if at <= i < at + |o| { assert w'[at + (i - at)] == o[i - at]; }
    }
  }

  /** Bytes behind the lookahead may change. */
  lemma Behind(v: View, k: Keys, w': seq<int>)
    requires Steady(v, k) && Bytes(w') && |w'| == |v.w| && forall i :: 0 <= i < End(v) ==> w'[i] == v.w[i]
    ensures Steady(v.(w := w'), k) && (Ready(v, k) ==> Ready(v.(w := w'), k))
  {
    hide Link, GoodHash, HashAt, Rolled;
    ChainsGrow(v.w, w', v.head, v.prev, v.ins, End(v), End(v), k);
    hide Chains;
  }

  /** The upper half moves down. */
  lemma Slide(v: View, k: Keys, w': seq<int>)
    requires Sound(v, k) && v.strstart >= |v.prev| + (|v.prev| - MIN_LOOKAHEAD) && v.insert < MIN_MATCH
    requires Bytes(w') && |w'| == |v.w| && forall i :: 0 <= i < |v.prev| ==> w'[i] == v.w[i + |v.prev|]
    ensures var n := |v.prev|;
            var v' := v.(w := w', head := Slid(v.head, n), prev := Slid(v.prev, n), ins := SlidSet(v.ins, n),
              base := v.base + n, strstart := v.strstart - n);
            Sound(v', k) && v'.strstart >= n - MIN_LOOKAHEAD &&
              (v.lookahead >= MIN_MATCH && HashReady(v, k, v.strstart) ==> HashReady(v', k, v'.strstart))
  {
    hide Link, GoodHash, HashAt, Rolled;
    ChainsSlide(v.w, w', v.head, v.prev, v.ins, End(v), k);
    hide Chains, Slid;
    assert |v.w| == 2 * |v.prev|;
  }

  // ----- the hash table -----

  /** INSERT_STRING, with the hash rolled on. */
  ghost function WithString(v: View, k: Keys, str: int): View
    requires GoodKeys(k) && Bytes(v.w) && 0 <= str && str + 3 <= |v.w| && |v.head| == Number(k.mask) + 1 &&
      0 < |v.prev| && str < 2 * |v.prev|
  {
    var h, n := HashAt(v.w, str, k), |v.prev|;
    v.(head := v.head[h := str], prev := v.prev[Slot(str, n) := v.head[h]], ins := if str == 0 then v.ins
      else v.ins + {str}, ins_h := UpdateHash(v.ins_h, ByteWord(v.w[str + 2]), k.shift, k.mask))
  }

  lemma Insert(v: View, k: Keys, str: int)
    requires SoundTo(v, k, str) && 0 <= str && str + 3 <= End(v) && HashReady(v, k, str)
    ensures str + 3 <= |v.w| && |v.head| == Number(k.mask) + 1 && 0 < |v.prev| && str < 2 * |v.prev| && k.shift < 32
    ensures Number(UpdateHash(v.ins_h, ByteWord(v.w[str + 2]), k.shift, k.mask)) == HashAt(v.w, str, k) < |v.head| &&
      0 <= Slot(str, |v.prev|) < |v.prev|
    ensures SoundTo(WithString(v, k, str), k, str + 1) && HashReady(WithString(v, k, str), k, str + 1)
  {
    hide Chains, Inserted, GoodKeys, HashAt, UpdateHash, ByteWord, Number, Slot, HashReady, Windowed;
    ChainsSizes(v.w, v.head, v.prev, v.ins, End(v), k);
    WindowEnd(v);
    HashIs(v, k, str);
    ChainsInsert(v.w, v.head, v.prev, v.ins, End(v), k, str);
    SameWindow(v, WithString(v, k, str));
    HashSame(WithString(v, k, str), v.(ins_h := WithString(v, k, str).ins_h), k, str + 1);
  }

  lemma WindowEnd(v: View)
    requires Windowed(v)
    ensures End(v) <= |v.w| && Bytes(v.w)
  {
  }

  /** The window does not depend on the table. */
  lemma SameWindow(v: View, v': View)
    requires Windowed(v) && v'.w == v.w && v'.data == v.data && v'.base == v.base && v'.strstart == v.strstart &&
      v'.lookahead == v.lookahead
    ensures Windowed(v')
  {
  }

  lemma HashSame(v: View, v': View, k: Keys, str: int)
    requires v'.w == v.w && v'.ins_h == v.ins_h
    ensures HashReady(v, k, str) == HashReady(v', k, str)
  {
    hide GoodKeys, Rolled, ByteWord;
  }

  lemma HashIs(v: View, k: Keys, str: int)
    requires GoodKeys(k) && Bytes(v.w) && 0 <= str && str + 3 <= |v.w| && HashReady(v, k, str)
    ensures k.shift < 32
    ensures var h := UpdateHash(v.ins_h, ByteWord(v.w[str + 2]), k.shift, k.mask);
            Number(h) == HashAt(v.w, str, k) && HashReady(v.(ins_h := h), k, str + 1)
  {
    ShiftRange(k);
    hide GoodHash, Rolled, Hash3, UpdateHash, ByteWord, Number;
    RolledHash(v.ins_h, ByteWord(v.w[str]), ByteWord(v.w[str + 1]), ByteWord(v.w[str + 2]), k.shift, k.mask);
    RollsOn(ByteWord(v.w[str]), ByteWord(v.w[str + 1]), ByteWord(v.w[str + 2]), k.shift, k.mask);
  }

  lemma ShiftRange(k: Keys)
    requires GoodKeys(k)
    ensures k.shift < 8 && k.shift < 32
  {
  }

  /** q is nothing, or a string before str with the hash h. */
  ghost predicate InChain(v: View, k: Keys, q: int, h: int, str: int)
    requires GoodKeys(k) && Bytes(v.w)
  {
    q == 0 || (q in v.ins && 0 < q < str && q + 3 <= |v.w| && HashAt(v.w, q, k) == h)
  }

  /** The head of the chain of a new string. */
  lemma HeadLink(v: View, k: Keys, str: int)
    requires SoundTo(v, k, str) && 0 <= str && str + 3 <= End(v)
    ensures var h := HashAt(v.w, str, k); h < |v.head| && InChain(v, k, v.head[h], h, str)
  {
    hide GoodHash, HashAt, Number;
    assert Link(v.w, v.ins, k, HashAt(v.w, str, k), v.head[HashAt(v.w, str, k)], End(v));
  }

  /** A hash begun afresh. */
  lemma HashBegun(v: View, k: Keys, str: int)
    requires GoodKeys(k) && Bytes(v.w) && 0 <= str && str + 2 <= |v.w|
    ensures k.shift < 32 && HashReady(v.(ins_h :=
      UpdateHash(ByteWord(v.w[str]), ByteWord(v.w[str + 1]), k.shift, k.mask)), k, str)
  {
    ShiftRange(k);
    hide GoodHash, Rolled, UpdateHash, ByteWord;
    RollsStart(ByteWord(v.w[str]), ByteWord(v.w[str + 1]), k.shift, k.mask);
  }
}

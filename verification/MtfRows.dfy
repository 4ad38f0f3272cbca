/** The decoder's move-to-front list: sixteen rows of sixteen entries that slide in a larger array. */
module MtfRows {

  import opened Mtf

  const MTFA_SIZE := 4096
  const MTFL_SIZE := 16

  /** The rows lie one after another, without overlap. */
  ghost predicate Rows(base: seq<int>) {
    && |base| == 16 && base[0] >= 0 && base[15] <= MTFA_SIZE - MTFL_SIZE
    && (forall i :: 0 <= i < 15 ==> base[i] + MTFL_SIZE <= base[i + 1])
  }

  /** Every row stays within a window of its own width. */
  lemma {:induction false} RowBounds(base: seq<int>, i: int)
    requires Rows(base) && 0 <= i < 16
    ensures 16 * i <= base[i] <= 3840 + 16 * i
    decreases i
  {
    if i > 0 { RowBounds(base, i - 1); }
    RowUpper(base, i);
  }

  lemma {:induction false} RowUpper(base: seq<int>, i: int)
    requires Rows(base) && 0 <= i < 16
    ensures base[i] <= 3840 + 16 * i
    decreases 16 - i
  {
    if i < 15 { RowUpper(base, i + 1); }
  }

  lemma {:induction false} RowsApart(base: seq<int>, i: int, j: int)
    requires Rows(base) && 0 <= i < j < 16
    ensures base[i] + 16 * (j - i) <= base[j]
    decreases j
  {
    if i + 1 < j { RowsApart(base, i, j - 1); }
  }

  /** Entry k of the list is in row k / 16. */
  function Cell(base: seq<int>, k: int): int
    requires |base| == 16 && 0 <= k < 256
  {
    base[k / 16] + k % 16
  }

  lemma CellIn(base: seq<int>, k: int)
    requires Rows(base) && 0 <= k < 256
    ensures 0 <= Cell(base, k) < MTFA_SIZE
  {
    RowBounds(base, k / 16);
  }

  lemma CellsApart(base: seq<int>, k: int, m: int)
    requires Rows(base) && 0 <= k < m < 256
    ensures Cell(base, k) < Cell(base, m)
  {
    if k / 16 < m / 16 { RowsApart(base, k / 16, m / 16); }
  }

  /** mtfa, read through the rows, is the list. */
  ghost predicate Shows(mtfa: seq<int>, base: seq<int>, list: seq<int>) {
    && |mtfa| == MTFA_SIZE && |list| == 256 && Rows(base)
    && (forall k :: 0 <= k < 256 ==> 0 <= Cell(base, k) < MTFA_SIZE && mtfa[Cell(base, k)] == list[k])
  }

  // ----- the rows at the end of the array -----

  /** The entries above m have been moved to the end of the array; the others are still where the bases say. */
  ghost predicate Moving(mtfa: seq<int>, base: seq<int>, list: seq<int>, m: int) {
    && |mtfa| == MTFA_SIZE && |list| == 256 && Rows(base) && -1 <= m < 256
    && (forall k :: m < k < 256 ==> mtfa[3840 + k] == list[k])
    && (forall k :: 0 <= k <= m ==> 0 <= Cell(base, k) < MTFA_SIZE && mtfa[Cell(base, k)] == list[k])
  }

  /** The regions overlap, but no entry still to be moved is overwritten. */
  lemma MovingStep(mtfa: seq<int>, base: seq<int>, list: seq<int>, m: int)
    requires Moving(mtfa, base, list, m) && m >= 0
    ensures 0 <= Cell(base, m) < MTFA_SIZE && Moving(mtfa[3840 + m := mtfa[Cell(base, m)]], base, list, m - 1)
  {
    hide Cell;
    assert Cell(base, m) <= 3840 + m by { CellLow(base, m); }
    forall k | 0 <= k < m ensures Cell(base, k) < 3840 + m { CellsApart(base, k, m); }
  }

  lemma CellLow(base: seq<int>, k: int)
    requires Rows(base) && 0 <= k < 256
    ensures Cell(base, k) <= 3840 + k
  {
    RowBounds(base, k / 16);
  }

  ghost predicate AtEnd(base: seq<int>) {
    |base| == 16 && forall i :: 0 <= i < 16 ==> base[i] == 3840 + 16 * i
  }

  lemma Moved(mtfa: seq<int>, base: seq<int>, list: seq<int>, base': seq<int>)
    requires Moving(mtfa, base, list, -1) && AtEnd(base')
    ensures Shows(mtfa, base', list) && base'[0] > 0
  {
    forall k | 0 <= k < 256 ensures Cell(base', k) == 3840 + k {}
  }

  lemma MovingStart(mtfa: seq<int>, base: seq<int>, list: seq<int>)
    requires Shows(mtfa, base, list)
    ensures Moving(mtfa, base, list, 255)
  {
  }

  /** Moves one row to the end of the array, last entry first. */
  method MoveRow(mtfa: array<int>, from: int, kk0: int, ii: int, ghost base: seq<int>, ghost list: seq<int>)
      returns (kk: int)
    requires 0 <= ii < 16 && kk0 == 3840 + 16 * ii + 15 && |base| == 16 && from == base[ii] && mtfa.Length == MTFA_SIZE
    requires Moving(mtfa[..], base, list, 16 * ii + 15)
    modifies mtfa
    ensures kk == kk0 - 16 && Moving(mtfa[..], base, list, 16 * ii - 1)
  {
    hide Moving;
    kk := kk0;
    var jj := 15;
    while jj >= 0
      invariant -1 <= jj <= 15 && kk == 3840 + 16 * ii + jj
      invariant Moving(mtfa[..], base, list, 16 * ii + jj)
    {
      MovingStep(mtfa[..], base, list, 16 * ii + jj);
      assert Cell(base, 16 * ii + jj) == from + jj;
      mtfa[kk] := mtfa[from + jj];
      kk := kk - 1;
      jj := jj - 1;
    }
  }

  /** Copies the rows to the end of the array, last row first. */
  method Rebase(mtfa: array<int>, mtfbase: array<int>, ghost list: seq<int>)
    requires mtfa != mtfbase && Shows(mtfa[..], mtfbase[..], list)
    modifies mtfa, mtfbase
    ensures Shows(mtfa[..], mtfbase[..], list) && mtfbase[0] > 0
  {
    ghost var b0 := mtfbase[..];
    MovingStart(mtfa[..], b0, list);
    assert mtfa.Length == MTFA_SIZE && mtfbase.Length == 16;
    hide Moving, Shows, Rows, Cell;
    var kk := MTFA_SIZE - 1;
    var ii := 15;
    while ii >= 0
      invariant -1 <= ii <= 15 && kk == 3840 + 16 * ii + 15
      invariant forall i :: 0 <= i <= ii ==> mtfbase[i] == b0[i]
      invariant forall i :: ii < i < 16 ==> mtfbase[i] == 3840 + 16 * i
      invariant Moving(mtfa[..], b0, list, 16 * ii + 15)
    {
      kk := MoveRow(mtfa, mtfbase[ii], kk, ii, b0, list);
      mtfbase[ii] := kk + 1;
      ii := ii - 1;
    }
    Moved(mtfa[..], b0, list, mtfbase[..]);
  }

  /** The initial list, 0 to 255. */
  method Init(mtfa: array<int>, mtfbase: array<int>)
    requires mtfa != mtfbase && mtfa.Length == MTFA_SIZE && mtfbase.Length == 16
    modifies mtfa, mtfbase
    ensures Shows(mtfa[..], mtfbase[..], seq(256, i => i)) && mtfbase[0] > 0
  {
    var kk := MTFA_SIZE - 1;
    var ii := 15;
    while ii >= 0
      invariant -1 <= ii <= 15 && kk == 3840 + 16 * ii + 15
      invariant forall i :: ii < i < 16 ==> mtfbase[i] == 3840 + 16 * i
      invariant forall k :: kk < k < MTFA_SIZE ==> mtfa[k] == k - 3840
    {
      var jj := 15;
      while jj >= 0
        invariant -1 <= jj <= 15 && kk == 3840 + 16 * ii + jj
        invariant forall i :: ii < i < 16 ==> mtfbase[i] == 3840 + 16 * i
        invariant forall k :: kk < k < MTFA_SIZE ==> mtfa[k] == k - 3840
      {
        mtfa[kk] := ii * 16 + jj;
        kk := kk - 1;
        jj := jj - 1;
      }
      mtfbase[ii] := kk + 1;
      ii := ii - 1;
    }
    forall k | 0 <= k < 256 ensures Cell(mtfbase[..], k) == 3840 + k {}
  }

  // ----- moving an entry to the front -----

  /** The entries from lo up to hi have moved up by one, over that at hi. */
  ghost predicate Opened(a0: seq<int>, a: seq<int>, lo: int, hi: int) {
    && 0 <= lo <= hi < |a0| && |a| == |a0|
    && (forall z :: 0 <= z < lo || hi < z < |a| ==> a[z] == a0[z])
    && (forall z :: lo <= z < hi ==> a[z + 1] == a0[z])
  }

  method ShiftUp(mtfa: array<int>, lo: int, hi: int)
    requires 0 <= lo <= hi < mtfa.Length
    modifies mtfa
    ensures Opened(old(mtfa[..]), mtfa[..], lo, hi)
  {
    ghost var a0 := mtfa[..];
    var z := hi;
    while z > lo
      invariant lo <= z <= hi
      invariant forall y :: 0 <= y <= z || hi < y < mtfa.Length ==> mtfa[y] == a0[y]
      invariant forall y :: z <= y < hi ==> mtfa[y + 1] == a0[y]
    {
      mtfa[z] := mtfa[z - 1];
      z := z - 1;
    }
  }

  /** Entry nn, in the first row: what is in front of it is shifted, nothing else moves. */
  method FrontNear(mtfa: array<int>, mtfbase: seq<int>, nn: int, ghost list: seq<int>) returns (uc: int)
    requires Shows(mtfa[..], mtfbase, list) && 0 <= nn < MTFL_SIZE
    modifies mtfa
    ensures uc == list[nn] && Shows(mtfa[..], mtfbase, ToFront(list, nn))
  {
    assert Cell(mtfbase, nn) == mtfbase[0] + nn;
    RowBounds(mtfbase, 0);
    ghost var a0 := mtfa[..];
    var pp := mtfbase[0];
    uc := mtfa[pp + nn];
    ShiftUp(mtfa, pp, pp + nn);
    NearShown(a0, mtfa[..], mtfbase, list, nn);
    mtfa[pp] := uc;
  }

  lemma NearShown(a0: seq<int>, a: seq<int>, base: seq<int>, list: seq<int>, nn: int)
    requires Shows(a0, base, list) && 0 <= nn < MTFL_SIZE && Opened(a0, a, base[0], base[0] + nn)
    ensures Shows(a[base[0] := list[nn]], base, ToFront(list, nn))
  {
    var a' := a[base[0] := list[nn]];
    assert Cell(base, 0) == base[0] && Cell(base, nn) == base[0] + nn;
    forall k | 0 <= k < 256 ensures 0 <= Cell(base, k) < MTFA_SIZE && a'[Cell(base, k)] == ToFront(list, nn)[k] {
      CellIn(base, k);
      if 0 < k <= nn {
        assert Cell(base, k) == base[0] + k && Cell(base, k - 1) == base[0] + k - 1;
        assert a[Cell(base, k - 1) + 1] == a0[Cell(base, k - 1)];
      } else if k > nn {
        CellsApart(base, nn, k);
      }
    }
  }

  /** The bases after an entry of row r has gone to the front: the rows before r have moved down by one. */
  function Slid(base: seq<int>, r: int): (s: seq<int>)
    requires |base| == 16
    ensures |s| == 16 && forall i :: 0 <= i < 16 ==> s[i] == if i < r then base[i] - 1 else base[i]
  {
    seq(16, i requires 0 <= i < 16 => if i < r then base[i] - 1 else base[i])
  }

  /** Rows after lno are as they will be, rows before lno as they were, and of row lno only the first entry is
      missing. */
  ghost predicate Sliding(mtfa: seq<int>, base: seq<int>, base0: seq<int>, list: seq<int>, target: seq<int>, r: int,
      lno: int) {
    && |mtfa| == MTFA_SIZE && |base| == 16 && |list| == |target| == 256 && 0 <= lno <= r < 16
    && Rows(base0) && base0[0] > 0
    && (forall i :: 0 <= i < 16 ==>
         base[i] == if i < lno then base0[i] else if i == lno then Slid(base0, r)[i] + 1 else Slid(base0, r)[i])
    && (forall k :: 0 <= k < 16 * lno ==> 0 <= Cell(base0, k) < MTFA_SIZE && mtfa[Cell(base0, k)] == list[k])
    && (forall k :: 16 * lno < k < 256 ==>
         0 <= Cell(Slid(base0, r), k) < MTFA_SIZE && mtfa[Cell(Slid(base0, r), k)] == target[k])
  }

  lemma SlidRows(base0: seq<int>, r: int)
    requires Rows(base0) && base0[0] > 0 && 0 < r < 16
    ensures Rows(Slid(base0, r))
  {
  }

  /** An entry of row r behind its first, once the row has been opened. */
  lemma SlidingEntry(a0: seq<int>, a: seq<int>, base0: seq<int>, list: seq<int>, nn: int, r: int, k: int)
    requires Shows(a0, base0, list) && base0[0] > 0 && 0 < r < 16 && 16 * r <= nn < 16 * r + 16 && 16 * r < k < 256
    requires Opened(a0, a, base0[r], base0[r] + nn - 16 * r)
    ensures 0 <= Cell(Slid(base0, r), k) < MTFA_SIZE && a[Cell(Slid(base0, r), k)] == ToFront(list, nn)[k]
  {
    SlidUpper(base0, r, k);
    CellIn(base0, k);
    assert Cell(base0, nn) == base0[r] + nn - 16 * r;
    if k <= nn {
      assert Cell(base0, k) == base0[r] + k - 16 * r && Cell(base0, k - 1) == Cell(base0, k) - 1;
      hide Cell;
      assert a[Cell(base0, k - 1) + 1] == a0[Cell(base0, k - 1)] == list[k - 1];
    } else {
      CellsApart(base0, nn, k);
    }
  }

  lemma SlidingStart(a0: seq<int>, a: seq<int>, base0: seq<int>, list: seq<int>, nn: int, r: int)
    requires Shows(a0, base0, list) && base0[0] > 0 && 0 < r < 16 && 16 * r <= nn < 16 * r + 16
    requires Opened(a0, a, base0[r], base0[r] + nn - 16 * r)
    ensures Sliding(a, base0[r := base0[r] + 1], base0, list, ToFront(list, nn), r, r)
  {
    SlidRows(base0, r);
    assert Cell(base0, 16 * r) == base0[r];
    hide Cell;
    forall k | 0 <= k < 16 * r ensures a[Cell(base0, k)] == list[k] {
      CellIn(base0, k);
      CellsApart(base0, k, 16 * r);
    }
    forall k | 16 * r < k < 256
      ensures 0 <= Cell(Slid(base0, r), k) < MTFA_SIZE && a[Cell(Slid(base0, r), k)] == ToFront(list, nn)[k] {
      SlidingEntry(a0, a, base0, list, nn, r, k);
    }
  }

  lemma SlidUpper(base: seq<int>, r: int, k: int)
    requires Rows(base) && 0 <= r < 16 && 16 * r <= k < 256
    ensures Cell(Slid(base, r), k) == Cell(base, k)
  {
  }

  /** The last entry of the row before becomes the first of row lno. It may have to be written onto itself. */
  lemma SlidingStep(a: seq<int>, base: seq<int>, base0: seq<int>, list: seq<int>, target: seq<int>, r: int, lno: int)
    requires Sliding(a, base, base0, list, target, r, lno) && lno > 0
    requires forall k :: 0 < k <= 16 * r ==> target[k] == list[k - 1]
    ensures 0 <= base[lno - 1] + 15 < MTFA_SIZE && 0 <= base[lno] - 1 < MTFA_SIZE
    ensures Sliding(a[base[lno] - 1 := a[base[lno - 1] + 15]], base[lno := base[lno] - 1], base0, list, target, r,
      lno - 1)
  {
    var s := Slid(base0, r);
    var w := base[lno] - 1;
    SlidRows(base0, r);
    assert w == Cell(s, 16 * lno) && base[lno - 1] + 15 == Cell(base0, 16 * lno - 1);
    hide Cell, Rows;
    CellIn(s, 16 * lno);
    CellIn(base0, 16 * lno - 1);
    LastOrFree(base0, r, lno);
    var a' := a[w := a[base[lno - 1] + 15]];
    forall k | 0 <= k < 16 * (lno - 1) ensures 0 <= Cell(base0, k) < w {
      CellIn(base0, k);
      CellsApart(base0, k, 16 * lno - 1);
    }
    forall k | 16 * (lno - 1) < k < 16 * lno ensures 0 <= Cell(s, k) < w && a[Cell(s, k)] == target[k] {
      CellIn(s, k);
      SlidLower(base0, r, lno, k);
      CellsApart(s, k, 16 * lno);
    }
    forall k | 16 * lno < k < 256 ensures w < Cell(s, k) {
      CellsApart(s, 16 * lno, k);
    }
  }

  /** The place that row lno takes over lies behind the row before, or is the last place of that row. */
  lemma LastOrFree(base: seq<int>, r: int, lno: int)
    requires Rows(base) && 0 < lno <= r < 16
    ensures Cell(base, 16 * lno - 1) <= Cell(Slid(base, r), 16 * lno)
  {
  }

  lemma SlidLower(base: seq<int>, r: int, lno: int, k: int)
    requires Rows(base) && 0 < lno <= r < 16 && 16 * (lno - 1) < k < 16 * lno
    ensures Cell(Slid(base, r), k) == Cell(base, k - 1)
  {
  }

  lemma SlidingEnd(a: seq<int>, base: seq<int>, base0: seq<int>, list: seq<int>, target: seq<int>, r: int)
    requires Sliding(a, base, base0, list, target, r, 0) && r > 0
    ensures 0 <= base[0] - 1 < MTFA_SIZE
    ensures Shows(a[base[0] - 1 := target[0]], base[0 := base[0] - 1], target)
  {
    var s := Slid(base0, r);
    SlidRows(base0, r);
    assert base[0 := base[0] - 1] == s;
    CellIn(s, 0);
    forall k | 0 < k < 256 ensures Cell(s, k) != base[0] - 1 { CellsApart(s, 0, k); }
  }

  /** Moves the last entry of every row before r to the front of the next. */
  method SlideRows(mtfa: array<int>, mtfbase: array<int>, r: int, ghost base0: seq<int>, ghost list: seq<int>,
      ghost target: seq<int>)
    requires mtfa != mtfbase && Sliding(mtfa[..], mtfbase[..], base0, list, target, r, r)
    requires forall k :: 0 < k <= 16 * r ==> target[k] == list[k - 1]
    modifies mtfa, mtfbase
    ensures Sliding(mtfa[..], mtfbase[..], base0, list, target, r, 0)
  {
    assert mtfa.Length == MTFA_SIZE && mtfbase.Length == 16;
    hide Sliding;
    var lno := r;
    while lno > 0
      invariant 0 <= lno <= r
      invariant Sliding(mtfa[..], mtfbase[..], base0, list, target, r, lno)
    {
      SlidingStep(mtfa[..], mtfbase[..], base0, list, target, r, lno);
      mtfbase[lno] := mtfbase[lno] - 1;
      mtfa[mtfbase[lno]] := mtfa[mtfbase[lno - 1] + MTFL_SIZE - 1];
      lno := lno - 1;
    }
  }

  /** Entry nn, beyond the first row: its row closes up, and every row before it slides down by one. */
  method FrontFar(mtfa: array<int>, mtfbase: array<int>, nn: int, ghost list: seq<int>) returns (uc: int)
    requires mtfa != mtfbase && Shows(mtfa[..], mtfbase[..], list) && mtfbase[0] > 0 && MTFL_SIZE <= nn < 256
    modifies mtfa, mtfbase
    ensures uc == list[nn] && Shows(mtfa[..], mtfbase[..], ToFront(list, nn)) && mtfbase[0] > 0
  {
    ghost var a0, base0, target := mtfa[..], mtfbase[..], ToFront(list, nn);
    var lno := nn / MTFL_SIZE;
    var off := nn % MTFL_SIZE;
    assert Cell(base0, nn) == mtfbase[lno] + off;
    RowBounds(base0, lno);
    hide Sliding, Shows, Rows, ToFront, Opened, Cell, Slid;
    var pp := mtfbase[lno] + off;
    uc := mtfa[pp];
    ShiftUp(mtfa, mtfbase[lno], pp);
    SlidingStart(a0, mtfa[..], base0, list, nn, lno);
    mtfbase[lno] := mtfbase[lno] + 1;
    SlideRows(mtfa, mtfbase, lno, base0, list, target);
    SlidingEnd(mtfa[..], mtfbase[..], base0, list, target, lno);
    mtfbase[0] := mtfbase[0] - 1;
    mtfa[mtfbase[0]] := uc;
    if mtfbase[0] == 0 {
      Rebase(mtfa, mtfbase, target);
    }
  }

  /** uc = MTF(nn): the rows do what a plain list does, for every list and every position. */
  method Front(mtfa: array<int>, mtfbase: array<int>, nn: int, ghost list: seq<int>) returns (uc: int)
    requires mtfa != mtfbase && Shows(mtfa[..], mtfbase[..], list) && mtfbase[0] > 0 && 0 <= nn < 256
    modifies mtfa, mtfbase
    ensures uc == list[nn] && Shows(mtfa[..], mtfbase[..], ToFront(list, nn)) && mtfbase[0] > 0
  {
    if nn < MTFL_SIZE {
      ghost var base0 := mtfbase[..];
      uc := FrontNear(mtfa, mtfbase[..], nn, list);
      assert mtfbase[..] == base0;
    } else {
      uc := FrontFar(mtfa, mtfbase, nn, list);
    }
  }
}

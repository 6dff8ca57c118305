/**
 * Minesweeper on a 10×10 board with 15 mines.  A new game drops the mines on
 * random cells, retrying occupied ones, and labels every other cell with the
 * number of mines around it.  Revealing a mine loses; revealing a cell with
 * no mine around it reveals its neighbours in turn; a game is won once every
 * cell without a mine is revealed.  The random cells drawn are an input.
 */
module Minesweeper {

  const Size := 10
  const MineCount := 15

  datatype CellState = Mine | Number(n: int) | Empty

  predicate InGrid(r: int, c: int) {
    0 <= r < Size && 0 <= c < Size
  }

  predicate IsBoard<T>(g: seq<seq<T>>) {
    |g| == Size && forall r :: 0 <= r < Size ==> |g[r]| == Size
  }

  /** (nr, nc) lies in the 3×3 block centred on (r, c). */
  predicate Near(r: int, c: int, nr: int, nc: int) {
    -1 <= nr - r <= 1 && -1 <= nc - c <= 1
  }

  /** One for a mine on the board at (r, c), zero off the board or elsewhere. */
  function MineAt(g: seq<seq<CellState>>, r: int, c: int): nat
    requires IsBoard(g)
  {
    if InGrid(r, c) && g[r][c].Mine? then 1 else 0
  }

  /** The mines at (nr, c - 1), (nr, c), (nr, c + 1), counting the first k of them. */
  function AroundRow(g: seq<seq<CellState>>, nr: int, c: int, k: int): nat
    requires IsBoard(g) && 0 <= k <= 3
  {
    if k == 0 then 0 else AroundRow(g, nr, c, k - 1) + MineAt(g, nr, c + k - 2)
  }

  /** The mines in the first m rows of the 3×3 block around (r, c). */
  function AroundRows(g: seq<seq<CellState>>, r: int, c: int, m: int): nat
    requires IsBoard(g) && 0 <= m <= 3
  {
    if m == 0 then 0 else AroundRows(g, r, c, m - 1) + AroundRow(g, r + m - 2, c, 3)
  }

  /** The mines on the board in the 3×3 block around (r, c). */
  function Around(g: seq<seq<CellState>>, r: int, c: int): nat
    requires IsBoard(g)
  {
    AroundRows(g, r, c, 3)
  }

  /** The label of a cell without a mine. */
  function Label(count: int): CellState {
    if count > 0 then Number(count) else Empty
  }

  /** Every cell without a mine carries the label of its mine count. */
  ghost predicate Consistent(g: seq<seq<CellState>>)
    requires IsBoard(g)
  {
    forall r, c :: InGrid(r, c) && !g[r][c].Mine? ==> g[r][c] == Label(Around(g, r, c))
  }

  /** The two boards have their mines on the same cells. */
  ghost predicate SameMines(g: seq<seq<CellState>>, h: seq<seq<CellState>>)
    requires IsBoard(g) && IsBoard(h)
  {
    forall r, c :: InGrid(r, c) ==> (g[r][c].Mine? <==> h[r][c].Mine?)
  }

  /** The cells holding a mine. */
  ghost function MineCells(g: seq<seq<CellState>>): set<(int, int)>
    requires IsBoard(g)
  {
    set r, c | 0 <= r < Size && 0 <= c < Size && g[r][c].Mine? :: (r, c)
  }

  ghost predicate NoMineRevealed(g: seq<seq<CellState>>, rv: seq<seq<bool>>)
    requires IsBoard(g) && IsBoard(rv)
  {
    forall r, c :: InGrid(r, c) && rv[r][c] ==> !g[r][c].Mine?
  }

  /** Every cell without a mine is revealed. */
  ghost predicate AllClear(g: seq<seq<CellState>>, rv: seq<seq<bool>>)
    requires IsBoard(g) && IsBoard(rv)
  {
    forall r, c :: InGrid(r, c) && !g[r][c].Mine? ==> rv[r][c]
  }

  /** Revealed cells stay revealed. */
  predicate Grows(a: seq<seq<bool>>, b: seq<seq<bool>>) {
    |a| == |b| && forall r :: 0 <= r < |a| ==> |a[r]| == |b[r]| && forall c :: 0 <= c < |a[r]| ==> a[r][c] ==> b[r][c]
  }

  /** The cells revealed between a and b carry no flag and no mine. */
  ghost predicate NewCellsSafe(g: seq<seq<CellState>>, fl: seq<seq<bool>>, a: seq<seq<bool>>, b: seq<seq<bool>>)
    requires IsBoard(g) && IsBoard(fl) && IsBoard(a) && IsBoard(b)
  {
    forall r, c :: InGrid(r, c) && b[r][c] && !a[r][c] ==> !fl[r][c] && !g[r][c].Mine?
  }

  /** Every neighbour of (r, c) on the board is flagged or revealed. */
  ghost predicate NeighboursDone(fl: seq<seq<bool>>, b: seq<seq<bool>>, r: int, c: int)
    requires IsBoard(fl) && IsBoard(b)
  {
    forall nr, nc :: InGrid(nr, nc) && Near(r, c, nr, nc) ==> fl[nr][nc] || b[nr][nc]
  }

  /** The cells (nr, col - 1) up to, but not including, (nr, col - 1 + k) that are on the board are flagged or revealed. */
  ghost predicate RowDone(fl: seq<seq<bool>>, b: seq<seq<bool>>, nr: int, col: int, k: int)
    requires IsBoard(fl) && IsBoard(b)
  {
    forall nc :: InGrid(nr, nc) && col - 1 <= nc < col - 1 + k ==> fl[nr][nc] || b[nr][nc]
  }

  /** A cell of the row that is off the board or already revealed extends the done part of the row. */
  lemma RowDoneKept(fl: seq<seq<bool>>, b: seq<seq<bool>>, nr: int, col: int, k: int)
    requires IsBoard(fl) && IsBoard(b) && RowDone(fl, b, nr, col, k)
    requires InGrid(nr, col - 1 + k) ==> b[nr][col - 1 + k]
    ensures RowDone(fl, b, nr, col, k + 1)
  {
  }

  /** Every neighbour of (r, c) on the board in the first k of the rows r - 1 .. r + 1 is flagged or revealed. */
  ghost predicate RowsDone(fl: seq<seq<bool>>, b: seq<seq<bool>>, r: int, c: int, k: int)
    requires IsBoard(fl) && IsBoard(b)
  {
    forall nr, nc :: InGrid(nr, nc) && Near(r, c, nr, nc) && nr < r - 1 + k ==> fl[nr][nc] || b[nr][nc]
  }

  /** One more cell of the row done, and nothing hidden again, extends the done part of the row. */
  lemma RowDoneStep(fl: seq<seq<bool>>, b: seq<seq<bool>>, d: seq<seq<bool>>, nr: int, col: int, k: int)
    requires IsBoard(fl) && IsBoard(b) && IsBoard(d) && Grows(b, d) && RowDone(fl, b, nr, col, k)
    requires InGrid(nr, col - 1 + k) ==> fl[nr][col - 1 + k] || d[nr][col - 1 + k]
    ensures RowDone(fl, d, nr, col, k + 1)
  {
  }

  /** A whole row of neighbours done, and nothing hidden again, extends the done rows by one. */
  lemma RowsDoneStep(fl: seq<seq<bool>>, b: seq<seq<bool>>, d: seq<seq<bool>>, row: int, col: int, k: int)
    requires IsBoard(fl) && IsBoard(b) && IsBoard(d) && Grows(b, d) && RowsDone(fl, b, row, col, k)
    requires RowDone(fl, d, row - 1 + k, col, 3)
    ensures RowsDone(fl, d, row, col, k + 1)
  {
  }

  /** Around every cell revealed between a and b with no mine near it, the flood has spread. */
  ghost predicate Closed(g: seq<seq<CellState>>, fl: seq<seq<bool>>, a: seq<seq<bool>>, b: seq<seq<bool>>)
    requires IsBoard(g) && IsBoard(fl) && IsBoard(a) && IsBoard(b)
  {
    forall r, c :: InGrid(r, c) && b[r][c] && !a[r][c] && g[r][c] == Empty ==> NeighboursDone(fl, b, r, c)
  }

  /** (r, c) is a cell with no mine near it, revealed between a and b. */
  ghost predicate NewEmpty(g: seq<seq<CellState>>, a: seq<seq<bool>>, b: seq<seq<bool>>, r: int, c: int)
    requires IsBoard(g) && IsBoard(a) && IsBoard(b)
  {
    InGrid(r, c) && b[r][c] && !a[r][c] && g[r][c] == Empty
  }

  /** Some other cell next to (r, c) was revealed between a and b and has no mine near it. */
  ghost predicate Parented(g: seq<seq<CellState>>, a: seq<seq<bool>>, b: seq<seq<bool>>, r: int, c: int)
    requires IsBoard(g) && IsBoard(a) && IsBoard(b)
  {
    exists nr, nc :: NewEmpty(g, a, b, nr, nc) && Near(nr, nc, r, c) && (nr, nc) != (r, c)
  }

  /** Every cell revealed between a and b, except (row, col) itself, was reached from a cell with no mine near it. */
  ghost predicate SpreadFrom(g: seq<seq<CellState>>, a: seq<seq<bool>>, b: seq<seq<bool>>, row: int, col: int)
    requires IsBoard(g) && IsBoard(a) && IsBoard(b)
  {
    forall r, c :: InGrid(r, c) && b[r][c] && !a[r][c] && (r, c) != (row, col) ==> Parented(g, a, b, r, c)
  }

  /** Every cell revealed between a and b is next to (row, col) or was reached from a cell with no mine near it. */
  ghost predicate SpreadNear(g: seq<seq<CellState>>, a: seq<seq<bool>>, b: seq<seq<bool>>, row: int, col: int)
    requires IsBoard(g) && IsBoard(a) && IsBoard(b)
  {
    forall r, c :: InGrid(r, c) && b[r][c] && !a[r][c] && !Near(row, col, r, c) ==> Parented(g, a, b, r, c)
  }

  /** A parent revealed between a and b is still one when more is revealed afterwards. */
  lemma ParentedGrows(g: seq<seq<CellState>>, a: seq<seq<bool>>, b: seq<seq<bool>>, d: seq<seq<bool>>, r: int, c: int)
    requires IsBoard(g) && IsBoard(a) && IsBoard(b) && IsBoard(d) && Grows(b, d) && Parented(g, a, b, r, c)
    ensures Parented(g, a, d, r, c)
  {
    var nr, nc :| NewEmpty(g, a, b, nr, nc) && Near(nr, nc, r, c) && (nr, nc) != (r, c);
    assert NewEmpty(g, a, d, nr, nc);
  }

  /** A parent revealed between b and d is one revealed between a and d when a is an earlier stage. */
  lemma ParentedEarlier(g: seq<seq<CellState>>, a: seq<seq<bool>>, b: seq<seq<bool>>, d: seq<seq<bool>>, r: int, c: int)
    requires IsBoard(g) && IsBoard(a) && IsBoard(b) && IsBoard(d) && Grows(a, b) && Parented(g, b, d, r, c)
    ensures Parented(g, a, d, r, c)
  {
    var nr, nc :| NewEmpty(g, b, d, nr, nc) && Near(nr, nc, r, c) && (nr, nc) != (r, c);
    assert NewEmpty(g, a, d, nr, nc);
  }

  /** The spread around (row, col) chains across successive stages. */
  lemma SpreadStages(g: seq<seq<CellState>>, a: seq<seq<bool>>, b: seq<seq<bool>>, d: seq<seq<bool>>, row: int, col: int)
    requires IsBoard(g) && IsBoard(a) && IsBoard(b) && IsBoard(d) && Grows(a, b) && Grows(b, d)
    requires SpreadNear(g, a, b, row, col) && SpreadNear(g, b, d, row, col)
    ensures SpreadNear(g, a, d, row, col)
  {
    forall r, c | InGrid(r, c) && d[r][c] && !a[r][c] && !Near(row, col, r, c)
      ensures Parented(g, a, d, r, c)
    {
      if b[r][c] {
        ParentedGrows(g, a, b, d, r, c);
      } else {
        ParentedEarlier(g, a, b, d, r, c);
      }
    }
  }

  /** A flood started next to (row, col) spreads around (row, col). */
  lemma SpreadFromNeighbour(g: seq<seq<CellState>>, b: seq<seq<bool>>, d: seq<seq<bool>>, row: int, col: int, nr: int, nc: int)
    requires IsBoard(g) && IsBoard(b) && IsBoard(d) && SpreadFrom(g, b, d, nr, nc) && Near(row, col, nr, nc)
    ensures SpreadNear(g, b, d, row, col)
  {
    forall r, c | InGrid(r, c) && d[r][c] && !b[r][c] && !Near(row, col, r, c)
      ensures Parented(g, b, d, r, c)
    {
      assert (r, c) != (nr, nc);
    }
  }

  /**
   * The tapped cell is the first stage of a reveal and the spread around it
   * the second; a cell with a number stops there.  Every other cell revealed
   * was then reached from a cell with no mine near it.
   */
  lemma FirstSpread(g: seq<seq<CellState>>, a: seq<seq<bool>>, first: seq<seq<bool>>, d: seq<seq<bool>>, row: int, col: int)
    requires IsBoard(g) && IsBoard(a) && IsBoard(d) && InGrid(row, col)
    requires !a[row][col] && first == a[row := a[row][col := true]]
    requires Grows(first, d) && SpreadNear(g, first, d, row, col)
    requires g[row][col] == Empty || d == first
    ensures SpreadFrom(g, a, d, row, col)
  {
    forall r, c | InGrid(r, c) && d[r][c] && !a[r][c] && (r, c) != (row, col)
      ensures Parented(g, a, d, r, c)
    {
      assert !first[r][c];
      if Near(row, col, r, c) {
        assert NewEmpty(g, a, d, row, col);
      } else {
        ParentedEarlier(g, a, first, d, r, c);
      }
    }
  }

  /** The number of hidden cells in a row. */
  function RowHidden(row: seq<bool>): nat {
    if row == [] then 0 else RowHidden(row[..|row| - 1]) + (if row[|row| - 1] then 0 else 1)
  }

  /** The number of hidden cells on the board. */
  function Hidden(rv: seq<seq<bool>>): nat {
    if rv == [] then 0 else Hidden(rv[..|rv| - 1]) + RowHidden(rv[|rv| - 1])
  }

  lemma {:induction false} AroundRowZero(g: seq<seq<CellState>>, nr: int, c: int, k: int, nc: int)
    requires IsBoard(g) && 0 <= k <= 3 && AroundRow(g, nr, c, k) == 0 && c - 1 <= nc < c - 1 + k
    ensures MineAt(g, nr, nc) == 0
  {
    if nc < c + k - 2 {
      AroundRowZero(g, nr, c, k - 1, nc);
    }
  }

  lemma {:induction false} AroundRowsZero(g: seq<seq<CellState>>, r: int, c: int, m: int, nr: int, nc: int)
    requires IsBoard(g) && 0 <= m <= 3 && AroundRows(g, r, c, m) == 0
    requires r - 1 <= nr < r - 1 + m && -1 <= nc - c <= 1
    ensures MineAt(g, nr, nc) == 0
  {
    if nr < r + m - 2 {
      AroundRowsZero(g, r, c, m - 1, nr, nc);
    } else {
      AroundRowZero(g, nr, c, 3, nc);
    }
  }

  /** No mine lies next to a cell whose count is zero. */
  lemma EmptyNeighbourSafe(g: seq<seq<CellState>>, r: int, c: int, nr: int, nc: int)
    requires IsBoard(g) && Around(g, r, c) == 0 && InGrid(nr, nc) && Near(r, c, nr, nc)
    ensures !g[nr][nc].Mine?
  {
    AroundRowsZero(g, r, c, 3, nr, nc);
  }

  lemma {:induction false} SameMinesAroundRow(g: seq<seq<CellState>>, h: seq<seq<CellState>>, nr: int, c: int, k: int)
    requires IsBoard(g) && IsBoard(h) && SameMines(g, h) && 0 <= k <= 3
    ensures AroundRow(g, nr, c, k) == AroundRow(h, nr, c, k)
  {
    if k > 0 {
      SameMinesAroundRow(g, h, nr, c, k - 1);
    }
  }

  lemma {:induction false} SameMinesAroundRows(g: seq<seq<CellState>>, h: seq<seq<CellState>>, r: int, c: int, m: int)
    requires IsBoard(g) && IsBoard(h) && SameMines(g, h) && 0 <= m <= 3
    ensures AroundRows(g, r, c, m) == AroundRows(h, r, c, m)
  {
    if m > 0 {
      SameMinesAroundRows(g, h, r, c, m - 1);
      SameMinesAroundRow(g, h, r + m - 2, c, 3);
    }
  }

  /** Mine counts depend on where the mines are and on nothing else. */
  lemma SameMinesAround(g: seq<seq<CellState>>, h: seq<seq<CellState>>, r: int, c: int)
    requires IsBoard(g) && IsBoard(h) && SameMines(g, h)
    ensures Around(g, r, c) == Around(h, r, c)
  {
    SameMinesAroundRows(g, h, r, c, 3);
  }

  lemma {:induction false} RowHiddenReveal(row: seq<bool>, c: int)
    requires 0 <= c < |row| && !row[c]
    ensures RowHidden(row[c := true]) == RowHidden(row) - 1
  {
    var n := |row| - 1;
    assert row[c := true][..n] == if c < n then row[..n][c := true] else row[..n];
    if c < n {
      RowHiddenReveal(row[..n], c);
    }
  }

  /** Revealing a hidden cell leaves one hidden cell fewer. */
  lemma {:induction false} HiddenReveal(rv: seq<seq<bool>>, r: int, c: int)
    requires 0 <= r < |rv| && 0 <= c < |rv[r]| && !rv[r][c]
    ensures Hidden(rv[r := rv[r][c := true]]) == Hidden(rv) - 1
  {
    var n := |rv| - 1;
    var after := rv[r := rv[r][c := true]];
    assert after[..n] == if r < n then rv[..n][r := rv[r][c := true]] else rv[..n];
    if r < n {
      HiddenReveal(rv[..n], r, c);
    } else {
      RowHiddenReveal(rv[r], c);
    }
  }

  lemma {:induction false} RowHiddenMono(a: seq<bool>, b: seq<bool>)
    requires |a| == |b| && forall c :: 0 <= c < |a| ==> a[c] ==> b[c]
    ensures RowHidden(b) <= RowHidden(a)
  {
    if a != [] {
      RowHiddenMono(a[..|a| - 1], b[..|b| - 1]);
    }
  }

  /** Revealing more never adds a hidden cell. */
  lemma {:induction false} HiddenMono(a: seq<seq<bool>>, b: seq<seq<bool>>)
    requires Grows(a, b)
    ensures Hidden(b) <= Hidden(a)
  {
    if a != [] {
      var n := |a| - 1;
      assert Grows(a[..n], b[..n]);
      HiddenMono(a[..n], b[..n]);
      RowHiddenMono(a[n], b[n]);
    }
  }

  /** The flood conditions chain across successive stages of a reveal. */
  lemma StagesCompose(g: seq<seq<CellState>>, fl: seq<seq<bool>>, a: seq<seq<bool>>, b: seq<seq<bool>>, d: seq<seq<bool>>)
    requires IsBoard(g) && IsBoard(fl) && IsBoard(a) && IsBoard(b) && IsBoard(d)
    requires Grows(a, b) && Grows(b, d)
    requires NewCellsSafe(g, fl, a, b) && NewCellsSafe(g, fl, b, d)
    requires Closed(g, fl, a, b) && Closed(g, fl, b, d)
    ensures Grows(a, d) && NewCellsSafe(g, fl, a, d) && Closed(g, fl, a, d)
  {
    forall r, c | InGrid(r, c) && d[r][c] && !a[r][c] && g[r][c] == Empty
      ensures NeighboursDone(fl, d, r, c)
    {
      if b[r][c] {
        assert NeighboursDone(fl, b, r, c);
        forall nr, nc | InGrid(nr, nc) && Near(r, c, nr, nc)
          ensures fl[nr][nc] || d[nr][nc]
        {
          assert fl[nr][nc] || b[nr][nc];
        }
      }
    }
  }

  /** The board of a new game before the mines go down. */
  function Blank<T>(v: T): seq<seq<T>> {
    seq(Size, _ => seq(Size, _ => v))
  }

  /** The cells counted by `CountAround`: an independent pass over the nine offsets. */
  method CountAround(g: seq<seq<CellState>>, r: int, c: int) returns (count: int)
    requires IsBoard(g) && InGrid(r, c)
    ensures count == Around(g, r, c)
  {
    count := 0;
    var dr := -1;
    while dr <= 1
      invariant -1 <= dr <= 2
      invariant count == AroundRows(g, r, c, dr + 1)
    {
      var dc := -1;
      while dc <= 1
        invariant -1 <= dc <= 2
        invariant count == AroundRows(g, r, c, dr + 1) + AroundRow(g, r + dr, c, dc + 1)
      {
        var nr, nc := r + dr, c + dc;
        if nr >= 0 && nr < Size && nc >= 0 && nc < Size && g[nr][nc].Mine? {
          count := count + 1;
        }
        dc := dc + 1;
      }
      dr := dr + 1;
    }
  }

  /** The cells among the first k draws. */
  ghost function Drawn(draws: seq<(int, int)>, k: int): set<(int, int)>
    requires 0 <= k <= |draws|
  {
    set i | 0 <= i < k :: draws[i]
  }

  /**
   * The mines are the cells of the shortest run of draws that names 15
   * different cells: the draws up to the one that brought the fifteenth.
   */
  ghost predicate FirstDistinctDraws(draws: seq<(int, int)>, mines: set<(int, int)>) {
    exists k :: FirstDistinctAt(draws, mines, k)
  }

  /** The mines are the cells of the first k draws, and the first k - 1 name fewer than 15. */
  ghost predicate FirstDistinctAt(draws: seq<(int, int)>, mines: set<(int, int)>, k: int) {
    0 < k <= |draws| && mines == Drawn(draws, k) && |mines| == MineCount && |Drawn(draws, k - 1)| < MineCount
  }

  lemma {:induction false} DrawnGrows(draws: seq<(int, int)>, j: int, k: int)
    requires 0 <= j <= k <= |draws|
    ensures Drawn(draws, j) <= Drawn(draws, k) && |Drawn(draws, j)| <= |Drawn(draws, k)|
    decreases k - j
  {
    if j < k {
      DrawnGrows(draws, j, k - 1);
      assert Drawn(draws, k) == Drawn(draws, k - 1) + {draws[k - 1]};
    }
  }

  /** The draws decide the mines: only one set of cells is the first 15 different draws. */
  lemma FirstDistinctDrawsUnique(draws: seq<(int, int)>, m1: set<(int, int)>, m2: set<(int, int)>)
    requires FirstDistinctDraws(draws, m1) && FirstDistinctDraws(draws, m2)
    ensures m1 == m2
  {
    var k1 :| FirstDistinctAt(draws, m1, k1);
    var k2 :| FirstDistinctAt(draws, m2, k2);
    if k1 < k2 {
      FirstDistinctNotLater(draws, m1, m2, k1, k2);
    } else if k2 < k1 {
      FirstDistinctNotLater(draws, m2, m1, k2, k1);
    }
  }

  /** A run of draws that already names 15 cells leaves no later run short of 15. */
  lemma FirstDistinctNotLater(draws: seq<(int, int)>, m1: set<(int, int)>, m2: set<(int, int)>, k1: int, k2: int)
    requires FirstDistinctAt(draws, m1, k1) && FirstDistinctAt(draws, m2, k2)
    ensures k2 <= k1
  {
    if k1 < k2 {
      DrawnGrows(draws, k1, k2 - 1);
    }
  }

  /**
   * The retry loop of `startGame`: each draw on a cell without a mine puts
   * one there, until 15 are down; `used` draws are consumed.
   */
  method PlaceMines(g: seq<seq<CellState>>, draws: seq<(int, int)>) returns (h: seq<seq<CellState>>, used: int)
    requires IsBoard(g) && forall r, c :: InGrid(r, c) ==> g[r][c] == Empty
    requires forall k :: 0 <= k < |draws| ==> InGrid(draws[k].0, draws[k].1)
    requires |set k | 0 <= k < |draws| :: draws[k]| >= MineCount
    ensures IsBoard(h) && 0 < used <= |draws|
    ensures MineCells(h) == Drawn(draws, used) && |MineCells(h)| == MineCount && |Drawn(draws, used - 1)| < MineCount
    ensures FirstDistinctDraws(draws, MineCells(h))
    ensures forall r, c :: InGrid(r, c) && !h[r][c].Mine? ==> h[r][c] == Empty
  {
    h := g;
    var placed := 0;
    var k := 0;
    ghost var mines: set<(int, int)> := {};
    while placed < MineCount
      invariant 0 <= k <= |draws| && IsBoard(h)
      invariant mines == Drawn(draws, k)
      invariant placed == |mines| <= MineCount
      invariant k == 0 || |Drawn(draws, k - 1)| < MineCount
      invariant forall r, c :: InGrid(r, c) ==> (h[r][c].Mine? <==> (r, c) in mines)
      invariant forall r, c :: InGrid(r, c) && !h[r][c].Mine? ==> h[r][c] == Empty
      decreases |draws| - k
    {
      if k == |draws| {
        assert false;
      }
      var (r, c) := draws[k];
      assert Drawn(draws, k + 1) == mines + {draws[k]};
      MarkMine(h, mines, r, c);
      if h[r][c] == Empty {
        h := h[r := h[r][c := Mine]];
        placed := placed + 1;
      }
      mines := mines + {draws[k]};
      k := k + 1;
    }
    assert MineCells(h) == mines;
    used := k;
    assert FirstDistinctAt(draws, MineCells(h), used);
  }

  /** One draw of `startGame`: an empty cell takes a mine, so the mines are the cells drawn so far. */
  lemma MarkMine(h: seq<seq<CellState>>, mines: set<(int, int)>, r: int, c: int)
    requires IsBoard(h) && InGrid(r, c)
    requires forall i, j :: InGrid(i, j) ==> (h[i][j].Mine? <==> (i, j) in mines)
    requires forall i, j :: InGrid(i, j) && !h[i][j].Mine? ==> h[i][j] == Empty
    ensures var h' := if h[r][c] == Empty then h[r := h[r][c := Mine]] else h;
      IsBoard(h') &&
      (forall i, j :: InGrid(i, j) ==> (h'[i][j].Mine? <==> (i, j) in mines + {(r, c)})) &&
      (forall i, j :: InGrid(i, j) && !h'[i][j].Mine? ==> h'[i][j] == Empty) &&
      |mines + {(r, c)}| == |mines| + (if h[r][c] == Empty then 1 else 0)
  {
    if h[r][c] == Empty {
      assert (r, c) !in mines;
    } else {
      assert (r, c) in mines;
      assert mines + {(r, c)} == mines;
    }
  }

  /** The labelling pass of `startGame`: every cell without a mine takes the label of its count. */
  method LabelCells(g: seq<seq<CellState>>) returns (h: seq<seq<CellState>>)
    requires IsBoard(g)
    ensures IsBoard(h) && SameMines(h, g) && Consistent(h)
    ensures MineCells(h) == MineCells(g)
  {
    h := g;
    var r := 0;
    while r < Size
      invariant 0 <= r <= Size && IsBoard(h) && SameMines(h, g)
      invariant forall i, j :: 0 <= i < r && 0 <= j < Size && !h[i][j].Mine? ==> h[i][j] == Label(Around(g, i, j))
    {
      var c := 0;
      while c < Size
        invariant 0 <= c <= Size && IsBoard(h) && SameMines(h, g)
        invariant forall i, j :: InGrid(i, j) && (i < r || (i == r && j < c)) && !h[i][j].Mine? ==>
          h[i][j] == Label(Around(g, i, j))
      {
        if !h[r][c].Mine? {
          var count := CountAround(h, r, c);
          SameMinesAround(h, g, r, c);
          h := h[r := h[r][c := Label(count)]];
        }
        c := c + 1;
      }
      r := r + 1;
    }
    forall i, j | InGrid(i, j) && !h[i][j].Mine?
      ensures h[i][j] == Label(Around(h, i, j))
    {
      SameMinesAround(h, g, i, j);
    }
    assert MineCells(h) == MineCells(g);
  }

  /**
   * The scan of `checkWin`: row by row, the first hidden cell without a mine
   * stops it; a scan that finds none reports the board clear.
   */
  method ScanClear(g: seq<seq<CellState>>, rv: seq<seq<bool>>) returns (clear: bool)
    requires IsBoard(g) && IsBoard(rv)
    ensures clear == AllClear(g, rv)
  {
    var r := 0;
    while r < Size
      invariant 0 <= r <= Size
      invariant forall i, j :: 0 <= i < r && 0 <= j < Size && !g[i][j].Mine? ==> rv[i][j]
    {
      var c := 0;
      while c < Size
        invariant 0 <= c <= Size
        invariant forall i, j :: InGrid(i, j) && (i < r || (i == r && j < c)) && !g[i][j].Mine? ==> rv[i][j]
      {
        if !g[r][c].Mine? && !rv[r][c] {
          return false;
        }
        c := c + 1;
      }
      r := r + 1;
    }
    return true;
  }

  /** Two stages of a flood around (row, col) make one, and the second hides no cell again. */
  lemma FloodStages(g: seq<seq<CellState>>, fl: seq<seq<bool>>, a: seq<seq<bool>>, b: seq<seq<bool>>, d: seq<seq<bool>>, row: int, col: int)
    requires IsBoard(g) && IsBoard(fl) && IsBoard(a) && IsBoard(b) && IsBoard(d)
    requires Grows(a, b) && Grows(b, d)
    requires NewCellsSafe(g, fl, a, b) && NewCellsSafe(g, fl, b, d)
    requires Closed(g, fl, a, b) && Closed(g, fl, b, d)
    requires SpreadNear(g, a, b, row, col) && SpreadNear(g, b, d, row, col)
    ensures Grows(a, d) && NewCellsSafe(g, fl, a, d) && Closed(g, fl, a, d)
    ensures SpreadNear(g, a, d, row, col) && Hidden(d) <= Hidden(b)
  {
    StagesCompose(g, fl, a, b, d);
    SpreadStages(g, a, b, d, row, col);
    HiddenMono(b, d);
  }

  /**
   * The recursion of `revealCell` once the game is known not to be lost and
   * the cell not to hold a mine, on the two things it changes: the revealed
   * cells and the win.  A won game, a revealed or a flagged cell is left
   * alone; otherwise the cell is revealed, around a cell with no mine near it
   * every hidden neighbour is revealed in turn, and `checkWin` runs.  The
   * result: a flood that reveals no flag and no mine, stops only at numbered
   * cells, flags and the board's edge, and is won exactly when it clears the
   * board.
   */
  method Flood(g: seq<seq<CellState>>, fl: seq<seq<bool>>, rv: seq<seq<bool>>, won: bool, row: int, col: int)
    returns (rv': seq<seq<bool>>, won': bool)
    requires IsBoard(g) && IsBoard(fl) && IsBoard(rv) && Consistent(g) && InGrid(row, col)
    requires !g[row][col].Mine? && (won ==> AllClear(g, rv))
    decreases Hidden(rv), 0
    ensures IsBoard(rv') && Grows(rv, rv') && (won' ==> AllClear(g, rv'))
    ensures NewCellsSafe(g, fl, rv, rv') && Closed(g, fl, rv, rv')
    ensures fl[row][col] || rv'[row][col]
    ensures SpreadFrom(g, rv, rv', row, col)
    ensures won || rv[row][col] || fl[row][col] ==> rv' == rv && won' == won
    ensures !(won || rv[row][col] || fl[row][col]) ==> won' == AllClear(g, rv')
  {
    if won || rv[row][col] || fl[row][col] {
      return rv, won;
    }
    HiddenReveal(rv, row, col);
    rv' := rv[row := rv[row][col := true]];
    won' := won;
    ghost var first := rv';
    if g[row][col] == Empty {
      var dr := -1;
      while dr <= 1
        invariant -1 <= dr <= 2 && IsBoard(rv')
        invariant Grows(first, rv') && Hidden(rv') < Hidden(rv) && (won' ==> AllClear(g, rv'))
        invariant NewCellsSafe(g, fl, first, rv') && Closed(g, fl, first, rv')
        invariant RowsDone(fl, rv', row, col, dr + 1)
        invariant SpreadNear(g, first, rv', row, col)
      {
        ghost var before := rv';
        rv', won' := FloodRow(g, fl, rv', won', row, col, dr);
        FloodStages(g, fl, first, before, rv', row, col);
        RowsDoneStep(fl, before, rv', row, col, dr + 1);
        dr := dr + 1;
      }
    }
    FirstStage(g, fl, rv, first, rv', row, col);
    FirstSpread(g, rv, first, rv', row, col);
    var clear := ScanClear(g, rv');
    won' := won' || clear;
  }

  /** The neighbours (row + dr, col - 1 .. col + 1) of a revealed cell with no mine near it are flooded in turn. */
  method FloodRow(g: seq<seq<CellState>>, fl: seq<seq<bool>>, rv: seq<seq<bool>>, won: bool, row: int, col: int, dr: int)
    returns (rv': seq<seq<bool>>, won': bool)
    requires IsBoard(g) && IsBoard(fl) && IsBoard(rv) && Consistent(g) && InGrid(row, col) && -1 <= dr <= 1
    requires g[row][col] == Empty && (won ==> AllClear(g, rv))
    decreases Hidden(rv), 2
    ensures IsBoard(rv') && Grows(rv, rv') && (won' ==> AllClear(g, rv'))
    ensures NewCellsSafe(g, fl, rv, rv') && Closed(g, fl, rv, rv')
    ensures RowDone(fl, rv', row + dr, col, 3)
    ensures SpreadNear(g, rv, rv', row, col)
  {
    rv', won' := rv, won;
    var dc := -1;
    while dc <= 1
      invariant -1 <= dc <= 2 && IsBoard(rv')
      invariant Grows(rv, rv') && Hidden(rv') <= Hidden(rv) && (won' ==> AllClear(g, rv'))
      invariant NewCellsSafe(g, fl, rv, rv') && Closed(g, fl, rv, rv')
      invariant RowDone(fl, rv', row + dr, col, dc + 1)
      invariant SpreadNear(g, rv, rv', row, col)
    {
      var nr, nc := row + dr, col + dc;
      ghost var before := rv';
      if nr >= 0 && nr < Size && nc >= 0 && nc < Size && !rv'[nr][nc] {
        rv', won' := FloodNeighbour(g, fl, rv, rv', won', row, col, nr, nc);
        RowDoneStep(fl, before, rv', nr, col, dc + 1);
      } else {
        RowDoneKept(fl, rv', nr, col, dc + 1);
      }
      dc := dc + 1;
    }
  }

  /**
   * One neighbour (nr, nc) of a revealed cell (row, col) with no mine near
   * it is flooded, `cur` being what the flood around (row, col) has
   * revealed so far since `rv`.
   */
  method FloodNeighbour(g: seq<seq<CellState>>, fl: seq<seq<bool>>, rv: seq<seq<bool>>, cur: seq<seq<bool>>, won: bool,
                        row: int, col: int, nr: int, nc: int)
    returns (rv': seq<seq<bool>>, won': bool)
    requires IsBoard(g) && IsBoard(fl) && IsBoard(rv) && IsBoard(cur) && Consistent(g)
    requires InGrid(row, col) && g[row][col] == Empty && InGrid(nr, nc) && Near(row, col, nr, nc)
    requires Grows(rv, cur) && NewCellsSafe(g, fl, rv, cur) && Closed(g, fl, rv, cur) && SpreadNear(g, rv, cur, row, col)
    requires won ==> AllClear(g, cur)
    decreases Hidden(cur), 1
    ensures IsBoard(rv') && Grows(cur, rv') && Hidden(rv') <= Hidden(cur) && (won' ==> AllClear(g, rv'))
    ensures Grows(rv, rv') && NewCellsSafe(g, fl, rv, rv') && Closed(g, fl, rv, rv') && SpreadNear(g, rv, rv', row, col)
    ensures fl[nr][nc] || rv'[nr][nc]
  {
    assert Label(Around(g, row, col)) == Empty;
    EmptyNeighbourSafe(g, row, col, nr, nc);
    rv', won' := Flood(g, fl, cur, won, nr, nc);
    SpreadFromNeighbour(g, cur, rv', row, col, nr, nc);
    FloodStages(g, fl, rv, cur, rv', row, col);
  }

  class MinesweeperGame {
    var grid: seq<seq<CellState>>
    var revealed: seq<seq<bool>>
    var flagged: seq<seq<bool>>
    var gameOver: bool
    var gameWon: bool
    var gameStarted: bool

    /**
     * Once a game is on: three 10×10 boards, every label right, no mine
     * revealed unless the game is lost, and a win only with every safe cell
     * revealed.
     */
    ghost predicate Valid()
      reads this
    {
      gameStarted ==>
        IsBoard(grid) && IsBoard(revealed) && IsBoard(flagged) && Consistent(grid) &&
        (!gameOver ==> NoMineRevealed(grid, revealed)) && (gameWon ==> AllClear(grid, revealed))
    }

    constructor()
      ensures Valid()
      ensures grid == [] && revealed == [] && flagged == [] && !gameOver && !gameWon && !gameStarted
    {
      grid := [];
      revealed := [];
      flagged := [];
      gameOver := false;
      gameWon := false;
      gameStarted := false;
    }

    /**
     * `startGame`: everything hidden and unflagged; exactly 15 different
     * cells, all among the draws, take a mine, and every other cell is labelled.
     */
    method StartGame(draws: seq<(int, int)>)
      requires forall k :: 0 <= k < |draws| ==> InGrid(draws[k].0, draws[k].1)
      requires |set k | 0 <= k < |draws| :: draws[k]| >= MineCount
      modifies this
      ensures Valid() && gameStarted && !gameOver && !gameWon
      ensures revealed == Blank(false) && flagged == Blank(false)
      ensures IsBoard(grid) && |MineCells(grid)| == MineCount && FirstDistinctDraws(draws, MineCells(grid))
      ensures Consistent(grid)
    {
      var mined, used := PlaceMines(Blank(Empty), draws);
      grid := LabelCells(mined);
      revealed := Blank(false);
      flagged := Blank(false);
      gameOver := false;
      gameWon := false;
      gameStarted := true;
    }
    /**
     * `revealCell`: ignored once the game is over or won, or on a revealed or
     * flagged cell.  A mine is revealed and loses.  Any other cell starts a
     * flood (`Flood`), which also decides the win.
     */
    method RevealCell(row: int, col: int)
      requires Valid() && gameStarted && InGrid(row, col)
      modifies this
      ensures Valid() && gameStarted && grid == old(grid) && flagged == old(flagged)
      ensures Grows(old(revealed), revealed)
      ensures old(gameOver || gameWon || revealed[row][col] || flagged[row][col]) ==>
        revealed == old(revealed) && gameOver == old(gameOver) && gameWon == old(gameWon)
      ensures !old(gameOver || gameWon || revealed[row][col] || flagged[row][col]) && grid[row][col].Mine? ==>
        revealed == old(revealed)[row := old(revealed)[row][col := true]] && gameOver && !gameWon
      ensures !old(gameOver || gameWon || revealed[row][col] || flagged[row][col]) && !grid[row][col].Mine? ==>
        revealed[row][col] && !gameOver && gameWon == AllClear(grid, revealed) &&
        NewCellsSafe(grid, flagged, old(revealed), revealed) && Closed(grid, flagged, old(revealed), revealed) &&
        SpreadFrom(grid, old(revealed), revealed, row, col)
    {
      if gameOver || gameWon || revealed[row][col] || flagged[row][col] {
        return;
      }
      if grid[row][col].Mine? {
        revealed := revealed[row := revealed[row][col := true]];
        gameOver := true;
        return;
      }
      revealed, gameWon := Flood(grid, flagged, revealed, gameWon, row, col);
    }

    /** `checkWin`: the game is won once the scan finds every cell without a mine revealed. */
    method CheckWin()
      requires IsBoard(grid) && IsBoard(revealed)
      modifies this
      ensures grid == old(grid) && revealed == old(revealed) && flagged == old(flagged)
      ensures gameWon == (old(gameWon) || AllClear(grid, revealed))
      ensures gameOver == old(gameOver) && gameStarted == old(gameStarted)
    {
      var clear := ScanClear(grid, revealed);
      if clear {
        gameWon := true;
      }
    }

    /** `toggleFlag`: only a hidden cell, and only while the game is undecided, changes its flag. */
    method ToggleFlag(row: int, col: int)
      requires Valid() && gameStarted && InGrid(row, col)
      modifies this
      ensures Valid()
      ensures grid == old(grid) && revealed == old(revealed) && gameOver == old(gameOver) && gameWon == old(gameWon)
      ensures !old(revealed[row][col]) && !gameOver && !gameWon ==>
        flagged == old(flagged)[row := old(flagged)[row][col := !old(flagged)[row][col]]]
      ensures old(revealed[row][col]) || gameOver || gameWon ==> flagged == old(flagged)
    {
      if revealed[row][col] || gameOver || gameWon {
        return;
      }
      flagged := flagged[row := flagged[row][col := !flagged[row][col]]];
    }
  }

  /**
   * The reveal of one cell: the cell itself is the first stage, the spread
   * around it the second; together they are a safe, closed flood.
   */
  lemma FirstStage(g: seq<seq<CellState>>, fl: seq<seq<bool>>, a: seq<seq<bool>>, first: seq<seq<bool>>, d: seq<seq<bool>>, row: int, col: int)
    requires IsBoard(g) && IsBoard(fl) && IsBoard(a) && IsBoard(d) && InGrid(row, col)
    requires !a[row][col] && !fl[row][col] && !g[row][col].Mine? && first == a[row := a[row][col := true]]
    requires Grows(first, d) && NewCellsSafe(g, fl, first, d) && Closed(g, fl, first, d)
    requires g[row][col] == Empty ==> NeighboursDone(fl, d, row, col)
    ensures Grows(a, d) && NewCellsSafe(g, fl, a, d) && Closed(g, fl, a, d)
  {
  }
}

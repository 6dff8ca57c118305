/**
 * Match-3 on an 8×8 grid of gem kinds 0..4.  Tapping a gem selects it;
 * tapping an orthogonal neighbour swaps the two, after which every gem lying
 * in a horizontal run of three equal gems scores 10 and is replaced by a
 * random kind.  The random kinds are an input grid `newGems`, read at the
 * replaced cells; the set of `"r,c"` strings of the source is a set of pairs.
 */
module Match3 {
  import opened Wrappers

  const Size := 8
  const Kinds := 5
  const PointsPerGem := 10

  predicate InGrid(p: (int, int)) {
    0 <= p.0 < Size && 0 <= p.1 < Size
  }

  predicate IsGrid(g: seq<seq<int>>) {
    |g| == Size && forall r :: 0 <= r < Size ==> |g[r]| == Size
  }

  /** Every cell holds one of the five gem kinds. */
  predicate GemsInRange(g: seq<seq<int>>)
    requires IsGrid(g)
  {
    forall r, c :: 0 <= r < Size && 0 <= c < Size ==> 0 <= g[r][c] < Kinds
  }

  function Abs(x: int): nat {
    if x < 0 then -x else x
  }

  /** Orthogonal neighbours: Manhattan distance one. */
  predicate Adjacent(a: (int, int), b: (int, int)) {
    Abs(a.0 - b.0) + Abs(a.1 - b.1) == 1
  }

  /** The grid with the gems at `a` and `b` exchanged. */
  function Swapped(g: seq<seq<int>>, a: (int, int), b: (int, int)): seq<seq<int>>
    requires IsGrid(g) && InGrid(a) && InGrid(b)
  {
    seq(Size, r requires 0 <= r < Size => seq(Size, c requires 0 <= c < Size =>
      if (r, c) == a then g[b.0][b.1] else if (r, c) == b then g[a.0][a.1] else g[r][c]))
  }

  /** Three equal gems start at column s of row r. */
  predicate Run(g: seq<seq<int>>, r: int, s: int)
    requires IsGrid(g) && 0 <= r < Size && 0 <= s <= Size - 3
  {
    g[r][s] == g[r][s + 1] && g[r][s] == g[r][s + 2]
  }

  /** The cells of row r covered by runs starting before column n. */
  function RowRuns(g: seq<seq<int>>, r: int, n: int): set<(int, int)>
    requires IsGrid(g) && 0 <= r < Size && 0 <= n <= Size - 2
  {
    if n == 0 then {}
    else RowRuns(g, r, n - 1) + (if Run(g, r, n - 1) then {(r, n - 1), (r, n), (r, n + 1)} else {})
  }

  /** The cells covered by runs in rows before m. */
  function RunsBefore(g: seq<seq<int>>, m: int): set<(int, int)>
    requires IsGrid(g) && 0 <= m <= Size
  {
    if m == 0 then {} else RunsBefore(g, m - 1) + RowRuns(g, m - 1, Size - 2)
  }

  /** The cells `checkMatches` collects. */
  function Matched(g: seq<seq<int>>): set<(int, int)>
    requires IsGrid(g)
  {
    RunsBefore(g, Size)
  }

  /** The grid with the cells of `cells` replaced by the new kinds. */
  function Refilled(g: seq<seq<int>>, cells: set<(int, int)>, newGems: seq<seq<int>>): seq<seq<int>>
    requires IsGrid(g) && IsGrid(newGems)
  {
    seq(Size, r requires 0 <= r < Size => seq(Size, c requires 0 <= c < Size =>
      if (r, c) in cells then newGems[r][c] else g[r][c]))
  }

  lemma {:induction false} RowRunsMember(g: seq<seq<int>>, r: int, n: int, x: (int, int))
    requires IsGrid(g) && 0 <= r < Size && 0 <= n <= Size - 2
    ensures x in RowRuns(g, r, n) <==> x.0 == r && exists s :: 0 <= s < n && Run(g, r, s) && s <= x.1 <= s + 2
  {
    if n > 0 {
      RowRunsMember(g, r, n - 1, x);
    }
  }

  lemma {:induction false} RunsBeforeMember(g: seq<seq<int>>, m: int, x: (int, int))
    requires IsGrid(g) && 0 <= m <= Size
    ensures x in RunsBefore(g, m) <==> 0 <= x.0 < m && x in RowRuns(g, x.0, Size - 2)
  {
    if m > 0 {
      RunsBeforeMember(g, m - 1, x);
      RowRunsMember(g, m - 1, Size - 2, x);
    }
  }

  /**
   * A cell is matched exactly when it lies in a horizontal run of three equal
   * gems; vertical runs are not looked for.
   */
  lemma MatchedMeaning(g: seq<seq<int>>, x: (int, int))
    requires IsGrid(g)
    ensures x in Matched(g) <==> 0 <= x.0 < Size && exists s :: 0 <= s <= Size - 3 && Run(g, x.0, s) && s <= x.1 <= s + 2
    ensures x in Matched(g) ==> InGrid(x)
  {
    RunsBeforeMember(g, Size, x);
    if 0 <= x.0 < Size {
      RowRunsMember(g, x.0, Size - 2, x);
    }
  }

  /** Swapping the same two gems again restores the grid. */
  lemma SwapTwiceRestores(g: seq<seq<int>>, a: (int, int), b: (int, int))
    requires IsGrid(g) && InGrid(a) && InGrid(b)
    ensures Swapped(Swapped(g, a, b), a, b) == g
  {
    var h := Swapped(Swapped(g, a, b), a, b);
    forall r | 0 <= r < Size
      ensures h[r] == g[r]
    {
    }
  }

  /** Two cell writes, each gem put where the other was, make the swapped grid; the gems stay in range. */
  lemma SwapByWrites(g: seq<seq<int>>, a: (int, int), b: (int, int))
    requires IsGrid(g) && GemsInRange(g) && InGrid(a) && InGrid(b)
    ensures var h := g[a.0 := g[a.0][a.1 := g[b.0][b.1]]];
      h[b.0 := h[b.0][b.1 := g[a.0][a.1]]] == Swapped(g, a, b)
    ensures IsGrid(Swapped(g, a, b)) && GemsInRange(Swapped(g, a, b))
  {
    var h := g[a.0 := g[a.0][a.1 := g[b.0][b.1]]];
    var k := h[b.0 := h[b.0][b.1 := g[a.0][a.1]]];
    forall r | 0 <= r < Size
      ensures k[r] == Swapped(g, a, b)[r]
    {
    }
  }

  /** A grid with no run is left as it is. */
  lemma NoRunNoChange(g: seq<seq<int>>, newGems: seq<seq<int>>)
    requires IsGrid(g) && IsGrid(newGems) && Matched(g) == {}
    ensures Refilled(g, Matched(g), newGems) == g
  {
    var h := Refilled(g, Matched(g), newGems);
    forall r | 0 <= r < Size
      ensures h[r] == g[r]
    {
    }
  }

  class Match3Game {
    var grid: seq<seq<int>>
    var score: int
    var selected: Option<(int, int)>

    /** An 8×8 grid of gem kinds, a selection inside it, and a score made of whole gems. */
    predicate Valid()
      reads this
    {
      IsGrid(grid) && GemsInRange(grid) && (selected.Some? ==> InGrid(selected.value)) && score % PointsPerGem == 0
    }

    constructor()
      ensures Valid()
      ensures grid == seq(Size, _ => seq(Size, _ => 0)) && score == 0 && selected == None
    {
      grid := seq(Size, _ => seq(Size, _ => 0));
      score := 0;
      selected := None;
    }

    /** `fillGrid`: every cell, row by row, takes its drawn gem kind; the drawn board is an input. */
    method FillGrid(board: seq<seq<int>>)
      requires Valid() && IsGrid(board) && GemsInRange(board)
      modifies this
      ensures Valid()
      ensures grid == board && score == old(score) && selected == old(selected)
    {
      var r := 0;
      while r < Size
        invariant 0 <= r <= Size && IsGrid(grid)
        invariant grid[..r] == board[..r]
        invariant score == old(score) && selected == old(selected)
      {
        var c := 0;
        while c < Size
          invariant 0 <= c <= Size && IsGrid(grid)
          invariant grid[..r] == board[..r] && grid[r][..c] == board[r][..c]
          invariant score == old(score) && selected == old(selected)
        {
          grid := grid[r := grid[r][c := board[r][c]]];
          c := c + 1;
        }
        assert grid[r] == grid[r][..Size] && board[r] == board[r][..Size];
        assert grid[..r + 1] == grid[..r] + [grid[r]] && board[..r + 1] == board[..r] + [board[r]];
        r := r + 1;
      }
      assert grid == grid[..Size];
    }

    /**
     * `selectGem`: a first tap selects; a second tap on an orthogonal
     * neighbour swaps and scores the runs, any other second tap only drops the
     * selection.
     */
    method SelectGem(r: int, c: int, newGems: seq<seq<int>>)
      requires Valid() && InGrid((r, c)) && IsGrid(newGems) && GemsInRange(newGems)
      modifies this
      ensures Valid()
      ensures old(selected) == None ==> selected == Some((r, c)) && grid == old(grid) && score == old(score)
      ensures old(selected).Some? && Adjacent(old(selected).value, (r, c)) ==>
        var s := Swapped(old(grid), old(selected).value, (r, c));
        grid == Refilled(s, Matched(s), newGems) && score == old(score) + PointsPerGem * |Matched(s)| && selected == None
      ensures old(selected).Some? && !Adjacent(old(selected).value, (r, c)) ==>
        grid == old(grid) && score == old(score) && selected == None
    {
      if selected.Some? {
        var sel := selected.value;
        if Abs(sel.0 - r) + Abs(sel.1 - c) == 1 {
          SwapCells(sel, (r, c));
          CheckMatches(newGems);
        }
        selected := None;
      } else {
        selected := Some((r, c));
      }
    }

    /** The two gems change places; nothing else changes. */
    method SwapCells(a: (int, int), b: (int, int))
      requires Valid() && InGrid(a) && InGrid(b)
      modifies this
      ensures Valid()
      ensures grid == Swapped(old(grid), a, b) && score == old(score) && selected == old(selected)
    {
      SwapByWrites(grid, a, b);
      var x := grid[a.0][a.1];
      var y := grid[b.0][b.1];
      grid := grid[a.0 := grid[a.0][a.1 := y]];
      grid := grid[b.0 := grid[b.0][b.1 := x]];
    }

    /**
     * `checkMatches`: every horizontal run is collected, row by row; each
     * collected cell scores 10 and takes a new kind.
     */
    method CheckMatches(newGems: seq<seq<int>>)
      requires Valid() && IsGrid(newGems) && GemsInRange(newGems)
      modifies this
      ensures Valid()
      ensures grid == Refilled(old(grid), Matched(old(grid)), newGems)
      ensures score == old(score) + PointsPerGem * |Matched(old(grid))| && selected == old(selected)
    {
      var matched := CollectRuns();
      if matched != {} {
        forall x | x in matched
          ensures InGrid(x)
        {
          MatchedMeaning(grid, x);
        }
        score := score + |matched| * PointsPerGem;
        RefillCells(matched, newGems);
      } else {
        NoRunNoChange(grid, newGems);
      }
    }

    /** The nested scan of `checkMatches` over rows and starting columns. */
    method CollectRuns() returns (matched: set<(int, int)>)
      requires IsGrid(grid)
      ensures matched == Matched(grid)
    {
      matched := {};
      var r := 0;
      while r < Size
        invariant 0 <= r <= Size
        invariant matched == RunsBefore(grid, r)
      {
        var c := 0;
        while c <= Size - 3
          invariant 0 <= c <= Size - 2
          invariant matched == RunsBefore(grid, r) + RowRuns(grid, r, c)
        {
          if grid[r][c] == grid[r][c + 1] && grid[r][c] == grid[r][c + 2] {
            matched := matched + {(r, c), (r, c + 1), (r, c + 2)};
          }
          c := c + 1;
        }
        r := r + 1;
      }
    }

    /** Each collected cell takes its newGems kind; the order of the writes does not matter. */
    method RefillCells(matched: set<(int, int)>, newGems: seq<seq<int>>)
      requires Valid() && IsGrid(newGems) && GemsInRange(newGems) && forall x :: x in matched ==> InGrid(x)
      modifies this
      ensures Valid()
      ensures grid == Refilled(old(grid), matched, newGems) && score == old(score) && selected == old(selected)
    {
      var todo := matched;
      while todo != {}
        invariant todo <= matched
        invariant IsGrid(grid) && GemsInRange(grid) && score == old(score) && selected == old(selected)
        invariant forall i, j :: 0 <= i < Size && 0 <= j < Size ==>
          grid[i][j] == if (i, j) in matched - todo then newGems[i][j] else old(grid)[i][j]
        decreases |todo|
      {
        var p :| p in todo;
        grid := grid[p.0 := grid[p.0][p.1 := newGems[p.0][p.1]]];
        todo := todo - {p};
      }
      forall i | 0 <= i < Size
        ensures grid[i] == Refilled(old(grid), matched, newGems)[i]
      {
      }
    }
  }
}

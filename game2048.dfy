/**
 * 2048 on a 4x4 grid of integers (0 = empty cell).  A move reads each of the
 * four lines in the chosen direction, compacts its non-zero tiles, merges
 * equal neighbours once from the leading edge, pads with zeros and writes the
 * line back; if anything changed, a random tile is added and the game-over
 * test runs.  The random cell and the 2-or-4 choice are inputs.
 */
module Game2048 {

  datatype Direction = Up | Down | Left | Right

  predicate InRange(r: int, c: int) {
    0 <= r < 4 && 0 <= c < 4
  }

  /** `coords(dir, i, j)`: the cell of the j-th position of line i. */
  function Coords(dir: Direction, i: int, j: int): (int, int) {
    match dir
    case Up => (j, i)
    case Down => (3 - j, i)
    case Left => (i, j)
    case Right => (i, 3 - j)
  }

  /** The line and position a cell belongs to: the inverse of `Coords`. */
  function LinePosition(dir: Direction, r: int, c: int): (int, int) {
    match dir
    case Up => (c, r)
    case Down => (c, 3 - r)
    case Left => (r, c)
    case Right => (r, 3 - c)
  }

  /** Position j of line i is a cell, and `LinePosition` maps it back. */
  lemma CoordsInverse(dir: Direction, i: int, j: int)
    requires InRange(i, j)
    ensures InRange(Coords(dir, i, j).0, Coords(dir, i, j).1)
    ensures LinePosition(dir, Coords(dir, i, j).0, Coords(dir, i, j).1) == (i, j)
  {
  }

  /** Every cell lies on some line, at a position `Coords` maps back to it. */
  lemma LinePositionInverse(dir: Direction, r: int, c: int)
    requires InRange(r, c)
    ensures InRange(LinePosition(dir, r, c).0, LinePosition(dir, r, c).1)
    ensures Coords(dir, LinePosition(dir, r, c).0, LinePosition(dir, r, c).1) == (r, c)
  {
  }

  predicate IsGrid(g: seq<seq<int>>) {
    |g| == 4 && forall r :: 0 <= r < 4 ==> |g[r]| == 4
  }

  /** A grid as the game keeps it: 4x4, no negative tile. */
  predicate IsBoard(g: seq<seq<int>>) {
    IsGrid(g) && forall r, c :: 0 <= r < 4 && 0 <= c < 4 ==> g[r][c] >= 0
  }

  function EmptyGrid(): (g: seq<seq<int>>)
    ensures IsBoard(g)
  {
    [[0, 0, 0, 0], [0, 0, 0, 0], [0, 0, 0, 0], [0, 0, 0, 0]]
  }

  /** Line i read in direction `dir`, leading edge first. */
  function LineOf(g: seq<seq<int>>, dir: Direction, i: int): (line: seq<int>)
    requires IsGrid(g) && 0 <= i < 4
    ensures |line| == 4
  {
    [Cell(g, dir, i, 0), Cell(g, dir, i, 1), Cell(g, dir, i, 2), Cell(g, dir, i, 3)]
  }

  /** The tile at position j of line i. */
  function Cell(g: seq<seq<int>>, dir: Direction, i: int, j: int): int
    requires IsGrid(g) && InRange(i, j)
  {
    CoordsInverse(dir, i, j);
    var p := Coords(dir, i, j);
    g[p.0][p.1]
  }

  // ------------------------------------------------------------ line rules

  function Sum(s: seq<int>): int {
    if |s| == 0 then 0 else s[0] + Sum(s[1..])
  }

  /** The non-zero tiles of a line, in order. */
  function Compact(s: seq<int>): (c: seq<int>)
    ensures |c| <= |s|
  {
    if |s| == 0 then []
    else Compact(s[..|s| - 1]) + (if s[|s| - 1] != 0 then [s[|s| - 1]] else [])
  }

  /**
   * Equal neighbours merge from the leading edge, each tile at most once:
   * every resulting tile consumes one or two input tiles.
   */
  function Merge(s: seq<int>): (m: seq<int>)
    ensures |m| <= |s| <= 2 * |m|
  {
    if |s| < 2 then s
    else if s[0] == s[1] then [2 * s[0]] + Merge(s[2..])
    else [s[0]] + Merge(s[1..])
  }

  /** The points a merge earns: the value of every tile it creates. */
  function MergeGain(s: seq<int>): int {
    if |s| < 2 then 0
    else if s[0] == s[1] then 2 * s[0] + MergeGain(s[2..])
    else MergeGain(s[1..])
  }

  function Zeros(n: nat): (z: seq<int>)
    ensures |z| == n
  {
    if n == 0 then [] else Zeros(n - 1) + [0]
  }

  /** A whole line after a move: compacted, merged, padded back to 4. */
  function SlideLine(s: seq<int>): (t: seq<int>)
    requires |s| == 4
    ensures |t| == 4
  {
    var m := Merge(Compact(s));
    m + Zeros(4 - |m|)
  }

  function LineGain(g: seq<seq<int>>, dir: Direction, i: int): int
    requires IsGrid(g) && 0 <= i < 4
  {
    MergeGain(Compact(LineOf(g, dir, i)))
  }

  /** Points earned by the first n lines of a move. */
  function TotalGain(g: seq<seq<int>>, dir: Direction, n: nat): int
    requires IsGrid(g) && n <= 4
  {
    if n == 0 then 0 else TotalGain(g, dir, n - 1) + LineGain(g, dir, n - 1)
  }

  /** The grid after a move, before the new random tile: every line slid in place. */
  function SlideGrid(g: seq<seq<int>>, dir: Direction): (h: seq<seq<int>>)
    requires IsGrid(g)
    ensures IsGrid(h)
  {
    SlidePrefix(g, dir, 4)
  }

  /** No empty cell and no two equal neighbours in a row or column. */
  predicate NoMoves(g: seq<seq<int>>)
    requires IsGrid(g)
  {
    forall r, c :: 0 <= r < 4 && 0 <= c < 4 ==>
      g[r][c] != 0 && (r < 3 ==> g[r][c] != g[r + 1][c]) && (c < 3 ==> g[r][c] != g[r][c + 1])
  }

  // ------------------------------------------------------------ random tile

  /** The empty cells among the first k cells in row-major order. */
  function EmptyPrefix(g: seq<seq<int>>, k: nat): (e: seq<(int, int)>)
    requires IsGrid(g) && k <= 16
    ensures |e| <= k
    ensures forall n :: 0 <= n < |e| ==> InRange(e[n].0, e[n].1) && 4 * e[n].0 + e[n].1 < k
  {
    if k == 0 then []
    else EmptyPrefix(g, k - 1) + (if g[(k - 1) / 4][(k - 1) % 4] == 0 then [((k - 1) / 4, (k - 1) % 4)] else [])
  }

  function EmptyCells(g: seq<seq<int>>): seq<(int, int)>
    requires IsGrid(g)
  {
    EmptyPrefix(g, 16)
  }

  /** `addRandomTile`: the chosen empty cell (any index modulo the count) gets a 2 or a 4. */
  function PlaceTile(g: seq<seq<int>>, pick: nat, isTwo: bool): (h: seq<seq<int>>)
    requires IsGrid(g)
    ensures IsGrid(h)
  {
    var e := EmptyCells(g);
    if |e| == 0 then g
    else
      var p := e[pick % |e|];
      g[p.0 := g[p.0][p.1 := if isTwo then 2 else 4]]
  }

  /** Cell (r, c) is the (4r + c)-th cell in row-major order. */
  lemma EmptyPrefixStep(g: seq<seq<int>>, r: int, c: int)
    requires IsGrid(g) && InRange(r, c)
    ensures EmptyPrefix(g, 4 * r + c + 1) == EmptyPrefix(g, 4 * r + c) + (if g[r][c] == 0 then [(r, c)] else [])
  {
    RowMajor(r, c);
  }

  lemma RowMajor(r: int, c: int)
    requires InRange(r, c)
    ensures (4 * r + c) / 4 == r && (4 * r + c) % 4 == c
  {
    var k := 4 * r + c;
    assert 4 * r <= k < 4 * r + 4;
  }

  /** The scan of `addRandomTile`: the empty cells, row by row. */
  method CollectEmpty(g: seq<seq<int>>) returns (empty: seq<(int, int)>)
    requires IsGrid(g)
    ensures empty == EmptyCells(g)
  {
    empty := [];
    var r := 0;
    while r < 4
      invariant 0 <= r <= 4
      invariant empty == EmptyPrefix(g, 4 * r)
    {
      var c := 0;
      while c < 4
        invariant 0 <= c <= 4
        invariant empty == EmptyPrefix(g, 4 * r + c)
      {
        EmptyPrefixStep(g, r, c);
        if g[r][c] == 0 {
          empty := empty + [(r, c)];
        }
        c := c + 1;
      }
      r := r + 1;
    }
  }

  // ------------------------------------------------------------ the game

  class Game {
    var grid: seq<seq<int>>
    var score: int
    var gameOver: bool
    var gameStarted: bool

    predicate Valid()
      reads this
    {
      IsBoard(grid)
    }

    constructor()
      ensures Valid() && grid == EmptyGrid() && score == 0 && !gameOver && !gameStarted
    {
      grid := EmptyGrid();
      score := 0;
      gameOver := false;
      gameStarted := false;
    }

    /** `startGame`: an empty grid with two random tiles. */
    method StartGame(pick1: nat, isTwo1: bool, pick2: nat, isTwo2: bool)
      modifies this
      ensures Valid()
      ensures grid == PlaceTile(PlaceTile(EmptyGrid(), pick1, isTwo1), pick2, isTwo2)
      ensures score == 0 && !gameOver && gameStarted
    {
      grid := EmptyGrid();
      score := 0;
      gameOver := false;
      gameStarted := true;
      AddRandomTile(pick1, isTwo1);
      AddRandomTile(pick2, isTwo2);
    }

    method AddRandomTile(pick: nat, isTwo: bool)
      requires Valid()
      modifies this
      ensures Valid()
      ensures grid == PlaceTile(old(grid), pick, isTwo)
      ensures score == old(score) && gameOver == old(gameOver) && gameStarted == old(gameStarted)
    {
      var empty := CollectEmpty(grid);
      if |empty| == 0 {
        return;
      }
      var pos := empty[pick % |empty|];
      PlaceTileKeepsBoard(grid, pick, isTwo);
      grid := grid[pos.0 := grid[pos.0][pos.1 := if isTwo then 2 else 4]];
    }

    /** `checkGameOver`: the scan returns early at the first empty cell or equal pair. */
    method CheckGameOver()
      requires Valid()
      modifies this
      ensures Valid() && grid == old(grid) && score == old(score) && gameStarted == old(gameStarted)
      ensures gameOver == (old(gameOver) || NoMoves(grid))
    {
      var r := 0;
      while r < 4
        invariant 0 <= r <= 4
        invariant forall r', c' :: 0 <= r' < r && 0 <= c' < 4 ==>
          grid[r'][c'] != 0 && (r' < 3 ==> grid[r'][c'] != grid[r' + 1][c']) && (c' < 3 ==> grid[r'][c'] != grid[r'][c' + 1])
      {
        var c := 0;
        while c < 4
          invariant 0 <= c <= 4
          invariant forall r', c' :: 0 <= r' < 4 && 0 <= c' < 4 && (r' < r || (r' == r && c' < c)) ==>
            grid[r'][c'] != 0 && (r' < 3 ==> grid[r'][c'] != grid[r' + 1][c']) && (c' < 3 ==> grid[r'][c'] != grid[r'][c' + 1])
        {
          if grid[r][c] == 0 {
            assert !NoMoves(grid);
            return;
          }
          if r < 3 && grid[r][c] == grid[r + 1][c] {
            assert !NoMoves(grid);
            return;
          }
          if c < 3 && grid[r][c] == grid[r][c + 1] {
            assert !NoMoves(grid);
            return;
          }
          c := c + 1;
        }
        r := r + 1;
      }
      assert NoMoves(grid);
      gameOver := true;
    }

    /**
     * `move`: every line is slid into a copy of the grid; the score grows by
     * every merge; only when something moved is the copy installed, a tile
     * added and the game-over test run.
     */
    method Move(dir: Direction, pick: nat, isTwo: bool)
      requires Valid()
      modifies this
      ensures Valid() && gameStarted == old(gameStarted)
      ensures score == old(score) + TotalGain(old(grid), dir, 4)
      ensures SlideGrid(old(grid), dir) == old(grid) && TotalGain(old(grid), dir, 4) == 0 ==>
        grid == old(grid) && gameOver == old(gameOver)
      ensures SlideGrid(old(grid), dir) != old(grid) || TotalGain(old(grid), dir, 4) != 0 ==>
        grid == PlaceTile(SlideGrid(old(grid), dir), pick, isTwo) && gameOver == (old(gameOver) || NoMoves(grid))
    {
      var newGrid, moved := SlideLines(dir);
      if moved {
        SlideGridIsBoard(grid, dir);
        grid := newGrid;
        AddRandomTile(pick, isTwo);
        CheckGameOver();
      }
    }

    /** The outer loop of `move`: every line slid into a copy of the grid. */
    method SlideLines(dir: Direction) returns (newGrid: seq<seq<int>>, moved: bool)
      requires Valid()
      modifies this
      ensures grid == old(grid) && gameOver == old(gameOver) && gameStarted == old(gameStarted)
      ensures newGrid == SlideGrid(grid, dir)
      ensures score == old(score) + TotalGain(grid, dir, 4)
      ensures moved <==> (newGrid != grid || TotalGain(grid, dir, 4) != 0)
    {
      moved := false;
      newGrid := grid;
      ghost var g := grid;
      ghost var changedAny := false;

      var i := 0;
      while i < 4
        invariant 0 <= i <= 4 && grid == g && IsBoard(g)
        invariant gameOver == old(gameOver) && gameStarted == old(gameStarted)
        invariant newGrid == SlidePrefix(g, dir, i)
        invariant score == old(score) + TotalGain(g, dir, i)
        invariant changedAny ==> newGrid != g
        invariant !changedAny ==> newGrid == g
        invariant moved <==> (score > old(score) || changedAny)
      {
        TotalGainNonNegative(g, dir, i);
        LineGainNonNegative(g, dir, i);
        var next, mergedAny, changed := SlideLineInto(g, newGrid, dir, i);
        if mergedAny {
          moved := true;
        }
        if changed {
          moved := true;
          changedAny := true;
        }
        newGrid := next;
        i := i + 1;
      }
      TotalGainNonNegative(g, dir, 4);
    }

    /**
     * One pass of the outer loop of `move`: read line i, merge it (scoring as
     * it goes), pad it and write it into the copy.
     */
    method SlideLineInto(ghost g: seq<seq<int>>, newGrid: seq<seq<int>>, dir: Direction, i: int)
      returns (next: seq<seq<int>>, mergedAny: bool, changed: bool)
      requires Valid() && grid == g && 0 <= i < 4 && newGrid == SlidePrefix(g, dir, i)
      modifies this
      ensures grid == old(grid) && gameOver == old(gameOver) && gameStarted == old(gameStarted)
      ensures next == SlidePrefix(g, dir, i + 1)
      ensures score == old(score) + LineGain(g, dir, i)
      ensures mergedAny <==> score > old(score)
      ensures changed ==> next != g
      ensures !changed ==> next == newGrid
    {
      var line := ReadLine(dir, i);
      CompactOfBoardLine(grid, dir, i);
      var merged;
      merged, mergedAny := MergeLine(line);
      var padded := PadLine(merged);
      assert padded == SlideLine(LineOf(g, dir, i));
      next, changed := WriteLine(g, newGrid, dir, i, padded);
    }

    /** The first loop of `move`: the non-zero tiles of line i, in order. */
    method ReadLine(dir: Direction, i: int) returns (line: seq<int>)
      requires Valid() && 0 <= i < 4
      ensures line == Compact(LineOf(grid, dir, i))
    {
      ghost var src := LineOf(grid, dir, i);
      line := [];
      var j := 0;
      while j < 4
        invariant 0 <= j <= 4
        invariant line == Compact(src[..j])
      {
        CoordsInverse(dir, i, j);
        var cell := Coords(dir, i, j);
        assert src[..j + 1][..j] == src[..j];
        if grid[cell.0][cell.1] != 0 {
          line := line + [grid[cell.0][cell.1]];
        }
        j := j + 1;
      }
      assert src[..4] == src;
    }

    /** The second loop of `move`, run over the compacted line; its merge points go to the score. */
    method MergeLine(line: seq<int>) returns (merged: seq<int>, mergedAny: bool)
      requires forall k :: 0 <= k < |line| ==> line[k] > 0
      modifies this
      ensures merged == Merge(line)
      ensures score == old(score) + MergeGain(line)
      ensures mergedAny <==> score > old(score)
      ensures grid == old(grid) && gameOver == old(gameOver) && gameStarted == old(gameStarted)
    {
      var gain;
      merged, gain, mergedAny := MergeRun(line);
      score := score + gain;
    }
  }

  /**
   * Part-way through the second loop of `move`: the first idx tiles are
   * read (one more when the next is to be skipped), and `merged` and `gain`
   * are what the merge makes of them.
   */
  ghost predicate MergeLoop(line: seq<int>, idx: int, skip: bool, merged: seq<int>, gain: int, mergedAny: bool) {
    0 <= idx <= |line| && (skip ==> idx < |line|) &&
    MergedSoFar(line, if skip then idx + 1 else idx, merged, gain) &&
    gain >= 0 && (mergedAny <==> gain > 0)
  }

  /** One pass of the second loop of `move`, at tile idx. */
  method MergeTile(line: seq<int>, idx: int, skip: bool, merged: seq<int>, gain: int, mergedAny: bool)
    returns (skip': bool, merged': seq<int>, gain': int, mergedAny': bool)
    requires forall k :: 0 <= k < |line| ==> line[k] > 0
    requires idx < |line| && MergeLoop(line, idx, skip, merged, gain, mergedAny)
    ensures MergeLoop(line, idx + 1, skip', merged', gain', mergedAny')
  {
    skip', merged', gain', mergedAny' := skip, merged, gain, mergedAny;
    var val := line[idx];
    if skip {
      skip' := false;
    } else if idx < |line| - 1 && val == line[idx + 1] {
      MergePairStep(line, idx, merged, gain);
      merged' := merged + [val * 2];
      gain' := gain + val * 2;
      skip' := true;
      mergedAny' := true;
    } else {
      MergeSingleStep(line, idx, merged, gain);
      merged' := merged + [val];
    }
  }

  /**
   * The second loop of `move`: a tile equal to the next one is merged and
   * the next one skipped; each merge adds its value to the gain.
   */
  method MergeRun(line: seq<int>) returns (merged: seq<int>, gain: int, mergedAny: bool)
    requires forall k :: 0 <= k < |line| ==> line[k] > 0
    ensures merged == Merge(line) && gain == MergeGain(line)
    ensures mergedAny <==> gain > 0
  {
    merged := [];
    gain := 0;
    mergedAny := false;
    var skip := false;
    var idx := 0;
    while idx < |line|
      invariant MergeLoop(line, idx, skip, merged, gain, mergedAny)
    {
      skip, merged, gain, mergedAny := MergeTile(line, idx, skip, merged, gain, mergedAny);
      idx := idx + 1;
    }
    MergedAll(line, merged, gain);
  }

  /** `newGrid` after the first j writes of the last loop of `move` along line i. */
  function WriteCells(h: seq<seq<int>>, dir: Direction, i: int, merged: seq<int>, j: int): (h': seq<seq<int>>)
    requires IsGrid(h) && 0 <= i < 4 && |merged| == 4 && 0 <= j <= 4
    ensures IsGrid(h')
    decreases j
  {
    if j == 0 then h
    else
      var prev := WriteCells(h, dir, i, merged, j - 1);
      CoordsInverse(dir, i, j - 1);
      var cell := Coords(dir, i, j - 1);
      prev[cell.0 := prev[cell.0][cell.1 := merged[j - 1]]]
  }

  /** The grid part-way through a move: lines before n slid, the rest as they were. */
  function SlidePrefix(g: seq<seq<int>>, dir: Direction, n: int): (h: seq<seq<int>>)
    requires IsGrid(g) && 0 <= n <= 4
    ensures IsGrid(h)
  {
    if n == 0 then g
    else
      var line := SlideLine(LineOf(g, dir, n - 1));
      WriteCells(SlidePrefix(g, dir, n - 1), dir, n - 1, line, |line|)
  }

  /** The padding loop of `move`: zeros up to four tiles. */
  method PadLine(merged: seq<int>) returns (padded: seq<int>)
    requires |merged| <= 4
    ensures padded == merged + Zeros(4 - |merged|)
  {
    padded := merged;
    while |padded| < 4
      invariant |merged| <= |padded| <= 4
      invariant padded == merged + Zeros(|padded| - |merged|)
    {
      padded := padded + [0];
    }
  }

  /**
   * The last loop of `move`: the padded line is written back along line i of
   * the copy; `changed` records whether any written cell differed.
   */
  method WriteLine(ghost g: seq<seq<int>>, newGrid: seq<seq<int>>, dir: Direction, i: int, merged: seq<int>)
    returns (next: seq<seq<int>>, changed: bool)
    requires IsGrid(g) && 0 <= i < 4
    requires newGrid == SlidePrefix(g, dir, i) && merged == SlideLine(LineOf(g, dir, i))
    ensures next == WriteCells(newGrid, dir, i, merged, |merged|) == SlidePrefix(g, dir, i + 1)
    ensures changed ==> next != g
    ensures !changed ==> next == newGrid
  {
    next := newGrid;
    changed := false;
    ghost var wj := 0;
    var j := 0;
    while j < 4
      invariant 0 <= j <= 4
      invariant next == WriteCells(newGrid, dir, i, merged, j)
      invariant changed ==> 0 <= wj < j && Cell(newGrid, dir, i, wj) != merged[wj]
      invariant !changed ==> next == newGrid
    {
      var cell := Coords(dir, i, j);
      WriteStep(newGrid, dir, i, merged, j, next);
      if next[cell.0][cell.1] != merged[j] {
        changed := true;
        wj := j;
      }
      next := next[cell.0 := next[cell.0][cell.1 := merged[j]]];
      j := j + 1;
    }
    if changed {
      WriteCellsCell(newGrid, dir, i, merged, 4, i, wj);
      SlidePrefixCell(g, dir, i, i, wj);
      assert Cell(next, dir, i, wj) != Cell(g, dir, i, wj);
    }
  }

  // ------------------------------------------------------------ helper lemmas

  /** The j-th write along line i: its cell still holds the original tile, and writing an equal value changes nothing. */
  lemma WriteStep(h: seq<seq<int>>, dir: Direction, i: int, merged: seq<int>, j: int, next: seq<seq<int>>)
    requires IsGrid(h) && 0 <= i < 4 && |merged| == 4 && 0 <= j < 4 && next == WriteCells(h, dir, i, merged, j)
    ensures var cell := Coords(dir, i, j);
      InRange(cell.0, cell.1) && next[cell.0][cell.1] == Cell(h, dir, i, j) &&
      WriteCells(h, dir, i, merged, j + 1) == next[cell.0 := next[cell.0][cell.1 := merged[j]]] &&
      (next[cell.0][cell.1] == merged[j] ==> WriteCells(h, dir, i, merged, j + 1) == next)
  {
    CoordsInverse(dir, i, j);
    WriteCellsCell(h, dir, i, merged, j, i, j);
    var cell := Coords(dir, i, j);
    if next[cell.0][cell.1] == merged[j] {
      assert next[cell.0][cell.1 := merged[j]] == next[cell.0];
    }
  }

  /** Compacting keeps only tiles of the line, and no empty ones. */
  lemma {:induction false} CompactElements(s: seq<int>)
    ensures forall k :: 0 <= k < |Compact(s)| ==> Compact(s)[k] != 0 && Compact(s)[k] in s
  {
    if |s| > 0 {
      var init := s[..|s| - 1];
      CompactElements(init);
      assert forall x :: x in init ==> x in s;
    }
  }

  /** Merging positive tiles gives positive tiles. */
  lemma {:induction false} MergePositive(s: seq<int>)
    requires forall k :: 0 <= k < |s| ==> s[k] > 0
    ensures forall k :: 0 <= k < |Merge(s)| ==> Merge(s)[k] > 0
  {
    if |s| >= 2 {
      if s[0] == s[1] {
        MergePositive(s[2..]);
      } else {
        MergePositive(s[1..]);
      }
    }
  }

  lemma {:induction false} ZerosAreZero(n: nat)
    ensures forall k :: 0 <= k < n ==> Zeros(n)[k] == 0
  {
    if n > 0 {
      ZerosAreZero(n - 1);
    }
  }

  lemma {:induction false} TotalGainNonNegative(g: seq<seq<int>>, dir: Direction, n: nat)
    requires IsBoard(g) && n <= 4
    ensures TotalGain(g, dir, n) >= 0
  {
    if n > 0 {
      TotalGainNonNegative(g, dir, n - 1);
      LineGainNonNegative(g, dir, n - 1);
    }
  }

  lemma LineGainNonNegative(g: seq<seq<int>>, dir: Direction, i: int)
    requires IsBoard(g) && 0 <= i < 4
    ensures LineGain(g, dir, i) >= 0
  {
    CompactOfBoardLine(g, dir, i);
    MergeGainCountsMerges(Compact(LineOf(g, dir, i)));
  }

  /** The merge loop's invariant: `merged` and `gain` account for `s[..k]`. */
  predicate MergedSoFar(s: seq<int>, k: int, merged: seq<int>, gain: int)
    requires 0 <= k <= |s|
  {
    merged + Merge(s[k..]) == Merge(s) && gain + MergeGain(s[k..]) == MergeGain(s)
  }

  /** Writing the first j positions of line l: those read `merged`, every other cell is kept. */
  lemma {:induction false} WriteCellsCell(h: seq<seq<int>>, dir: Direction, l: int, merged: seq<int>, j: int, i: int, k: int)
    requires IsGrid(h) && 0 <= l < 4 && |merged| == 4 && 0 <= j <= 4 && InRange(i, k)
    ensures Cell(WriteCells(h, dir, l, merged, j), dir, i, k) == if i == l && k < j then merged[k] else Cell(h, dir, i, k)
  {
    if j > 0 {
      WriteCellsCell(h, dir, l, merged, j - 1, i, k);
      CoordsInverse(dir, l, j - 1);
      CoordsInverse(dir, i, k);
    }
  }

  /** Part-way through a move, the lines before n read slid and the others as they were. */
  lemma {:induction false} SlidePrefixCell(g: seq<seq<int>>, dir: Direction, n: int, i: int, k: int)
    requires IsGrid(g) && 0 <= n <= 4 && InRange(i, k)
    ensures Cell(SlidePrefix(g, dir, n), dir, i, k) == if i < n then SlideLine(LineOf(g, dir, i))[k] else Cell(g, dir, i, k)
  {
    if n > 0 {
      var prev := SlidePrefix(g, dir, n - 1);
      var line := SlideLine(LineOf(g, dir, n - 1));
      assert SlidePrefix(g, dir, n) == WriteCells(prev, dir, n - 1, line, 4);
      SlidePrefixCell(g, dir, n - 1, i, k);
      WriteCellsCell(prev, dir, n - 1, line, 4, i, k);
    }
  }

  /** Two grids that agree on every line, read in any one direction, are equal. */
  lemma SameLinesSameGrid(h: seq<seq<int>>, g: seq<seq<int>>, dir: Direction)
    requires IsGrid(h) && IsGrid(g)
    requires forall i :: 0 <= i < 4 ==> LineOf(h, dir, i) == LineOf(g, dir, i)
    ensures h == g
  {
    forall r | 0 <= r < 4
      ensures h[r] == g[r]
    {
      forall c | 0 <= c < 4
        ensures h[r][c] == g[r][c]
      {
        LinePositionInverse(dir, r, c);
        var p := LinePosition(dir, r, c);
        assert LineOf(h, dir, p.0)[p.1] == LineOf(g, dir, p.0)[p.1];
      }
    }
  }

  /** A grid whose lines hold no negative tile is a board. */
  lemma BoardByLines(h: seq<seq<int>>, dir: Direction)
    requires IsGrid(h)
    requires forall i, k :: 0 <= i < 4 && 0 <= k < 4 ==> LineOf(h, dir, i)[k] >= 0
    ensures IsBoard(h)
  {
    forall r, c | 0 <= r < 4 && 0 <= c < 4
      ensures h[r][c] >= 0
    {
      LinePositionInverse(dir, r, c);
      var p := LinePosition(dir, r, c);
      assert LineOf(h, dir, p.0)[p.1] >= 0;
    }
  }

  lemma LineOfBoard(g: seq<seq<int>>, dir: Direction, i: int)
    requires IsBoard(g) && 0 <= i < 4
    ensures forall k :: 0 <= k < 4 ==> LineOf(g, dir, i)[k] >= 0
  {
    CoordsInverse(dir, i, 0);
    CoordsInverse(dir, i, 1);
    CoordsInverse(dir, i, 2);
    CoordsInverse(dir, i, 3);
  }

  /** One step of the merge loop at position k. */
  /** With the whole line read, the run is the merge. */
  lemma MergedAll(s: seq<int>, merged: seq<int>, gain: int)
    requires MergedSoFar(s, |s|, merged, gain)
    ensures merged == Merge(s) && gain == MergeGain(s)
  {
    assert s[|s|..] == [];
    assert merged + [] == merged;
  }

  /** Two equal tiles next in line merge into one of twice the value. */
  lemma MergePairStep(s: seq<int>, k: int, merged: seq<int>, gain: int)
    requires 0 <= k < |s| - 1 && s[k] == s[k + 1] && MergedSoFar(s, k, merged, gain)
    ensures MergedSoFar(s, k + 2, merged + [2 * s[k]], gain + 2 * s[k])
  {
    var t := s[k..];
    assert t[2..] == s[k + 2..];
    assert merged + [2 * s[k]] + Merge(s[k + 2..]) == merged + ([2 * s[k]] + Merge(s[k + 2..]));
  }

  /** A tile not equal to the next one, or the last, is kept as it is. */
  lemma MergeSingleStep(s: seq<int>, k: int, merged: seq<int>, gain: int)
    requires 0 <= k < |s| && !(k < |s| - 1 && s[k] == s[k + 1]) && MergedSoFar(s, k, merged, gain)
    ensures MergedSoFar(s, k + 1, merged + [s[k]], gain)
  {
    var t := s[k..];
    if k < |s| - 1 {
      assert t[1..] == s[k + 1..];
      assert merged + [s[k]] + Merge(s[k + 1..]) == merged + ([s[k]] + Merge(s[k + 1..]));
    } else {
      assert s[k + 1..] == [];
      assert t == [s[k]];
      assert merged + [s[k]] + Merge(s[k + 1..]) == merged + t;
    }
  }


  lemma CompactOfBoardLine(g: seq<seq<int>>, dir: Direction, i: int)
    requires IsBoard(g) && 0 <= i < 4
    ensures forall k :: 0 <= k < |Compact(LineOf(g, dir, i))| ==> Compact(LineOf(g, dir, i))[k] > 0
  {
    var s := LineOf(g, dir, i);
    LineOfBoard(g, dir, i);
    CompactElements(s);
    forall k | 0 <= k < |Compact(s)|
      ensures Compact(s)[k] > 0
    {
      var x := Compact(s)[k];
      assert x in s;
      var n :| 0 <= n < 4 && s[n] == x;
    }
  }

  lemma SlideLineNonNegative(s: seq<int>)
    requires |s| == 4 && forall k :: 0 <= k < 4 ==> s[k] >= 0
    ensures forall k :: 0 <= k < 4 ==> SlideLine(s)[k] >= 0
  {
    var c := Compact(s);
    CompactElements(s);
    forall k | 0 <= k < |c|
      ensures c[k] > 0
    {
      assert c[k] in s;
    }
    var m := Merge(c);
    MergePositive(c);
    ZerosAreZero(4 - |m|);
    assert SlideLine(s) == m + Zeros(4 - |m|);
  }

  lemma SlideGridIsBoard(g: seq<seq<int>>, dir: Direction)
    requires IsBoard(g)
    ensures IsBoard(SlideGrid(g, dir))
  {
    forall i | 0 <= i < 4
      ensures forall k :: 0 <= k < 4 ==> LineOf(SlideGrid(g, dir), dir, i)[k] >= 0
    {
      LineOfSlideGrid(g, dir, i);
      LineOfBoard(g, dir, i);
      SlideLineNonNegative(LineOf(g, dir, i));
    }
    BoardByLines(SlideGrid(g, dir), dir);
  }

  lemma PlaceTileKeepsBoard(g: seq<seq<int>>, pick: nat, isTwo: bool)
    requires IsBoard(g)
    ensures IsBoard(PlaceTile(g, pick, isTwo))
  {
  }

  // ------------------------------------------------------------ properties

  lemma {:induction false} SumAppend(a: seq<int>, b: seq<int>)
    ensures Sum(a + b) == Sum(a) + Sum(b)
  {
    if |a| > 0 {
      assert (a + b)[1..] == a[1..] + b;
      SumAppend(a[1..], b);
    } else {
      assert a + b == b;
    }
  }

  /** Compacting a line keeps its total. */
  lemma {:induction false} CompactSum(s: seq<int>)
    ensures Sum(Compact(s)) == Sum(s)
  {
    if |s| > 0 {
      var init := s[..|s| - 1];
      var last := s[|s| - 1];
      CompactSum(init);
      SumAppend(Compact(init), if last != 0 then [last] else []);
      assert s == init + [last];
      SumAppend(init, [last]);
    }
  }

  /** Merging a line keeps its total. */
  lemma {:induction false} MergeSum(s: seq<int>)
    ensures Sum(Merge(s)) == Sum(s)
  {
    if |s| >= 2 {
      assert s[1..][1..] == s[2..];
      if s[0] == s[1] {
        MergeSum(s[2..]);
        assert ([2 * s[0]] + Merge(s[2..]))[1..] == Merge(s[2..]);
      } else {
        MergeSum(s[1..]);
        assert ([s[0]] + Merge(s[1..]))[1..] == Merge(s[1..]);
      }
    }
  }

  lemma {:induction false} ZerosSum(n: nat)
    ensures Sum(Zeros(n)) == 0
  {
    if n > 0 {
      ZerosSum(n - 1);
      SumAppend(Zeros(n - 1), [0]);
    }
  }

  /** A line's total is unchanged by a move. */
  lemma SlideLineSum(s: seq<int>)
    requires |s| == 4
    ensures Sum(SlideLine(s)) == Sum(s)
  {
    var m := Merge(Compact(s));
    SumAppend(m, Zeros(4 - |m|));
    ZerosSum(4 - |m|);
    MergeSum(Compact(s));
    CompactSum(s);
  }

  /** Merges earn points exactly when they shorten the line, and never negative ones. */
  lemma {:induction false} MergeGainCountsMerges(s: seq<int>)
    requires forall k :: 0 <= k < |s| ==> s[k] > 0
    ensures MergeGain(s) >= 0
    ensures MergeGain(s) == 0 <==> |Merge(s)| == |s|
  {
    if |s| >= 2 {
      if s[0] == s[1] {
        MergeGainCountsMerges(s[2..]);
      } else {
        MergeGainCountsMerges(s[1..]);
      }
    }
  }

  /** `[2, 2, 4]` becomes `[4, 4, 0, 0]`: the new 4 does not merge again. */
  lemma SlideLineNoDoubleMerge()
    ensures SlideLine([2, 2, 4, 0]) == [4, 4, 0, 0]
  {
    assert [2, 2, 4, 0][..3] == [2, 2, 4] && [2, 2, 4][..2] == [2, 2] && [2, 2][..1] == [2] && [2][..0] == [];
    assert Compact([2, 2, 4, 0]) == [2, 2, 4];
    assert [2, 2, 4][2..] == [4];
  }

  /** Four equal tiles make two merged tiles, pairing from the leading edge. */
  lemma SlideLinePairsFromFront()
    ensures SlideLine([2, 2, 2, 2]) == [4, 4, 0, 0]
  {
    assert [2, 2, 2, 2][..3] == [2, 2, 2] && [2, 2, 2][..2] == [2, 2] && [2, 2][..1] == [2] && [2][..0] == [];
    assert Compact([2, 2, 2, 2]) == [2, 2, 2, 2];
    assert [2, 2, 2, 2][2..] == [2, 2] && [2, 2][2..] == [];
  }

  /** Gaps close before merging. */
  lemma SlideLineClosesGaps()
    ensures SlideLine([0, 2, 0, 2]) == [4, 0, 0, 0]
  {
    assert [0, 2, 0, 2][..3] == [0, 2, 0] && [0, 2, 0][..2] == [0, 2] && [0, 2][..1] == [0] && [0][..0] == [];
    assert Compact([0, 2, 0, 2]) == [2, 2];
    assert [2, 2][2..] == [];
  }

  /** Reading a line of the slid grid gives the slid line. */
  lemma LineOfSlideGrid(g: seq<seq<int>>, dir: Direction, i: int)
    requires IsGrid(g) && 0 <= i < 4
    ensures LineOf(SlideGrid(g, dir), dir, i) == SlideLine(LineOf(g, dir, i))
  {
    var h := SlideGrid(g, dir);
    forall k | 0 <= k < 4
      ensures LineOf(h, dir, i)[k] == SlideLine(LineOf(g, dir, i))[k]
    {
      SlidePrefixCell(g, dir, 4, i, k);
    }
  }

  function GridSum(g: seq<seq<int>>): int
    requires IsGrid(g)
  {
    Sum(g[0]) + Sum(g[1]) + Sum(g[2]) + Sum(g[3])
  }

  lemma Sum4(s: seq<int>)
    requires |s| == 4
    ensures Sum(s) == s[0] + s[1] + s[2] + s[3]
  {
    assert s[3..][1..] == [];
    assert Sum(s[3..]) == s[3];
    assert s[2..][1..] == s[3..];
    assert Sum(s[2..]) == s[2] + s[3];
    assert s[1..][1..] == s[2..];
    assert Sum(s[1..]) == s[1] + s[2] + s[3];
  }

  /** The grid total is the total of its four lines, whichever way they are read. */
  lemma GridSumByLines(g: seq<seq<int>>, dir: Direction)
    requires IsGrid(g)
    ensures GridSum(g) == Sum(LineOf(g, dir, 0)) + Sum(LineOf(g, dir, 1)) + Sum(LineOf(g, dir, 2)) + Sum(LineOf(g, dir, 3))
  {
    Sum4(g[0]); Sum4(g[1]); Sum4(g[2]); Sum4(g[3]);
    Sum4(LineOf(g, dir, 0)); Sum4(LineOf(g, dir, 1)); Sum4(LineOf(g, dir, 2)); Sum4(LineOf(g, dir, 3));
  }

  /** A move, before the random tile, keeps the total of all tiles. */
  lemma SlideGridSum(g: seq<seq<int>>, dir: Direction)
    requires IsGrid(g)
    ensures GridSum(SlideGrid(g, dir)) == GridSum(g)
  {
    var h := SlideGrid(g, dir);
    GridSumByLines(g, dir);
    GridSumByLines(h, dir);
    forall i | 0 <= i < 4
      ensures Sum(LineOf(h, dir, i)) == Sum(LineOf(g, dir, i))
    {
      LineOfSlideGrid(g, dir, i);
      SlideLineSum(LineOf(g, dir, i));
    }
  }

  lemma {:induction false} CompactAppend(a: seq<int>, b: seq<int>)
    ensures Compact(a + b) == Compact(a) + Compact(b)
  {
    if |b| > 0 {
      assert (a + b)[..|a + b| - 1] == a + b[..|b| - 1];
      CompactAppend(a, b[..|b| - 1]);
    } else {
      assert a + b == a;
    }
  }

  lemma {:induction false} CompactOfNonZero(s: seq<int>)
    requires forall k :: 0 <= k < |s| ==> s[k] != 0
    ensures Compact(s) == s
  {
    if |s| > 0 {
      CompactOfNonZero(s[..|s| - 1]);
    }
  }

  lemma {:induction false} CompactOfZeros(n: nat)
    ensures Compact(Zeros(n)) == []
  {
    if n > 0 {
      CompactOfZeros(n - 1);
      assert (Zeros(n - 1) + [0])[..n - 1] == Zeros(n - 1);
    }
  }

  /** A line that a move leaves as it is earns nothing. */
  lemma UnchangedLineEarnsNothing(s: seq<int>)
    requires |s| == 4 && (forall k :: 0 <= k < 4 ==> s[k] >= 0) && SlideLine(s) == s
    ensures MergeGain(Compact(s)) == 0
  {
    var c := Compact(s);
    CompactElements(s);
    forall k | 0 <= k < |c|
      ensures c[k] > 0
    {
      assert c[k] in s;
    }
    var m := Merge(c);
    MergePositive(c);
    CompactAppend(m, Zeros(4 - |m|));
    CompactOfZeros(4 - |m|);
    CompactOfNonZero(m);
    assert SlideLine(s) == m + Zeros(4 - |m|);
    assert m + [] == m;
    assert c == m;
    MergeGainCountsMerges(c);
  }

  /** A move that leaves the grid as it is earns no points (so nothing at all changes). */
  lemma UnchangedGridEarnsNothing(g: seq<seq<int>>, dir: Direction)
    requires IsBoard(g) && SlideGrid(g, dir) == g
    ensures TotalGain(g, dir, 4) == 0
  {
    forall i | 0 <= i < 4
      ensures LineGain(g, dir, i) == 0
    {
      LineOfSlideGrid(g, dir, i);
      UnchangedLineEarnsNothing(LineOf(g, dir, i));
    }
    assert TotalGain(g, dir, 1) == LineGain(g, dir, 0);
    assert TotalGain(g, dir, 2) == TotalGain(g, dir, 1) + LineGain(g, dir, 1);
    assert TotalGain(g, dir, 3) == TotalGain(g, dir, 2) + LineGain(g, dir, 2);
  }

  lemma {:induction false} MergeOfPairFree(s: seq<int>)
    requires forall k :: 0 <= k < |s| - 1 ==> s[k] != s[k + 1]
    ensures Merge(s) == s
  {
    if |s| >= 2 {
      MergeOfPairFree(s[1..]);
    }
  }

  /** Under `NoMoves`, every line read in any direction has no zero and no equal neighbours. */
  lemma StuckLine(g: seq<seq<int>>, dir: Direction, i: int)
    requires IsGrid(g) && NoMoves(g) && 0 <= i < 4
    ensures SlideLine(LineOf(g, dir, i)) == LineOf(g, dir, i)
  {
    var s := LineOf(g, dir, i);
    assert forall k :: 0 <= k < 4 ==> s[k] != 0;
    CompactOfNonZero(s);
    forall k | 0 <= k < 3
      ensures s[k] != s[k + 1]
    {
      match dir
      case Up => assert g[k][i] != g[k + 1][i];
      case Down => assert g[2 - k][i] != g[3 - k][i];
      case Left => assert g[i][k] != g[i][k + 1];
      case Right => assert g[i][2 - k] != g[i][3 - k];
    }
    MergeOfPairFree(s);
  }

  /** When `checkGameOver` declares the game over, no direction moves anything. */
  lemma NoMovesMeansStuck(g: seq<seq<int>>, dir: Direction)
    requires IsGrid(g) && NoMoves(g)
    ensures SlideGrid(g, dir) == g
  {
    forall i | 0 <= i < 4
      ensures LineOf(SlideGrid(g, dir), dir, i) == LineOf(g, dir, i)
    {
      LineOfSlideGrid(g, dir, i);
      StuckLine(g, dir, i);
    }
    SameLinesSameGrid(SlideGrid(g, dir), g, dir);
  }

  /** `addRandomTile` lists exactly the empty cells. */
  lemma {:induction false} EmptyPrefixExact(g: seq<seq<int>>, k: nat)
    requires IsGrid(g) && k <= 16
    ensures forall r, c :: InRange(r, c) && 4 * r + c < k ==> (g[r][c] == 0 <==> (r, c) in EmptyPrefix(g, k))
    ensures forall n :: 0 <= n < |EmptyPrefix(g, k)| ==> g[EmptyPrefix(g, k)[n].0][EmptyPrefix(g, k)[n].1] == 0
  {
    if k > 0 {
      EmptyPrefixExact(g, k - 1);
    }
  }

  /** A placed tile goes on an empty cell, is a 2 or a 4, and changes no other cell. */
  lemma PlaceTileOnEmptyCell(g: seq<seq<int>>, pick: nat, isTwo: bool)
    requires IsGrid(g)
    ensures |EmptyCells(g)| == 0 ==> PlaceTile(g, pick, isTwo) == g
    ensures |EmptyCells(g)| > 0 ==>
      exists r, c :: InRange(r, c) && g[r][c] == 0 && PlaceTile(g, pick, isTwo)[r][c] == (if isTwo then 2 else 4) &&
        (forall r', c' :: InRange(r', c') && (r', c') != (r, c) ==> PlaceTile(g, pick, isTwo)[r'][c'] == g[r'][c'])
  {
    EmptyPrefixExact(g, 16);
    var e := EmptyCells(g);
    if |e| > 0 {
      var p := e[pick % |e|];
      assert InRange(p.0, p.1) && g[p.0][p.1] == 0;
    }
  }

  /** A full grid gets no tile; a grid with an empty cell always has one listed. */
  lemma EmptyCellsNonEmpty(g: seq<seq<int>>)
    requires IsGrid(g)
    ensures |EmptyCells(g)| > 0 <==> exists r, c :: InRange(r, c) && g[r][c] == 0
  {
    EmptyPrefixExact(g, 16);
    if |EmptyCells(g)| > 0 {
      var p := EmptyCells(g)[0];
      assert InRange(p.0, p.1) && g[p.0][p.1] == 0;
    }
  }
}

/**
 * Tetris on a well of 20 rows by 10 columns.  A cell is empty or holds the
 * colour of a locked block; the falling piece is a boolean shape placed at a
 * (row, column) position, and may reach above row 0.  The shape and the
 * colour of each new piece are random in the game and inputs here.
 */
module Tetris {
  import opened Wrappers

  const Rows := 20
  const Cols := 10
  const PointsPerLine := 100
  const SpawnAt: (int, int) := (0, 4)

  /** The seven colours a piece may take. */
  datatype Colour = Cyan | Yellow | Purple | Green | Red | Orange | Blue

  type Cell = Option<Colour>

  datatype Piece = Piece(shape: seq<seq<bool>>, position: (int, int), colour: Colour)

  /** I, O, T, S, Z, L, J. */
  const AllShapes: seq<seq<seq<bool>>> := [
    [[true, true, true, true]],
    [[true, true], [true, true]],
    [[false, true, false], [true, true, true]],
    [[true, true, false], [false, true, true]],
    [[false, true, true], [true, true, false]],
    [[true, false, false], [true, true, true]],
    [[false, false, true], [true, true, true]]
  ]

  predicate IsGrid(g: seq<seq<Cell>>) {
    |g| == Rows && forall r :: 0 <= r < Rows ==> |g[r]| == Cols
  }

  /** A rectangle of at least one row and one column. */
  predicate IsShape(s: seq<seq<bool>>) {
    |s| > 0 && |s[0]| > 0 && forall i :: 0 <= i < |s| ==> |s[i]| == |s[0]|
  }

  lemma AllShapesAreShapes(pick: int)
    requires 0 <= pick < |AllShapes|
    ensures IsShape(AllShapes[pick]) && |AllShapes[pick]| <= |AllShapes[pick][0]|
  {
  }

  // ---------------------------------------------------------------- blocks

  /** The cells of the true entries of `row`, laid out from column c in row r. */
  function RowBlocks(row: seq<bool>, r: int, c: int): seq<(int, int)> {
    if row == [] then [] else RowBlocks(row[..|row| - 1], r, c) + (if row[|row| - 1] then [(r, c + |row| - 1)] else [])
  }

  /** The cells of the true entries of `shape`, row by row, with its top left corner at `pos`. */
  function ShapeBlocks(shape: seq<seq<bool>>, pos: (int, int)): seq<(int, int)> {
    if shape == [] then []
    else ShapeBlocks(shape[..|shape| - 1], pos) + RowBlocks(shape[|shape| - 1], pos.0 + |shape| - 1, pos.1)
  }

  /** `TetrisPiece.blocks`. */
  function Blocks(p: Piece): seq<(int, int)> {
    ShapeBlocks(p.shape, p.position)
  }

  /** Every cell listed at most once. */
  predicate NoRepeats(bs: seq<(int, int)>) {
    forall i, j :: 0 <= i < j < |bs| ==> bs[i] != bs[j]
  }

  lemma {:induction false} RowBlocksMember(row: seq<bool>, r: int, c: int, x: (int, int))
    ensures x in RowBlocks(row, r, c) <==> x.0 == r && 0 <= x.1 - c < |row| && row[x.1 - c]
  {
    if row != [] {
      RowBlocksMember(row[..|row| - 1], r, c, x);
    }
  }

  lemma {:induction false} RowBlocksNoRepeats(row: seq<bool>, r: int, c: int)
    ensures NoRepeats(RowBlocks(row, r, c))
  {
    if row != [] {
      var n := |row| - 1;
      var front := RowBlocks(row[..n], r, c);
      RowBlocksNoRepeats(row[..n], r, c);
      forall k | 0 <= k < |front|
        ensures front[k].1 < c + n
      {
        RowBlocksMember(row[..n], r, c, front[k]);
      }
    }
  }

  /** A cell is a block exactly when it lies over a true entry of the shape. */
  lemma {:induction false} ShapeBlocksMember(shape: seq<seq<bool>>, pos: (int, int), x: (int, int))
    ensures x in ShapeBlocks(shape, pos) <==>
      0 <= x.0 - pos.0 < |shape| && 0 <= x.1 - pos.1 < |shape[x.0 - pos.0]| && shape[x.0 - pos.0][x.1 - pos.1]
  {
    if shape != [] {
      var n := |shape| - 1;
      ShapeBlocksMember(shape[..n], pos, x);
      RowBlocksMember(shape[n], pos.0 + n, pos.1, x);
    }
  }

  /** No cell is listed twice. */
  lemma {:induction false} ShapeBlocksNoRepeats(shape: seq<seq<bool>>, pos: (int, int))
    ensures NoRepeats(ShapeBlocks(shape, pos))
  {
    if shape != [] {
      var n := |shape| - 1;
      var front := ShapeBlocks(shape[..n], pos);
      var back := RowBlocks(shape[n], pos.0 + n, pos.1);
      ShapeBlocksNoRepeats(shape[..n], pos);
      RowBlocksNoRepeats(shape[n], pos.0 + n, pos.1);
      forall i, j | 0 <= i < |front| && 0 <= j < |back|
        ensures front[i] != back[j]
      {
        ShapeBlocksMember(shape[..n], pos, front[i]);
        RowBlocksMember(shape[n], pos.0 + n, pos.1, back[j]);
      }
      var all := front + back;
      forall i, j | 0 <= i < j < |all|
        ensures all[i] != all[j]
      {
        if j < |front| {
          assert all[i] == front[i] && all[j] == front[j];
        } else if i >= |front| {
          assert all[i] == back[i - |front|] && all[j] == back[j - |front|];
        } else {
          assert all[i] == front[i] && all[j] == back[j - |front|];
        }
      }
    }
  }

  /** Cell x lies over a true entry (i, j) of the piece's shape. */
  predicate Covers(p: Piece, x: (int, int)) {
    exists i, j :: 0 <= i < |p.shape| && 0 <= j < |p.shape[i]| && p.shape[i][j] && x == (p.position.0 + i, p.position.1 + j)
  }

  /**
   * `blocks` lists each true cell of the shape exactly once, offset by the
   * position, and nothing else.
   */
  lemma BlocksMeaning(p: Piece, x: (int, int))
    ensures x in Blocks(p) <==> Covers(p, x)
    ensures NoRepeats(Blocks(p))
  {
    ShapeBlocksMember(p.shape, p.position, x);
    ShapeBlocksNoRepeats(p.shape, p.position);
    if x in Blocks(p) {
      var i, j := x.0 - p.position.0, x.1 - p.position.1;
      assert x == (p.position.0 + i, p.position.1 + j);
    }
  }

  /** The loop of `blocks`: row by row, each true entry adds its cell. */
  method CollectBlocks(p: Piece) returns (result: seq<(int, int)>)
    ensures result == Blocks(p)
  {
    result := [];
    var i := 0;
    while i < |p.shape|
      invariant 0 <= i <= |p.shape| && result == ShapeBlocks(p.shape[..i], p.position)
    {
      var row := p.shape[i];
      var j := 0;
      while j < |row|
        invariant 0 <= j <= |row|
        invariant result == ShapeBlocks(p.shape[..i], p.position) + RowBlocks(row[..j], p.position.0 + i, p.position.1)
      {
        assert row[..j + 1][..j] == row[..j];
        if row[j] {
          result := result + [(p.position.0 + i, p.position.1 + j)];
        }
        j := j + 1;
      }
      assert row[..j] == row;
      assert p.shape[..i + 1][..i] == p.shape[..i];
      i := i + 1;
    }
    assert p.shape[..i] == p.shape;
  }

  // ------------------------------------------------------------- collision

  /** `canMove`'s test of one cell: above the floor, between the walls, and empty or above row 0. */
  predicate Free(g: seq<seq<Cell>>, r: int, c: int)
    requires IsGrid(g)
  {
    r < Rows && 0 <= c < Cols && (r < 0 || g[r][c] == None)
  }

  /** Every block of the piece, shifted by (dy, dx), is free. */
  predicate Fits(g: seq<seq<Cell>>, p: Piece, dy: int, dx: int)
    requires IsGrid(g)
  {
    forall x :: x in Blocks(p) ==> Free(g, x.0 + dy, x.1 + dx)
  }

  /** The piece moved dy rows down and dx columns right. */
  function Moved(p: Piece, dy: int, dx: int): Piece {
    p.(position := (p.position.0 + dy, p.position.1 + dx))
  }

  /** A cell is a block of the piece exactly when the shifted cell is a block of the moved piece. */
  lemma BlockShifted(p: Piece, dy: int, dx: int, x: (int, int))
    ensures x in Blocks(p) <==> (x.0 + dy, x.1 + dx) in Blocks(Moved(p, dy, dx))
  {
    var q := Moved(p, dy, dx);
    ShapeBlocksMember(p.shape, p.position, x);
    ShapeBlocksMember(q.shape, q.position, (x.0 + dy, x.1 + dx));
  }

  /** Testing a shift and testing the shifted piece agree: `canMove` accepts exactly the moves that end in free cells. */
  lemma FitsMoved(g: seq<seq<Cell>>, p: Piece, dy: int, dx: int)
    requires IsGrid(g)
    ensures Fits(g, p, dy, dx) <==> Fits(g, Moved(p, dy, dx), 0, 0)
  {
    var q := Moved(p, dy, dx);
    if Fits(g, p, dy, dx) {
      forall x | x in Blocks(q)
        ensures Free(g, x.0, x.1)
      {
        BlockShifted(p, dy, dx, (x.0 - dy, x.1 - dx));
      }
    }
    if Fits(g, q, 0, 0) {
      forall x | x in Blocks(p)
        ensures Free(g, x.0 + dy, x.1 + dx)
      {
        BlockShifted(p, dy, dx, x);
      }
    }
  }

  /** Rows above the well never collide: a piece wholly above row 0 fits whatever is locked, if it is between the walls. */
  lemma AboveTheWellFits(g: seq<seq<Cell>>, p: Piece)
    requires IsGrid(g)
    requires forall x :: x in Blocks(p) ==> x.0 < 0 && 0 <= x.1 < Cols
    ensures Fits(g, p, 0, 0)
  {
  }

  // -------------------------------------------------------------- rotation

  /**
   * `rotate` as written: an n×n matrix, n the number of rows, with
   * rotated[j][n - 1 - i] = shape[i][j].  Columns from n on are dropped.
   */
  function RotateAsWritten(s: seq<seq<bool>>): (r: seq<seq<bool>>)
    requires forall i :: 0 <= i < |s| ==> |s[i]| >= |s|
    ensures |r| == |s| && forall j :: 0 <= j < |r| ==> |r[j]| == |s|
  {
    seq(|s|, j requires 0 <= j < |s| => seq(|s|, k requires 0 <= k < |s| => s[|s| - 1 - k][j]))
  }

  /** The quarter turn clockwise: a rows×cols shape becomes cols×rows, rotated[j][rows - 1 - i] = shape[i][j]. */
  function Rotate(s: seq<seq<bool>>): (r: seq<seq<bool>>)
    requires IsShape(s)
    ensures IsShape(r) && |r| == |s[0]| && |r[0]| == |s|
  {
    seq(|s[0]|, j requires 0 <= j < |s[0]| => seq(|s|, k requires 0 <= k < |s| => s[|s| - 1 - k][j]))
  }

  /** Four quarter turns give the shape back. */
  lemma RotateFourTimes(s: seq<seq<bool>>)
    requires IsShape(s)
    ensures Rotate(Rotate(Rotate(Rotate(s)))) == s
  {
    var s4 := Rotate(Rotate(Rotate(Rotate(s))));
    forall i | 0 <= i < |s|
      ensures s4[i] == s[i]
    {
    }
  }

  /** On a square shape the source's rotation is the quarter turn. */
  lemma RotateSquare(s: seq<seq<bool>>)
    requires IsShape(s) && |s| == |s[0]|
    ensures RotateAsWritten(s) == Rotate(s)
  {
  }

  /** A true cell of the turned shape comes from a true cell of the shape. */
  lemma TurnCellBack(s: seq<seq<bool>>, t: seq<seq<bool>>, x: (int, int))
    requires IsShape(s) && t == Rotate(s)
    requires 0 <= x.0 < |t| && 0 <= x.1 < |t[x.0]| && t[x.0][x.1]
    ensures 0 <= |s| - 1 - x.1 < |s| && 0 <= x.0 < |s[|s| - 1 - x.1]| && s[|s| - 1 - x.1][x.0]
  {
  }

  /** A true cell of the shape lands on a true cell of the turned shape. */
  lemma TurnCell(s: seq<seq<bool>>, t: seq<seq<bool>>, x: (int, int))
    requires IsShape(s) && t == Rotate(s)
    requires 0 <= |s| - 1 - x.1 < |s| && 0 <= x.0 < |s[|s| - 1 - x.1]| && s[|s| - 1 - x.1][x.0]
    ensures 0 <= x.0 < |t| && 0 <= x.1 < |t[x.0]| && t[x.0][x.1]
  {
  }

  /** Seen through the blocks: cell (j, k) of the turned shape is a block exactly when cell (rows - 1 - k, j) of the shape is. */
  lemma RotateBlocks(s: seq<seq<bool>>, x: (int, int))
    requires IsShape(s)
    ensures x in ShapeBlocks(Rotate(s), (0, 0)) <==> (|s| - 1 - x.1, x.0) in ShapeBlocks(s, (0, 0))
  {
    var t := Rotate(s);
    if x in ShapeBlocks(t, (0, 0)) {
      TurnBlocksBack(s, t, x);
    }
    if (|s| - 1 - x.1, x.0) in ShapeBlocks(s, (0, 0)) {
      TurnBlocks(s, t, x);
    }
  }

  lemma TurnBlocksBack(s: seq<seq<bool>>, t: seq<seq<bool>>, x: (int, int))
    requires IsShape(s) && t == Rotate(s) && x in ShapeBlocks(t, (0, 0))
    ensures (|s| - 1 - x.1, x.0) in ShapeBlocks(s, (0, 0))
  {
    BlockIsCell(t, x);
    TurnCellBack(s, t, x);
    CellIsBlock(s, (|s| - 1 - x.1, x.0));
  }

  lemma TurnBlocks(s: seq<seq<bool>>, t: seq<seq<bool>>, x: (int, int))
    requires IsShape(s) && t == Rotate(s) && (|s| - 1 - x.1, x.0) in ShapeBlocks(s, (0, 0))
    ensures x in ShapeBlocks(t, (0, 0))
  {
    BlockIsCell(s, (|s| - 1 - x.1, x.0));
    TurnCell(s, t, x);
    CellIsBlock(t, x);
  }

  lemma BlockIsCell(s: seq<seq<bool>>, x: (int, int))
    requires x in ShapeBlocks(s, (0, 0))
    ensures 0 <= x.0 < |s| && 0 <= x.1 < |s[x.0]| && s[x.0][x.1]
  {
    ShapeBlocksMember(s, (0, 0), x);
  }

  lemma CellIsBlock(s: seq<seq<bool>>, x: (int, int))
    requires 0 <= x.0 < |s| && 0 <= x.1 < |s[x.0]| && s[x.0][x.1]
    ensures x in ShapeBlocks(s, (0, 0))
  {
    ShapeBlocksMember(s, (0, 0), x);
  }

  /** The source's rotation turns the four-block I piece into a single block, while the quarter turn keeps four. */
  lemma RotateAsWrittenLosesBlocks()
    ensures |ShapeBlocks(AllShapes[0], (0, 0))| == 4
    ensures RotateAsWritten(AllShapes[0]) == [[true]] && |ShapeBlocks(RotateAsWritten(AllShapes[0]), (0, 0))| == 1
    ensures Rotate(AllShapes[0]) == [[true], [true], [true], [true]] && |ShapeBlocks(Rotate(AllShapes[0]), (0, 0))| == 4
  {
    var i := AllShapes[0];
    var row := [true, true, true, true];
    assert i == [row];
    assert row[..3][..2][..1] == [true];
    assert row[..3][..2] == [true, true];
    assert row[..3] == [true, true, true];
    assert |RowBlocks(row, 0, 0)| == 4;
    assert i[..0] == [];
    var one := RotateAsWritten(i);
    assert |one| == 1 && one[0] == [true];
    assert one == [[true]];
    assert one[..0] == [] && |RowBlocks([true], 0, 0)| == 1;
    var four := Rotate(i);
    assert |four| == 4 && forall k :: 0 <= k < 4 ==> four[k] == [true];
    assert four == [[true], [true], [true], [true]];
    assert four[..3][..2][..1] == [[true]];
    assert four[..3][..2] == [[true], [true]];
    assert four[..3] == [[true], [true], [true]];
    assert |ShapeBlocks(four[..3][..2][..1], (0, 0))| == 1;
    assert |ShapeBlocks(four[..3][..2], (0, 0))| == 2;
    assert |ShapeBlocks(four[..3], (0, 0))| == 3;
  }

  /** The loop of the quarter turn: a rows×cols matrix of false written cell by cell. */
  method RotateShape(s: seq<seq<bool>>) returns (rotated: seq<seq<bool>>)
    requires IsShape(s)
    ensures rotated == Rotate(s)
  {
    var n, m := |s|, |s[0]|;
    rotated := seq(m, _ => seq(n, _ => false));
    var i := 0;
    while i < n
      invariant 0 <= i <= n && |rotated| == m
      invariant forall j :: 0 <= j < m ==> |rotated[j]| == n
      invariant forall j, k :: 0 <= j < m && 0 <= k < n ==> rotated[j][k] == (n - 1 - k < i && s[n - 1 - k][j])
    {
      var j := 0;
      while j < m
        invariant 0 <= j <= m && |rotated| == m
        invariant forall a :: 0 <= a < m ==> |rotated[a]| == n
        invariant forall a, k :: 0 <= a < m && 0 <= k < n ==>
          rotated[a][k] == ((n - 1 - k < i || (n - 1 - k == i && a < j)) && s[n - 1 - k][a])
      {
        rotated := rotated[j := rotated[j][n - 1 - i := s[i][j]]];
        j := j + 1;
      }
      i := i + 1;
    }
    assert forall j :: 0 <= j < m ==> rotated[j] == Rotate(s)[j];
  }

  // --------------------------------------------------------- line clearing

  function EmptyRow(): seq<Cell> {
    seq(Cols, _ => None)
  }

  /** Every cell of the row is occupied. */
  predicate Full(row: seq<Cell>) {
    forall c :: 0 <= c < |row| ==> row[c].Some?
  }

  function Empties(n: nat): seq<seq<Cell>> {
    seq(n, _ => EmptyRow())
  }

  /** The rows that are not full, in order. */
  function Keep(g: seq<seq<Cell>>): (k: seq<seq<Cell>>)
    ensures |k| <= |g|
  {
    if g == [] then [] else (if Full(g[0]) then [] else [g[0]]) + Keep(g[1..])
  }

  /** How many rows are full. */
  function FullRows(g: seq<seq<Cell>>): nat {
    if g == [] then 0 else (if Full(g[0]) then 1 else 0) + FullRows(g[1..])
  }

  /** The intended result of `clearLines`: every full row gone, the others dropped down in order under empty rows. */
  function Cleared(g: seq<seq<Cell>>): seq<seq<Cell>> {
    Empties(|g| - |Keep(g)|) + Keep(g)
  }

  lemma {:induction false} KeepAndFullRows(g: seq<seq<Cell>>)
    ensures |Keep(g)| + FullRows(g) == |g|
    ensures forall i :: 0 <= i < |Keep(g)| ==> !Full(Keep(g)[i]) && Keep(g)[i] in g
  {
    if g != [] {
      KeepAndFullRows(g[1..]);
      var k := Keep(g);
      forall i | 0 <= i < |k|
        ensures !Full(k[i]) && k[i] in g
      {
        if !Full(g[0]) && i > 0 {
          assert k[i] == Keep(g[1..])[i - 1];
        }
      }
    }
  }

  /**
   * Clearing keeps the well 20×10, leaves no full row, and removes exactly
   * the full rows.
   */
  lemma ClearedMeaning(g: seq<seq<Cell>>)
    requires IsGrid(g)
    ensures IsGrid(Cleared(g))
    ensures forall r :: 0 <= r < Rows ==> !Full(Cleared(g)[r])
    ensures |Cleared(g)| - |Keep(g)| == FullRows(g)
  {
    KeepAndFullRows(g);
    var c := Cleared(g);
    var e := |g| - |Keep(g)|;
    forall r | 0 <= r < Rows
      ensures |c[r]| == Cols && !Full(c[r])
    {
      if r < e {
        assert c[r] == EmptyRow() && EmptyRow()[0] == None;
      } else {
        assert c[r] == Keep(g)[r - e];
      }
    }
  }

  /** The well after `clearLines` as written: rows row - 1 down to 0 are checked, and after a removal the index moves on regardless. */
  function SweepAsWritten(g: seq<seq<Cell>>, row: nat): (h: seq<seq<Cell>>)
    requires row <= |g|
    ensures |h| == |g|
    decreases row
  {
    if row == 0 then g
    else if Full(g[row - 1]) then SweepAsWritten([EmptyRow()] + g[..row - 1] + g[row..], row - 1)
    else SweepAsWritten(g, row - 1)
  }

  /** The sweep never touches the rows below the ones it still has to check. */
  lemma {:induction false} SweepKeepsBelow(g: seq<seq<Cell>>, row: nat, i: int)
    requires row <= i < |g|
    ensures SweepAsWritten(g, row)[i] == g[i]
    decreases row
  {
    if row > 0 {
      if Full(g[row - 1]) {
        var h := [EmptyRow()] + g[..row - 1] + g[row..];
        assert h[i] == g[i];
        SweepKeepsBelow(h, row - 1, i);
      } else {
        SweepKeepsBelow(g, row - 1, i);
      }
    }
  }

  /** With the two bottom rows full, the source's sweep clears one of them and leaves a full row behind. */
  lemma SweepAsWrittenLeavesFullRow(g: seq<seq<Cell>>)
    requires IsGrid(g) && Full(g[Rows - 1]) && Full(g[Rows - 2])
    ensures Full(SweepAsWritten(g, Rows)[Rows - 1])
    ensures !Full(Cleared(g)[Rows - 1])
  {
    var h := [EmptyRow()] + g[..Rows - 1] + g[Rows..];
    assert h[Rows - 1] == g[Rows - 2];
    SweepKeepsBelow(h, Rows - 1, Rows - 1);
    ClearedMeaning(g);
  }

  /** The full row that is moved next to be checked after a removal. */
  lemma KeepFull(g: seq<seq<Cell>>, k: int)
    requires 0 < k <= |g|
    ensures Keep(g[k - 1..]) == (if Full(g[k - 1]) then [] else [g[k - 1]]) + Keep(g[k..])
    ensures FullRows(g[k - 1..]) == (if Full(g[k - 1]) then 1 else 0) + FullRows(g[k..])
  {
    assert g[k - 1..][1..] == g[k..];
  }

  /** Removing the full row at index cleared + k - 1 of a partly swept well. */
  lemma RemoveFullRow(g0: seq<seq<Cell>>, g: seq<seq<Cell>>, k: int, cleared: nat, row: int)
    requires 0 < k <= |g0| && Full(g0[k - 1])
    requires g == Empties(cleared) + g0[..k] + Keep(g0[k..]) && row == cleared + k - 1
    ensures 0 <= row < |g| && DropRow(g, row) == Empties(cleared + 1) + g0[..k - 1] + Keep(g0[k - 1..])
  {
    KeepFull(g0, k);
    assert g[..row] == Empties(cleared) + g0[..k - 1];
    assert g[row + 1..] == Keep(g0[k..]);
    assert [EmptyRow()] + Empties(cleared) == Empties(cleared + 1);
  }

  /** Passing over a row that is not full leaves the well as it is. */
  lemma PassRow(g0: seq<seq<Cell>>, k: int, cleared: nat)
    requires 0 < k <= |g0| && !Full(g0[k - 1])
    ensures Empties(cleared) + g0[..k] + Keep(g0[k..]) == Empties(cleared) + g0[..k - 1] + Keep(g0[k - 1..])
  {
    KeepFull(g0, k);
    assert g0[..k] == g0[..k - 1] + [g0[k - 1]];
  }

  /**
   * Part-way through `clearLines`: rows k.. of the original well have been
   * checked, leaving `cleared` empty rows on top, the unchecked rows
   * 0..k - 1, and the kept checked rows; `row` is the index still to check.
   */
  ghost predicate SweepState(g0: seq<seq<Cell>>, g: seq<seq<Cell>>, k: int, cleared: nat, row: int)
    requires IsGrid(g0)
  {
    0 <= k <= Rows && -1 <= row < Rows &&
    g == Empties(cleared) + g0[..k] + Keep(g0[k..]) &&
    cleared == FullRows(g0[k..]) && |Keep(g0[k..])| + cleared == Rows - k &&
    if k == 0 then row < cleared else row + 1 == cleared + k
  }

  /** The row under check is row k - 1 of the original, or an empty row once all are checked. */
  lemma SweepRow(g0: seq<seq<Cell>>, g: seq<seq<Cell>>, k: int, cleared: nat, row: int)
    requires IsGrid(g0) && SweepState(g0, g, k, cleared, row) && row >= 0
    ensures row < |g|
    ensures k > 0 ==> g[row] == g0[k - 1]
    ensures k == 0 ==> !Full(g[row])
  {
    KeepAndFullRows(g0[k..]);
    if k == 0 {
      assert g[row] == EmptyRow() && EmptyRow()[0] == None;
    }
  }

  /** Row `row` taken out and an empty row put on top. */
  function DropRow(g: seq<seq<Cell>>, row: int): (h: seq<seq<Cell>>)
    requires 0 <= row < |g|
    ensures |h| == |g|
  {
    [EmptyRow()] + g[..row] + g[row + 1..]
  }

  /** Removing a full row keeps the sweep's state, one row further up the original. */
  lemma SweepRemove(g0: seq<seq<Cell>>, g: seq<seq<Cell>>, k: int, cleared: nat, row: int)
    requires IsGrid(g0) && SweepState(g0, g, k, cleared, row) && row >= 0 && k > 0 && Full(g0[k - 1])
    ensures row < |g| && SweepState(g0, DropRow(g, row), k - 1, cleared + 1, row)
  {
    KeepAndFullRows(g0[k..]);
    KeepFull(g0, k);
    RemoveFullRow(g0, g, k, cleared, row);
  }

  /** Passing a row that is not full keeps the sweep's state, one row further up. */
  lemma SweepPass(g0: seq<seq<Cell>>, g: seq<seq<Cell>>, k: int, cleared: nat, row: int)
    requires IsGrid(g0) && SweepState(g0, g, k, cleared, row) && row >= 0
    requires k > 0 ==> !Full(g0[k - 1])
    ensures SweepState(g0, g, if k > 0 then k - 1 else k, cleared, row - 1)
  {
    if k > 0 {
      KeepAndFullRows(g0[k..]);
      KeepFull(g0, k);
      PassRow(g0, k, cleared);
      assert g == Empties(cleared) + g0[..k - 1] + Keep(g0[k - 1..]);
    }
  }

  /** Once every row is checked, the well is the cleared well. */
  lemma SweepDone(g0: seq<seq<Cell>>, g: seq<seq<Cell>>, k: int, cleared: nat, row: int)
    requires IsGrid(g0) && SweepState(g0, g, k, cleared, row) && row < 0
    ensures g == Cleared(g0) && cleared == FullRows(g0)
  {
    KeepAndFullRows(g0);
    assert g0[..0] == [] && g0[0..] == g0;
  }

  /**
   * The intended loop of `clearLines`, checking from the bottom row up.  A full row
   * is removed and an empty one enters at the top; the same index is then
   * checked again, since it now holds the row from above.
   */
  method ClearRows(g0: seq<seq<Cell>>) returns (g: seq<seq<Cell>>, cleared: nat)
    requires IsGrid(g0)
    ensures g == Cleared(g0) && cleared == FullRows(g0)
  {
    ghost var k := Rows;
    g := g0;
    cleared := 0;
    var row := Rows - 1;
    assert g0[Rows..] == [] && g0[..Rows] == g0;
    while row >= 0
      invariant 0 <= k <= Rows && -1 <= row < Rows
      invariant SweepState(g0, g, k, cleared, row)
      decreases row + 1 + k
    {
      SweepRow(g0, g, k, cleared, row);
      if Full(g[row]) {
        SweepRemove(g0, g, k, cleared, row);
        g := DropRow(g, row);
        cleared := cleared + 1;
        k := k - 1;
      } else {
        SweepPass(g0, g, k, cleared, row);
        if k > 0 {
          k := k - 1;
        }
        row := row - 1;
      }
    }
    SweepDone(g0, g, k, cleared, row);
  }

  // ------------------------------------------------------------- locking

  /** The well with every block of the piece at or below row 0 painted in the piece's colour. */
  function Stamped(g: seq<seq<Cell>>, p: Piece): (h: seq<seq<Cell>>)
    requires IsGrid(g)
    ensures IsGrid(h)
  {
    seq(Rows, r requires 0 <= r < Rows => seq(Cols, c requires 0 <= c < Cols =>
      if (r, c) in Blocks(p) then Some(p.colour) else g[r][c]))
  }

  /** A locked piece occupies its cells in the well and changes no other cell. */
  lemma StampedMeaning(g: seq<seq<Cell>>, p: Piece, r: int, c: int)
    requires IsGrid(g) && 0 <= r < Rows && 0 <= c < Cols
    ensures Stamped(g, p)[r][c] == if Covers(p, (r, c)) then Some(p.colour) else g[r][c]
  {
    BlocksMeaning(p, (r, c));
  }

  class TetrisGame {
    var grid: seq<seq<Cell>>
    var current: Option<Piece>
    var score: int
    var gameOver: bool
    var gameStarted: bool

    /**
     * The well is 20×10, the score is whole lines, every piece is a
     * rectangle, and while the game runs the falling piece sits on free cells.
     */
    predicate Valid()
      reads this
    {
      IsGrid(grid) && score >= 0 && score % PointsPerLine == 0 &&
      (current.Some? ==> IsShape(current.value.shape)) &&
      (gameStarted && !gameOver ==> current.Some? && Fits(grid, current.value, 0, 0))
    }

    constructor()
      ensures Valid()
      ensures grid == Empties(Rows) && current == None && score == 0 && !gameOver && !gameStarted
    {
      grid := Empties(Rows);
      current := None;
      score := 0;
      gameOver := false;
      gameStarted := false;
    }

    /** `startGame`: an empty well, no score, and a first piece. */
    method StartGame(pick: int, colour: Colour)
      requires 0 <= pick < |AllShapes|
      modifies this
      ensures Valid() && gameStarted && score == 0
      ensures current == Some(Piece(AllShapes[pick], SpawnAt, colour))
      ensures gameOver == !Fits(Empties(Rows), current.value, 0, 0) && grid == Empties(Rows)
    {
      grid := Empties(Rows);
      score := 0;
      gameOver := false;
      gameStarted := true;
      SpawnPiece(pick, colour);
    }

    /** `spawnPiece`: the new piece enters at (0, 4); if it collides there the game is over. */
    method SpawnPiece(pick: int, colour: Colour)
      requires IsGrid(grid) && score >= 0 && score % PointsPerLine == 0 && 0 <= pick < |AllShapes|
      modifies this
      ensures Valid() && grid == old(grid) && score == old(score) && gameStarted == old(gameStarted)
      ensures current == Some(Piece(AllShapes[pick], SpawnAt, colour))
      ensures gameOver == (old(gameOver) || !Fits(grid, current.value, 0, 0))
    {
      var p := Piece(AllShapes[pick], SpawnAt, colour);
      AllShapesAreShapes(pick);
      current := Some(p);
      var ok := CanMove(p, 0, 0);
      if !ok {
        gameOver := true;
      }
    }

    /** `canMove`: the blocks are tried in turn and the first one off the free cells fails the move. */
    method CanMove(p: Piece, dy: int, dx: int) returns (ok: bool)
      requires IsGrid(grid)
      ensures ok == Fits(grid, p, dy, dx)
    {
      var bs := CollectBlocks(p);
      var k := 0;
      while k < |bs|
        invariant 0 <= k <= |bs|
        invariant forall i :: 0 <= i < k ==> Free(grid, bs[i].0 + dy, bs[i].1 + dx)
      {
        var (row, col) := bs[k];
        var newRow, newCol := row + dy, col + dx;
        if newRow >= Rows || newCol < 0 || newCol >= Cols || (newRow >= 0 && grid[newRow][newCol] != None) {
          assert !Free(grid, bs[k].0 + dy, bs[k].1 + dx);
          return false;
        }
        k := k + 1;
      }
      return true;
    }

    /** `movePiece`: the piece shifts only when every shifted block is free. */
    method MovePiece(dy: int, dx: int)
      requires Valid() && gameStarted && !gameOver
      modifies this
      ensures Valid() && grid == old(grid) && score == old(score) && gameOver == old(gameOver) && gameStarted == old(gameStarted)
      ensures Fits(grid, old(current).value, dy, dx) ==> current == Some(Moved(old(current).value, dy, dx))
      ensures !Fits(grid, old(current).value, dy, dx) ==> current == old(current)
    {
      var p := current.value;
      var ok := CanMove(p, dy, dx);
      if ok {
        FitsMoved(grid, p, dy, dx);
        current := Some(Moved(p, dy, dx));
      }
    }

    /** `rotatePiece`: the piece takes the quarter-turned shape only when that shape fits where the piece is. */
    method RotatePiece()
      requires Valid() && gameStarted && !gameOver
      modifies this
      ensures Valid() && grid == old(grid) && score == old(score) && gameOver == old(gameOver) && gameStarted == old(gameStarted)
      ensures var turned := old(current).value.(shape := Rotate(old(current).value.shape));
        current == if Fits(grid, turned, 0, 0) then Some(turned) else old(current)
    {
      var p := current.value;
      var shape := RotateShape(p.shape);
      var turned := p.(shape := shape);
      var ok := CanMove(turned, 0, 0);
      if ok {
        current := Some(turned);
      }
    }

    /** `dropPiece`: the piece falls a row if it can; otherwise it locks and the next piece comes. */
    method DropPiece(pick: int, colour: Colour)
      requires Valid() && gameStarted && !gameOver && 0 <= pick < |AllShapes|
      modifies this
      ensures Valid() && gameStarted
      ensures Fits(old(grid), old(current).value, 1, 0) ==>
        current == Some(Moved(old(current).value, 1, 0)) && grid == old(grid) && score == old(score) && !gameOver
      ensures !Fits(old(grid), old(current).value, 1, 0) ==>
        var s := Stamped(old(grid), old(current).value);
        grid == Cleared(s) && score == old(score) + PointsPerLine * FullRows(s) &&
        current == Some(Piece(AllShapes[pick], SpawnAt, colour)) && gameOver == !Fits(grid, current.value, 0, 0)
    {
      var p := current.value;
      var ok := CanMove(p, 1, 0);
      if ok {
        FitsMoved(grid, p, 1, 0);
        current := Some(Moved(p, 1, 0));
      } else {
        LockPiece(pick, colour);
      }
    }

    /** `lockPiece`: the piece's blocks in the well take its colour, full lines clear, and the next piece spawns. */
    method LockPiece(pick: int, colour: Colour)
      requires Valid() && gameStarted && !gameOver && 0 <= pick < |AllShapes|
      modifies this
      ensures Valid() && gameStarted == old(gameStarted)
      ensures var s := Stamped(old(grid), old(current).value);
        grid == Cleared(s) && score == old(score) + PointsPerLine * FullRows(s)
      ensures current == Some(Piece(AllShapes[pick], SpawnAt, colour)) && gameOver == !Fits(grid, current.value, 0, 0)
    {
      var p := current.value;
      var bs := CollectBlocks(p);
      var g := grid;
      var k := 0;
      while k < |bs|
        invariant 0 <= k <= |bs| && IsGrid(g)
        invariant forall r, c :: 0 <= r < Rows && 0 <= c < Cols ==>
          g[r][c] == if (r, c) in bs[..k] then Some(p.colour) else grid[r][c]
      {
        var (row, col) := bs[k];
        assert bs[k] in Blocks(p) && Free(grid, row, col);
        assert bs[..k + 1] == bs[..k] + [bs[k]];
        if row >= 0 {
          g := g[row := g[row][col := Some(p.colour)]];
        }
        k := k + 1;
      }
      assert bs[..k] == bs;
      ghost var s := Stamped(grid, p);
      assert forall r :: 0 <= r < Rows ==> g[r] == s[r];
      assert g == s;
      grid := g;
      ClearLines();
      SpawnPiece(pick, colour);
    }

    /** `clearLines`: the full rows go, and each scores 100. */
    method ClearLines()
      requires IsGrid(grid) && score >= 0 && score % PointsPerLine == 0
      modifies this
      ensures grid == Cleared(old(grid)) && score == old(score) + PointsPerLine * FullRows(old(grid))
      ensures IsGrid(grid) && score >= 0 && score % PointsPerLine == 0
      ensures current == old(current) && gameOver == old(gameOver) && gameStarted == old(gameStarted)
    {
      var g, cleared := ClearRows(grid);
      ClearedMeaning(old(grid));
      grid := g;
      score := score + cleared * PointsPerLine;
    }
  }
}

/**
 * The fifteen puzzle: tiles 1..15 and the blank 0 on a 4×4 board stored row
 * by row.  Tapping a tile slides it into an orthogonally adjacent blank; the
 * shuffled order of a new game is an input.
 */
module SlidingPuzzle {
  import opened Wrappers

  const Side := 4
  const Cells := 16

  /** The starting order: 1..15 then the blank. */
  const Solved: seq<int> := seq(Cells, i => (i + 1) % Cells)

  /** Sixteen different tiles, each in 0..15: the tiles 1..15 and the blank in some order. */
  predicate IsArrangement(t: seq<int>) {
    |t| == Cells && (forall i :: 0 <= i < Cells ==> 0 <= t[i] < Cells) &&
    (forall i, j :: 0 <= i < j < Cells ==> t[i] != t[j])
  }

  /** The k-th neighbour tried for cell `index`: above, below, left, right. */
  function Neighbour(index: int, k: int): (int, int)
    requires 0 <= index < Cells && 0 <= k < 4
  {
    var row := index / Side;
    var col := index % Side;
    if k == 0 then (row - 1, col) else if k == 1 then (row + 1, col) else if k == 2 then (row, col - 1) else (row, col + 1)
  }

  /** The cell at row p.0, column p.1. */
  function CellIndex(p: (int, int)): int {
    p.0 * Side + p.1
  }

  /** Row p.0, column p.1 is on the board and holds the blank. */
  predicate BlankOnBoard(tiles: seq<int>, p: (int, int))
    requires |tiles| == Cells
  {
    0 <= p.0 < Side && 0 <= p.1 < Side && tiles[CellIndex(p)] == 0
  }

  /** The first neighbour, from the k-th on, that is on the board and holds the blank. */
  function BlankNeighbour(tiles: seq<int>, index: int, k: nat): Option<int>
    requires |tiles| == Cells && 0 <= index < Cells && k <= 4
    decreases 4 - k
  {
    if k == 4 then None
    else if BlankOnBoard(tiles, Neighbour(index, k)) then Some(CellIndex(Neighbour(index, k)))
    else BlankNeighbour(tiles, index, k + 1)
  }

  /** Cells i and j are orthogonal neighbours on the board. */
  predicate Adjacent(i: int, j: int) {
    var dr := i / Side - j / Side;
    var dc := i % Side - j % Side;
    (dr == 0 && (dc == 1 || dc == -1)) || (dc == 0 && (dr == 1 || dr == -1))
  }

  /** The board after cells i and j exchange tiles. */
  function SwapAt(tiles: seq<int>, i: int, j: int): seq<int>
    requires 0 <= i < |tiles| && 0 <= j < |tiles|
  {
    tiles[i := tiles[j]][j := tiles[i]]
  }

  /** Row r, column c is the cell r * 4 + c. */
  lemma CellOf(r: int, c: int)
    requires 0 <= r < Side && 0 <= c < Side
    ensures 0 <= r * Side + c < Cells && (r * Side + c) / Side == r && (r * Side + c) % Side == c
  {
  }

  /** A neighbour on the board is a cell adjacent to `index`. */
  lemma NeighbourAdjacent(index: int, k: int)
    requires 0 <= index < Cells && 0 <= k < 4
    requires 0 <= Neighbour(index, k).0 < Side && 0 <= Neighbour(index, k).1 < Side
    ensures 0 <= CellIndex(Neighbour(index, k)) < Cells && Adjacent(index, CellIndex(Neighbour(index, k)))
  {
    var (r, c) := Neighbour(index, k);
    CellOf(r, c);
  }

  /** A found neighbour is the m-th, for some m from k on, and it holds the blank. */
  lemma {:induction false} BlankNeighbourWhich(tiles: seq<int>, index: int, k: nat) returns (m: int)
    requires |tiles| == Cells && 0 <= index < Cells && k <= 4
    requires BlankNeighbour(tiles, index, k).Some?
    ensures k <= m < 4 && BlankOnBoard(tiles, Neighbour(index, m))
    ensures BlankNeighbour(tiles, index, k) == Some(CellIndex(Neighbour(index, m)))
    decreases 4 - k
  {
    if BlankOnBoard(tiles, Neighbour(index, k)) {
      m := k;
    } else {
      m := BlankNeighbourWhich(tiles, index, k + 1);
    }
  }

  /** A found neighbour is on the board, adjacent, and blank. */
  lemma BlankNeighbourSound(tiles: seq<int>, index: int, k: nat)
    requires |tiles| == Cells && 0 <= index < Cells && k <= 4
    requires BlankNeighbour(tiles, index, k).Some?
    ensures var j := BlankNeighbour(tiles, index, k).value; 0 <= j < Cells && tiles[j] == 0 && Adjacent(index, j)
  {
    var m := BlankNeighbourWhich(tiles, index, k);
    NeighbourAdjacent(index, m);
  }

  /** Every adjacent cell is one of the four neighbours tried. */
  lemma AdjacentIsNeighbour(index: int, j: int)
    requires 0 <= index < Cells && 0 <= j < Cells && Adjacent(index, j)
    ensures exists k :: 0 <= k < 4 && Neighbour(index, k) == (j / Side, j % Side)
  {
    if j / Side == index / Side - 1 {
      assert Neighbour(index, 0) == (j / Side, j % Side);
    } else if j / Side == index / Side + 1 {
      assert Neighbour(index, 1) == (j / Side, j % Side);
    } else if j % Side == index % Side - 1 {
      assert Neighbour(index, 2) == (j / Side, j % Side);
    } else {
      assert Neighbour(index, 3) == (j / Side, j % Side);
    }
  }

  /** If some neighbour from the k-th on is a blank on the board, one is found. */
  lemma {:induction false} BlankNeighbourFound(tiles: seq<int>, index: int, k: nat, m: int)
    requires |tiles| == Cells && 0 <= index < Cells && k <= m < 4
    requires BlankOnBoard(tiles, Neighbour(index, m))
    ensures BlankNeighbour(tiles, index, k).Some?
    decreases 4 - k
  {
    if !BlankOnBoard(tiles, Neighbour(index, k)) {
      BlankNeighbourFound(tiles, index, k + 1, m);
    }
  }

  /** A tap moves a tile exactly when a cell adjacent to it holds the blank. */
  lemma MovesIffBlankAdjacent(tiles: seq<int>, index: int)
    requires |tiles| == Cells && 0 <= index < Cells
    ensures BlankNeighbour(tiles, index, 0).Some? <==> exists j :: 0 <= j < Cells && Adjacent(index, j) && tiles[j] == 0
  {
    if BlankNeighbour(tiles, index, 0).Some? {
      BlankNeighbourSound(tiles, index, 0);
    } else {
      forall j | 0 <= j < Cells && Adjacent(index, j)
        ensures tiles[j] != 0
      {
        AdjacentIsNeighbour(index, j);
        var k :| 0 <= k < 4 && Neighbour(index, k) == (j / Side, j % Side);
        assert j == CellIndex(Neighbour(index, k));
        if tiles[j] == 0 {
          BlankNeighbourFound(tiles, index, 0, k);
        }
      }
    }
  }

  /** Exchanging two tiles of an arrangement leaves an arrangement. */
  lemma SwapKeepsArrangement(tiles: seq<int>, i: int, j: int)
    requires IsArrangement(tiles) && 0 <= i < Cells && 0 <= j < Cells
    ensures IsArrangement(SwapAt(tiles, i, j))
  {
    var t := SwapAt(tiles, i, j);
    forall a, b | 0 <= a < b < Cells
      ensures t[a] != t[b]
    {
      var a' := if a == i then j else if a == j then i else a;
      var b' := if b == i then j else if b == j then i else b;
      assert t[a] == tiles[a'] && t[b] == tiles[b'] && a' != b';
      if a' > b' {
        assert tiles[b'] != tiles[a'];
      }
    }
  }

  /** Exchanging two tiles keeps the same tiles, so a board stays an arrangement; exchanging again undoes it. */
  lemma SwapKeepsTiles(tiles: seq<int>, i: int, j: int)
    requires 0 <= i < |tiles| && 0 <= j < |tiles|
    ensures multiset(SwapAt(tiles, i, j)) == multiset(tiles)
    ensures IsArrangement(tiles) ==> IsArrangement(SwapAt(tiles, i, j))
    ensures SwapAt(SwapAt(tiles, i, j), i, j) == tiles
  {
    if IsArrangement(tiles) {
      SwapKeepsArrangement(tiles, i, j);
    }
  }

  /** The starting order is an arrangement. */
  lemma SolvedIsArrangement()
    ensures IsArrangement(Solved)
  {
  }

  /** The loop of `moveTile` over the four neighbours: the first on the board that holds the blank. */
  method FindBlankNeighbour(tiles: seq<int>, index: int) returns (found: Option<int>)
    requires |tiles| == Cells && 0 <= index < Cells
    ensures found == BlankNeighbour(tiles, index, 0)
  {
    var k := 0;
    while k < 4
      invariant 0 <= k <= 4
      invariant BlankNeighbour(tiles, index, 0) == BlankNeighbour(tiles, index, k)
    {
      var (r, c) := Neighbour(index, k);
      if r >= 0 && r < Side && c >= 0 && c < Side {
        var idx := r * Side + c;
        if tiles[idx] == 0 {
          assert BlankOnBoard(tiles, Neighbour(index, k));
          return Some(idx);
        }
      }
      k := k + 1;
    }
    return None;
  }

  class SlidingPuzzleGame {
    var tiles: seq<int>
    var moves: int

    /** The board always holds 1..15 and the blank, each once; the count never goes negative. */
    predicate Valid()
      reads this
    {
      IsArrangement(tiles) && moves >= 0
    }

    constructor()
      ensures Valid()
      ensures tiles == Solved && moves == 0
    {
      tiles := Solved;
      moves := 0;
      SolvedIsArrangement();
    }

    /**
     * `moveTile`: the neighbours are tried above, below, left, right; the
     * first on the board that holds the blank changes place with the tapped
     * tile and the move counts.  With no blank beside it nothing happens.
     */
    method MoveTile(index: int)
      requires Valid() && 0 <= index < Cells
      modifies this
      ensures Valid()
      ensures BlankNeighbour(old(tiles), index, 0) == None ==> tiles == old(tiles) && moves == old(moves)
      ensures BlankNeighbour(old(tiles), index, 0).Some? ==>
        var j := BlankNeighbour(old(tiles), index, 0).value;
        tiles == SwapAt(old(tiles), index, j) && tiles[index] == 0 && tiles[j] == old(tiles)[index] &&
        moves == old(moves) + 1
    {
      var found := FindBlankNeighbour(tiles, index);
      if found.Some? {
        var idx := found.value;
        BlankNeighbourSound(tiles, index, 0);
        SwapKeepsTiles(tiles, index, idx);
        tiles := tiles[index := tiles[idx]][idx := tiles[index]];
        moves := moves + 1;
      }
    }

    /** `shuffle`: the board takes the given reordering and the count restarts. */
    method Shuffle(order: seq<int>)
      requires Valid() && IsArrangement(order)
      modifies this
      ensures Valid()
      ensures tiles == order && moves == 0
    {
      tiles := order;
      moves := 0;
    }
  }
}

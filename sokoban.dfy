/**
 * Sokoban on a 7×7 board with two boxes.  The player steps onto a free
 * cell, or pushes a box one cell further when that cell is on the board and
 * holds no box; every successful step counts as a move.
 */
module Sokoban {
  import opened Wrappers

  const BoardSize := 7
  const StartPlayer: (int, int) := (2, 2)
  const StartBoxes: seq<(int, int)> := [(3, 2), (3, 3)]
  /** Drawn on the board only: no move reads them and nothing checks for a win. */
  const Targets: seq<(int, int)> := [(4, 2), (4, 3)]

  predicate OnBoard(p: (int, int)) {
    0 <= p.0 < BoardSize && 0 <= p.1 < BoardSize
  }

  /** Boxes on the board, no two on one cell. */
  predicate BoxesOk(boxes: seq<(int, int)>) {
    (forall i :: 0 <= i < |boxes| ==> OnBoard(boxes[i])) &&
    (forall i, j :: 0 <= i < j < |boxes| ==> boxes[i] != boxes[j])
  }

  /** `firstIndex(where: { $0 == p })`. */
  function FirstIndex(boxes: seq<(int, int)>, p: (int, int)): (r: Option<nat>)
    ensures r.None? <==> p !in boxes
    ensures r.Some? ==> r.value < |boxes| && boxes[r.value] == p && p !in boxes[..r.value]
  {
    if |boxes| == 0 then None
    else if boxes[0] == p then Some(0)
    else match FirstIndex(boxes[1..], p)
      case None => None
      case Some(i) =>
        assert boxes[1..][..i] == boxes[1..i + 1];
        Some(i + 1)
  }

  /** One step from p by (dr, dc). */
  function Step(p: (int, int), dr: int, dc: int): (int, int) {
    (p.0 + dr, p.1 + dc)
  }

  /**
   * Moving box i to a free cell on the board keeps the boxes on the board,
   * apart and as many; only box i moves.
   */
  lemma PushKeepsBoxes(boxes: seq<(int, int)>, i: nat, to: (int, int))
    requires BoxesOk(boxes) && i < |boxes| && OnBoard(to) && to !in boxes
    ensures BoxesOk(boxes[i := to]) && |boxes[i := to]| == |boxes|
    ensures boxes[..i] == boxes[i := to][..i] && boxes[i + 1..] == boxes[i := to][i + 1..]
  {
    var b := boxes[i := to];
    forall j, k | 0 <= j < k < |b|
      ensures b[j] != b[k]
    {
      if j == i {
        assert b[k] == boxes[k];
      } else if k == i {
        assert b[j] == boxes[j];
      }
    }
  }

  /**
   * Pushing the box on `target` to `to` moves that box alone: every other
   * box keeps its cell, and no box is left on `target`.
   */
  lemma PushMovesOnlyTarget(boxes: seq<(int, int)>, i: nat, target: (int, int), to: (int, int))
    requires BoxesOk(boxes) && i < |boxes| && boxes[i] == target && to != target
    ensures target !in boxes[i := to]
    ensures forall k :: 0 <= k < |boxes| ==> boxes[i := to][k] == if boxes[k] == target then to else boxes[k]
  {
    var b := boxes[i := to];
    forall k | 0 <= k < |boxes|
      ensures b[k] == if boxes[k] == target then to else boxes[k]
      ensures b[k] != target
    {
      if k != i {
        if k < i {
          assert boxes[k] != boxes[i];
        } else {
          assert boxes[i] != boxes[k];
        }
      }
    }
  }

  class SokobanGame {
    var playerPos: (int, int)
    var boxes: seq<(int, int)>
    var moves: int

    /** The player and both boxes are on the board, the boxes apart, and the player on no box. */
    predicate Valid()
      reads this
    {
      OnBoard(playerPos) && |boxes| == |StartBoxes| && BoxesOk(boxes) &&
      playerPos !in boxes && moves >= 0
    }

    constructor()
      ensures Valid()
      ensures playerPos == StartPlayer && boxes == StartBoxes && moves == 0
    {
      playerPos := StartPlayer;
      boxes := StartBoxes;
      moves := 0;
    }

    /**
     * `move(dr, dc)`: a step off the board changes nothing.  A step onto a
     * box pushes it if the cell beyond is on the board and holds no box,
     * and otherwise changes nothing.  A step onto a free cell is taken.
     */
    method Move(dr: int, dc: int)
      requires Valid()
      modifies this
      ensures Valid()
      ensures var target := Step(old(playerPos), dr, dc);
        var beyond := Step(target, dr, dc);
        if !OnBoard(target) || (target in old(boxes) && (!OnBoard(beyond) || beyond in old(boxes))) then
          playerPos == old(playerPos) && boxes == old(boxes) && moves == old(moves)
        else
          playerPos == target && moves == old(moves) + 1 &&
          |boxes| == |old(boxes)| &&
          forall i :: 0 <= i < |boxes| ==> boxes[i] == if old(boxes)[i] == target then beyond else old(boxes)[i]
    {
      var newPos := (playerPos.0 + dr, playerPos.1 + dc);
      if newPos.0 < 0 || newPos.0 >= BoardSize || newPos.1 < 0 || newPos.1 >= BoardSize {
        return;
      }
      var boxIdx := FirstIndex(boxes, newPos);
      if boxIdx.Some? {
        var i := boxIdx.value;
        var newBoxPos := (newPos.0 + dr, newPos.1 + dc);
        if newBoxPos.0 >= 0 && newBoxPos.0 < BoardSize && newBoxPos.1 >= 0 && newBoxPos.1 < BoardSize &&
           newBoxPos !in boxes {
          PushKeepsBoxes(boxes, i, newBoxPos);
          PushMovesOnlyTarget(boxes, i, newPos, newBoxPos);
          boxes := boxes[i := newBoxPos];
          playerPos := newPos;
          moves := moves + 1;
        }
      } else {
        playerPos := newPos;
        moves := moves + 1;
      }
    }
  }
}

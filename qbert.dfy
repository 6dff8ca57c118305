/**
 * Q*bert on 28 cubes numbered 0 to 27.  A move by ±1 or ±7 that stays on
 * the cubes lands there, and a cube landed on for the first time changes
 * colour and scores 10.
 */
module QBert {

  const CubeCount := 28
  const PointsPerCube := 10

  /** Number of coloured cubes. */
  function Coloured(s: seq<bool>): (n: nat)
    ensures n <= |s|
  {
    if |s| == 0 then 0 else Coloured(s[..|s| - 1]) + (if s[|s| - 1] then 1 else 0)
  }

  /** No cube coloured, no count. */
  lemma {:induction false} NoneColoured(s: seq<bool>)
    requires forall i :: 0 <= i < |s| ==> !s[i]
    ensures Coloured(s) == 0
  {
    if |s| > 0 {
      NoneColoured(s[..|s| - 1]);
    }
  }

  /** Colouring one more cube adds exactly one; colouring a coloured cube adds nothing. */
  lemma {:induction false} ColourOne(s: seq<bool>, i: nat)
    requires i < |s|
    ensures Coloured(s[i := true]) == Coloured(s) + (if s[i] then 0 else 1)
    decreases |s|
  {
    var t := s[i := true];
    if i < |s| - 1 {
      assert t[..|t| - 1] == s[..|s| - 1][i := true];
      ColourOne(s[..|s| - 1], i);
    } else {
      assert t[..|t| - 1] == s[..|s| - 1];
    }
  }

  class QBertGame {
    var playerPos: int
    var cubes: array<bool>
    var score: int

    /** Q*bert stands on a cube and the score is 10 per coloured cube. */
    predicate Valid()
      reads this, cubes
    {
      cubes.Length == CubeCount && 0 <= playerPos < CubeCount &&
      score == PointsPerCube * Coloured(cubes[..])
    }

    constructor()
      ensures Valid() && fresh(cubes)
      ensures playerPos == 0 && score == 0 && forall i :: 0 <= i < CubeCount ==> !cubes[i]
    {
      playerPos := 0;
      cubes := new bool[CubeCount](_ => false);
      score := 0;
      new;
      NoneColoured(cubes[..]);
    }

    /**
     * `move`: a target off the cubes is ignored; otherwise Q*bert lands
     * there, colouring the cube and scoring 10 if it was not yet coloured.
     */
    method Move(delta: int)
      requires Valid()
      modifies this, cubes
      ensures Valid() && cubes == old(cubes)
      ensures var target := old(playerPos) + delta;
        if 0 <= target < CubeCount then
          playerPos == target && cubes[..] == old(cubes[..])[target := true] &&
          score == old(score) + (if old(cubes[target]) then 0 else PointsPerCube)
        else
          playerPos == old(playerPos) && cubes[..] == old(cubes[..]) && score == old(score)
    {
      var newPos := playerPos + delta;
      if newPos >= 0 && newPos < CubeCount {
        playerPos := newPos;
        if !cubes[playerPos] {
          ColourOne(cubes[..], playerPos);
          cubes[playerPos] := true;
          score := score + PointsPerCube;
        } else {
          assert cubes[..][playerPos := true] == cubes[..];
        }
      }
    }
  }
}

/**
 * Whack-a-Mole: nine holes, a 30-second round.  Tapping a raised mole scores
 * and lowers it; every 0.8 s a mole rises in a random lowered hole and drops
 * again 1.5 s later.  The random hole is an input; the timers become the
 * events `Tick`, `SpawnMole` and `Despawn`.
 */
module WhackAMole {

  const Holes := 9
  const RoundSeconds := 30

  /** `moles.indices.filter { !moles[$0] }`: the lowered holes, in order. */
  function DownHoles(moles: seq<bool>): (d: seq<int>)
    ensures |d| <= |moles|
  {
    if |moles| == 0 then []
    else DownHoles(moles[..|moles| - 1]) + (if moles[|moles| - 1] then [] else [|moles| - 1])
  }

  /** The number of raised moles. */
  function Raised(moles: seq<bool>): nat {
    if |moles| == 0 then 0
    else Raised(moles[..|moles| - 1]) + (if moles[|moles| - 1] then 1 else 0)
  }

  /** The lowered holes are listed exactly, once each, in increasing order. */
  lemma {:induction false} DownHolesExact(moles: seq<bool>)
    ensures forall k :: k in DownHoles(moles) <==> 0 <= k < |moles| && !moles[k]
    ensures forall i, j :: 0 <= i < j < |DownHoles(moles)| ==> DownHoles(moles)[i] < DownHoles(moles)[j]
  {
    if |moles| > 0 {
      var init := moles[..|moles| - 1];
      DownHolesExact(init);
      forall k | 0 <= k < |init|
        ensures init[k] == moles[k]
      {
      }
      var d := DownHoles(init);
      forall i | 0 <= i < |d|
        ensures d[i] < |init|
      {
        assert d[i] in d;
      }
    }
  }

  /** Every hole is lowered or raised. */
  lemma {:induction false} DownPlusRaised(moles: seq<bool>)
    ensures |DownHoles(moles)| + Raised(moles) == |moles|
  {
    if |moles| > 0 {
      DownPlusRaised(moles[..|moles| - 1]);
    }
  }

  /** Changing one hole from lowered to raised adds one raised mole, and back again removes one. */
  lemma {:induction false} RaiseOne(moles: seq<bool>, h: int, up: bool)
    requires 0 <= h < |moles| && moles[h] != up
    ensures Raised(moles[h := up]) == if up then Raised(moles) + 1 else Raised(moles) - 1
  {
    var n := |moles| - 1;
    var m := moles[h := up];
    assert m[..n] == if h < n then moles[..n][h := up] else moles[..n];
    if h < n {
      RaiseOne(moles[..n], h, up);
    }
  }

  class WhackAMoleGame {
    var moles: seq<bool>
    var score: int
    var timeLeft: int
    var gameActive: bool

    /** Nine holes; the clock runs from 30 down and the round is live only while time is left. */
    predicate Valid()
      reads this
    {
      |moles| == Holes && 0 <= timeLeft <= RoundSeconds && (gameActive ==> timeLeft > 0)
    }

    constructor()
      ensures Valid()
      ensures moles == seq(Holes, _ => false) && score == 0 && timeLeft == RoundSeconds && !gameActive
    {
      moles := seq(Holes, _ => false);
      score := 0;
      timeLeft := RoundSeconds;
      gameActive := false;
    }

    /** `startGame`: all holes lowered, no score, a full round. */
    method StartGame()
      modifies this
      ensures Valid()
      ensures moles == seq(Holes, _ => false) && Raised(moles) == 0 && score == 0 && timeLeft == RoundSeconds && gameActive
    {
      moles := seq(Holes, _ => false);
      score := 0;
      timeLeft := RoundSeconds;
      gameActive := true;
      NoneRaised(moles);
    }

    /** A tap on hole `index`: a raised mole scores one point and goes down; an empty hole does nothing. */
    method Tap(index: int)
      requires Valid() && gameActive && 0 <= index < Holes
      modifies this
      ensures Valid()
      ensures timeLeft == old(timeLeft) && gameActive == old(gameActive)
      ensures old(moles[index]) ==>
        moles == old(moles)[index := false] && score == old(score) + 1 && Raised(moles) == Raised(old(moles)) - 1
      ensures !old(moles[index]) ==> moles == old(moles) && score == old(score)
    {
      if moles[index] {
        RaiseOne(moles, index, false);
        score := score + 1;
        moles := moles[index := false];
      }
    }

    /**
     * `spawnMole`: the lowered holes are collected in order and the one at
     * `pick` (modulo their number) rises; with every mole up nothing happens.
     */
    method SpawnMole(pick: nat)
      requires Valid() && gameActive
      modifies this
      ensures Valid()
      ensures score == old(score) && timeLeft == old(timeLeft) && gameActive == old(gameActive)
      ensures |DownHoles(old(moles))| == 0 ==> moles == old(moles)
      ensures |DownHoles(old(moles))| > 0 ==>
        var hole := DownHoles(old(moles))[pick % |DownHoles(old(moles))|];
        0 <= hole < Holes && !old(moles)[hole] && moles == old(moles)[hole := true] && Raised(moles) == Raised(old(moles)) + 1
    {
      var available: seq<int> := [];
      var k := 0;
      while k < Holes
        invariant 0 <= k <= Holes
        invariant available == DownHoles(moles[..k])
      {
        assert moles[..k + 1][..k] == moles[..k];
        if !moles[k] {
          available := available + [k];
        }
        k := k + 1;
      }
      assert moles[..Holes] == moles;
      if |available| > 0 {
        var hole := available[pick % |available|];
        DownHolesExact(moles);
        assert hole in available;
        RaiseOne(moles, hole, true);
        moles := moles[hole := true];
      }
    }

    /** The 1.5-second callback of `spawnMole`: hole `hole` goes down whatever happened meanwhile. */
    method Despawn(hole: int)
      requires Valid() && 0 <= hole < Holes
      modifies this
      ensures Valid()
      ensures moles == old(moles)[hole := false]
      ensures score == old(score) && timeLeft == old(timeLeft) && gameActive == old(gameActive)
    {
      moles := moles[hole := false];
    }

    /** The one-second timer: a live round loses a second and ends when none is left. */
    method Tick()
      requires Valid()
      modifies this
      ensures Valid()
      ensures moles == old(moles) && score == old(score)
      ensures old(gameActive) ==> timeLeft == old(timeLeft) - 1 && gameActive == (timeLeft > 0)
      ensures !old(gameActive) ==> timeLeft == old(timeLeft) && !gameActive
    {
      if gameActive {
        timeLeft := timeLeft - 1;
        if timeLeft <= 0 {
          gameActive := false;
        }
      }
    }
  }

  /** With no mole up, none is counted. */
  lemma {:induction false} NoneRaised(moles: seq<bool>)
    requires forall k :: 0 <= k < |moles| ==> !moles[k]
    ensures Raised(moles) == 0
  {
    if |moles| > 0 {
      NoneRaised(moles[..|moles| - 1]);
    }
  }
}

/**
 * Color Match: the player taps the palette colour equal to the target.  A
 * match scores and deals a new round; a miss costs one of three lives, and
 * the game stops when none is left.  The random colours of a round are inputs.
 */
module ColorMatch {

  datatype Colour = Red | Blue | Green | Yellow | Purple | Orange

  const Palette: seq<Colour> := [Red, Blue, Green, Yellow, Purple, Orange]
  const StartLives := 3

  /** Every colour a round can deal or the player can tap is on the palette. */
  lemma PaletteIsComplete(c: Colour)
    ensures c in Palette
  {
  }

  /** The number of matches in a history of selections. */
  function Hits(history: seq<bool>): (n: nat)
    ensures n <= |history|
  {
    if history == [] then 0 else Hits(history[..|history| - 1]) + (if history[|history| - 1] then 1 else 0)
  }

  /** The number of misses in a history of selections. */
  function Misses(history: seq<bool>): (n: nat)
    ensures n <= |history|
  {
    if history == [] then 0 else Misses(history[..|history| - 1]) + (if history[|history| - 1] then 0 else 1)
  }

  /** Every selection is a match or a miss. */
  lemma {:induction false} HitsPlusMisses(history: seq<bool>)
    ensures Hits(history) + Misses(history) == |history|
  {
    if history != [] {
      HitsPlusMisses(history[..|history| - 1]);
    }
  }

  class ColorMatchGame {
    var targetColor: Colour
    var currentColor: Colour
    var score: int
    var gameStarted: bool
    var lives: int
    /** The selections of the current game, true for a match. */
    ghost var history: seq<bool>

    /** The score counts the matches and the lives the misses left to make; a running game has a life. */
    ghost predicate Valid()
      reads this
    {
      score == Hits(history) && lives == StartLives - Misses(history) && 0 <= lives && (gameStarted ==> lives > 0)
    }

    constructor()
      ensures Valid()
      ensures targetColor == Red && currentColor == Blue && score == 0 && !gameStarted && lives == StartLives
    {
      targetColor := Red;
      currentColor := Blue;
      score := 0;
      gameStarted := false;
      lives := StartLives;
      history := [];
    }

    /** `startGame`: three lives, no score, and a first round dealt. */
    method StartGame(target: Colour, current: Colour)
      modifies this
      ensures Valid()
      ensures score == 0 && lives == StartLives && gameStarted
      ensures targetColor == target && currentColor == current && history == []
    {
      score := 0;
      lives := StartLives;
      history := [];
      gameStarted := true;
      NewRound(target, current);
    }

    /** `newRound`: a fresh target and a fresh colour to show beside it. */
    method NewRound(target: Colour, current: Colour)
      modifies this
      ensures targetColor == target && currentColor == current
      ensures score == old(score) && lives == old(lives) && gameStarted == old(gameStarted) && history == old(history)
    {
      targetColor := target;
      currentColor := current;
    }

    /**
     * `selectColor`: the target scores a point and deals the next round; any
     * other colour costs a life, and the last life ends the game.
     */
    method SelectColor(colour: Colour, nextTarget: Colour, nextCurrent: Colour)
      requires Valid() && gameStarted
      modifies this
      ensures Valid()
      ensures history == old(history) + [colour == old(targetColor)]
      ensures colour == old(targetColor) ==>
        score == old(score) + 1 && lives == old(lives) && gameStarted &&
        targetColor == nextTarget && currentColor == nextCurrent
      ensures colour != old(targetColor) ==>
        score == old(score) && lives == old(lives) - 1 && gameStarted == (lives > 0) &&
        targetColor == old(targetColor) && currentColor == old(currentColor)
    {
      ghost var h := history;
      history := history + [colour == targetColor];
      assert history[..|history| - 1] == h;
      if colour == targetColor {
        score := score + 1;
        NewRound(nextTarget, nextCurrent);
      } else {
        lives := lives - 1;
        if lives == 0 {
          gameStarted := false;
        }
      }
    }
  }

  /**
   * A game always ends after its third miss, however many matches came
   * between: a running game has missed at most twice, and every selection
   * but three at most has scored.
   */
  lemma GameLastsThreeMisses(g: ColorMatchGame)
    requires g.Valid()
    ensures Misses(g.history) <= StartLives && (g.gameStarted ==> Misses(g.history) < StartLives)
    ensures |g.history| <= g.score + StartLives
  {
    HitsPlusMisses(g.history);
  }
}

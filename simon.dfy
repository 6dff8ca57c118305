/**
 * Simon Says: the game plays a growing sequence of the four buttons; the
 * player repeats it.  A wrong button ends the game; completing the sequence
 * scores a point, and half a second later one more random button is added.
 * The random button is an input; the timers of `showSequence` become the
 * events `SequenceShown` and `AddToSequence`.
 */
module Simon {

  const Buttons := 4

  /** How a tap reads against the sequence. */
  datatype TapResult = Ignored | PastEnd | Wrong | Right(roundComplete: bool)

  /**
   * `buttonTapped` as written: between a completed round and the delayed
   * `addToSequence`, a tap is not ignored and reads one place past the end of
   * the sequence.
   */
  function TapAsWritten(showing: bool, sequence: seq<int>, input: seq<int>, button: int): TapResult {
    if showing then Ignored
    else if |input| >= |sequence| then PastEnd
    else if button != sequence[|input|] then Wrong
    else Right(|input| + 1 == |sequence|)
  }

  /** `buttonTapped` with the round-complete guard: a tap with nothing left to repeat is ignored. */
  function Tap(showing: bool, sequence: seq<int>, input: seq<int>, button: int): TapResult {
    if showing || |input| >= |sequence| then Ignored
    else if button != sequence[|input|] then Wrong
    else Right(|input| + 1 == |sequence|)
  }

  predicate IsPrefix(p: seq<int>, s: seq<int>) {
    |p| <= |s| && p == s[..|p|]
  }

  /** The extra tap of a completed one-button round reads past the end. */
  lemma ExtraTapReadsPastEnd()
    ensures TapAsWritten(false, [2], [2], 0) == PastEnd
  {
  }

  /** Wherever the code as written stays inside the sequence, the guarded tap agrees with it. */
  lemma TapAgreesInsideSequence(showing: bool, sequence: seq<int>, input: seq<int>, button: int)
    requires TapAsWritten(showing, sequence, input, button) != PastEnd
    ensures Tap(showing, sequence, input, button) == TapAsWritten(showing, sequence, input, button)
  {
  }

  /**
   * A tap is right exactly when the input extended by it is still a prefix of
   * the sequence, and it completes the round exactly when it reaches the end.
   */
  lemma TapFollowsSequence(sequence: seq<int>, input: seq<int>, button: int)
    requires IsPrefix(input, sequence) && |input| < |sequence|
    ensures Tap(false, sequence, input, button) != Ignored
    ensures Tap(false, sequence, input, button).Right? <==> IsPrefix(input + [button], sequence)
    ensures Tap(false, sequence, input, button) == Right(true) <==> input + [button] == sequence
  {
    var n := |input|;
    if button == sequence[n] {
      assert sequence[..n + 1] == sequence[..n] + [sequence[n]];
    } else {
      assert (input + [button])[n] != sequence[..n + 1][n];
    }
    if input + [button] == sequence {
      assert |sequence| == n + 1 && sequence[n] == button;
    }
  }

  class SimonGame {
    var sequence: seq<int>
    var playerInput: seq<int>
    var score: int
    var gameOver: bool
    var gameStarted: bool
    var showingSequence: bool

    /**
     * Buttons are 0..3; while the game runs the input repeats the start of the
     * sequence, and every completed round has scored: the sequence is one
     * button longer than the score, or exactly as long with the round just
     * completed.
     */
    predicate Valid()
      reads this
    {
      (forall k :: 0 <= k < |sequence| ==> 0 <= sequence[k] < Buttons) &&
      |playerInput| <= |sequence| &&
      (!gameOver ==> IsPrefix(playerInput, sequence)) &&
      (!gameOver ==> |sequence| == score + 1 || (|sequence| == score && playerInput == sequence))
    }

    constructor()
      ensures Valid()
      ensures sequence == [] && playerInput == [] && score == 0 && !gameOver && !gameStarted && !showingSequence
    {
      sequence := [];
      playerInput := [];
      score := 0;
      gameOver := false;
      gameStarted := false;
      showingSequence := false;
    }

    /** `startGame`: a fresh game whose sequence is the one random button `first`. */
    method StartGame(first: int)
      requires 0 <= first < Buttons
      modifies this
      ensures Valid()
      ensures sequence == [first] && playerInput == [] && score == 0 && !gameOver && gameStarted && showingSequence
    {
      sequence := [];
      playerInput := [];
      score := 0;
      gameOver := false;
      gameStarted := true;
      AddToSequence(first);
    }

    /** `addToSequence`: runs once a round is complete; the new button is played back. */
    method AddToSequence(button: int)
      requires Valid() && 0 <= button < Buttons
      requires playerInput == sequence && |sequence| == score
      modifies this
      ensures Valid()
      ensures sequence == old(sequence) + [button] && playerInput == [] && showingSequence
      ensures score == old(score) && gameOver == old(gameOver) && gameStarted == old(gameStarted)
    {
      sequence := sequence + [button];
      playerInput := [];
      showingSequence := true;
    }

    /** The last timer of `showSequence`: the buttons accept input again. */
    method SequenceShown()
      modifies this
      ensures !showingSequence
      ensures sequence == old(sequence) && playerInput == old(playerInput) && score == old(score)
      ensures gameOver == old(gameOver) && gameStarted == old(gameStarted)
    {
      showingSequence := false;
    }

    /**
     * `buttonTapped`, with a tap after a completed round ignored: a wrong
     * button ends the game, a right one extends the input and scores when it
     * completes the round.
     */
    method ButtonTapped(button: int)
      requires Valid() && 0 <= button < Buttons && gameStarted && !gameOver
      modifies this
      ensures Valid()
      ensures sequence == old(sequence) && showingSequence == old(showingSequence) && gameStarted == old(gameStarted)
      ensures Tap(old(showingSequence), sequence, old(playerInput), button) == Ignored ==>
        playerInput == old(playerInput) && score == old(score) && !gameOver
      ensures Tap(old(showingSequence), sequence, old(playerInput), button) == Wrong ==>
        playerInput == old(playerInput) + [button] && score == old(score) && gameOver
      ensures Tap(old(showingSequence), sequence, old(playerInput), button) == Right(false) ==>
        playerInput == old(playerInput) + [button] && score == old(score) && !gameOver
      ensures Tap(old(showingSequence), sequence, old(playerInput), button) == Right(true) ==>
        playerInput == sequence && score == old(score) + 1 && !gameOver
    {
      if showingSequence || |playerInput| >= |sequence| {
        return;
      }
      ghost var input := playerInput;
      playerInput := playerInput + [button];
      if playerInput[|playerInput| - 1] != sequence[|playerInput| - 1] {
        gameOver := true;
        return;
      }
      TapFollowsSequence(sequence, input, button);
      if |playerInput| == |sequence| {
        score := score + 1;
      }
    }
  }
}

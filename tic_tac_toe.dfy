/**
 * Tic-tac-toe on a board of nine cells, numbered row by row.  The marks
 * `""`, `"X"` and `"O"` of the board become the constructors of `Mark`, and
 * the status text `"X Wins!"` / `"O Wins!"` / `"Draw!"` becomes a `Verdict`.
 */
module TicTacToe {
  import opened Wrappers

  datatype Mark = Blank | X | O
  datatype Verdict = Wins(mark: Mark) | Draw

  const Cells := 9
  const LineCount := 8

  /** The eight winning lines: three rows, three columns, two diagonals, in the order they are checked. */
  function Line(j: int): (w: (int, int, int))
    requires 0 <= j < LineCount
    ensures 0 <= w.0 < Cells && 0 <= w.1 < Cells && 0 <= w.2 < Cells
    ensures w.0 != w.1 && w.1 != w.2 && w.0 != w.2
  {
    if j == 0 then (0, 1, 2) else if j == 1 then (3, 4, 5) else if j == 2 then (6, 7, 8)
    else if j == 3 then (0, 3, 6) else if j == 4 then (1, 4, 7) else if j == 5 then (2, 5, 8)
    else if j == 6 then (0, 4, 8) else (2, 4, 6)
  }

  /** Line j holds three equal marks that are not blank. */
  predicate Complete(b: seq<Mark>, j: int)
    requires |b| == Cells && 0 <= j < LineCount
  {
    var w := Line(j);
    b[w.0] != Blank && b[w.0] == b[w.1] && b[w.1] == b[w.2]
  }

  /** The mark of the first complete line from line k on, if any. */
  function FirstWin(b: seq<Mark>, k: nat): Option<Mark>
    requires |b| == Cells && k <= LineCount
    decreases LineCount - k
  {
    if k == LineCount then None
    else if Complete(b, k) then Some(b[Line(k).0])
    else FirstWin(b, k + 1)
  }

  /** What `checkWinner` decides from a board, given the verdict standing before it. */
  function Judge(b: seq<Mark>, standing: Option<Verdict>): Option<Verdict>
    requires |b| == Cells
  {
    match FirstWin(b, 0)
    case Some(m) => Some(Wins(m))
    case None => if Blank !in b then Some(Draw) else standing
  }

  /** The mark of the player to move. */
  function Mover(isXTurn: bool): Mark {
    if isXTurn then X else O
  }

  /** How many cells of `b` hold `m`. */
  function Count(b: seq<Mark>, m: Mark): nat {
    if b == [] then 0 else Count(b[..|b| - 1], m) + (if b[|b| - 1] == m then 1 else 0)
  }

  /** A reported win names the mark of a complete line. */
  lemma {:induction false} FirstWinSound(b: seq<Mark>, k: nat)
    requires |b| == Cells && k <= LineCount && FirstWin(b, k).Some?
    decreases LineCount - k
    ensures exists j :: k <= j < LineCount && Complete(b, j) && b[Line(j).0] == FirstWin(b, k).value
  {
    if !Complete(b, k) {
      FirstWinSound(b, k + 1);
    }
  }

  /** No win is reported exactly when no line from k on is complete. */
  lemma {:induction false} FirstWinNone(b: seq<Mark>, k: nat)
    requires |b| == Cells && k <= LineCount
    ensures FirstWin(b, k) == None <==> forall j :: k <= j < LineCount ==> !Complete(b, j)
    decreases LineCount - k
  {
    if k < LineCount {
      FirstWinNone(b, k + 1);
    }
  }

  /**
   * `checkWinner` declares a win exactly when some line is complete, naming
   * that line's mark, and a draw only on a full board with no complete line.
   */
  lemma JudgeMeaning(b: seq<Mark>)
    requires |b| == Cells
    ensures (exists j :: 0 <= j < LineCount && Complete(b, j)) <==> Judge(b, None).Some? && Judge(b, None).value.Wins?
    ensures Judge(b, None).Some? && Judge(b, None).value.Wins? ==>
      exists j :: 0 <= j < LineCount && Complete(b, j) && b[Line(j).0] == Judge(b, None).value.mark
    ensures Judge(b, None) == Some(Draw) <==> Blank !in b && forall j :: 0 <= j < LineCount ==> !Complete(b, j)
    ensures Judge(b, None) == None <==> Blank in b && forall j :: 0 <= j < LineCount ==> !Complete(b, j)
  {
    FirstWinNone(b, 0);
    if FirstWin(b, 0).Some? {
      FirstWinSound(b, 0);
    }
  }

  /** Placing a mark on a blank cell counts it once and leaves the other counts alone. */
  lemma {:induction false} CountPlace(b: seq<Mark>, i: int, m: Mark, other: Mark)
    requires 0 <= i < |b| && b[i] == Blank && m != Blank && other != m
    ensures Count(b[i := m], m) == Count(b, m) + 1
    ensures Count(b[i := m], other) == Count(b, other) - (if other == Blank then 1 else 0)
  {
    var n := |b| - 1;
    assert b[i := m][..n] == if i < n then b[..n][i := m] else b[..n];
    if i < n {
      CountPlace(b[..n], i, m, other);
    }
  }

  /** On a board with no complete line, a move can complete only lines through its own cell, so only the mover can win. */
  lemma OnlyMoverCanWin(b: seq<Mark>, i: int, m: Mark)
    requires |b| == Cells && 0 <= i < Cells && m != Blank
    requires FirstWin(b, 0) == None
    ensures FirstWin(b[i := m], 0) == None || FirstWin(b[i := m], 0) == Some(m)
  {
    var a := b[i := m];
    if FirstWin(a, 0).Some? {
      FirstWinSound(a, 0);
      FirstWinNone(b, 0);
      var j :| 0 <= j < LineCount && Complete(a, j) && a[Line(j).0] == FirstWin(a, 0).value;
      assert !Complete(b, j);
    }
  }

  /** An empty board has no complete line. */
  lemma EmptyBoardUndecided()
    ensures FirstWin(seq(Cells, _ => Blank), 0) == None
  {
    var b: seq<Mark> := seq(Cells, _ => Blank);
    FirstWinNone(b, 0);
  }

  class TicTacToeGame {
    var board: seq<Mark>
    var isXTurn: bool
    var winner: Option<Verdict>

    /**
     * Nine cells; X moves first, so X holds as many marks as O when it is X's
     * turn and one more otherwise; while there is no verdict, no line is
     * complete and a cell is free.
     */
    predicate Valid()
      reads this
    {
      |board| == Cells &&
      Count(board, X) == Count(board, O) + (if isXTurn then 0 else 1) &&
      (winner == None ==> FirstWin(board, 0) == None && Blank in board)
    }

    constructor()
      ensures Valid()
      ensures board == seq(Cells, _ => Blank) && isXTurn && winner == None
    {
      board := seq(Cells, _ => Blank);
      isXTurn := true;
      winner := None;
      new;
      Reset();
    }

    /** `reset`: an empty board, X to move, no verdict. */
    method Reset()
      modifies this
      ensures Valid()
      ensures board == seq(Cells, _ => Blank) && isXTurn && winner == None
    {
      board := seq(Cells, _ => Blank);
      isXTurn := true;
      winner := None;
      EmptyBoardUndecided();
      NoMarks(board);
      assert board[0] == Blank;
    }

    /**
     * `makeMove`: ignored on a marked cell or once there is a verdict;
     * otherwise the mover's mark goes on the cell, the board is judged and the
     * turn passes.  A win that results is always the mover's.
     */
    method MakeMove(index: int)
      requires Valid() && 0 <= index < Cells
      modifies this
      ensures Valid()
      ensures old(board[index]) != Blank || old(winner) != None ==>
        board == old(board) && isXTurn == old(isXTurn) && winner == old(winner)
      ensures old(board[index]) == Blank && old(winner) == None ==>
        board == old(board)[index := Mover(old(isXTurn))] && isXTurn == !old(isXTurn) &&
        winner == Judge(board, None) &&
        (winner == None || winner == Some(Draw) || winner == Some(Wins(Mover(old(isXTurn)))))
    {
      if board[index] != Blank || winner != None {
        return;
      }
      var m := Mover(isXTurn);
      CountPlace(board, index, m, if m == X then O else X);
      OnlyMoverCanWin(board, index, m);
      board := board[index := m];
      CheckWinner();
      isXTurn := !isXTurn;
    }

    /**
     * `checkWinner`: the lines are tried in order and the first complete one
     * names the winner; failing that, a full board is a draw and any other
     * board leaves the verdict as it stands.
     */
    method CheckWinner()
      requires |board| == Cells
      modifies this
      ensures board == old(board) && isXTurn == old(isXTurn)
      ensures winner == Judge(board, old(winner))
    {
      var j := 0;
      while j < LineCount
        invariant 0 <= j <= LineCount
        invariant FirstWin(board, 0) == FirstWin(board, j)
        invariant winner == old(winner)
      {
        var w := Line(j);
        if board[w.0] != Blank && board[w.0] == board[w.1] && board[w.1] == board[w.2] {
          winner := Some(Wins(board[w.0]));
          return;
        }
        j := j + 1;
      }
      if Blank !in board {
        winner := Some(Draw);
      }
    }
  }

  /** A board of blanks holds no X and no O. */
  lemma {:induction false} NoMarks(b: seq<Mark>)
    requires forall k :: 0 <= k < |b| ==> b[k] == Blank
    ensures Count(b, X) == 0 && Count(b, O) == 0
  {
    if b != [] {
      NoMarks(b[..|b| - 1]);
    }
  }
}

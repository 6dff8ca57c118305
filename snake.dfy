/**
 * Snake on a 20×20 grid.  The snake is a list of (x, y) cells, head first;
 * each tick it moves one cell in its direction, dies on a wall or on itself,
 * and grows by one when it eats the food.  The cells drawn at random for new
 * food are an input.
 */
module Snake {

  const GridSize := 20
  const PointsPerFood := 10
  const Start: (int, int) := (10, 10)
  const FirstFood: (int, int) := (15, 15)

  datatype Direction = Up | Down | Left | Right

  /** The direction straight back. */
  function Reverse(d: Direction): Direction {
    match d
    case Up => Down
    case Down => Up
    case Left => Right
    case Right => Left
  }

  /** `changeDirection`'s four refused pairs: a request straight back. */
  predicate Opposite(current: Direction, requested: Direction) {
    (current, requested) in {(Up, Down), (Down, Up), (Left, Right), (Right, Left)}
  }

  /** The cell one step from p in direction d; y grows downwards. */
  function Ahead(p: (int, int), d: Direction): (int, int) {
    match d
    case Up => (p.0, p.1 - 1)
    case Down => (p.0, p.1 + 1)
    case Left => (p.0 - 1, p.1)
    case Right => (p.0 + 1, p.1)
  }

  predicate InGrid(p: (int, int)) {
    0 <= p.0 < GridSize && 0 <= p.1 < GridSize
  }

  /** q is one step from p in some direction. */
  predicate Touching(p: (int, int), q: (int, int)) {
    q == Ahead(p, Up) || q == Ahead(p, Down) || q == Ahead(p, Left) || q == Ahead(p, Right)
  }

  /** Every segment on the grid, no cell twice, each segment one step from the next. */
  predicate IsBody(s: seq<(int, int)>) {
    (forall i :: 0 <= i < |s| ==> InGrid(s[i])) &&
    (forall i, j :: 0 <= i < j < |s| ==> s[i] != s[j]) &&
    (forall i :: 0 < i < |s| ==> Touching(s[i - 1], s[i]))
  }

  /** A refused request is exactly a request to reverse. */
  lemma OppositeIsReverse(current: Direction, requested: Direction)
    ensures Opposite(current, requested) <==> requested == Reverse(current)
  {
  }

  /** Two steps, the second straight back, return to the start; different directions lead to different cells. */
  lemma AheadFacts(p: (int, int), d: Direction, e: Direction)
    ensures Ahead(Ahead(p, d), Reverse(d)) == p
    ensures Ahead(p, d) == Ahead(p, e) ==> d == e
    ensures Ahead(p, d) != p
  {
  }

  /**
   * The retry loop of `spawnFood`: draws are taken in turn until one misses
   * the snake.  The food is the first such draw.
   */
  method PickFood(snake: seq<(int, int)>, draws: seq<(int, int)>) returns (food: (int, int))
    requires forall k :: 0 <= k < |draws| ==> InGrid(draws[k])
    requires exists k :: 0 <= k < |draws| && draws[k] !in snake
    ensures InGrid(food) && food !in snake
    ensures exists k :: 0 <= k < |draws| && food == draws[k] && forall i :: 0 <= i < k ==> draws[i] in snake
  {
    var k := 0;
    food := draws[0];
    while food in snake
      invariant 0 <= k < |draws| && food == draws[k]
      invariant forall i :: 0 <= i < k ==> draws[i] in snake
      invariant exists m :: k <= m < |draws| && draws[m] !in snake
      decreases |draws| - k
    {
      k := k + 1;
      food := draws[k];
    }
  }

  class SnakeGame {
    var snake: seq<(int, int)>
    var food: (int, int)
    var direction: Direction
    var nextDirection: Direction
    var score: int
    var gameOver: bool
    var gameStarted: bool

    /**
     * The snake is a connected body on the grid, while the game runs its
     * neck lies straight back from the head, the queued direction never reverses the current
     * one, the food lies on a free cell, and every segment beyond the first
     * was paid for with 10 points.
     */
    predicate Valid()
      reads this
    {
      |snake| >= 1 && IsBody(snake) &&
      (!gameOver && |snake| >= 2 ==> snake[1] == Ahead(snake[0], Reverse(direction))) &&
      !Opposite(direction, nextDirection) &&
      InGrid(food) && food !in snake &&
      score == PointsPerFood * (|snake| - 1)
    }

    constructor()
      ensures Valid()
      ensures snake == [Start] && food == FirstFood && direction == Right && nextDirection == Right
      ensures score == 0 && !gameOver && !gameStarted
    {
      snake := [Start];
      food := FirstFood;
      direction := Right;
      nextDirection := Right;
      score := 0;
      gameOver := false;
      gameStarted := false;
    }

    /** `startGame`: one segment at (10, 10), heading right, no score, and new food. */
    method StartGame(draws: seq<(int, int)>)
      requires forall k :: 0 <= k < |draws| ==> InGrid(draws[k])
      requires exists k :: 0 <= k < |draws| && draws[k] !in [Start]
      modifies this
      ensures Valid() && gameStarted && !gameOver
      ensures snake == [Start] && direction == Right && nextDirection == Right && score == 0
      ensures food != Start && food in draws
    {
      snake := [Start];
      direction := Right;
      nextDirection := Right;
      score := 0;
      gameOver := false;
      gameStarted := true;
      food := PickFood(snake, draws);
    }

    /** `changeDirection`: a request straight back is ignored; any other is queued for the next tick. */
    method ChangeDirection(newDirection: Direction)
      requires Valid()
      modifies this
      ensures Valid()
      ensures nextDirection == if newDirection == Reverse(direction) then old(nextDirection) else newDirection
      ensures snake == old(snake) && food == old(food) && direction == old(direction) && score == old(score)
      ensures gameOver == old(gameOver) && gameStarted == old(gameStarted)
    {
      OppositeIsReverse(direction, newDirection);
      if Opposite(direction, newDirection) {
        return;
      }
      nextDirection := newDirection;
    }

    /**
     * `updateGame`: the queued direction takes effect and the head moves one
     * cell.  Off the grid or onto any segment, the tail included, the game is
     * over and the snake stays.  Onto the food the snake grows, scores 10 and
     * new food is drawn; otherwise the tail follows.
     */
    method UpdateGame(draws: seq<(int, int)>)
      requires Valid() && gameStarted && !gameOver
      requires forall k :: 0 <= k < |draws| ==> InGrid(draws[k])
      requires exists k :: 0 <= k < |draws| && draws[k] !in [Ahead(snake[0], nextDirection)] + snake
      modifies this
      ensures Valid() && gameStarted && direction == old(nextDirection) && nextDirection == old(nextDirection)
      ensures var head := Ahead(old(snake)[0], direction);
        if !InGrid(head) || head in old(snake) then
          gameOver && snake == old(snake) && score == old(score) && food == old(food)
        else if head == old(food) then
          !gameOver && snake == [head] + old(snake) && score == old(score) + PointsPerFood && food in draws
        else
          !gameOver && snake == [head] + old(snake)[..|old(snake)| - 1] && score == old(score) && food == old(food)
    {
      direction := nextDirection;
      var head := Ahead(snake[0], direction);
      if head.0 < 0 || head.0 >= GridSize || head.1 < 0 || head.1 >= GridSize {
        gameOver := true;
        return;
      }
      if head in snake {
        gameOver := true;
        return;
      }
      AheadFacts(snake[0], direction, direction);
      GrowAtHead(snake, head, direction);
      snake := [head] + snake;
      if head == food {
        score := score + PointsPerFood;
        food := PickFood(snake, draws);
      } else {
        DropTail(snake);
        snake := snake[..|snake| - 1];
      }
    }
  }

  /** A head one step ahead of the old one, on the grid and off the body, makes a longer body. */
  lemma GrowAtHead(s: seq<(int, int)>, head: (int, int), d: Direction)
    requires |s| >= 1 && IsBody(s) && head == Ahead(s[0], d) && InGrid(head) && head !in s
    ensures IsBody([head] + s)
  {
    var t := [head] + s;
    AheadFacts(s[0], d, d);
    assert Touching(head, s[0]) by {
      assert s[0] == Ahead(head, Reverse(d));
    }
    forall i, j | 0 <= i < j < |t|
      ensures t[i] != t[j]
    {
      if i == 0 {
        assert t[j] == s[j - 1];
      } else {
        assert t[i] == s[i - 1] && t[j] == s[j - 1];
      }
    }
    forall i | 0 < i < |t|
      ensures Touching(t[i - 1], t[i])
    {
      if i > 1 {
        assert t[i - 1] == s[i - 2] && t[i] == s[i - 1];
      }
    }
  }

  /** Without its last segment a body is still a body. */
  lemma DropTail(s: seq<(int, int)>)
    requires |s| >= 1 && IsBody(s)
    ensures IsBody(s[..|s| - 1])
  {
  }

  /** The queued move never turns the head onto the neck: reversing is the one move a snake cannot make. */
  lemma NeverIntoNeck(snake: seq<(int, int)>, direction: Direction, nextDirection: Direction)
    requires |snake| >= 2 && snake[1] == Ahead(snake[0], Reverse(direction))
    requires !Opposite(direction, nextDirection)
    ensures Ahead(snake[0], nextDirection) != snake[1]
  {
    OppositeIsReverse(direction, nextDirection);
    if Ahead(snake[0], nextDirection) == snake[1] {
      AheadFacts(snake[0], nextDirection, Reverse(direction));
    }
  }
}

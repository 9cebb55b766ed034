/** The state of one game session and the transitions that do not come from
    steering input: the periodic tick, pause, reset/start, the food draw and
    the high-score bookkeeping. */
module Game {
  import opened Grid

  const InitialSnake: seq<Pos> := [Pos(10, 10)]
  const InitialFood: Pos := Pos(15, 15)
  const InitialDirection: Dir := Right

  /** Where the current touch gesture began, if one is being tracked. */
  datatype Touch = NoTouch | TouchAt(x: int, y: int)

  /** Everything the game component keeps between events. The snake is
      listed head first. */
  datatype GameState = GameState(
    snake: seq<Pos>,
    food: Pos,
    direction: Dir,
    isGameOver: bool,
    isPaused: bool,
    score: nat,
    highScore: nat,
    touchStart: Touch,
    isGameStarted: bool)

  /** The state when the component first appears, with the high score read
      from storage. */
  function Initial(storedHighScore: nat): (s: GameState)
    ensures !s.isGameStarted && !s.isGameOver && !s.isPaused
    ensures s.highScore == storedHighScore
    ensures Inv(s)
  {
    GameState(InitialSnake, InitialFood, InitialDirection, false, false, 0,
              storedHighScore, NoTouch, false)
  }

  /** No two segments of the snake share a cell. */
  predicate Distinct(snake: seq<Pos>) {
    forall i, j :: 0 <= i < j < |snake| ==> snake[i] != snake[j]
  }

  predicate AllInBounds(snake: seq<Pos>) {
    forall i :: 0 <= i < |snake| ==> InBounds(snake[i])
  }

  /** What holds of every state the component can reach: a non-empty snake
      of distinct on-board cells, food on the board, one segment more than
      points scored, and no game over before the game has started. */
  predicate Inv(s: GameState) {
    && |s.snake| > 0
    && AllInBounds(s.snake)
    && Distinct(s.snake)
    && InBounds(s.food)
    && |s.snake| == s.score + 1
    && (!s.isGameStarted ==> !s.isGameOver)
  }

  /** The tick only does something in this state. */
  predicate Running(s: GameState) {
    !s.isGameOver && !s.isPaused && s.isGameStarted
  }

  /** `generateFood`: a cell picked from two uniform draws in [0, 1), each
      scaled to the board size and rounded down. It may fall on the snake. */
  function GenerateFood(rx: real, ry: real): (p: Pos)
    requires 0.0 <= rx < 1.0 && 0.0 <= ry < 1.0
    ensures InBounds(p)
  {
    Pos((rx * GridSize as real).Floor, (ry * GridSize as real).Floor)
  }

  /** Every cell of the board is the draw of some pair of values in
      [0, 1): the cell's coordinates divided by the board size. */
  lemma GenerateFoodReachesEveryCell(p: Pos)
    requires InBounds(p)
    ensures GenerateFood(p.x as real / GridSize as real, p.y as real / GridSize as real) == p
  {
  }

  /** One tick of the game loop. `nextFood` is the cell `generateFood`
      would pick if the food is eaten on this tick.
      With an empty snake the component computes a head with undefined
      coordinates, which hits no wall, no segment and no food and is then
      popped again, so nothing changes; the model says so directly. */
  function Step(s: GameState, nextFood: Pos): (r: GameState)
    // only the snake, the food, the score and the game-over flag can change
    ensures r == s.(snake := r.snake, food := r.food, score := r.score, isGameOver := r.isGameOver)
    ensures !Running(s) ==> r == s
    // the game ends exactly when the next head leaves the board or lands on a segment
    ensures Running(s) && |s.snake| > 0 ==>
              var next := Move(s.snake[0], s.direction);
              (r.isGameOver <==> !InBounds(next) || next in s.snake)
    // ending the game leaves snake, score and food as they were
    ensures r.isGameOver && !s.isGameOver ==>
              r.snake == s.snake && r.score == s.score && r.food == s.food
    // otherwise the head moves one cell along the heading, the body follows,
    // and the snake grows by exactly the points just scored
    ensures Running(s) && |s.snake| > 0 && !r.isGameOver ==>
              && |r.snake| > 0
              && r.snake[0] == Move(s.snake[0], s.direction)
              && r.snake[1..] <= s.snake
              && (r.score == s.score + 1 <==> r.snake[0] == s.food)
              && (r.score == s.score + 1 || r.score == s.score)
              && |r.snake| - |s.snake| == r.score - s.score
              && (r.food != s.food ==> r.score == s.score + 1)
              && (r.snake[0] == s.food ==> r.food == nextFood)
  {
    if !Running(s) || |s.snake| == 0 then s
    else
      var head := Move(s.snake[0], s.direction);
      if !InBounds(head) then s.(isGameOver := true)
      else if head in s.snake then s.(isGameOver := true)
      else if head == s.food then
        s.(snake := [head] + s.snake, score := s.score + 1, food := nextFood)
      else
        s.(snake := [head] + s.snake[..|s.snake| - 1])
  }

  /** The pause button and the space bar. */
  function TogglePause(s: GameState): (r: GameState)
    ensures r.isPaused != s.isPaused
    ensures r == s.(isPaused := r.isPaused)
  {
    s.(isPaused := !s.isPaused)
  }

  /** "New Game": back to the starting snake and heading with a freshly
      drawn food cell; the high score, the started flag and any tracked
      touch are kept. */
  function Reset(s: GameState, nextFood: Pos): (r: GameState)
    ensures r == s.(snake := r.snake, food := r.food, direction := r.direction,
                    isGameOver := r.isGameOver, isPaused := r.isPaused, score := r.score)
    ensures r.snake == InitialSnake && r.direction == InitialDirection
    ensures r.score == 0 && !r.isGameOver && !r.isPaused && r.food == nextFood
    ensures InBounds(nextFood) ==> Inv(r)
  {
    s.(snake := InitialSnake, direction := InitialDirection, isGameOver := false,
       isPaused := false, score := 0, food := nextFood)
  }

  /** "Play Game" / "Play Again": mark the game started, then reset. */
  function Start(s: GameState, nextFood: Pos): (r: GameState)
    ensures Running(r)
    ensures r.direction == InitialDirection
    ensures r.highScore == s.highScore && r.touchStart == s.touchStart
    ensures r.snake == InitialSnake && r.score == 0 && r.food == nextFood
    ensures InBounds(nextFood) ==> Inv(r)
  {
    Reset(s.(isGameStarted := true), nextFood)
  }

  /** The high-score effect: once the game is over, a score above the high
      score replaces it. */
  function SyncHighScore(s: GameState): (r: GameState)
    ensures r == s.(highScore := r.highScore)
    ensures r.highScore >= s.highScore
    ensures s.isGameOver ==> r.highScore >= s.score
    ensures r.highScore != s.highScore ==> s.isGameOver && r.highScore == s.score
  {
    if s.isGameOver && s.score > s.highScore then s.(highScore := s.score) else s
  }

  /** Pausing twice restores the state. */
  lemma TogglePauseTwice(s: GameState)
    ensures TogglePause(TogglePause(s)) == s
  {
  }

  /** The high-score effect changes nothing when run a second time. */
  lemma SyncHighScoreIdempotent(s: GameState)
    ensures SyncHighScore(SyncHighScore(s)) == SyncHighScore(s)
  {
  }

  /** The tick keeps the invariant, whatever in-bounds cell the food draw
      picks. */
  lemma StepPreservesInv(s: GameState, nextFood: Pos)
    requires Inv(s) && InBounds(nextFood)
    ensures Inv(Step(s, nextFood))
  {
  }

  /** A snake of length one at the left edge heading left ends the game
      on the next tick and stays where it was. */
  lemma LeftWallScenario(s: GameState, nextFood: Pos)
    requires Running(s) && s.snake == [Pos(0, 5)] && s.direction == Left
    ensures Step(s, nextFood).isGameOver
    ensures Step(s, nextFood).snake == [Pos(0, 5)]
  {
  }

  /** Moving onto the cell the tail is about to leave still ends the game:
      the collision test runs against the whole current snake. */
  lemma TailChaseScenario(s: GameState, nextFood: Pos)
    requires Running(s) && s.direction == Left
    requires s.snake == [Pos(1, 0), Pos(1, 1), Pos(0, 1), Pos(0, 0)]
    ensures Step(s, nextFood).isGameOver
    ensures Step(s, nextFood).snake == s.snake
  {
  }

  /** Reaching the food grows the snake by its new head, scores a point and
      puts the food at the freshly drawn cell. */
  lemma EatScenario(s: GameState, nextFood: Pos)
    requires Running(s) && s.snake == [Pos(15, 14)] && s.direction == Down
    requires s.food == Pos(15, 15) && s.score == 0
    ensures Step(s, nextFood).snake == [Pos(15, 15), Pos(15, 14)]
    ensures Step(s, nextFood).score == 1 && Step(s, nextFood).food == nextFood
  {
  }
}

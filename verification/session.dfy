/** A session as a sequence of events, each handled atomically and followed
    by the high-score effect, and what holds of every state it reaches. */
module Session {
  import opened Grid
  import opened Game
  import opened Controls

  /** Two uniform draws in [0, 1) standing in for the random source. */
  datatype Draw = Draw(rx: real, ry: real)

  predicate ValidDraw(d: Draw) {
    0.0 <= d.rx < 1.0 && 0.0 <= d.ry < 1.0
  }

  /** Everything that can happen to the component. Events that may place
      new food carry the draws the random source would return. */
  datatype Event =
    | Tick(draw: Draw)
    | KeyDown(key: Key)
    | DirectionButton(dir: Dir)
    | TouchBegin(x: int, y: int)
    | TouchSlide(x: int, y: int)
    | TouchFinish
    | PauseButton
    | NewGame(draw: Draw)
    | PlayGame(draw: Draw)

  predicate ValidEvent(e: Event) {
    match e
    case Tick(d) => ValidDraw(d)
    case NewGame(d) => ValidDraw(d)
    case PlayGame(d) => ValidDraw(d)
    case _ => true
  }

  /** Handles one event, then lets the high-score effect run. */
  function Apply(s: GameState, e: Event): (r: GameState)
    requires ValidEvent(e)
    ensures r.highScore >= s.highScore
    ensures s.isGameStarted ==> r.isGameStarted
  {
    var t :=
      match e
      case Tick(d) => Step(s, GenerateFood(d.rx, d.ry))
      case KeyDown(k) => HandleKey(s, k)
      case DirectionButton(d) => PressButton(s, d)
      case TouchBegin(x, y) => TouchStart(s, x, y)
      case TouchSlide(x, y) => TouchMove(s, x, y)
      case TouchFinish => TouchEnd(s)
      case PauseButton => TogglePause(s)
      case NewGame(d) => Reset(s, GenerateFood(d.rx, d.ry))
      case PlayGame(d) => Start(s, GenerateFood(d.rx, d.ry));
    SyncHighScore(t)
  }

  /** Every event keeps the invariant. */
  lemma ApplyPreservesInv(s: GameState, e: Event)
    requires ValidEvent(e) && Inv(s)
    ensures Inv(Apply(s, e))
  {
  }

  /** The state after handling `events` in order. */
  function Run(s: GameState, events: seq<Event>): GameState
    requires forall i :: 0 <= i < |events| ==> ValidEvent(events[i])
    decreases |events|
  {
    if |events| == 0 then s else Run(Apply(s, events[0]), events[1..])
  }

  /** Every state a session reaches keeps the invariant: a non-empty snake
      of distinct on-board segments, food on the board, and one segment
      more than points scored. */
  lemma {:induction false} RunPreservesInv(s: GameState, events: seq<Event>)
    requires forall i :: 0 <= i < |events| ==> ValidEvent(events[i])
    requires Inv(s)
    ensures Inv(Run(s, events))
    decreases |events|
  {
    if |events| > 0 {
      ApplyPreservesInv(s, events[0]);
      RunPreservesInv(Apply(s, events[0]), events[1..]);
    }
  }

  /** The high score never goes down, and a started game stays started. */
  lemma {:induction false} RunMonotone(s: GameState, events: seq<Event>)
    requires forall i :: 0 <= i < |events| ==> ValidEvent(events[i])
    ensures Run(s, events).highScore >= s.highScore
    ensures s.isGameStarted ==> Run(s, events).isGameStarted
    decreases |events|
  {
    if |events| > 0 {
      RunMonotone(Apply(s, events[0]), events[1..]);
    }
  }

  /** From the first screen, any session reaches only states that keep
      the invariant, and the stored high score is never lowered. */
  lemma FromInitial(storedHighScore: nat, events: seq<Event>)
    requires forall i :: 0 <= i < |events| ==> ValidEvent(events[i])
    ensures Inv(Run(Initial(storedHighScore), events))
    ensures Run(Initial(storedHighScore), events).highScore >= storedHighScore
  {
    RunPreservesInv(Initial(storedHighScore), events);
    RunMonotone(Initial(storedHighScore), events);
  }

  /** Until the game is started, ticks change nothing. The game cannot be
      over before it has started in any reachable state (`Inv`). */
  lemma {:induction false} TicksBeforeStartDoNothing(s: GameState, draws: seq<Draw>)
    requires !s.isGameStarted && !s.isGameOver
    requires forall i :: 0 <= i < |draws| ==> ValidDraw(draws[i])
    ensures Run(s, seq(|draws|, i requires 0 <= i < |draws| => Tick(draws[i]))) == s
    decreases |draws|
  {
    var events := seq(|draws|, i requires 0 <= i < |draws| => Tick(draws[i]));
    if |draws| > 0 {
      assert events[1..] == seq(|draws[1..]|, i requires 0 <= i < |draws[1..]| => Tick(draws[1..][i]));
      assert Apply(s, events[0]) == s;
      TicksBeforeStartDoNothing(s, draws[1..]);
    }
  }

  /** Handling one event and then the rest is handling them all. */
  lemma RunCons(s: GameState, e: Event, rest: seq<Event>)
    requires ValidEvent(e)
    requires forall i :: 0 <= i < |rest| ==> ValidEvent(rest[i])
    ensures Run(s, [e] + rest) == Run(Apply(s, e), rest)
  {
  }

  /** A one-segment snake with a clear cell ahead that holds no food
      just moves there. */
  lemma TickMovesSingleSegment(s: GameState, d: Draw)
    requires ValidDraw(d) && Running(s) && |s.snake| == 1
    requires InBounds(Move(s.snake[0], s.direction))
    requires Move(s.snake[0], s.direction) != s.food
    ensures Apply(s, Tick(d)) == s.(snake := [Move(s.snake[0], s.direction)])
  {
  }

  /** Starting at (10, 10) heading right with food at (15, 15), five ticks
      bring the head to (15, 10) without growing. */
  lemma FiveTicksScenario(s: GameState, d: Draw)
    requires ValidDraw(d)
    requires Running(s) && s.snake == [Pos(10, 10)] && s.direction == Right
    requires s.food == Pos(15, 15)
    ensures Run(s, [Tick(d), Tick(d), Tick(d), Tick(d), Tick(d)]) == s.(snake := [Pos(15, 10)])
  {
    var t := Tick(d);
    var s1 := s.(snake := [Pos(11, 10)]);
    var s2 := s.(snake := [Pos(12, 10)]);
    var s3 := s.(snake := [Pos(13, 10)]);
    var s4 := s.(snake := [Pos(14, 10)]);
    var s5 := s.(snake := [Pos(15, 10)]);
    TickMovesSingleSegment(s4, d);
    RunCons(s4, t, []);
    assert Run(s4, [t]) == s5;
    TickMovesSingleSegment(s3, d);
    RunCons(s3, t, [t]);
    assert Run(s3, [t, t]) == s5;
    TickMovesSingleSegment(s2, d);
    RunCons(s2, t, [t, t]);
    assert Run(s2, [t, t, t]) == s5;
    TickMovesSingleSegment(s1, d);
    RunCons(s1, t, [t, t, t]);
    assert Run(s1, [t, t, t, t]) == s5;
    TickMovesSingleSegment(s, d);
    RunCons(s, t, [t, t, t, t]);
  }

  /** Turning down at (15, 10) and ticking once more reaches (15, 11),
      which holds no food, so the snake does not grow. */
  lemma TurnDownScenario(s: GameState, d: Draw)
    requires ValidDraw(d)
    requires Running(s) && s.snake == [Pos(15, 10)] && s.direction == Right
    requires s.food == Pos(15, 15)
    ensures Run(s, [KeyDown(ArrowDown), Tick(d)]) == s.(snake := [Pos(15, 11)], direction := Down)
  {
    var s6 := s.(direction := Down);
    assert Apply(s, KeyDown(ArrowDown)) == s6;
    TickMovesSingleSegment(s6, d);
    RunCons(s6, Tick(d), []);
    RunCons(s, KeyDown(ArrowDown), [Tick(d)]);
  }
}

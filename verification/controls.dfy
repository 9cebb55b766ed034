/** Steering input: arrow keys and the space bar, the on-screen direction
    buttons, and touch swipes. All three share one rule: a heading that is
    the reverse of the current heading is refused. */
module Controls {
  import opened Grid
  import opened Game

  datatype Key = Space | ArrowUp | ArrowDown | ArrowLeft | ArrowRight | OtherKey

  /** Minimum travel, in pixels, along one axis for a touch to count as a swipe. */
  const SwipeThreshold: int := 50

  /** The reverse rule: a request is taken unless it points straight back. */
  function Steer(current: Dir, requested: Dir): (d: Dir)
    ensures d != Opposite(current)
    ensures d == requested <==> requested != Opposite(current)
    ensures d != requested ==> d == current
  {
    if requested == Opposite(current) then current else requested
  }

  /** The arrow key that asks for heading `d`. */
  function ArrowFor(d: Dir): (k: Key)
    ensures k == ArrowUp <==> d == Up
    ensures k == ArrowDown <==> d == Down
    ensures k == ArrowLeft <==> d == Left
    ensures k == ArrowRight <==> d == Right
  {
    match d
    case Up => ArrowUp
    case Down => ArrowDown
    case Left => ArrowLeft
    case Right => ArrowRight
  }

  /** The keydown listener. Space toggles pause and nothing else; while
      paused every other key is ignored; an arrow key sets the heading
      unless it is the reverse of the current one. Game over and "not yet
      started" do not block it. */
  function HandleKey(s: GameState, k: Key): (r: GameState)
    ensures r == s.(direction := r.direction, isPaused := r.isPaused)
    ensures k == Space ==> r.direction == s.direction && r.isPaused != s.isPaused
    ensures k != Space ==> r.isPaused == s.isPaused
    ensures k != Space && s.isPaused ==> r == s
    ensures k == OtherKey ==> r == s
    ensures r.direction != Opposite(s.direction)
  {
    if k == Space then TogglePause(s)
    else if s.isPaused then s
    else
      match k
      case ArrowUp => if s.direction != Down then s.(direction := Up) else s
      case ArrowDown => if s.direction != Up then s.(direction := Down) else s
      case ArrowLeft => if s.direction != Right then s.(direction := Left) else s
      case ArrowRight => if s.direction != Left then s.(direction := Right) else s
      case _ => s
  }

  /** An on-screen direction button: ignored while paused, otherwise the
      reverse rule. */
  function PressButton(s: GameState, d: Dir): (r: GameState)
    ensures r == s.(direction := r.direction)
    ensures s.isPaused ==> r == s
    ensures r.direction != Opposite(s.direction)
  {
    if s.isPaused then s
    else
      match d
      case Up => if s.direction != Down then s.(direction := Up) else s
      case Down => if s.direction != Up then s.(direction := Down) else s
      case Left => if s.direction != Right then s.(direction := Left) else s
      case Right => if s.direction != Left then s.(direction := Right) else s
  }

  /** An arrow key, when not paused, applies exactly the reverse rule to
      its heading. */
  lemma ArrowKeySteers(s: GameState, d: Dir)
    requires !s.isPaused
    ensures HandleKey(s, ArrowFor(d)) == s.(direction := Steer(s.direction, d))
  {
  }

  /** A button press and the matching arrow key have the same effect. */
  lemma ButtonIsArrowKey(s: GameState, d: Dir)
    ensures PressButton(s, d) == HandleKey(s, ArrowFor(d))
  {
  }

  /** The reverse rule looks at the heading as last set, not at the heading
      of the last tick: two presses between ticks can turn the snake onto
      its own neck, and the next tick then ends the game. */
  lemma NeckScenario(s: GameState, nextFood: Pos)
    requires Running(s) && s.direction == Right
    requires s.snake == [Pos(10, 10), Pos(9, 10)]
    ensures HandleKey(HandleKey(s, ArrowUp), ArrowLeft).direction == Left
    ensures Step(HandleKey(HandleKey(s, ArrowUp), ArrowLeft), nextFood).isGameOver
  {
  }

  /** The outcome of sizing up a touch displacement. */
  datatype Swipe = NoSwipe | SwipeTo(dir: Dir)

  /** Classifies a displacement: below the threshold on both axes it is no
      swipe; otherwise the axis with strictly larger travel is horizontal,
      ties go vertical, and the sign picks the heading. */
  function ClassifySwipe(dx: int, dy: int): (w: Swipe)
    ensures w == NoSwipe <==> Abs(dx) < SwipeThreshold && Abs(dy) < SwipeThreshold
    ensures w.SwipeTo? ==> (Horizontal(w.dir) <==> Abs(dx) > Abs(dy))
    ensures w == SwipeTo(Right) ==> dx > 0
    ensures w == SwipeTo(Left) ==> dx < 0
    ensures w == SwipeTo(Down) ==> dy > 0
    ensures w == SwipeTo(Up) ==> dy < 0
  {
    if Abs(dx) < SwipeThreshold && Abs(dy) < SwipeThreshold then NoSwipe
    else if Abs(dx) > Abs(dy) then SwipeTo(if dx > 0 then Right else Left)
    else SwipeTo(if dy > 0 then Down else Up)
  }

  /** Mirroring a displacement mirrors the swipe. */
  lemma ClassifySwipeMirror(dx: int, dy: int)
    ensures ClassifySwipe(-dx, -dy) ==
              match ClassifySwipe(dx, dy)
              case NoSwipe => NoSwipe
              case SwipeTo(d) => SwipeTo(Opposite(d))
  {
  }

  /** A finger touches the board: remember where. */
  function TouchStart(s: GameState, x: int, y: int): (r: GameState)
    ensures r.touchStart.TouchAt? && r.touchStart.x == x && r.touchStart.y == y
    ensures r == s.(touchStart := r.touchStart)
  {
    s.(touchStart := TouchAt(x, y))
  }

  /** The finger lifts: forget the touch. */
  function TouchEnd(s: GameState): (r: GameState)
    ensures r.touchStart == NoTouch
    ensures r == s.(touchStart := r.touchStart)
  {
    s.(touchStart := NoTouch)
  }

  /** The finger moves to (x, y). Without a tracked touch, or while paused,
      nothing happens. A displacement below the threshold on both axes
      keeps waiting; otherwise the swipe steers under the reverse rule and
      the touch is forgotten, so one gesture steers at most once. */
  function TouchMove(s: GameState, x: int, y: int): (r: GameState)
    ensures r == s.(direction := r.direction, touchStart := r.touchStart)
    ensures s.touchStart == NoTouch || s.isPaused ==> r == s
    ensures r.touchStart != s.touchStart ==> r.touchStart == NoTouch
    ensures r.direction != Opposite(s.direction)
  {
    if s.touchStart == NoTouch || s.isPaused then s
    else
      var dx := x - s.touchStart.x;
      var dy := y - s.touchStart.y;
      if Abs(dx) < SwipeThreshold && Abs(dy) < SwipeThreshold then s
      else
        var d :=
          if Abs(dx) > Abs(dy) then
            if dx > 0 && s.direction != Left then Right
            else if dx < 0 && s.direction != Right then Left
            else s.direction
          else
            if dy > 0 && s.direction != Up then Down
            else if dy < 0 && s.direction != Down then Up
            else s.direction;
        s.(direction := d, touchStart := NoTouch)
  }

  /** A touch move is the swipe classifier followed by the reverse rule:
      no swipe keeps the touch and changes nothing; a swipe steers and
      forgets the touch. */
  lemma TouchMoveIsClassifyThenSteer(s: GameState, x: int, y: int)
    requires s.touchStart.TouchAt? && !s.isPaused
    ensures TouchMove(s, x, y) ==
              match ClassifySwipe(x - s.touchStart.x, y - s.touchStart.y)
              case NoSwipe => s
              case SwipeTo(d) => s.(direction := Steer(s.direction, d), touchStart := NoTouch)
  {
  }
}

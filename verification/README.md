# Snake game logic, modelled in Dafny

This project models the game logic of a browser Snake game: a single game
component that moves a snake around a fixed 20 × 20 board. The snake eats
food to grow and score, and the game ends when it hits a wall or itself.
Every handler of the component is modelled as one atomic, pure transition
on an immutable `GameState`:

- the periodic tick (`moveSnake`);
- the space bar, the arrow keys and the on-screen direction buttons;
- the touch handlers (touch start, swipe classification, touch end);
- pause, "New Game" (`resetGame`) and "Play Game" / "Play Again" (`startGame`);
- the effect that records a new high score when the game is over;
- the food draw (`generateFood`);
- the renderer's classification of the 400 board cells.

Modules:

- `Grid` (grid.dfy) — board size, cells, headings, one-cell moves, and the
  row-major index ↔ cell mapping the renderer uses.
- `Game` (game.dfy) — the state record, the tick, pause, reset/start, the
  food draw, the high-score effect, and the state invariant.
- `Controls` (controls.dfy) — the keyboard, the buttons and swipes, all of
  which use the same reverse rule.
- `Board` (board.dfy) — the renderer's per-cell head/body/food marks.
- `Session` (session.dfy) — any sequence of events, with the high-score
  effect run after each one; the invariants hold along every run.

The invariant `Game.Inv` holds in every reachable state. It says:

- the snake is non-empty;
- every segment is on the board;
- no two segments share a cell;
- the food is on the board;
- the snake has exactly one more segment than the points scored;
- the game is not over before it has started.

The model keeps these behaviours of the code as written:

- A touch is a swipe once either axis has moved 50 pixels or more; it is
  ignored only while both axes have moved less than 50.
- When the two axes have moved equally far, the swipe is vertical.
- Food is drawn from the whole board, every cell can be drawn
  (`Game.GenerateFoodReachesEveryCell`), so it can land on the snake.
- The reverse rule compares a request with the heading as last set, not
  with the heading the snake last moved in. Two key presses between ticks
  can therefore turn the snake onto its own neck (`Controls.NeckScenario`).
- The key handler and the direction-button handler change the heading
  even when the game is over or not started yet; only pause blocks them.

## Model

| member | source | states |
|---|---|---|
| Grid.Opposite | vite-project/src/components/SnakeGame.jsx:121-134 | The reversed heading differs from the heading and lies on the same axis. |
| Grid.Move | vite-project/src/components/SnakeGame.jsx:58-74 | The next cell is exactly one cell away, along the heading's axis and in its sign (UP lowers y, DOWN raises y). |
| Grid.OppositeInvolutive | vite-project/src/components/SnakeGame.jsx:121-134 | Reversing a heading twice gives the heading back. |
| Grid.MoveThenBack | vite-project/src/components/SnakeGame.jsx:58-74 | A move followed by a move along the opposite heading returns to the start cell. |
| Grid.MoveInjective | vite-project/src/components/SnakeGame.jsx:58-74 | Different headings lead to different next cells. |
| Grid.CellPos | vite-project/src/components/SnakeGame.jsx:289-291 | Flat index `index` becomes column `index % 20`, row `index / 20`, and that cell is on the board. |
| Grid.CellIndex | vite-project/src/components/SnakeGame.jsx:289-291 | Every on-board cell has a flat index in [0, 400) that maps back to it. |
| Grid.CellIndexOfCellPos | vite-project/src/components/SnakeGame.jsx:289-291 | Index → cell → index is the identity, so the grid draws every cell exactly once. |
| Game.Initial | vite-project/src/components/SnakeGame.jsx:5-24 | The first state is not started, not over, not paused, keeps the stored high score, and satisfies the invariant. |
| Game.GenerateFood | vite-project/src/components/SnakeGame.jsx:33-39 | For random draws in [0, 1), the food cell is always on the board. |
| Game.GenerateFoodReachesEveryCell | vite-project/src/components/SnakeGame.jsx:33-39 | Every on-board cell is drawn by some pair of values in [0, 1), namely its coordinates divided by 20. |
| Game.Step | vite-project/src/components/SnakeGame.jsx:54-109 | Only snake, food, score and game-over can change. A tick is a no-op unless the game is running. While running, the game ends iff the next head is off the board or on any segment (the tail included), and then snake, score and food are unchanged. Otherwise the new head is one cell along the heading and the rest of the snake is a prefix of the old one. The snake grows by exactly the points scored, which is 1 iff the head landed on the food; the food then becomes the drawn cell, and it moves at no other time. |
| Game.TogglePause | vite-project/src/components/SnakeGame.jsx:50-52 | Flips the paused flag and changes nothing else. |
| Game.TogglePauseTwice | vite-project/src/components/SnakeGame.jsx:50-52 | Pausing twice restores the state. |
| Game.Reset | vite-project/src/components/SnakeGame.jsx:41-48 | Restores snake [(10,10)], heading RIGHT, score 0, not over, not paused, with the drawn food. Keeps the high score, the started flag and any tracked touch. With on-board food it establishes the invariant. |
| Game.Start | vite-project/src/components/SnakeGame.jsx:215-218 | After start the game is running from the reset position (snake [(10,10)], heading RIGHT, score 0, drawn food) with the same high score, and the invariant holds. |
| Game.SyncHighScore | vite-project/src/components/SnakeGame.jsx:26-31 | The high score never decreases, is at least the score once the game is over, and changes only to the final score of a finished game. |
| Game.SyncHighScoreIdempotent | vite-project/src/components/SnakeGame.jsx:26-31 | Running the high-score effect again changes nothing. |
| Game.StepPreservesInv | vite-project/src/components/SnakeGame.jsx:76-107 | With an on-board food draw, a tick preserves the invariant: segments on the board and distinct, food on the board, length = score + 1. |
| Game.LeftWallScenario | vite-project/src/components/SnakeGame.jsx:77-85 | A one-segment snake at (0,5) heading LEFT ends the game and stays at (0,5). |
| Game.TailChaseScenario | vite-project/src/components/SnakeGame.jsx:88-95 | Moving onto the cell the tail is about to leave still ends the game. |
| Game.EatScenario | vite-project/src/components/SnakeGame.jsx:97-107 | Reaching the food prepends the head, keeps the tail, scores 1 and places the drawn food. |
| Controls.Steer | vite-project/src/components/SnakeGame.jsx:121-134 | A requested heading is taken exactly when it is not the reverse of the current one; otherwise the heading stays. The result is never the reverse. |
| Controls.ArrowFor | vite-project/src/components/SnakeGame.jsx:121-133 | Each heading is paired with its own arrow key (UP with ArrowUp, and so on), as in the key switch. |
| Controls.HandleKey | vite-project/src/components/SnakeGame.jsx:112-135 | Only heading and paused flag can change. Space toggles pause and leaves the heading alone. While paused, every other key changes nothing. Other keys change nothing. The heading never becomes the reverse of the current one. |
| Controls.PressButton | vite-project/src/components/SnakeGame.jsx:196-213 | Only the heading can change; nothing changes while paused; the heading never becomes the reverse. |
| Controls.ArrowKeySteers | vite-project/src/components/SnakeGame.jsx:119-134 | When not paused, an arrow key applies exactly the reverse rule to its heading. |
| Controls.ButtonIsArrowKey | vite-project/src/components/SnakeGame.jsx:196-213 | A direction button has the same effect as the matching arrow key. |
| Controls.NeckScenario | vite-project/src/components/SnakeGame.jsx:119-134 | Heading RIGHT with the neck behind, UP then LEFT before a tick is accepted, and the next tick ends the game. |
| Controls.ClassifySwipe | vite-project/src/components/SnakeGame.jsx:166-187 | No swipe iff both axes moved under 50. A swipe is horizontal iff \|dx\| > \|dy\|, so ties go vertical. RIGHT/LEFT/DOWN/UP follow the sign of the travel. |
| Controls.ClassifySwipeMirror | vite-project/src/components/SnakeGame.jsx:166-187 | Reversing a displacement reverses the swipe. |
| Controls.TouchStart | vite-project/src/components/SnakeGame.jsx:151-157 | Records the touch point and changes nothing else. |
| Controls.TouchEnd | vite-project/src/components/SnakeGame.jsx:192-194 | Forgets the touch and changes nothing else. |
| Controls.TouchMove | vite-project/src/components/SnakeGame.jsx:159-190 | Only heading and touch can change. Without a touch, or while paused, nothing changes. A changed touch is always cleared. The heading never becomes the reverse. |
| Controls.TouchMoveIsClassifyThenSteer | vite-project/src/components/SnakeGame.jsx:159-190 | A touch move equals classify-then-steer. Below the threshold it changes nothing and keeps the touch start. A recognised swipe applies the reverse rule and clears the touch start. |
| Board.Occupied | vite-project/src/components/SnakeGame.jsx:89-91 | The segment scan reports a hit iff the cell is one of the snake's segments. |
| Board.ClassifyCell | vite-project/src/components/SnakeGame.jsx:289-296 | A cell is body iff a segment is on it, head iff it is the index of an on-board first segment (so head implies body), and food iff it is the index of an on-board food cell. |
| Board.Render | vite-project/src/components/SnakeGame.jsx:289-310 | Draws 400 cells; cell i is body iff its cell holds a segment, head iff it is the first segment's cell, food iff it is the food cell, so each drawn cell is the classification of its index. |
| Board.BodyCellsAreSegments | vite-project/src/components/SnakeGame.jsx:289-294 | The set of drawn body cells is exactly the set of indices of the on-board segments. |
| Session.Apply | vite-project/src/components/SnakeGame.jsx:26-31 | After any event plus the high-score effect, the high score has not decreased and a started game is still started. |
| Session.ApplyPreservesInv | vite-project/src/components/SnakeGame.jsx:41-218 | Every event (tick, key, button, touch, pause, new game, start) with valid random draws keeps the invariant. |
| Session.RunPreservesInv | vite-project/src/components/SnakeGame.jsx:41-218 | Every state along any event sequence keeps the invariant. |
| Session.RunMonotone | vite-project/src/components/SnakeGame.jsx:26-31 | Along any event sequence, the high score never decreases and a started game stays started. |
| Session.FromInitial | vite-project/src/components/SnakeGame.jsx:13-31 | Any session from the first screen reaches only invariant states and never lowers the stored high score. |
| Session.TicksBeforeStartDoNothing | vite-project/src/components/SnakeGame.jsx:55 | Before the game is started (and so, as `Game.Inv` guarantees in every reachable state, not over), any number of ticks leave the state unchanged. |
| Session.TickMovesSingleSegment | vite-project/src/components/SnakeGame.jsx:97-107 | A one-segment snake with a clear, food-free cell ahead just moves there, and nothing else changes. |
| Session.FiveTicksScenario | vite-project/src/components/SnakeGame.jsx:54-109 | From (10,10) heading RIGHT with food at (15,15), five ticks put the snake at (15,10) without growth. |
| Session.TurnDownScenario | vite-project/src/components/SnakeGame.jsx:121-127 | From (15,10), ArrowDown then one tick puts the snake at (15,11) heading DOWN without growth. |

## Left out

- React scheduling (`useState`, `useEffect`, `useCallback` and their dependency arrays). Each handler is one atomic transition. The high-score effect runs after every event (`Session.Apply`).
- The 150 ms `setInterval` and its teardown. The model covers what one tick does, not when ticks fire.
- `Math.random`. Each draw is a parameter: an exact real in [0, 1), scaled and floored in exact arithmetic. With doubles the product also stays below 20, so the bound is the same.
- `localStorage` and the string/number mix of the loaded high score. The high score is a natural number; the storage write is left out.
- Mobile detection from the user agent and the `showTouchControls` flag. The direction buttons are modelled as always pressable.
- Touch coordinates are integers. The browser reports them as floating-point pixels.
- JSX layout and styling, `CELL_SIZE`, `TOUCH_CONTROLS_SIZE`, the status texts and the "New High Score!" banner. App.jsx is static presentation and is not part of this model.
- Game.Step: with an empty snake it changes nothing. That is what the component's arithmetic on an undefined head works out to. It cannot happen in a reachable state (`Game.Inv`).
- A session lets every event fire in every state. The page offers less: the direction buttons exist only after start on touch devices, Pause and New Game only after start, and Play Again only once the game is over. The invariants are proved for this larger set of event sequences.
- Game.GenerateFood: the model shows that every cell can be drawn, but it does not state that each cell is equally likely. Probability is outside what the model expresses.

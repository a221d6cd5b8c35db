# Brick Break: a verified model of the game simulation

This project models the simulation core of a Breakout-style game written in
Python with pygame (`jogo.py`). A paddle at the bottom of an 800 x 600 screen
deflects a ball into a grid of 6 x 9 bricks. Each brick is worth points by
row. Losing the ball below the bottom edge costs one of three lives. Clearing
the grid starts the next level with a paddle 10 pixels narrower, down to a
minimum width of 50. When the last life is lost, the score is added to a
ranking that keeps the ten best scores; the new score is dropped when ten
earlier entries score at least as much. The game is a state machine over
three states: menu, playing and game over.

The model has five modules:

- `Entities` (`entities.dfy`): the paddle and the ball, as classes with the
  fields the game updates in place (`Paddle.Move`, `Ball.Move`, `Ball.Reset`),
  and the brick record. Each class has a value snapshot (`PaddleState`,
  `BallState`) and a function for its update rule (`MovePaddle`, `MoveBall`,
  `ResetBall`). Each method is proved to follow that function, and lemmas
  prove what the rules promise.
- `Grid` (`grid.dfy`): the layout of a fresh grid, and what bricks are
  worth.
- `Ranking` (`ranking.dfy`): the ranking update as a function on sequences.
  It appends the new entry, applies a stable sort by score (highest first)
  and keeps the first ten. The sort is insertion sort. It is proved sorted,
  a permutation and stable, and any sort with those properties is proved to
  give the same list.
- `Engine` (`engine.dfy`): the whole session as one value. It defines the
  four steps of a collision check, one frame, the held arrow keys, the
  key-press state machine and the session invariant. Lemmas state what these
  steps do.
- `BrickBreak` (`game.dfy`): the `Game` class. Its methods (`CreateBricks`
  with its nested loops, `CheckCollisions` with its brick scan that stops at
  the first hit, `Update`, `ResetGame`, and the key handling) are proved to
  change the session exactly as the `Engine` functions say. The constructor,
  `Update`, `KeyDown` and `HandleHeldKeys` also keep `Engine.Inv`.
  `ResetGame` does not keep it on its own: called in the game-over state it
  restores 3 lives and leaves the state alone, and `KeyDown` sets the state
  to playing or menu right after it. `CheckCollisions` is the composition of
  four helper methods (`BouncePaddle`, `HitFirstBrick`, `CheckFall`,
  `CheckLevel`), one per block of the Python method, each holding that
  block's statements in the same order.

Python floats (ball `x` and `dx` after a paddle bounce) are Dafny `real`s.
The ball's `y` and `dy` stay integers, because `dy` only ever takes the
values +5 and -5. Each ball serve uses `random.choice([-1, 1])`; here this is
a boolean parameter `towardRight`. In `CheckCollisions` the reset after a lost
life and the reset after a finished level each get their own such coin. The
ranking file is a value, `NoFile` or `Saved(entries)`. Loading an absent
file gives the empty ranking.

The code tests the edge before each paddle step and never clamps, so the
paddle can
overshoot an edge by less than one step: from x = 350, 44 left moves reach
x = -2, where the paddle then stays (`Entities.PaddleOvershootsLeftEdge`).
The invariant that does hold is `-speed < x < 800 - width + speed`
(`Entities.InBand`).

## Model

| member | source | states |
|---|---|---|
| Entities.Paddle.constructor | jogo.py:35-41 | a new paddle is 100 x 20 at (350, 550) with speed 8 |
| Entities.Paddle.Move | jogo.py:46-50 | the paddle's new state is `MovePaddle` of the old one, and only `x` is assigned |
| Entities.MovePaddleStep | jogo.py:46-50 | a move changes only `x`, by exactly `-speed`, `0` or `+speed`; it steps left iff asked to and `x > 0`, and right iff asked to and `x < 800 - width` |
| Entities.MovePaddleKeepsBand | jogo.py:46-50 | a move keeps `-speed < x < 800 - width + speed` |
| Entities.MoveLeftRun | jogo.py:46-50 | while the paddle is still right of the edge, `n` held left moves take exactly `n * speed` off `x` |
| Entities.PaddleOvershootsLeftEdge | jogo.py:35-50 | from the start position, the first 44 held left moves take 8 each off x = 350 (43 moves reach x = 6, the 44th x = -2); after that the paddle stays at x = -2, so `0 <= x` is not an invariant |
| Entities.Ball.constructor | jogo.py:53-59 | a new ball has radius 10, sits at (400, 300) and moves up at 5 and sideways at 5 in the direction the coin picks |
| Entities.Ball.Move | jogo.py:64-72 | the ball's new state is `MoveBall` of the old one |
| Entities.MoveBallReflects | jogo.py:64-72 | the position advances by the velocity; `dx` is negated iff the new x is within the radius of a side wall, and `dy` iff the new y is within the radius of the top; both speeds keep their magnitude; nothing reflects at the bottom |
| Entities.Ball.Reset | jogo.py:74-78 | the ball's new state is `ResetBall` of the old one |
| Entities.ResetBallServes | jogo.py:74-78 | after a reset the ball is at (400, 300) with `dy = -5` and `dx` one of -5 or 5, positive exactly when the coin says right, and the radius is kept |
| Grid.FreshGridLayout | jogo.py:107-116 | a fresh grid has 54 visible 80 x 30 bricks in row-major order; brick `i` is at `((i % 9) * 85 + 20, (i / 9) * 35 + 50)` and is worth `[10, 8, 6, 4, 2, 1][i / 9]` with the row's colour |
| Grid.GridDisjoint | jogo.py:107-116 | no two bricks of a grid-shaped list touch, even on their edges |
| Grid.GridTotalPoints | jogo.py:107-116 | a fresh grid is worth 279 points |
| Grid.VisiblePointsHide | jogo.py:141-142 | hiding one visible brick takes exactly its points off the points still on the board |
| Ranking.Save | jogo.py:168-179 | a ranking after a save has one more entry than before, until it holds 10 |
| Ranking.SortDescCorrect | jogo.py:176 | the sort's result is ordered by score, highest first, is a permutation of its input, and keeps the entries of each score in input order |
| Ranking.SortedUnique | jogo.py:176 | two lists that are ordered by score and agree on the order of the entries of every score are equal, so there is only one stable descending sort |
| Ranking.SortDescOfSorted | jogo.py:176 | sorting an already ordered ranking changes nothing |
| Ranking.SaveRanking | jogo.py:168-179 | a save gives `min(len + 1, 10)` entries, ordered highest first and taken from the old ranking plus the new entry; the new entry is kept when fewer than 10 were ranked; it comes after every earlier entry of equal score; no dropped entry scores more than a kept one |
| Ranking.SaveIsPrefixOfStableSort | jogo.py:173-179 | the saved ranking is a prefix of the result of any stable descending sort of the old ranking followed by the new entry |
| Ranking.SaveIntoSorted | jogo.py:173-179 | saving into an ordered ranking puts the new entry at its rank (after every entry scoring at least as much); entries before it stay in place and those after move down one; a rank of 10 or more leaves the first ten entries as they were |
| Ranking.SaveThenLoad | jogo.py:168-189 | reading back the file a save wrote gives a sorted ranking of `min(len + 1, 10)` entries; when the file held a sorted ranking and the new score ranks among the first ten, the new entry is found at its rank; the first save onto an absent file reads back as just the new entry |
| Engine.PaddleBounce | jogo.py:120-131 | the paddle step changes only the ball's velocity; it fires only on a ball moving down, and then negates `dy`; it negates `dy` exactly when the contact test holds |
| Engine.BounceDirection | jogo.py:126-130 | a hit left of the paddle's centre sends the ball left, right of it right, the centre straight up; within the paddle's span the new `dx` is within [-5.6, 5.6] |
| Engine.FirstHit | jogo.py:134-150 | the index found is of a visible brick the ball's box overlaps, and no earlier brick is one; no index means no brick is hittable |
| Engine.FirstHitByPosition | jogo.py:136-139 | which brick is hit depends only on the ball's position and radius, not on its velocity |
| Engine.BrickHitFirstMatch | jogo.py:134-150 | at most one brick changes: the first visible one in list order that the ball overlaps, which becomes invisible; the score rises by exactly its points; a side hit negates `dx` and any other hit negates `dy`; the step changes something iff some brick is hittable |
| Engine.BrickScoreGrows | jogo.py:141-142 | on a grid every brick is worth at least one point, so a brick step either raises the score or changes nothing |
| Engine.BrickPhaseConservesPoints | jogo.py:141-142 | score plus the points still on the board is the same before and after the brick step |
| Engine.LifeLoss | jogo.py:153-159 | a ball below the screen costs exactly one life; with lives left the ball is served again; otherwise the state becomes game over and the ranking file holds the saved ranking with this score; a ball on screen changes nothing |
| Engine.LevelComplete | jogo.py:162-166 | with no brick visible the level rises by one, a fresh grid of 54 visible bricks is laid, the ball is served again, and the paddle width becomes `max(50, width - 10)`, so it never grows and stays at least 50; otherwise nothing changes |
| Engine.CollideBricks | jogo.py:118-166 | over a whole collision check, the score rises by the points of the first brick hit or not at all; unless the level is completed, the grid differs only in that brick; a completed level lays a fresh grid |
| Engine.CollideLives | jogo.py:118-166 | over a whole collision check, a life is lost iff the ball is below the screen; the game ends, with the score saved, iff that was the last life |
| Engine.CollideOnClearedGrid | jogo.py:162-166 | a collision check on a cleared grid always completes the level, even on a frame that has just ended the game |
| Engine.WellFormedCollide | jogo.py:118-166 | a collision check keeps the session's shape: paddle and ball sizes, width between 50 and 100, the paddle band, a vertical speed of 5, and a grid that differs from a fresh one only in visibility |
| Engine.OnlyWhilePlaying | jogo.py:277-280 | outside the playing state a frame changes nothing, and neither do held arrow keys |
| Engine.TickMonotone | jogo.py:277-280 | within a frame the score never drops, the level rises by at most one, at most one life is lost, and the state can only change from playing to game over with no lives left |
| Engine.TickInv | jogo.py:277-280 | a frame keeps the session invariant, including "game over iff no lives left" |
| Engine.HeldKeysInv | jogo.py:320-325 | held arrow keys keep the session invariant |
| Engine.KeyTransitions | jogo.py:302-317 | menu + SPACE starts play, playing + ESC returns to the menu with the session untouched, game over + R or M gives a fresh session in play or in the menu; a key changes the session iff it is one of these four pairs; a key never leads into game over |
| Engine.KeyPressInv | jogo.py:302-317 | a key press keeps the session invariant |
| Engine.FreshSession | jogo.py:282-289 | a reset session has score 0, 3 lives, level 1, a 100-pixel paddle at x = 350 and 54 visible bricks worth 279 points; it keeps the state and the ranking file; resetting twice is resetting once |
| Engine.InitialInv | jogo.py:96-105 | the session a new game starts in satisfies the session invariant |
| BrickBreak.Game.constructor | jogo.py:96-105 | a new game is the initial session: menu, score 0, 3 lives, level 1, a fresh grid, and the ranking file as found |
| BrickBreak.Game.CreateBricks | jogo.py:107-116 | the nested loops build exactly the fresh grid |
| BrickBreak.Game.CheckCollisions | jogo.py:118-166 | the session after the check is `Collide` of the one before: paddle step, brick step, fall step, level step, in that order |
| BrickBreak.Game.BouncePaddle | jogo.py:120-131 | the session after the paddle step is `PaddlePhase` of the one before |
| BrickBreak.Game.HitFirstBrick | jogo.py:134-150 | the scan that stops at the first hit gives `BrickPhase` of the session before |
| BrickBreak.Game.CheckFall | jogo.py:153-159 | the session after the fall step is `FallPhase` of the one before |
| BrickBreak.Game.CheckLevel | jogo.py:162-166 | the session after the level step is `LevelPhase` of the one before |
| BrickBreak.Game.SaveScore | jogo.py:168-183 | the ranking file afterwards holds `Save` of the ranking read from it, with this game's entry |
| BrickBreak.Game.Update | jogo.py:277-280 | one frame is `Tick` of the session before, and it keeps the invariant |
| BrickBreak.Game.ResetGame | jogo.py:282-289 | a reset gives new paddle and ball objects and the session `ResetSession` of the one before |
| BrickBreak.Game.KeyDown | jogo.py:302-317 | a key-down event is `KeyPress` of the session before, and it keeps the invariant |
| BrickBreak.Game.HandleHeldKeys | jogo.py:320-325 | the held arrow keys give `HeldKeys` of the session before, and they keep the invariant |

## Left out

- Drawing and windowing (every `draw` method, the font and screen calls, and the pygame set-up) are rendering, not simulation.
- The event loop itself is I/O: polling events, `QUIT`, `pygame.key.get_pressed`, the 60 FPS clock and `sys.exit`. The model takes one key-down event (`KeyDown`) and the two held arrow keys (`HandleHeldKeys`) as parameters.
- `random.choice([-1, 1])` becomes a boolean parameter of every method that serves the ball.
- The ranking file's I/O (`open`, `json.dump`, `json.load`, `os.path.exists`) is a `RankingFile` value. Unreadable or malformed JSON and write failures are not modelled.
- Floating point: ball `x` and `dx` are exact reals, not IEEE doubles, so rounding in the bounce formula is not modelled.
- Brick objects: a brick is a value in the session's sequence of bricks. Hiding one replaces that element, so aliasing of brick objects is not modelled. Nothing in the code shares a brick.
- The player name is never set in the code, so it stays `""`. The model carries it through unchanged.
- The menu's top-5 display of the ranking is rendering.
- Entities.MoveBallReflects: the "sign flips iff at a wall" statements need a non-zero speed component, because negating zero changes nothing.

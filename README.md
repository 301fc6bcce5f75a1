# Pong match engine

This project models the match engine of a two-player Pong game written in
Python with pygame. All of it lives in `main()` of `main.py`. Two paddles,
steered by W/S and Up/Down, play a ball inside a 960 × 720 field. The ball
bounces off the top and bottom walls. A paddle sends the ball back 1.1 times
as fast. A ball that leaves the field on one side scores for the player on
the other side, and 5 points win. The engine has three screens: a start
screen, play, and a game-over screen.

The project has four files:

- `geometry.dfy` (module `Geometry`) holds pygame's integer `Rect`, the
  `colliderect` overlap test, the `max(0, min(hi, y))` clamp, and the
  truncation that happens when a float is stored into a `Rect` field.
- `match_spec.dfy` (module `MatchSpec`) holds the match state as a value
  (`Match`) and one function per rule the loop applies. These are
  `reset_ball`, the Space handler of each screen, the key intents, the five
  steps of a tick, one frame of the loop and a run of many frames. It also
  holds `Valid`, the invariant every reachable match keeps.
- `match_props.dfy` (module `MatchProps`) proves the properties the game
  promises about those functions:
  - the invariant holds after every frame;
  - paddles stay on the field;
  - the phase changes only in the three allowed ways;
  - scores move by one point at a time;
  - the win threshold works as stated;
  - the last key event wins for each paddle's intent;
  - each Space handler has exactly the stated effect.
- `match_state.dfy` (module `Pong`) holds the class `MatchState`. It keeps
  `main()`'s loop variables as mutable fields, and each method updates them
  in place in the order the loop does. Every method is proved to produce
  exactly the state the matching `MatchSpec` function gives. `Tick`,
  `Frame` and `Run` also keep `Valid()`.

Representation choices:

- Positions are `int`s, as in pygame's `Rect`.
- Velocities and intents are `real`s, so the ×(−1.1) speed-up is exact.
- A position update `rect.y += v * dt` stores the truncation toward zero of
  the exact real sum.
- The random draws of `reset_ball` come from a source `rng: nat -> Draw`
  that the match owns. The n-th reset uses `rng(n)`, and `drawn` counts the
  resets so far. A valid source gives each axis a sign of ±1 and a
  magnitude in [0.2, 0.4].
- A frame is one iteration of `while True`. Its inputs are the events the
  event queue returns and the milliseconds `clock.tick(60)` reports. A
  `Quit` event ends the frame (and the program) on the spot.

Behaviour of `main.py` the model keeps on purpose:

- The restart is two-step. Space on the game-over screen clears `started`,
  recentres the paddles and zeroes the scores. It leaves `game_over` true,
  keeps `winner`, and does not reset the ball. Only the next Space, on the
  start screen, clears those flags and resets the ball.
- Paddle positions are integer `Rect` fields, not floating point.
- `random.uniform(0.2, 0.4)` can return 0.4, so the magnitude interval is
  closed.
- The frame time is not clamped. `clock.tick(60)` only paces the loop.
- Key events that arrive while no play is running are drained and
  ignored. A key released on the start or game-over screen therefore
  leaves its paddle's intent set when play resumes. The model keeps this
  behaviour.
- Storing `y + intent * dt` into the integer `Rect` field cuts off the
  fraction toward zero. Away from the borders and for odd frame times, a
  paddle therefore moves down one pixel less than it moves up (8 against 9
  pixels at 17 ms), and in a 1 ms frame a paddle moving down does not move.

## Model

| member | source | states |
|---|---|---|
| `Geometry.CollidesIffSharedPixel` | main.py:138-142 | for rectangles of positive size, `colliderect` holds exactly when some pixel lies inside both rectangles |
| `Geometry.Collides` | main.py:138-142 | `colliderect`: rectangles whose edges only touch, left against right or top against bottom, do not collide |
| `Geometry.Clamp` | main.py:125-126 | `max(lo, min(hi, v))` lies in [lo, hi], equals v when v is already inside, and equals the nearer bound otherwise |
| `Geometry.Trunc` | main.py:123-130 | storing a float into a Rect field gives an integer not of the opposite sign that is less than one away from the float and no farther from zero |
| `Geometry.WithCenter` | main.py:24 | setting `center` puts the rectangle's centre (x + w // 2, y + h // 2) on the given point and keeps its size |
| `Geometry.WithCenterY` | main.py:94-95 | setting `centery` puts y + h // 2 on the given value and changes nothing else |
| `MatchSpec.ResetBall` | main.py:23-26 | the ball's centre becomes (480, 360), so its corner is (468, 348) at size 25; under a valid draw each velocity component has magnitude in [0.2, 0.4]; one draw is used; nothing else changes |
| `MatchSpec.Initial` | main.py:46-58 | before the loop: paddles at (30, 310) and (910, 310) with size 7×100, ball at (468, 348), no score, no intents, start screen without a winner; with a valid random source the state satisfies the invariant |
| `MatchSpec.StartPressed` | main.py:75-79 | Space on the start screen makes the phase Playing with no winner, and the rest of the match is exactly the old match with the ball reset |
| `MatchSpec.RestartPressed` | main.py:92-96 | Space on the game-over screen makes the phase NotStarted, zeroes both scores and sets both paddles' centre y to 360 (top 310); `game_over`, `winner`, the ball, the velocity and the intents stay as they were |
| `MatchSpec.KeyDownIntent` | main.py:105-113 | W sets paddle 1's intent to −0.5 and S to +0.5; Up and Down do the same for paddle 2; every other key leaves both intents alone; nothing but the intents changes |
| `MatchSpec.KeyUpIntent` | main.py:114-118 | releasing W or S stops paddle 1 and releasing Up or Down stops paddle 2, whatever the other key of the pair is doing; nothing else changes |
| `MatchSpec.PhaseOf` | main.py:68-98 | the start screen shows exactly when `started` is false, whatever `game_over` says; play exactly when `started` is true and `game_over` false; the game-over screen exactly when both are true |
| `MatchSpec.HandleEvent` | main.py:71-118 | on the start and game-over screens any event but Space changes nothing, and Space gives exactly the start or the restart; during play an event changes at most the two intents, and one that is neither a key-down nor a key-up changes nothing |
| `MatchSpec.HandleEvents` | main.py:68-118 | draining a frame's events reports a quit exactly when a Quit event is among them |
| `MatchSpec.MovedPaddleY` | main.py:123-126 | one paddle's new top edge lies in [0, 620]; with exact = y + intent × dt, it satisfies y' <= exact < y' + 1 while 0 <= exact <= 620, is 0 when exact < 0 and 620 when exact > 620 |
| `MatchSpec.MovePaddles` | main.py:122-126 | each paddle moves by intent × dt: with exact = y + intent × dt, the new top edge y' satisfies y' <= exact < y' + 1 while 0 <= exact <= 620, is 0 when exact < 0 and 620 when exact > 620; so both top edges lie in [0, 620]; only the paddles' y changes |
| `MatchSpec.MovedCoord` | main.py:129-130 | one ball coordinate after `+= v * dt` lands less than one pixel from the exact sum and never farther from zero than it |
| `MatchSpec.MoveBall` | main.py:128-130 | each ball coordinate truncates its exact new position toward zero: the new coordinate c' is less than one away from exact, with 0 <= c' <= exact when exact >= 0 and exact <= c' <= 0 when exact < 0; the size and the rest of the match are unchanged |
| `MatchSpec.HitsWall` | main.py:133 | has no contract of its own: the wall test, the ball's top <= 0 or its bottom >= 720; `MatchSpec.WallBounce` states what follows from it |
| `MatchSpec.WallBounce` | main.py:132-135 | the vertical velocity is negated when top <= 0 or bottom >= 720, and kept otherwise; its magnitude and everything else stay unchanged |
| `MatchSpec.HitPaddle1` | main.py:138-141 | the response fires exactly when the ball overlaps paddle 1 while moving left; then vx becomes −1.1 × the old vx, which is positive, and the ball's left edge is on the paddle's right edge (37); only vx and the ball's x can change |
| `MatchSpec.HitPaddle2` | main.py:142-145 | the response fires exactly when the ball overlaps paddle 2 while moving right; then vx becomes −1.1 × the old vx, which is negative, and the ball's x is the paddle's left edge minus 25, which puts a 25-wide ball flush against the paddle |
| `MatchSpec.Physics` | main.py:122-145 | steps 1 to 4 leave both paddles in [0, 620] and move them only vertically, keep the ball's size and the magnitude of vy, and change nothing but the paddles, the ball and the velocity |
| `MatchSpec.ScoreLeft` | main.py:148-154 | a ball whose left edge is at or past 0 adds exactly one point to player 2 and nothing to player 1; at 5 or more the game is over with winner 2 and the ball, its velocity and the draw count stay put; below 5 the result is exactly `reset_ball` of the scored match: the ball is recentred at its size, one new draw is used, and under a valid draw both velocity components have magnitude in [0.2, 0.4] |
| `MatchSpec.ScoreRight` | main.py:155-161 | a ball whose right edge is at or past 960 adds exactly one point to player 1 and nothing to player 2; at 5 or more the game is over with winner 1 and the ball, its velocity and the draw count stay put; below 5 the result is exactly `reset_ball` of the scored match: the ball is recentred at its size, one new draw is used, and under a valid draw both velocity components have magnitude in [0.2, 0.4] |
| `MatchSpec.Tick` | main.py:122-161 | after a tick both paddles lie in [0, 620], `started` is unchanged, the intents are unchanged, and each score has risen by at most one |
| `MatchSpec.Frame` | main.py:60-161 | a frame reports a quit exactly when a Quit event arrives |
| `MatchSpec.Run` | main.py:60-161 | has no contract of its own: the `while True` loop, one frame per input, stopping after the frame in which a Quit arrives; `MatchProps.RunAppend`, `MatchProps.RunStopsAtQuit` and `MatchProps.RunKeepsValid` state what it does |
| `MatchProps.RunAppend` | main.py:60-161 | as long as no Quit arrives, running two batches of frames in turn gives the same match as running them together |
| `MatchProps.RunStopsAtQuit` | main.py:72-104 | each screen's event loop returns from `main()` on a Quit (lines 72-74, 89-91 and 102-104); once a frame carries a Quit, frames that follow have no effect on the final match |
| `MatchProps.StartScreenEffect` | main.py:68-81 | on the start screen, a Space before any Quit starts play with no winner and a recentred ball that has a valid velocity; only the ball, the velocity and the phase flags change, so intents and scores are kept; without such a Space nothing changes |
| `MatchProps.RestartIdempotent` | main.py:92-96 | a second Space on the game-over screen in the same frame changes nothing more |
| `MatchProps.GameOverScreenEffect` | main.py:84-98 | on the game-over screen the frame's result is exactly one restart if a Space comes before any Quit, and the unchanged match otherwise |
| `MatchProps.PlayScreenOnlyIntents` | main.py:101-118 | during play the frame's events change nothing but the two intents, and each intent stays among −0.5, 0 and 0.5 |
| `MatchProps.PlayScreenIntents` | main.py:105-118 | during play each paddle's intent after the events equals the one set by the last event about that paddle's keys, or the old intent if there is none (last event wins) |
| `MatchProps.PaddlesFollowIntent` | main.py:123-126 | a paddle on the field never moves against its intent: not down (larger y) for a negative intent, not up (smaller y) for a positive one, and not at all for zero |
| `MatchProps.HandleEventsKeepsValid` | main.py:68-118 | handling a frame's events on any screen keeps the invariant |
| `MatchProps.PhysicsKeepsValid` | main.py:122-145 | moving and bouncing keeps the invariant, the phase, the scores and the intents; only the paddles, the ball and its velocity change |
| `MatchProps.AtMostOnePaddleResponse` | main.py:138-145 | after paddle 1 sends the ball back, paddle 2 cannot respond in the same tick |
| `MatchProps.TickOutcome` | main.py:147-161 | in a tick of play player 2 scores exactly when the ball left on the left, and player 1 exactly when it left on the right; never both score; the game is over exactly when a score is 5, and the winner is that player; otherwise a scored ball is back at (468, 348) with a fresh draw whose velocity components both have magnitude in [0.2, 0.4]; when nobody scores, or the game ends, no draw is used; the invariant holds |
| `MatchProps.FrameKeepsValid` | main.py:60-161 | every frame keeps the invariant: paddles on the field and of fixed geometry, intents among −0.5, 0 and 0.5, vy of magnitude in [0.2, 0.4], vx of magnitude at least 0.2, and scores and winner consistent with the phase |
| `MatchProps.FramePhase` | main.py:68-98 | a frame on the start screen ends in play exactly when a Space comes before any Quit; one on the game-over screen returns to the start screen exactly then, never straight to play; one in play ends in play or game over |
| `MatchProps.FrameScores` | main.py:55-161 | scores stay 0–0 on the start screen; during play they rise by one point for one player or not at all; they return to 0–0 only through Space on the game-over screen |
| `MatchProps.RunKeepsValid` | main.py:60-161 | the invariant holds after any sequence of frames |
| `MatchProps.PaddlesStayOnField` | main.py:122-126 | from the initial state, after any sequence of frames, both paddles' top edges lie in [0, 620] |
| `Pong.MatchState.constructor` | main.py:45-58 | the new state is the initial match and satisfies the invariant |
| `Pong.MatchState.ResetBall` | main.py:23-26 | updates the ball and velocity fields in place to `MatchSpec.ResetBall` of the old state |
| `Pong.MatchState.Start` | main.py:75-79 | sets the flags and resets the ball in place, giving `MatchSpec.StartPressed` of the old state |
| `Pong.MatchState.Restart` | main.py:92-96 | sets the fields in place, giving `MatchSpec.RestartPressed` of the old state |
| `Pong.MatchState.PressKey` | main.py:105-113 | updates the intents in place, giving `MatchSpec.KeyDownIntent` of the old state |
| `Pong.MatchState.ReleaseKey` | main.py:114-118 | updates the intents in place, giving `MatchSpec.KeyUpIntent` of the old state |
| `Pong.MatchState.HandleEvents` | main.py:71-118 | the event loop stops at the first Quit and reports it; the fields end as `MatchSpec.HandleEvents` says |
| `Pong.MatchState.MovePaddles` | main.py:122-126 | moves and clamps the paddle fields in place, as `MatchSpec.MovePaddles` says |
| `Pong.MatchState.MoveBall` | main.py:128-130 | moves the ball field in place, as `MatchSpec.MoveBall` says |
| `Pong.MatchState.Bounce` | main.py:132-145 | applies the wall bounce, then the paddle 1 response, then the paddle 2 response, in place |
| `Pong.MatchState.Score` | main.py:147-161 | applies the left-exit check, then the right-exit check, in place |
| `Pong.MatchState.Tick` | main.py:122-161 | a tick of play keeps the invariant, leaves both paddles in [0, 620], and gives `MatchSpec.Tick` of the old state |
| `Pong.MatchState.Frame` | main.py:60-161 | one loop iteration keeps the invariant and gives exactly the state and quit flag of `MatchSpec.Frame` |
| `Pong.MatchState.Run` | main.py:60-161 | the loop over a sequence of frames, stopping at a Quit, keeps the invariant and ends in `MatchSpec.Run` of the old state |

## Left out

- Window, fonts, text and drawing (`pygame.init`, `set_mode`, `draw_center_text`, `draw.rect`/`ellipse`, the centre line, `display.flip`): rendering only. The class's `Snapshot()` is what a renderer would read.
- Audio (`load_sound`, `bounce_sound.play()`): a foreign library and file I/O. No bounce signal is modelled.
- `clock.tick(60)` and `pygame.event.get()`: the frame time and the events are inputs of `Frame`.
- `random.choice` and `random.uniform`: replaced by the random source `rng`, which is required to give valid draws.
- `pygame.quit()` and returning from `main()`: a `Quit` event ends the frame and `Frame` reports it; `Run` stops there.
- MatchSpec.MoveBall: uses exact real arithmetic for `v * dt` and the sum. It does not model floating-point rounding before the truncation.
- Geometry.Trunc: models the Rect store as truncation toward zero. Rounding of the float product is not modelled.
- Geometry.Collides: leaves out `colliderect`'s test for zero-sized rectangles. Every rectangle here has positive size.
- Integer width: pygame keeps `Rect` fields as C ints, while the model's `int` is unbounded. Values beyond 32 bits, which only an enormous frame time could produce, are not modelled.
- No cap on ball speed: repeated paddle hits keep multiplying `vx` by 1.1, as in the source.

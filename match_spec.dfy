/** The match engine of the Pong game as values: the whole state of one match,
    and one function per rule the game loop applies to it. The class in
    match_state.dfy updates its fields in place and is proved to follow these
    functions; the lemmas in match_props.dfy are stated about them. */
module MatchSpec {
  import opened Geometry

  // Field and object geometry, in pixels; speeds in pixels per millisecond.
  const ScreenWidth: int := 960
  const ScreenHeight: int := 720
  const PaddleWidth: int := 7
  const PaddleHeight: int := 100
  const BallSize: int := 25
  const PaddleSpeed: real := 0.5
  const WinningScore: nat := 5
  const Paddle1X: int := 30
  const Paddle2X: int := ScreenWidth - 50
  /** The lowest top edge a paddle may have: SCREEN_HEIGHT - PADDLE_HEIGHT. */
  const PaddleMaxY: int := ScreenHeight - PaddleHeight

  /** The keys the game reacts to; every other key is OtherKey. */
  datatype Key = Space | W | S | Up | Down | OtherKey

  /** A pygame event as the loop sees it: the window's close request, a key
      pressed or released, or anything else. */
  datatype Event = Quit | KeyDown(key: Key) | KeyUp(key: Key) | OtherEvent

  datatype Player = One | Two

  datatype Option<T> = None | Some(value: T)

  /** The three screens, encoded in the source by the flags started and game_over. */
  datatype Phase = NotStarted | Playing | GameOver

  /** The random draws of one reset_ball call: per axis a sign from
      random.choice([-1, 1]) and a magnitude from random.uniform(0.2, 0.4). */
  datatype Draw = Draw(signX: int, magX: real, signY: int, magY: real)

  predicate ValidDraw(d: Draw) {
    (d.signX == -1 || d.signX == 1) && 0.2 <= d.magX <= 0.4 &&
    (d.signY == -1 || d.signY == 1) && 0.2 <= d.magY <= 0.4
  }

  /** The random source: the n-th call of reset_ball (counting from 0) uses rng(n). */
  type Rng = nat -> Draw

  ghost predicate ValidRng(rng: Rng) {
    forall n: nat :: ValidDraw(rng(n))
  }

  function Magnitude(v: real): real {
    if v < 0.0 then -v else v
  }

  /** Everything main() keeps between frames. score1 and score2 are score[0]
      and score[1]; move1 and move2 are paddle_1_move and paddle_2_move; vx
      and vy are ball_speed; drawn counts the reset_ball calls so far. */
  datatype Match = Match(
    paddle1: Rect, paddle2: Rect, ball: Rect,
    vx: real, vy: real,
    move1: real, move2: real,
    score1: nat, score2: nat,
    started: bool, gameOver: bool, winner: Option<Player>,
    drawn: nat)

  /** The not-started test comes first, so a match with started false is on
      the start screen whatever game_over says. */
  function PhaseOf(m: Match): (p: Phase)
    ensures p == NotStarted <==> !m.started
    ensures p == Playing <==> m.started && !m.gameOver
    ensures p == GameOver <==> m.started && m.gameOver
  {
    if !m.started then NotStarted else if m.gameOver then GameOver else Playing
  }

  predicate IsIntent(v: real) {
    v == -PaddleSpeed || v == 0.0 || v == PaddleSpeed
  }

  /** The invariant every reachable match keeps. */
  predicate Valid(m: Match) {
    m.paddle1 == Rect(Paddle1X, m.paddle1.y, PaddleWidth, PaddleHeight) &&
    m.paddle2 == Rect(Paddle2X, m.paddle2.y, PaddleWidth, PaddleHeight) &&
    0 <= m.paddle1.y <= PaddleMaxY && 0 <= m.paddle2.y <= PaddleMaxY &&
    m.ball.w == BallSize && m.ball.h == BallSize &&
    IsIntent(m.move1) && IsIntent(m.move2) &&
    0.2 <= Magnitude(m.vx) && 0.2 <= Magnitude(m.vy) <= 0.4 &&
    match PhaseOf(m)
    case NotStarted =>
      m.score1 == 0 && m.score2 == 0 && (m.gameOver <==> m.winner != None)
    case Playing =>
      m.score1 < WinningScore && m.score2 < WinningScore && m.winner == None
    case GameOver =>
      (m.winner == Some(One) && m.score1 == WinningScore && m.score2 < WinningScore) ||
      (m.winner == Some(Two) && m.score2 == WinningScore && m.score1 < WinningScore)
  }

  /** reset_ball: recentre the ball and give it a fresh random velocity. */
  function ResetBall(m: Match, rng: Rng): (r: Match)
    ensures r.ball.w == m.ball.w && r.ball.h == m.ball.h
    ensures r.ball.x + r.ball.w / 2 == ScreenWidth / 2 && r.ball.y + r.ball.h / 2 == ScreenHeight / 2
    ensures m.ball.w == BallSize && m.ball.h == BallSize ==> r.ball.x == 468 && r.ball.y == 348
    ensures ValidDraw(rng(m.drawn)) ==>
      0.2 <= Magnitude(r.vx) <= 0.4 && 0.2 <= Magnitude(r.vy) <= 0.4
    ensures r.drawn == m.drawn + 1
    ensures r.(ball := m.ball, vx := m.vx, vy := m.vy, drawn := m.drawn) == m
  {
    var d := rng(m.drawn);
    m.(ball := WithCenter(m.ball, ScreenWidth / 2, ScreenHeight / 2),
       vx := d.signX as real * d.magX,
       vy := d.signY as real * d.magY,
       drawn := m.drawn + 1)
  }

  /** The state main() builds before its loop: both paddles centred
      vertically, the ball reset, no score, on the start screen. */
  function Initial(rng: Rng): (m: Match)
    ensures PhaseOf(m) == NotStarted && !m.gameOver && m.winner == None
    ensures m.score1 == 0 && m.score2 == 0 && m.move1 == 0.0 && m.move2 == 0.0
    ensures m.paddle1 == Rect(30, 310, 7, 100) && m.paddle2 == Rect(910, 310, 7, 100)
    ensures m.ball == Rect(468, 348, 25, 25)
    ensures ValidRng(rng) ==> Valid(m)
  {
    var paddleY := ScreenHeight / 2 - PaddleHeight / 2;
    ResetBall(
      Match(Rect(Paddle1X, paddleY, PaddleWidth, PaddleHeight),
            Rect(Paddle2X, paddleY, PaddleWidth, PaddleHeight),
            Rect(ScreenWidth / 2, ScreenHeight / 2, BallSize, BallSize),
            0.0, 0.0, 0.0, 0.0, 0, 0, false, false, None, 0),
      rng)
  }

  /** Space on the start screen: play begins with a freshly reset ball. */
  function StartPressed(m: Match, rng: Rng): (r: Match)
    ensures PhaseOf(r) == Playing && r.winner == None
    ensures r.(started := m.started, gameOver := m.gameOver, winner := m.winner) == ResetBall(m, rng)
  {
    ResetBall(m.(started := true, gameOver := false, winner := None), rng)
  }

  /** Space on the game-over screen: back to the start screen with both
      paddles recentred and the score cleared. game_over and the winner stay
      set, and the ball is not reset. */
  function RestartPressed(m: Match): (r: Match)
    ensures PhaseOf(r) == NotStarted
    ensures r.score1 == 0 && r.score2 == 0
    ensures r.paddle1.y + r.paddle1.h / 2 == ScreenHeight / 2
    ensures r.paddle2.y + r.paddle2.h / 2 == ScreenHeight / 2
    ensures m.paddle1.h == PaddleHeight && m.paddle2.h == PaddleHeight ==>
      r.paddle1.y == 310 && r.paddle2.y == 310
    ensures r.paddle1.(y := m.paddle1.y) == m.paddle1 && r.paddle2.(y := m.paddle2.y) == m.paddle2
    ensures r.(started := m.started, paddle1 := m.paddle1, paddle2 := m.paddle2,
               score1 := m.score1, score2 := m.score2) == m
  {
    m.(started := false,
       paddle1 := WithCenterY(m.paddle1, ScreenHeight / 2),
       paddle2 := WithCenterY(m.paddle2, ScreenHeight / 2),
       score1 := 0, score2 := 0)
  }

  /** Key-down during play: W and S steer paddle 1, Up and Down paddle 2. */
  function KeyDownIntent(m: Match, k: Key): (r: Match)
    ensures k == W ==> r.move1 == -PaddleSpeed
    ensures k == S ==> r.move1 == PaddleSpeed
    ensures k == Up ==> r.move2 == -PaddleSpeed
    ensures k == Down ==> r.move2 == PaddleSpeed
    ensures k != W && k != S ==> r.move1 == m.move1
    ensures k != Up && k != Down ==> r.move2 == m.move2
    ensures r.(move1 := m.move1, move2 := m.move2) == m
  {
    match k
    case W => m.(move1 := -PaddleSpeed)
    case S => m.(move1 := PaddleSpeed)
    case Up => m.(move2 := -PaddleSpeed)
    case Down => m.(move2 := PaddleSpeed)
    case _ => m
  }

  /** Key-up during play: releasing either key of a pair stops that paddle,
      even while the other key of the pair is still held. */
  function KeyUpIntent(m: Match, k: Key): (r: Match)
    ensures k == W || k == S ==> r.move1 == 0.0
    ensures k == Up || k == Down ==> r.move2 == 0.0
    ensures k != W && k != S ==> r.move1 == m.move1
    ensures k != Up && k != Down ==> r.move2 == m.move2
    ensures r.(move1 := m.move1, move2 := m.move2) == m
  {
    if k == W || k == S then m.(move1 := 0.0)
    else if k == Up || k == Down then m.(move2 := 0.0)
    else m
  }

  /** One event other than Quit, handled by the rules of the screen that was
      showing when the frame began. */
  function HandleEvent(screen: Phase, m: Match, rng: Rng, e: Event): (r: Match)
    ensures screen != Playing && e != KeyDown(Space) ==> r == m
    ensures screen == NotStarted && e == KeyDown(Space) ==> r == StartPressed(m, rng)
    ensures screen == GameOver && e == KeyDown(Space) ==> r == RestartPressed(m)
    ensures screen == Playing ==> r.(move1 := m.move1, move2 := m.move2) == m
    ensures screen == Playing && !e.KeyDown? && !e.KeyUp? ==> r == m
  {
    match screen
    case NotStarted => if e == KeyDown(Space) then StartPressed(m, rng) else m
    case GameOver => if e == KeyDown(Space) then RestartPressed(m) else m
    case Playing =>
      match e
      case KeyDown(k) => KeyDownIntent(m, k)
      case KeyUp(k) => KeyUpIntent(m, k)
      case _ => m
  }

  /** The state reached by a frame, and whether the program quit during it. */
  datatype Outcome = Outcome(state: Match, quit: bool)

  /** The event loop of one frame: events are handled in order until a Quit,
      which ends the program on the spot. */
  function HandleEvents(screen: Phase, m: Match, rng: Rng, events: seq<Event>): (o: Outcome)
    ensures o.quit <==> Quit in events
    decreases |events|
  {
    if events == [] then Outcome(m, false)
    else if events[0] == Quit then Outcome(m, true)
    else HandleEvents(screen, HandleEvent(screen, m, rng, events[0]), rng, events[1..])
  }

  /** Where a paddle with top edge y and intent move ends after dt
      milliseconds: the whole pixel at or above the exact position while that
      is on the field, the border it was pushed past otherwise. */
  predicate PaddleLandsBy(y: int, move: real, dt: nat, y': int) {
    var exact := y as real + move * dt as real;
    (exact < 0.0 ==> y' == 0) &&
    (0.0 <= exact <= PaddleMaxY as real ==> y' as real <= exact < y' as real + 1.0) &&
    (PaddleMaxY as real < exact ==> y' == PaddleMaxY)
  }

  /** One paddle's new top edge: `rect.y += move * dt` stores the truncated
      sum, and the clamp puts it back onto the field. */
  function MovedPaddleY(y: int, move: real, dt: nat): (y': int)
    ensures 0 <= y' <= PaddleMaxY
    ensures PaddleLandsBy(y, move, dt, y')
  {
    Clamp(Trunc(y as real + move * dt as real), 0, PaddleMaxY)
  }

  /** Step 1 of a tick: move each paddle by its intent times the frame time,
      store the result into the Rect, and clamp it onto the field. */
  function MovePaddles(m: Match, dt: nat): (r: Match)
    ensures 0 <= r.paddle1.y <= PaddleMaxY && 0 <= r.paddle2.y <= PaddleMaxY
    ensures PaddleLandsBy(m.paddle1.y, m.move1, dt, r.paddle1.y)
    ensures PaddleLandsBy(m.paddle2.y, m.move2, dt, r.paddle2.y)
    ensures r.paddle1.(y := m.paddle1.y) == m.paddle1 && r.paddle2.(y := m.paddle2.y) == m.paddle2
    ensures r.(paddle1 := m.paddle1, paddle2 := m.paddle2) == m
  {
    m.(paddle1 := m.paddle1.(y := MovedPaddleY(m.paddle1.y, m.move1, dt)),
       paddle2 := m.paddle2.(y := MovedPaddleY(m.paddle2.y, m.move2, dt)))
  }

  /** The pixel a Rect coordinate lands on when it is moved to the exact
      position exact: less than one pixel away, and never farther from zero. */
  predicate LandsTowardZero(exact: real, c': int) {
    Magnitude(c' as real - exact) < 1.0 &&
    (0.0 <= exact ==> 0 <= c' && c' as real <= exact) &&
    (exact < 0.0 ==> c' <= 0 && exact <= c' as real)
  }

  /** One ball coordinate after `rect.c += v * dt`: the sum, truncated as it
      is stored back into the Rect. */
  function MovedCoord(c: int, v: real, dt: nat): (c': int)
    ensures LandsTowardZero(c as real + v * dt as real, c')
  {
    Trunc(c as real + v * dt as real)
  }

  /** Step 2: move the ball by its velocity times the frame time; each
      coordinate lands on the pixel next to the exact position on the side
      of zero. */
  function MoveBall(m: Match, dt: nat): (r: Match)
    ensures LandsTowardZero(m.ball.x as real + m.vx * dt as real, r.ball.x)
    ensures LandsTowardZero(m.ball.y as real + m.vy * dt as real, r.ball.y)
    ensures r.ball.w == m.ball.w && r.ball.h == m.ball.h
    ensures r.(ball := m.ball) == m
  {
    m.(ball := m.ball.(x := MovedCoord(m.ball.x, m.vx, dt),
                       y := MovedCoord(m.ball.y, m.vy, dt)))
  }

  predicate HitsWall(ball: Rect) {
    Top(ball) <= 0 || Bottom(ball) >= ScreenHeight
  }

  /** Step 3: the top and bottom walls reverse the vertical velocity. */
  function WallBounce(m: Match): (r: Match)
    ensures HitsWall(m.ball) ==> r.vy == -m.vy
    ensures !HitsWall(m.ball) ==> r.vy == m.vy
    ensures Magnitude(r.vy) == Magnitude(m.vy)
    ensures r.(vy := m.vy) == m
  {
    if HitsWall(m.ball) then m.(vy := -m.vy) else m
  }

  /** Step 4a: a ball moving left into paddle 1 is sent back 1.1 times as
      fast and placed flush against the paddle's right edge. */
  function HitPaddle1(m: Match): (r: Match)
    ensures r != m <==> Collides(m.ball, m.paddle1) && m.vx < 0.0
    ensures Collides(m.ball, m.paddle1) && m.vx < 0.0 ==>
      r.vx == -1.1 * m.vx && 0.0 < r.vx && Magnitude(r.vx) == 1.1 * Magnitude(m.vx) &&
      Left(r.ball) == Right(m.paddle1)
    ensures r.ball.(x := m.ball.x) == m.ball
    ensures r.(vx := m.vx, ball := m.ball) == m
  {
    if Collides(m.ball, m.paddle1) && m.vx < 0.0 then
      m.(vx := m.vx * -1.1, ball := m.ball.(x := Right(m.paddle1)))
    else m
  }

  /** Step 4b: a ball moving right into paddle 2 is sent back 1.1 times as
      fast and placed BALL_SIZE pixels left of the paddle's left edge. */
  function HitPaddle2(m: Match): (r: Match)
    ensures r != m <==> Collides(m.ball, m.paddle2) && m.vx > 0.0
    ensures Collides(m.ball, m.paddle2) && m.vx > 0.0 ==>
      r.vx == -1.1 * m.vx && r.vx < 0.0 && Magnitude(r.vx) == 1.1 * Magnitude(m.vx) &&
      Left(r.ball) == Left(m.paddle2) - BallSize &&
      (m.ball.w == BallSize ==> Right(r.ball) == Left(m.paddle2))
    ensures r.ball.(x := m.ball.x) == m.ball
    ensures r.(vx := m.vx, ball := m.ball) == m
  {
    if Collides(m.ball, m.paddle2) && m.vx > 0.0 then
      m.(vx := m.vx * -1.1, ball := m.ball.(x := Left(m.paddle2) - BallSize))
    else m
  }

  /** Steps 1 to 4 of a tick: everything before scoring. */
  function Physics(m: Match, dt: nat): (r: Match)
    ensures 0 <= r.paddle1.y <= PaddleMaxY && 0 <= r.paddle2.y <= PaddleMaxY
    ensures r.paddle1.(y := m.paddle1.y) == m.paddle1 && r.paddle2.(y := m.paddle2.y) == m.paddle2
    ensures r.ball.w == m.ball.w && r.ball.h == m.ball.h && Magnitude(r.vy) == Magnitude(m.vy)
    ensures r.(paddle1 := m.paddle1, paddle2 := m.paddle2, ball := m.ball, vx := m.vx, vy := m.vy) == m
  {
    HitPaddle2(HitPaddle1(WallBounce(MoveBall(MovePaddles(m, dt), dt))))
  }

  /** Step 5a: a ball whose left edge reaches the left border scores for
      player 2; at 5 points the game is over, otherwise the ball is reset. */
  function ScoreLeft(m: Match, rng: Rng): (r: Match)
    ensures Left(m.ball) > 0 ==> r == m
    ensures Left(m.ball) <= 0 ==> r.score2 == m.score2 + 1
    ensures r.score1 == m.score1
    ensures Left(m.ball) <= 0 && r.score2 >= WinningScore ==>
      r.gameOver && r.winner == Some(Two) && r.ball == m.ball && r.vx == m.vx && r.vy == m.vy &&
      r.drawn == m.drawn
    ensures Left(m.ball) <= 0 && r.score2 < WinningScore ==>
      r.gameOver == m.gameOver && r.winner == m.winner &&
      r.ball.x + r.ball.w / 2 == ScreenWidth / 2 && r.ball.y + r.ball.h / 2 == ScreenHeight / 2 &&
      r.ball.w == m.ball.w && r.ball.h == m.ball.h && r.drawn == m.drawn + 1 &&
      (ValidDraw(rng(m.drawn)) ==> 0.2 <= Magnitude(r.vx) <= 0.4 && 0.2 <= Magnitude(r.vy) <= 0.4) &&
      r == ResetBall(m.(score2 := m.score2 + 1), rng)
    ensures r.(score2 := m.score2, gameOver := m.gameOver, winner := m.winner,
               ball := m.ball, vx := m.vx, vy := m.vy, drawn := m.drawn) == m
  {
    if Left(m.ball) <= 0 then
      var scored := m.(score2 := m.score2 + 1);
      if scored.score2 >= WinningScore then scored.(gameOver := true, winner := Some(Two))
      else ResetBall(scored, rng)
    else m
  }

  /** Step 5b: a ball whose right edge reaches the right border scores for
      player 1; at 5 points the game is over, otherwise the ball is reset. */
  function ScoreRight(m: Match, rng: Rng): (r: Match)
    ensures Right(m.ball) < ScreenWidth ==> r == m
    ensures Right(m.ball) >= ScreenWidth ==> r.score1 == m.score1 + 1
    ensures r.score2 == m.score2
    ensures Right(m.ball) >= ScreenWidth && r.score1 >= WinningScore ==>
      r.gameOver && r.winner == Some(One) && r.ball == m.ball && r.vx == m.vx && r.vy == m.vy &&
      r.drawn == m.drawn
    ensures Right(m.ball) >= ScreenWidth && r.score1 < WinningScore ==>
      r.gameOver == m.gameOver && r.winner == m.winner &&
      r.ball.x + r.ball.w / 2 == ScreenWidth / 2 && r.ball.y + r.ball.h / 2 == ScreenHeight / 2 &&
      r.ball.w == m.ball.w && r.ball.h == m.ball.h && r.drawn == m.drawn + 1 &&
      (ValidDraw(rng(m.drawn)) ==> 0.2 <= Magnitude(r.vx) <= 0.4 && 0.2 <= Magnitude(r.vy) <= 0.4) &&
      r == ResetBall(m.(score1 := m.score1 + 1), rng)
    ensures r.(score1 := m.score1, gameOver := m.gameOver, winner := m.winner,
               ball := m.ball, vx := m.vx, vy := m.vy, drawn := m.drawn) == m
  {
    if Right(m.ball) >= ScreenWidth then
      var scored := m.(score1 := m.score1 + 1);
      if scored.score1 >= WinningScore then scored.(gameOver := true, winner := Some(One))
      else ResetBall(scored, rng)
    else m
  }

  /** One tick of play: physics, then the left exit, then the right exit. */
  function Tick(m: Match, rng: Rng, dt: nat): (r: Match)
    ensures 0 <= r.paddle1.y <= PaddleMaxY && 0 <= r.paddle2.y <= PaddleMaxY
    ensures r.started == m.started && r.move1 == m.move1 && r.move2 == m.move2
    ensures m.score1 <= r.score1 <= m.score1 + 1 && m.score2 <= r.score2 <= m.score2 + 1
  {
    ScoreRight(ScoreLeft(Physics(m, dt), rng), rng)
  }

  /** One iteration of the game loop: the screen showing at its start
      handles the frame's events; only during play, and only if nothing
      quit, does the tick follow. */
  function Frame(m: Match, rng: Rng, events: seq<Event>, dt: nat): (o: Outcome)
    ensures o.quit <==> Quit in events
  {
    var screen := PhaseOf(m);
    var handled := HandleEvents(screen, m, rng, events);
    if screen == Playing && !handled.quit then Outcome(Tick(handled.state, rng, dt), false)
    else handled
  }

  /** What one frame receives from outside: its events and the milliseconds
      clock.tick(60) reported. */
  datatype FrameInput = FrameInput(events: seq<Event>, dt: nat)

  /** The game loop over a sequence of frames, stopping at the first quit. */
  function Run(m: Match, rng: Rng, frames: seq<FrameInput>): Match
    decreases |frames|
  {
    if frames == [] then m
    else
      var o := Frame(m, rng, frames[0].events, frames[0].dt);
      if o.quit then o.state else Run(o.state, rng, frames[1..])
  }
}

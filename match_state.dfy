/** The game loop of main() with its local variables gathered into one
    object: each method updates the fields in place as the loop does, and is
    proved to agree with the matching function of MatchSpec. */
module Pong {
  import opened Geometry
  import opened MatchSpec
  import MatchProps

  class MatchState {
    var paddle1: Rect
    var paddle2: Rect
    var ball: Rect
    var vx: real
    var vy: real
    var move1: real
    var move2: real
    var score1: nat
    var score2: nat
    var started: bool
    var gameOver: bool
    var winner: Option<Player>
    var drawn: nat
    /** The random source reset_ball draws from, in order. */
    const rng: Rng

    /** The fields as one value, the view the renderer reads each frame. */
    function Snapshot(): Match
      reads this
    {
      Match(paddle1, paddle2, ball, vx, vy, move1, move2, score1, score2,
            started, gameOver, winner, drawn)
    }

    ghost predicate Valid()
      reads this
    {
      ValidRng(rng) && MatchSpec.Valid(Snapshot())
    }

    /** The state before the loop starts: paddles centred, ball reset, no
        score, start screen. */
    constructor (rng: Rng)
      requires ValidRng(rng)
      ensures this.rng == rng
      ensures Valid() && Snapshot() == Initial(rng)
    {
      this.rng := rng;
      var paddleY := ScreenHeight / 2 - PaddleHeight / 2;
      paddle1 := Rect(Paddle1X, paddleY, PaddleWidth, PaddleHeight);
      paddle2 := Rect(Paddle2X, paddleY, PaddleWidth, PaddleHeight);
      ball := Rect(ScreenWidth / 2, ScreenHeight / 2, BallSize, BallSize);
      vx, vy := 0.0, 0.0;
      drawn := 0;
      move1, move2 := 0.0, 0.0;
      score1, score2 := 0, 0;
      started, gameOver, winner := false, false, None;
      new;
      ResetBall();
    }

    /** reset_ball: recentre the ball and draw its next random velocity. */
    method ResetBall()
      modifies this
      ensures Snapshot() == MatchSpec.ResetBall(old(Snapshot()), rng)
    {
      var d := rng(drawn);
      ball := WithCenter(ball, ScreenWidth / 2, ScreenHeight / 2);
      vx := d.signX as real * d.magX;
      vy := d.signY as real * d.magY;
      drawn := drawn + 1;
    }

    /** Space on the start screen. */
    method Start()
      modifies this
      ensures Snapshot() == StartPressed(old(Snapshot()), rng)
    {
      started := true;
      gameOver := false;
      winner := None;
      ResetBall();
    }

    /** Space on the game-over screen. */
    method Restart()
      modifies this
      ensures Snapshot() == RestartPressed(old(Snapshot()))
    {
      started := false;
      paddle1 := WithCenterY(paddle1, ScreenHeight / 2);
      paddle2 := WithCenterY(paddle2, ScreenHeight / 2);
      score1, score2 := 0, 0;
    }

    /** A key-down event during play. */
    method PressKey(k: Key)
      modifies this
      ensures Snapshot() == KeyDownIntent(old(Snapshot()), k)
    {
      if k == W {
        move1 := -PaddleSpeed;
      }
      if k == S {
        move1 := PaddleSpeed;
      }
      if k == Up {
        move2 := -PaddleSpeed;
      }
      if k == Down {
        move2 := PaddleSpeed;
      }
    }

    /** A key-up event during play. */
    method ReleaseKey(k: Key)
      modifies this
      ensures Snapshot() == KeyUpIntent(old(Snapshot()), k)
    {
      if k == W || k == S {
        move1 := 0.0;
      }
      if k == Up || k == Down {
        move2 := 0.0;
      }
    }

    /** Drain the frame's events under the rules of the given screen,
        stopping at the first Quit. */
    method HandleEvents(screen: Phase, events: seq<Event>) returns (quit: bool)
      modifies this
      ensures quit <==> Quit in events
      ensures Outcome(Snapshot(), quit) == MatchSpec.HandleEvents(screen, old(Snapshot()), rng, events)
    {
      var i := 0;
      while i < |events|
        invariant 0 <= i <= |events|
        invariant MatchSpec.HandleEvents(screen, Snapshot(), rng, events[i..]) ==
                  MatchSpec.HandleEvents(screen, old(Snapshot()), rng, events)
      {
        var e := events[i];
        assert events[i..][0] == e && events[i..][1..] == events[i + 1..];
        if e == Quit {
          return true;
        }
        match screen {
          case NotStarted =>
            if e == KeyDown(Space) {
              Start();
            }
          case GameOver =>
            if e == KeyDown(Space) {
              Restart();
            }
          case Playing =>
            match e {
              case KeyDown(k) => PressKey(k);
              case KeyUp(k) => ReleaseKey(k);
              case _ =>
            }
        }
        i := i + 1;
      }
      return false;
    }

    /** Step 1 of a tick: move each paddle by its intent and clamp it onto
        the field. */
    method MovePaddles(dt: nat)
      modifies this
      ensures Snapshot() == MatchSpec.MovePaddles(old(Snapshot()), dt)
    {
      paddle1 := paddle1.(y := MovedPaddleY(paddle1.y, move1, dt));
      paddle2 := paddle2.(y := MovedPaddleY(paddle2.y, move2, dt));
    }

    /** Step 2 of a tick: move the ball by its velocity. */
    method MoveBall(dt: nat)
      modifies this
      ensures Snapshot() == MatchSpec.MoveBall(old(Snapshot()), dt)
    {
      ball := ball.(x := MovedCoord(ball.x, vx, dt));
      ball := ball.(y := MovedCoord(ball.y, vy, dt));
    }

    /** Steps 3 and 4 of a tick: bounce the ball off the walls, then off the
        paddles. */
    method Bounce()
      modifies this
      ensures Snapshot() == HitPaddle2(HitPaddle1(WallBounce(old(Snapshot()))))
    {
      if HitsWall(ball) {
        vy := -vy;
      }
      ghost var bounced := Snapshot();
      if Collides(ball, paddle1) && vx < 0.0 {
        vx := vx * -1.1;
        ball := ball.(x := Right(paddle1));
      }
      assert Snapshot() == HitPaddle1(bounced);
      if Collides(ball, paddle2) && vx > 0.0 {
        vx := vx * -1.1;
        ball := ball.(x := Left(paddle2) - BallSize);
      }
    }

    /** Step 5 of a tick: a ball past the left border scores for player 2,
        one past the right border for player 1; at 5 points the game is
        over, otherwise the ball is reset. */
    method Score()
      modifies this
      ensures Snapshot() == ScoreRight(ScoreLeft(old(Snapshot()), rng), rng)
    {
      if Left(ball) <= 0 {
        score2 := score2 + 1;
        if score2 >= WinningScore {
          gameOver := true;
          winner := Some(Two);
        } else {
          ResetBall();
        }
      }
      ghost var leftChecked := Snapshot();
      assert leftChecked == ScoreLeft(old(Snapshot()), rng);

      if Right(ball) >= ScreenWidth {
        score1 := score1 + 1;
        if score1 >= WinningScore {
          gameOver := true;
          winner := Some(One);
        } else {
          ResetBall();
        }
      }
    }

    /** One tick of play. */
    method Tick(dt: nat)
      requires Valid() && PhaseOf(Snapshot()) == Playing
      modifies this
      ensures Valid()
      ensures 0 <= paddle1.y <= PaddleMaxY && 0 <= paddle2.y <= PaddleMaxY
      ensures Snapshot() == MatchSpec.Tick(old(Snapshot()), rng, dt)
    {
      MovePaddles(dt);
      MoveBall(dt);
      Bounce();
      Score();
      MatchProps.TickOutcome(old(Snapshot()), rng, dt);
    }

    /** One iteration of the game loop: the start screen, the game-over
        screen, or a frame of play. Returns whether the program quit. */
    method Frame(events: seq<Event>, dt: nat) returns (quit: bool)
      requires Valid()
      modifies this
      ensures Valid()
      ensures Outcome(Snapshot(), quit) == MatchSpec.Frame(old(Snapshot()), rng, events, dt)
    {
      MatchProps.HandleEventsKeepsValid(PhaseOf(Snapshot()), Snapshot(), rng, events);
      if !started {
        quit := HandleEvents(NotStarted, events);
      } else if gameOver {
        quit := HandleEvents(GameOver, events);
      } else {
        quit := HandleEvents(Playing, events);
        if !quit {
          Tick(dt);
        }
      }
      MatchProps.FrameKeepsValid(old(Snapshot()), rng, events, dt);
    }

    /** The loop itself, over a sequence of frames, until a Quit. */
    method Run(frames: seq<FrameInput>)
      requires Valid()
      modifies this
      ensures Valid()
      ensures Snapshot() == MatchSpec.Run(old(Snapshot()), rng, frames)
    {
      var i := 0;
      while i < |frames|
        invariant 0 <= i <= |frames| && Valid()
        invariant MatchSpec.Run(Snapshot(), rng, frames[i..]) == MatchSpec.Run(old(Snapshot()), rng, frames)
      {
        assert frames[i..][0] == frames[i] && frames[i..][1..] == frames[i + 1..];
        var quit := Frame(frames[i].events, frames[i].dt);
        if quit {
          return;
        }
        i := i + 1;
      }
    }
  }
}

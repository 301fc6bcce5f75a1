/** What the match engine guarantees, proved about the functions of
    MatchSpec: the invariant every reachable match keeps, the phase
    transitions a frame can make, how scores move, and how key events set
    the paddle intents. */
module MatchProps {
  import opened Geometry
  import opened MatchSpec

  /** A Space key-down comes before any Quit in the frame's events. */
  ghost predicate SpaceBeforeQuit(events: seq<Event>) {
    exists i :: 0 <= i < |events| && events[i] == KeyDown(Space) && Quit !in events[..i]
  }

  lemma NoSpaceBeforeLeadingQuit(events: seq<Event>)
    requires events != [] && events[0] == Quit
    ensures !SpaceBeforeQuit(events)
  {
    forall i | 0 <= i < |events| && events[i] == KeyDown(Space)
      ensures Quit in events[..i]
    {
      assert events[..i][0] == Quit;
    }
  }

  lemma SpaceBeforeQuitCons(events: seq<Event>)
    requires events != [] && events[0] != Quit
    ensures SpaceBeforeQuit(events) <==> events[0] == KeyDown(Space) || SpaceBeforeQuit(events[1..])
  {
    var tail := events[1..];
    if events[0] == KeyDown(Space) {
      assert events[..0] == [];
    }
    if SpaceBeforeQuit(events) && events[0] != KeyDown(Space) {
      var i :| 0 <= i < |events| && events[i] == KeyDown(Space) && Quit !in events[..i];
      assert tail[..i - 1] == events[1..i] && events[..i] == [events[0]] + events[1..i];
      assert tail[i - 1] == events[i];
    }
    if SpaceBeforeQuit(tail) {
      var i :| 0 <= i < |tail| && tail[i] == KeyDown(Space) && Quit !in tail[..i];
      assert events[..i + 1] == [events[0]] + tail[..i];
      assert events[i + 1] == tail[i];
    }
  }

  /** The start screen: if Space comes before any Quit, play begins with a
      reset ball (once per Space) and nothing but the ball, its velocity
      and the phase flags changes; otherwise nothing changes at all. */
  lemma {:induction false} StartScreenEffect(m: Match, rng: Rng, events: seq<Event>)
    ensures var r := HandleEvents(NotStarted, m, rng, events).state;
      if SpaceBeforeQuit(events) then
        PhaseOf(r) == Playing && r.winner == None &&
        r.ball.w == m.ball.w && r.ball.h == m.ball.h &&
        r.ball.x + r.ball.w / 2 == ScreenWidth / 2 && r.ball.y + r.ball.h / 2 == ScreenHeight / 2 &&
        r.drawn > m.drawn &&
        (ValidRng(rng) ==> 0.2 <= Magnitude(r.vx) <= 0.4 && 0.2 <= Magnitude(r.vy) <= 0.4) &&
        r.(ball := m.ball, vx := m.vx, vy := m.vy, drawn := m.drawn,
           started := m.started, gameOver := m.gameOver, winner := m.winner) == m
      else r == m
    decreases |events|
  {
    if events == [] {
    } else if events[0] == Quit {
      NoSpaceBeforeLeadingQuit(events);
    } else {
      SpaceBeforeQuitCons(events);
      var next := HandleEvent(NotStarted, m, rng, events[0]);
      StartScreenEffect(next, rng, events[1..]);
    }
  }

  /** Pressing Space on the game-over screen twice is pressing it once. */
  lemma RestartIdempotent(m: Match)
    ensures RestartPressed(RestartPressed(m)) == RestartPressed(m)
  {
  }

  /** The game-over screen: if Space comes before any Quit the result is
      one restart, however many Spaces follow; otherwise nothing changes. */
  lemma {:induction false} GameOverScreenEffect(m: Match, rng: Rng, events: seq<Event>)
    ensures HandleEvents(GameOver, m, rng, events).state ==
      if SpaceBeforeQuit(events) then RestartPressed(m) else m
    decreases |events|
  {
    if events == [] {
    } else if events[0] == Quit {
      NoSpaceBeforeLeadingQuit(events);
    } else {
      SpaceBeforeQuitCons(events);
      var next := HandleEvent(GameOver, m, rng, events[0]);
      GameOverScreenEffect(next, rng, events[1..]);
      RestartIdempotent(m);
    }
  }

  /** The intent an event gives a player's paddle, if the event concerns
      that paddle at all. */
  function IntentSetBy(p: Player, e: Event): Option<real>
  {
    match e
    case KeyDown(k) =>
      if (p == One && k == W) || (p == Two && k == Up) then Some(-PaddleSpeed)
      else if (p == One && k == S) || (p == Two && k == Down) then Some(PaddleSpeed)
      else None
    case KeyUp(k) =>
      if (p == One && (k == W || k == S)) || (p == Two && (k == Up || k == Down)) then Some(0.0)
      else None
    case _ => None
  }

  /** The intent after a run of events: the one set by the last event that
      concerns the paddle, or the initial one when none does. */
  function IntentAfter(p: Player, init: real, events: seq<Event>): real
    decreases |events|
  {
    if events == [] then init
    else match IntentSetBy(p, events[|events| - 1])
      case Some(v) => v
      case None => IntentAfter(p, init, events[..|events| - 1])
  }

  lemma {:induction false} HandleEventsSnoc(screen: Phase, m: Match, rng: Rng, events: seq<Event>, e: Event)
    requires Quit !in events && e != Quit
    ensures HandleEvents(screen, m, rng, events + [e]) ==
      Outcome(HandleEvent(screen, HandleEvents(screen, m, rng, events).state, rng, e), false)
    decreases |events|
  {
    if events == [] {
      assert [] + [e] == [e];
      assert [e][1..] == [];
    } else {
      assert (events + [e])[0] == events[0];
      assert (events + [e])[1..] == events[1..] + [e];
      HandleEventsSnoc(screen, HandleEvent(screen, m, rng, events[0]), rng, events[1..], e);
    }
  }

  /** During play, events change nothing but the two intents, and the
      intents stay among -PADDLE_SPEED, 0 and PADDLE_SPEED. */
  lemma {:induction false} PlayScreenOnlyIntents(m: Match, rng: Rng, events: seq<Event>)
    ensures var r := HandleEvents(Playing, m, rng, events).state;
      r.(move1 := m.move1, move2 := m.move2) == m &&
      (IsIntent(m.move1) ==> IsIntent(r.move1)) && (IsIntent(m.move2) ==> IsIntent(r.move2))
    decreases |events|
  {
    if events != [] && events[0] != Quit {
      PlayScreenOnlyIntents(HandleEvent(Playing, m, rng, events[0]), rng, events[1..]);
    }
  }

  /** During play, each paddle's intent is set by the last key event that
      concerns it: last event wins. */
  lemma {:induction false} PlayScreenIntents(m: Match, rng: Rng, events: seq<Event>)
    requires Quit !in events
    ensures var r := HandleEvents(Playing, m, rng, events).state;
      r.move1 == IntentAfter(One, m.move1, events) && r.move2 == IntentAfter(Two, m.move2, events)
    decreases |events|
  {
    if events != [] {
      var front, last := events[..|events| - 1], events[|events| - 1];
      assert events == front + [last];
      PlayScreenIntents(m, rng, front);
      HandleEventsSnoc(Playing, m, rng, front, last);
    }
  }

  /** What the screen a frame began on guarantees about the match while its
      events are handled. */
  predicate ScreenAllows(screen: Phase, m: Match) {
    match screen
    case NotStarted => m.score1 == 0 && m.score2 == 0
    case Playing => PhaseOf(m) == Playing
    case GameOver => m.gameOver && m.winner != None
  }

  lemma HandleEventKeepsValid(screen: Phase, m: Match, rng: Rng, e: Event)
    requires ValidRng(rng) && Valid(m) && ScreenAllows(screen, m)
    ensures Valid(HandleEvent(screen, m, rng, e)) && ScreenAllows(screen, HandleEvent(screen, m, rng, e))
  {
  }

  lemma {:induction false} HandleEventsKeepsValid(screen: Phase, m: Match, rng: Rng, events: seq<Event>)
    requires ValidRng(rng) && Valid(m) && ScreenAllows(screen, m)
    ensures var r := HandleEvents(screen, m, rng, events).state;
      Valid(r) && ScreenAllows(screen, r)
    decreases |events|
  {
    if events != [] && events[0] != Quit {
      HandleEventKeepsValid(screen, m, rng, events[0]);
      HandleEventsKeepsValid(screen, HandleEvent(screen, m, rng, events[0]), rng, events[1..]);
    }
  }

  /** A paddle on the field moves the way its intent points: up for a
      negative intent, down for a positive one, not at all for zero. */
  lemma PaddlesFollowIntent(m: Match, dt: nat)
    requires 0 <= m.paddle1.y <= PaddleMaxY && 0 <= m.paddle2.y <= PaddleMaxY
    ensures var r := MovePaddles(m, dt);
      (m.move1 < 0.0 ==> r.paddle1.y <= m.paddle1.y) &&
      (m.move1 == 0.0 ==> r.paddle1.y == m.paddle1.y) &&
      (m.move1 > 0.0 ==> r.paddle1.y >= m.paddle1.y) &&
      (m.move2 < 0.0 ==> r.paddle2.y <= m.paddle2.y) &&
      (m.move2 == 0.0 ==> r.paddle2.y == m.paddle2.y) &&
      (m.move2 > 0.0 ==> r.paddle2.y >= m.paddle2.y)
  {
  }

  /** Steps 1 to 4 of a tick move things around but keep the invariant,
      the phase, the scores and the intents. */
  lemma PhysicsKeepsValid(m: Match, dt: nat)
    requires Valid(m) && PhaseOf(m) == Playing
    ensures var p := Physics(m, dt);
      Valid(p) &&
      p.(paddle1 := m.paddle1, paddle2 := m.paddle2, ball := m.ball, vx := m.vx, vy := m.vy) == m
  {
  }

  /** At most one paddle responds in a tick: after paddle 1 sends the ball
      back, it cannot overlap paddle 2. */
  lemma AtMostOnePaddleResponse(m: Match)
    requires Valid(m)
    ensures HitPaddle1(m) != m ==> HitPaddle2(HitPaddle1(m)) == HitPaddle1(m)
  {
  }

  /** One tick of play: a left exit credits player 2 and a right exit player
      1, never both; the game is over exactly when the credited player has 5
      points, and that player is the winner; otherwise the ball is back in
      the centre. The invariant holds afterwards. */
  lemma TickOutcome(m: Match, rng: Rng, dt: nat)
    requires ValidRng(rng) && Valid(m) && PhaseOf(m) == Playing
    ensures var p := Physics(m, dt); var r := Tick(m, rng, dt);
      Valid(r) &&
      (r.score2 == m.score2 + 1 <==> Left(p.ball) <= 0) &&
      (r.score1 == m.score1 + 1 <==> Right(p.ball) >= ScreenWidth) &&
      (r.score1 == m.score1 || r.score2 == m.score2) &&
      (PhaseOf(r) == Playing || PhaseOf(r) == GameOver) &&
      (PhaseOf(r) == GameOver <==> r.score1 == WinningScore || r.score2 == WinningScore) &&
      (r.winner == Some(One) <==> r.score1 == WinningScore) &&
      (r.winner == Some(Two) <==> r.score2 == WinningScore) &&
      (PhaseOf(r) == Playing && r.score1 + r.score2 != m.score1 + m.score2 ==>
        r.ball == Rect(468, 348, BallSize, BallSize) && r.drawn == m.drawn + 1 &&
        0.2 <= Magnitude(r.vx) <= 0.4 && 0.2 <= Magnitude(r.vy) <= 0.4) &&
      (PhaseOf(r) == GameOver || r.score1 + r.score2 == m.score1 + m.score2 ==> r.drawn == m.drawn)
  {
    PhysicsKeepsValid(m, dt);
  }

  /** Every frame keeps the invariant. */
  lemma FrameKeepsValid(m: Match, rng: Rng, events: seq<Event>, dt: nat)
    requires ValidRng(rng) && Valid(m)
    ensures Valid(Frame(m, rng, events, dt).state)
  {
    var screen := PhaseOf(m);
    HandleEventsKeepsValid(screen, m, rng, events);
    var handled := HandleEvents(screen, m, rng, events);
    if screen == Playing && !handled.quit {
      TickOutcome(handled.state, rng, dt);
    }
  }

  /** The only phase changes a frame can make are start screen to play (on
      Space), play to game over, and game over to start screen (on Space).
      A single frame never takes game over straight back to play. */
  lemma FramePhase(m: Match, rng: Rng, events: seq<Event>, dt: nat)
    ensures var r := Frame(m, rng, events, dt).state;
      match PhaseOf(m)
      case NotStarted => PhaseOf(r) == if SpaceBeforeQuit(events) then Playing else NotStarted
      case GameOver => PhaseOf(r) == if SpaceBeforeQuit(events) then NotStarted else GameOver
      case Playing => PhaseOf(r) == Playing || PhaseOf(r) == GameOver
  {
    match PhaseOf(m)
    case NotStarted => StartScreenEffect(m, rng, events);
    case GameOver => GameOverScreenEffect(m, rng, events);
    case Playing => PlayScreenOnlyIntents(m, rng, events);
  }

  /** Scores never fall during a match and rise by one point at a time; the
      only way back to 0 - 0 is Space on the game-over screen. */
  lemma FrameScores(m: Match, rng: Rng, events: seq<Event>, dt: nat)
    requires ValidRng(rng) && Valid(m)
    ensures var r := Frame(m, rng, events, dt).state;
      match PhaseOf(m)
      case NotStarted => r.score1 == m.score1 == 0 && r.score2 == m.score2 == 0
      case GameOver =>
        if SpaceBeforeQuit(events) then r.score1 == 0 && r.score2 == 0
        else r.score1 == m.score1 && r.score2 == m.score2
      case Playing =>
        (r.score1 == m.score1 && r.score2 == m.score2) ||
        (r.score1 == m.score1 + 1 && r.score2 == m.score2) ||
        (r.score1 == m.score1 && r.score2 == m.score2 + 1)
  {
    match PhaseOf(m)
    case NotStarted => StartScreenEffect(m, rng, events);
    case GameOver => GameOverScreenEffect(m, rng, events);
    case Playing =>
      PlayScreenOnlyIntents(m, rng, events);
      HandleEventsKeepsValid(Playing, m, rng, events);
      var handled := HandleEvents(Playing, m, rng, events);
      if !handled.quit {
        TickOutcome(handled.state, rng, dt);
      }
  }

  /** The invariant holds after any number of frames. */
  lemma {:induction false} RunKeepsValid(m: Match, rng: Rng, frames: seq<FrameInput>)
    requires ValidRng(rng) && Valid(m)
    ensures Valid(Run(m, rng, frames))
    decreases |frames|
  {
    if frames != [] {
      FrameKeepsValid(m, rng, frames[0].events, frames[0].dt);
      var o := Frame(m, rng, frames[0].events, frames[0].dt);
      if !o.quit {
        RunKeepsValid(o.state, rng, frames[1..]);
      }
    }
  }

  /** Frames before any quit run one after another: running two batches in
      turn is running them together. */
  lemma {:induction false} RunAppend(m: Match, rng: Rng, frames: seq<FrameInput>, later: seq<FrameInput>)
    requires forall i | 0 <= i < |frames| :: Quit !in frames[i].events
    ensures Run(m, rng, frames + later) == Run(Run(m, rng, frames), rng, later)
    decreases |frames|
  {
    if frames == [] {
      assert frames + later == later;
    } else {
      assert (frames + later)[0] == frames[0];
      assert (frames + later)[1..] == frames[1..] + later;
      var o := Frame(m, rng, frames[0].events, frames[0].dt);
      RunAppend(o.state, rng, frames[1..], later);
    }
  }

  /** Nothing happens after a quit: frames that follow one carrying a Quit
      event have no effect. */
  lemma {:induction false} RunStopsAtQuit(m: Match, rng: Rng, frames: seq<FrameInput>, later: seq<FrameInput>)
    requires exists i :: 0 <= i < |frames| && Quit in frames[i].events
    ensures Run(m, rng, frames + later) == Run(m, rng, frames)
    decreases |frames|
  {
    assert (frames + later)[0] == frames[0];
    assert (frames + later)[1..] == frames[1..] + later;
    var o := Frame(m, rng, frames[0].events, frames[0].dt);
    if !o.quit {
      var i :| 0 <= i < |frames| && Quit in frames[i].events;
      assert frames[1..][i - 1] == frames[i];
      RunStopsAtQuit(o.state, rng, frames[1..], later);
    }
  }

  /** Whatever the players do, both paddles stay on the field for the whole
      game. */
  lemma PaddlesStayOnField(rng: Rng, frames: seq<FrameInput>)
    requires ValidRng(rng)
    ensures var r := Run(Initial(rng), rng, frames);
      0 <= r.paddle1.y <= PaddleMaxY && 0 <= r.paddle2.y <= PaddleMaxY
  {
    RunKeepsValid(Initial(rng), rng, frames);
  }
}

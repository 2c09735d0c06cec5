/**
 * One frame of the game loop as a function of the whole game state.
 *
 * World holds every variable the loop changes.  Each rule of the frame is a
 * function from World to World; FrameStep runs them in the loop's order: key
 * events, the countdown gate, and, on a running frame, difficulty, horizontal
 * move, vertical move, obstacles, nuke spawn, nuke pass, obstacle collision
 * and score.
 */
module Simulation {
  import opened Geometry
  import opened Character
  import opened Phase
  import opened Obstacles
  import opened Nukes

  /** The character's start x, in pixels. */
  const START_X: int := 100

  /**
   * The game state: character position (x in pixels, y in tenths), vertical
   * velocity (tenths per frame), is_jumping, the obstacle and nuke lists,
   * score, obstacle speed, game over, the countdown and the hitbox flag.
   */
  datatype World = World(
    x: int, y: int, velocity: int, jumping: bool,
    obstacles: seq<Pos>, nukes: seq<Pos>,
    score: int, obstacleSpeed: int,
    gameOver: bool, timerStarted: bool, timer: int,
    showHitboxes: bool)

  /** The state before the first frame. */
  function Initial(): World
  {
    World(START_X, GROUND, 0, false, [], [], 0, BASE_OBSTACLE_SPEED, false, false, COUNTDOWN, false)
  }

  /** The character's hit box corner, its y converted to whole pixels. */
  function PlayerBox(w: World): Pos
  {
    Pos(w.x, TruncTenths(w.y))
  }

  /** The random draws of one frame: one obstacle x and two distinct nuke x values, in range. */
  predicate Draws(obstacleX: int, nukeX1: int, nukeX2: int)
  {
    SPAWN_MIN_X <= obstacleX <= SPAWN_MAX_X && WaveDraws(nukeX1, nukeX2)
  }

  /** The states the game can reach. */
  ghost predicate Inv(w: World)
  {
    0 <= w.x <= MAX_X &&
    Arc(Vertical(w.y, w.velocity, w.jumping)) &&
    Lane(w.obstacles) &&
    Sky(w.nukes) &&
    (w.obstacleSpeed == BASE_OBSTACLE_SPEED || w.obstacleSpeed == LATE_OBSTACLE_SPEED) &&
    1 <= w.timer <= COUNTDOWN &&
    0 <= w.score &&
    (w.gameOver ==> w.timerStarted)
  }

  /** reset_game: character, lists and score back to their start; speed and countdown untouched. */
  function Reset(w: World): World
  {
    w.(x := START_X, y := GROUND, velocity := 0, jumping := false, obstacles := [], nukes := [], score := 0)
  }

  /** The key events: A flips the hitbox flag; R after a game over resets and resumes. */
  function Events(w: World, input: Input): World
  {
    var w1 := if input.keyA then w.(showHitboxes := !w.showHitboxes) else w;
    if input.keyR && w1.gameOver then Reset(w1).(gameOver := false) else w1
  }

  /** The countdown gate. */
  function CountdownGate(w: World): World
  {
    var c := Tick(Countdown(w.timerStarted, w.timer));
    w.(timerStarted := c.started, timer := c.remaining)
  }

  /** The difficulty rule. */
  function DifficultyRule(w: World): World
  {
    w.(obstacleSpeed := ObstacleSpeed(w.score, w.obstacleSpeed))
  }

  /** Horizontal movement and clamp. */
  function HorizontalRule(w: World, input: Input): World
  {
    w.(x := MoveX(w.x, input))
  }

  /** Jump, gravity and ground snap. */
  function VerticalRule(w: World, space: bool): World
  {
    var v := VerticalStep(Vertical(w.y, w.velocity, w.jumping), space);
    w.(y := v.y, velocity := v.velocity, jumping := v.jumping)
  }

  /** Obstacle spawner, then the scroll and the off-screen filter. */
  function ObstacleRule(w: World, draw: int): World
    requires SPAWN_MIN_X <= draw <= SPAWN_MAX_X
  {
    w.(obstacles := Visible(Shifted(Spawn(w.obstacles, draw), w.obstacleSpeed)))
  }

  /** Nuke-pair spawner. */
  function NukeSpawnRule(w: World, x1: int, x2: int): World
    requires WaveDraws(x1, x2)
  {
    w.(nukes := Wave(w.score, w.nukes, x1, x2))
  }

  /** Nuke fall, remove and collide pass. */
  function NukeFallRule(w: World): World
  {
    var pass := Sweep(w.nukes, PlayerBox(w));
    w.(nukes := pass.nukes, gameOver := w.gameOver || pass.hit)
  }

  /** Obstacle collision, then the score: one point for a frame that did not end the game. */
  function ScoreRule(w: World): World
  {
    var over := w.gameOver || HitsAny(PlayerBox(w), w.obstacles);
    w.(gameOver := over, score := if over then w.score else w.score + 1)
  }

  /** The body of a running frame. */
  function Running(w: World, input: Input, obstacleX: int, nukeX1: int, nukeX2: int): World
    requires Draws(obstacleX, nukeX1, nukeX2)
  {
    var w1 := DifficultyRule(w);
    var w2 := HorizontalRule(w1, input);
    var w3 := VerticalRule(w2, input.space);
    var w4 := ObstacleRule(w3, obstacleX);
    var w5 := NukeSpawnRule(w4, nukeX1, nukeX2);
    var w6 := NukeFallRule(w5);
    ScoreRule(w6)
  }

  /** One iteration of the game loop, drawing left out. */
  function FrameStep(w: World, input: Input, obstacleX: int, nukeX1: int, nukeX2: int): World
    requires Draws(obstacleX, nukeX1, nukeX2)
  {
    var w1 := CountdownGate(Events(w, input));
    if !w1.gameOver && w1.timerStarted then Running(w1, input, obstacleX, nukeX1, nukeX2) else w1
  }

  /** The initial state is reachable. */
  lemma InitialInv()
    ensures Inv(Initial())
  {
  }

  /** A running frame keeps the state reachable. */
  lemma RunningKeepsInv(w: World, input: Input, obstacleX: int, nukeX1: int, nukeX2: int)
    requires Inv(w) && w.timerStarted
    requires Draws(obstacleX, nukeX1, nukeX2)
    ensures Inv(Running(w, input, obstacleX, nukeX1, nukeX2))
  {
    var w1 := DifficultyRule(w);
    var w2 := HorizontalRule(w1, input);
    var w3 := VerticalRule(w2, input.space);
    VerticalStepKeepsArc(Vertical(w2.y, w2.velocity, w2.jumping), input.space);
    SpawnKeepsLane(w3.obstacles, obstacleX);
    ScrollKeepsLane(Spawn(w3.obstacles, obstacleX), w3.obstacleSpeed);
    var w4 := ObstacleRule(w3, obstacleX);
    WaveKeepsSky(w4.score, w4.nukes, nukeX1, nukeX2);
    var w5 := NukeSpawnRule(w4, nukeX1, nukeX2);
    SweepKeepsSky(w5.nukes, PlayerBox(w5));
  }

  /** Every frame keeps the state reachable. */
  lemma FrameKeepsInv(w: World, input: Input, obstacleX: int, nukeX1: int, nukeX2: int)
    requires Inv(w)
    requires Draws(obstacleX, nukeX1, nukeX2)
    ensures Inv(FrameStep(w, input, obstacleX, nukeX1, nukeX2))
  {
    var w1 := CountdownGate(Events(w, input));
    assert Inv(w1);
    if !w1.gameOver && w1.timerStarted {
      RunningKeepsInv(w1, input, obstacleX, nukeX1, nukeX2);
    }
  }

  /**
   * After a game over and until R is pressed, a frame changes nothing but the
   * hitbox flag: the game over state has no exit of its own.
   */
  lemma FrameWhileOver(w: World, input: Input, obstacleX: int, nukeX1: int, nukeX2: int)
    requires Inv(w) && w.gameOver && !input.keyR
    requires Draws(obstacleX, nukeX1, nukeX2)
    ensures FrameStep(w, input, obstacleX, nukeX1, nukeX2) ==
              w.(showHitboxes := if input.keyA then !w.showHitboxes else w.showHitboxes)
  {
  }

  /**
   * The score of a frame: R after a game over resets it to 0 first; then a
   * frame that runs the simulation adds exactly one point unless it ended the
   * game, and any other frame leaves it and the game over flag alone.
   */
  lemma FrameScore(w: World, input: Input, obstacleX: int, nukeX1: int, nukeX2: int)
    requires Draws(obstacleX, nukeX1, nukeX2)
    ensures var r := FrameStep(w, input, obstacleX, nukeX1, nukeX2);
            var restarted := input.keyR && w.gameOver;
            var base := if restarted then 0 else w.score;
            var runs := (!w.gameOver || input.keyR) && (w.timerStarted || w.timer <= 1);
            r.score == (if runs && !r.gameOver then base + 1 else base) &&
            (!runs ==> r.gameOver == (w.gameOver && !restarted))
  {
    var w1 := CountdownGate(Events(w, input));
    if !w1.gameOver && w1.timerStarted {
      var r := Running(w1, input, obstacleX, nukeX1, nukeX2);
      assert r.score == if r.gameOver then w1.score else w1.score + 1;
    }
  }

  /**
   * R after a game over resets the state and, because the countdown has
   * already run, the same frame is a running frame: there is no second
   * countdown, the obstacle speed is kept, and the score ends the frame at 1
   * unless the character is hit at once.
   */
  lemma RestartRunsAtOnce(w: World, input: Input, obstacleX: int, nukeX1: int, nukeX2: int)
    requires Inv(w) && w.gameOver && input.keyR
    requires Draws(obstacleX, nukeX1, nukeX2)
    ensures var r := FrameStep(w, input, obstacleX, nukeX1, nukeX2);
            r.timerStarted && r.timer == w.timer && r.obstacleSpeed == w.obstacleSpeed &&
            r.score == (if r.gameOver then 0 else 1) && r.nukes == []
  {
    var w1 := CountdownGate(Events(w, input));
    assert w1 == Reset(Events(w, input)).(gameOver := false) || w1 == Reset(w).(gameOver := false, showHitboxes := !w.showHitboxes);
    var r := Running(w1, input, obstacleX, nukeX1, nukeX2);
    assert Sweep([], PlayerBox(w1)) == Pass([], false);
  }

  /**
   * Once the difficulty rule has switched obstacles to the late speed, no frame
   * switches them back, a restart included.
   */
  lemma LateSpeedStays(w: World, input: Input, obstacleX: int, nukeX1: int, nukeX2: int)
    requires w.obstacleSpeed == LATE_OBSTACLE_SPEED
    requires Draws(obstacleX, nukeX1, nukeX2)
    ensures FrameStep(w, input, obstacleX, nukeX1, nukeX2).obstacleSpeed == LATE_OBSTACLE_SPEED
  {
    var w1 := CountdownGate(Events(w, input));
    assert w1.obstacleSpeed == LATE_OBSTACLE_SPEED;
    if !w1.gameOver && w1.timerStarted {
      RunningSpeed(w1, input, obstacleX, nukeX1, nukeX2);
    }
  }

  /** Of the whole running frame, only the difficulty rule touches the obstacle speed. */
  lemma RunningSpeed(w: World, input: Input, obstacleX: int, nukeX1: int, nukeX2: int)
    requires Draws(obstacleX, nukeX1, nukeX2)
    ensures Running(w, input, obstacleX, nukeX1, nukeX2).obstacleSpeed == ObstacleSpeed(w.score, w.obstacleSpeed)
  {
    var w1 := DifficultyRule(w);
    var w3 := VerticalRule(HorizontalRule(w1, input), input.space);
    assert w3.obstacleSpeed == w1.obstacleSpeed;
  }

  /**
   * The first three frames with no key held: two frames of countdown that
   * change nothing else, then a running frame on which the game starts, one
   * obstacle appears and has already scrolled, the character stays at
   * (100, 300) with a velocity of 0.7, and the score is 1.
   */
  lemma OpeningFrames(obstacleX: int, nukeX1: int, nukeX2: int)
    requires Draws(obstacleX, nukeX1, nukeX2)
    ensures var none := Input(false, false, false, false, false);
            var w1 := FrameStep(Initial(), none, obstacleX, nukeX1, nukeX2);
            var w2 := FrameStep(w1, none, obstacleX, nukeX1, nukeX2);
            var w3 := FrameStep(w2, none, obstacleX, nukeX1, nukeX2);
            w1 == Initial().(timer := 2) &&
            w2 == Initial().(timer := 1) &&
            w3 == World(START_X, GROUND, GRAVITY, false,
                        [Pos(obstacleX - BASE_OBSTACLE_SPEED, GROUND_PX)], [],
                        1, BASE_OBSTACLE_SPEED, false, true, COUNTDOWN, false)
  {
    var none := Input(false, false, false, false, false);
    var w2 := Initial().(timer := 1);
    var g := CountdownGate(Events(w2, none));
    assert g == Initial().(timerStarted := true, timer := COUNTDOWN);
    var o := Pos(obstacleX - BASE_OBSTACLE_SPEED, GROUND_PX);
    assert Shifted([Pos(obstacleX, GROUND_PX)], BASE_OBSTACLE_SPEED) == [o];
    assert Visible([o]) == [o];
    assert !HitsAny(Pos(START_X, GROUND_PX), [o]);
  }
}

/**
 * The game's variables as one mutable object, and the frame as the sequence
 * of in-place updates the loop performs.  Every method is proved against the
 * rule of the same name in Simulation, so the lemmas proved there about
 * FrameStep hold of Frame.
 */
module Runner {
  import opened Geometry
  import opened Character
  import opened Phase
  import opened Obstacles
  import opened Nukes
  import opened Simulation

  class GameState {
    /** character_pos, with the y in tenths of a pixel. */
    var characterX: int
    var characterY: int
    /** character_velocity_y, in tenths of a pixel per frame. */
    var velocityY: int
    var isJumping: bool
    var obstacles: seq<Pos>
    var nukes: seq<Pos>
    var score: int
    var obstacleSpeed: int
    var gameOver: bool
    var timerStarted: bool
    var gameStartTimer: int
    var showHitboxes: bool

    /** The object's fields as a value. */
    function State(): World
      reads this
    {
      World(characterX, characterY, velocityY, isJumping, obstacles, nukes,
            score, obstacleSpeed, gameOver, timerStarted, gameStartTimer, showHitboxes)
    }

    /** The fields hold a reachable game state. */
    ghost predicate Valid()
      reads this
    {
      Inv(State())
    }

    /** The module-level initialisation of the game variables. */
    constructor()
      ensures State() == Initial()
      ensures Valid()
    {
      characterX := START_X;
      characterY := GROUND;
      velocityY := 0;
      isJumping := false;
      obstacles := [];
      nukes := [];
      score := 0;
      obstacleSpeed := BASE_OBSTACLE_SPEED;
      gameOver := false;
      timerStarted := false;
      gameStartTimer := COUNTDOWN;
      showHitboxes := false;
    }

    /** reset_game. */
    method ResetGame()
      modifies this
      ensures State() == Reset(old(State()))
    {
      characterX := START_X;
      characterY := GROUND;
      velocityY := 0;
      isJumping := false;
      obstacles := [];
      nukes := [];
      score := 0;
    }

    /** The KEYDOWN events of a frame: A toggles the hitboxes, R after a game over restarts. */
    method HandleEvents(input: Input)
      modifies this
      ensures State() == Events(old(State()), input)
    {
      if input.keyA {
        showHitboxes := !showHitboxes;
      }
      if input.keyR && gameOver {
        ResetGame();
        gameOver := false;
      }
    }

    /** The countdown gate. */
    method CountdownTick()
      modifies this
      ensures State() == CountdownGate(old(State()))
    {
      if !timerStarted {
        gameStartTimer := gameStartTimer - 1;
        if gameStartTimer <= 0 {
          timerStarted := true;
          gameStartTimer := COUNTDOWN;
        }
      }
    }

    /** The difficulty rule; the gravity and move speed it also assigns keep their values. */
    method ApplyDifficulty()
      modifies this
      ensures State() == DifficultyRule(old(State()))
    {
      if score > SPEEDUP_SCORE {
        obstacleSpeed := LATE_OBSTACLE_SPEED;
      }
    }

    /** Horizontal movement and clamp. */
    method MoveHorizontally(input: Input)
      modifies this
      ensures State() == HorizontalRule(old(State()), input)
    {
      if input.left {
        characterX := characterX - MOVE_SPEED;
      } else if input.right {
        characterX := characterX + MOVE_SPEED;
      }
      characterX := Clamp(characterX);
    }

    /** Jump, gravity and ground snap. */
    method JumpAndFall(space: bool)
      modifies this
      ensures State() == VerticalRule(old(State()), space)
    {
      if space && !isJumping {
        velocityY := JUMP_POWER;
        isJumping := true;
      }
      velocityY := velocityY + GRAVITY;
      characterY := characterY + velocityY;
      if characterY >= GROUND {
        characterY := GROUND;
        isJumping := false;
      }
    }

    /** add_obstacle, with the random x passed in. */
    method AddObstacle(draw: int)
      requires SPAWN_MIN_X <= draw <= SPAWN_MAX_X
      modifies this
      ensures State() == old(State()).(obstacles := old(obstacles) + [Pos(draw, GROUND_PX)])
    {
      obstacles := obstacles + [Pos(draw, GROUND_PX)];
    }

    /** The in-place loop that moves every obstacle left by the obstacle speed. */
    method ScrollObstacles()
      modifies this
      ensures State() == old(State()).(obstacles := Shifted(old(obstacles), obstacleSpeed))
    {
      var i := 0;
      while i < |obstacles|
        invariant 0 <= i <= |obstacles| == |old(obstacles)|
        invariant forall k :: 0 <= k < i ==> obstacles[k] == Pos(old(obstacles)[k].x - obstacleSpeed, old(obstacles)[k].y)
        invariant forall k :: i <= k < |obstacles| ==> obstacles[k] == old(obstacles)[k]
        modifies this`obstacles
      {
        obstacles := obstacles[i := Pos(obstacles[i].x - obstacleSpeed, obstacles[i].y)];
        i := i + 1;
      }
    }

    /** The obstacle spawner, the scroll and the off-screen filter. */
    method AdvanceObstacles(draw: int)
      requires SPAWN_MIN_X <= draw <= SPAWN_MAX_X
      modifies this
      ensures State() == ObstacleRule(old(State()), draw)
    {
      if |obstacles| == 0 || obstacles[|obstacles| - 1].x < SPAWN_EDGE {
        AddObstacle(draw);
      }
      assert obstacles == Spawn(old(obstacles), draw);
      ScrollObstacles();
      obstacles := Visible(obstacles);
    }

    /** add_nukes, with the two distinct random x values passed in. */
    method AddNukes(x1: int, x2: int)
      requires WaveDraws(x1, x2)
      modifies this
      ensures State() == old(State()).(nukes := old(nukes) + [Pos(x1, 0), Pos(x2, 0)])
    {
      nukes := nukes + [Pos(x1, 0)];
      nukes := nukes + [Pos(x2, 0)];
    }

    /** The nuke-pair spawner. */
    method SpawnNukes(x1: int, x2: int)
      requires WaveDraws(x1, x2)
      modifies this
      ensures State() == NukeSpawnRule(old(State()), x1, x2)
    {
      if score > NUKE_SCORE && |nukes| == 0 {
        AddNukes(x1, x2);
      }
    }

    /**
     * The nuke pass, removing from the list while walking it by index.  Its
     * outcome is Loop from index 0, which is Sweep whenever the nukes have
     * distinct x values, as they do in every reachable state.
     */
    method FallNukes()
      modifies this
      ensures var pass := Loop(old(nukes), 0, PlayerBox(old(State())));
              State() == old(State()).(nukes := pass.nukes, gameOver := old(gameOver) || pass.hit)
      ensures DistinctX(old(nukes)) ==> State() == NukeFallRule(old(State()))
    {
      var player := Pos(characterX, TruncTenths(characterY));
      ghost var s0 := nukes;
      var i := 0;
      while i < |nukes|
        invariant Loop(nukes, i, player) == Loop(s0, 0, player)
        invariant State() == old(State()).(nukes := nukes)
        decreases |nukes| - i
      {
        var moved := Pos(nukes[i].x, nukes[i].y + NUKE_FALL);
        nukes := nukes[i := moved];
        assert nukes[i] == moved;
        if moved.y >= GROUND_PX {
          nukes := RemoveFirst(nukes, moved);
        }
        if Collides(player, moved) {
          gameOver := true;
          break;
        }
        i := i + 1;
      }
      if DistinctX(s0) {
        LoopIsSweep(s0, player);
      }
    }

    /** The obstacle collision test: stops at the first obstacle the character's box overlaps. */
    method ObstacleHit() returns (hit: bool)
      ensures hit <==> HitsAny(PlayerBox(State()), obstacles)
    {
      var player := Pos(characterX, TruncTenths(characterY));
      hit := false;
      var i := 0;
      while i < |obstacles|
        invariant 0 <= i <= |obstacles|
        invariant forall k :: 0 <= k < i ==> !Collides(player, obstacles[k])
      {
        if Collides(player, obstacles[i]) {
          hit := true;
          break;
        }
        i := i + 1;
      }
    }

    /** Obstacle collision, then the score. */
    method CheckObstaclesAndScore()
      modifies this
      ensures State() == ScoreRule(old(State()))
    {
      var hit := ObstacleHit();
      if hit {
        gameOver := true;
      }
      if !gameOver {
        score := score + 1;
      }
    }

    /** One iteration of the game loop, drawing left out. */
    method Frame(input: Input, obstacleX: int, nukeX1: int, nukeX2: int)
      requires Valid()
      requires Draws(obstacleX, nukeX1, nukeX2)
      modifies this
      ensures State() == FrameStep(old(State()), input, obstacleX, nukeX1, nukeX2)
      ensures Valid()
    {
      HandleEvents(input);
      CountdownTick();
      if !gameOver && timerStarted {
        ApplyDifficulty();
        MoveHorizontally(input);
        JumpAndFall(input.space);
        AdvanceObstacles(obstacleX);
        WaveKeepsSky(score, nukes, nukeX1, nukeX2);
        SpawnNukes(nukeX1, nukeX2);
        FallNukes();
        CheckObstaclesAndScore();
      }
      FrameKeepsInv(old(State()), input, obstacleX, nukeX1, nukeX2);
    }
  }
}

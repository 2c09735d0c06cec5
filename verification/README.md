# Infinite runner: one frame of the game loop

This project models the simulation core of `infinite-runner.py`, a pygame
side-scroller. A 50×50 character runs on a ground line at y = 300. It moves left
and right, jumps under gravity, and must avoid two things:

- obstacles, which scroll in from the right;
- nukes, which fall in pairs once the score passes 500.

Each frame that survives scores one point. A collision ends the game, and R
restarts it.

The model covers `add_obstacle`, `add_nukes` and `reset_game`. It also covers
the body of the `while running` loop: key events, the start countdown, and the
running part of the frame. Drawing is not modelled.

## Layout

- `geometry.dfy` (`Geometry`): screen constants, positions, the input record
  (held LEFT/RIGHT/SPACE keys and KEYDOWN events for R and A), the
  bounding-box overlap test, and the float-to-int conversion of the
  character's y.
- `character.dfy` (`Character`): horizontal movement and clamp, then jump,
  gravity and the ground snap. It includes the reachable-arc invariant and
  the timing of a jump.
- `phase.dfy` (`Phase`): the countdown gate and the difficulty rule.
- `obstacles.dfy` (`Obstacles`): the spawner, the scroll and off-screen
  filter, the spacing invariant, and the collision test.
- `nukes.dfy` (`Nukes`): the pair spawner and the nuke pass. `Loop` models
  the pass the way the game runs it: a Python `for` over a list that is
  shrunk by `list.remove` during the walk. `Sweep` is a separate
  description of the outcome over the original list. The two are proved
  equal.
- `simulation.dfy` (`Simulation`): the game state as a value `World`, one
  function per rule, `FrameStep` for a whole frame, the reachable-state
  invariant `Inv`, and lemmas about sequences of frames.
- `game_state.dfy` (`Runner`): class `GameState`. Its fields are the game's
  module-level variables, and it has one method per rule, each updating the
  fields in place. Each method is proved to compute its rule in
  `Simulation`. `Frame` runs them in the loop's order and keeps `Inv`.

### Units

The game stores the character's y and vertical velocity as Python floats,
because gravity is 0.7. The model keeps both as integers in tenths of a
pixel:

- ground line: 3000;
- jump impulse: −100;
- gravity: 7.

This arithmetic is exact. Every other coordinate is in whole pixels.

### Behaviour the model keeps from the code

The model follows the code where the code differs from what a reader of the
game would expect:

- **Difficulty.** Above a score of 1000 the difficulty rule sets the obstacle
  speed to 7, which is below the starting 10, so obstacles slow down. The
  gravity and move speed it also assigns are given the values they already
  had.
- **Restart.** `reset_game` restores neither the obstacle speed nor the
  countdown. The countdown has already run, so the frame that handles R is
  already a running frame: there is no second countdown, and the score
  after that frame is 1 unless the character is hit at once.
- **Opening frames.** The frame on which the countdown reaches zero also
  runs the simulation. After the first three frames the score is therefore
  1, not 0.
- **Landing.** Landing snaps y to the ground line but keeps the velocity.
  On the ground the velocity keeps growing by gravity every frame.
- **Nuke pass.** `nukes.remove(nuke)` during the iteration shifts the next
  nuke into the slot just visited. That next nuke is neither moved nor
  checked on that frame. The removed nuke is still checked against the
  character.
- **Left and right.** LEFT is checked before RIGHT, so holding both moves
  left.

## Model

| member | source | states |
|---|---|---|
| Geometry.TruncTenths | infinite-runner.py:169 | the character's y in whole pixels is its tenths value truncated toward zero: within one pixel below a non-negative y, within one pixel above a negative one |
| Character.Clamp | infinite-runner.py:131 | the result lies in [0, 750]; a value already in range is kept; values below or above go to 0 or 750 |
| Character.MoveX | infinite-runner.py:125-131 | the new x is in [0, 750]; LEFT moves left by 7 before the clamp whatever RIGHT does; RIGHT alone moves right by 7; no arrow keeps x; from an in-range x a move never exceeds 7 pixels |
| Character.Jump | infinite-runner.py:134-136 | SPACE while not jumping sets the velocity to −10 px and marks the character jumping, leaving y; otherwise nothing changes |
| Character.Fall | infinite-runner.py:138-144 | the velocity always grows by 0.7; y never ends below the ground line; reaching it snaps y to it and clears is_jumping; otherwise y advances by the new velocity |
| Character.VerticalStepKeepsArc | infinite-runner.py:134-144 | the vertical update keeps the character on a reachable arc: on the ground with a non-negative velocity, or in the air with y and velocity tied by the jump's energy equation |
| Character.ArcBounds | infinite-runner.py:134-144 | on a reachable arc the character's top edge stays between 233.5 and 300 px |
| Character.IdleVelocityGrows | infinite-runner.py:138-144 | standing still for k frames keeps y on the ground and adds k × 0.7 to the velocity, which is never zeroed |
| Character.JumpHeightClosedForm | infinite-runner.py:138-139 | the height after k frames of a jump is the sum of the first k velocities, in closed form |
| Character.AirStep | infinite-runner.py:138-144 | each of frames 1 to 26 of a jump is followed by the next airborne frame |
| Character.AirborneUntilFrame28 | infinite-runner.py:138-144 | from frame j of a jump, the character is still in the air at frame 27 and on the ground at frame 28 |
| Character.JumpLandsOnFrame28 | infinite-runner.py:134-144 | a jump from the ground stays airborne for 27 frames and lands on the 28th with a velocity of 9.6 px |
| Phase.Tick | infinite-runner.py:110-115 | a started game is untouched; otherwise the timer drops by one, and the game starts exactly when it reaches zero, with the timer reset to 3; the timer stays in [1, 3] |
| Phase.StartsAfterRemaining | infinite-runner.py:110-115 | a countdown showing n ≥ 1 has started after k frames exactly when k ≥ n |
| Phase.StaysStarted | infinite-runner.py:110-115 | once started, the countdown gate never changes anything again |
| Phase.ObstacleSpeed | infinite-runner.py:119-122 | above a score of 1000 the speed becomes 7, at or below it the speed is kept; starting from 10 or 7 it never increases |
| Obstacles.Spawn | infinite-runner.py:147-148 | an obstacle is appended exactly when the list is empty or the last x is below 500; it is the drawn x on the ground line, and the old entries are unchanged |
| Obstacles.Shifted | infinite-runner.py:151-152 | every obstacle moves left by the speed and keeps its y; the length is kept |
| Obstacles.Visible | infinite-runner.py:153 | the filter never lengthens the list |
| Obstacles.VisibleMembers | infinite-runner.py:153 | exactly the obstacles with x > −50 remain |
| Obstacles.VisibleAppend | infinite-runner.py:153 | the filter keeps the relative order: filtering a concatenation filters each part in place |
| Obstacles.ShiftedMembers | infinite-runner.py:151-152 | an obstacle is in the shifted list iff it moved back by the speed is in the old one; spacing is kept |
| Obstacles.VisibleKeepsSpaced | infinite-runner.py:153 | the filter keeps the minimum gap between successive obstacles |
| Obstacles.SpawnKeepsLane | infinite-runner.py:147-148 | spawning keeps every obstacle on the ground line, in (−50, 1100], and more than 400 px right of the ones before it |
| Obstacles.ScrollKeepsLane | infinite-runner.py:151-153 | after the scroll, an obstacle survives exactly when its new x is above −50, and the invariant is kept |
| Obstacles.AtMostThree | infinite-runner.py:147-153 | because of the spacing, at most three obstacles exist at any time |
| Nukes.Wave | infinite-runner.py:156-157 | two nukes are added exactly when the score is above 500 and no nuke is left; they start at y = 0 with distinct x in [100, 700]; otherwise the list is unchanged |
| Nukes.RemoveFirst | infinite-runner.py:165 | `list.remove` of a present value shortens the list by one |
| Nukes.RemoveFirstDeletesOne | infinite-runner.py:165 | `list.remove` deletes exactly one occurrence of the value and keeps every other element |
| Nukes.RemoveFirstAfter | infinite-runner.py:165 | when the value does not occur before a position, `list.remove` deletes the element at that position |
| Nukes.DropAll | infinite-runner.py:160-161 | every nuke moves down by 5 |
| Nukes.LoopStep | infinite-runner.py:160-172 | one step of the walk, when no earlier nuke equals the moved one: a nuke that lands is removed, and after a miss the walk goes on at the next index, past the nuke that slid into its place; a hit stops the walk |
| Nukes.LandedMissStep | infinite-runner.py:160-172 | after a landed nuke that misses, the walk gives Sweep's outcome for the whole list once it does so for the list past the skipped follower |
| Nukes.LoopMatchesSweep | infinite-runner.py:160-172 | for nukes with distinct x, the index-based walk from any position agrees with Sweep over the remaining nukes |
| Nukes.LoopIsSweep | infinite-runner.py:160-172 | for nukes with distinct x, the pass as the game runs it equals Sweep |
| Nukes.SweepShrinks | infinite-runner.py:160-172 | the pass never adds a nuke |
| Nukes.SweepEntries | infinite-runner.py:160-172 | every nuke after the pass was there before, either untouched or moved down by exactly 5 |
| Nukes.SweepKeepsDistinct | infinite-runner.py:160-172 | the pass keeps the nukes' x values distinct |
| Nukes.SweepRemovesOnlyLanded | infinite-runner.py:160-172 | a nuke that does not reach the ground is still present after the pass, moved or not |
| Nukes.SweepWithoutLanding | infinite-runner.py:160-172 | when no nuke lands, the pass reports a hit iff some fallen nuke overlaps the character, and with no hit every nuke has moved down by 5 |
| Nukes.SweepStopsAtFirstHit | infinite-runner.py:160-172 | when no nuke up to and including the hit reaches the ground, the pass stops at the first overlapping nuke: that nuke and the ones before it have fallen, and the later ones are left where they were |
| Nukes.SweepHitSound | infinite-runner.py:160-172 | for any list, a hit reported by the pass comes from a nuke that overlaps the character once moved down |
| Nukes.LandingNuke | infinite-runner.py:163-170 | a landing nuke is removed but still checked, and a hit ends the pass; on a miss, the nuke after it stays in place and is not checked |
| Nukes.FollowerSkipped | infinite-runner.py:160-172 | a concrete frame where the nuke after a landing one is neither moved nor checked |
| Nukes.WaveKeepsSky | infinite-runner.py:61-67 | a spawned wave keeps at most two nukes, with distinct x in [100, 700], above the ground |
| Nukes.SweepKeepsSky | infinite-runner.py:160-172 | the pass keeps that invariant |
| Simulation.InitialInv | infinite-runner.py:33-53 | the initial variables form a reachable state |
| Simulation.RunningKeepsInv | infinite-runner.py:117-184 | a running frame keeps the reachable-state invariant: x in range, the character on an arc, obstacles spaced, nukes valid, speed 10 or 7, timer in [1, 3], score ≥ 0, and a game over only after the start |
| Simulation.FrameKeepsInv | infinite-runner.py:102-184 | every frame keeps the reachable-state invariant |
| Simulation.FrameWhileOver | infinite-runner.py:105-117 | after a game over and without R, a frame changes nothing but the hitbox flag |
| Simulation.FrameScore | infinite-runner.py:182-184 | a frame that runs the simulation adds exactly one point unless it ended the game; any other frame keeps the score and the game over flag; R after a game over first resets the score to 0 |
| Simulation.RestartRunsAtOnce | infinite-runner.py:105-117 | the frame that handles R after a game over already runs: no second countdown, obstacle speed kept, no nuke left, score 1 unless the character is hit at once |
| Simulation.RunningSpeed | infinite-runner.py:117-184 | of a running frame, only the difficulty rule changes the obstacle speed |
| Simulation.LateSpeedStays | infinite-runner.py:119-122 | once the speed is 7, no frame changes it back, a restart included |
| Simulation.OpeningFrames | infinite-runner.py:109-184 | with no key held, frames 1 and 2 only count down; frame 3 starts the game and runs at once: score 1, character at (100, 300) with velocity 0.7, one obstacle already scrolled |
| Runner.GameState.constructor | infinite-runner.py:33-53 | the initial variables, a reachable state |
| Runner.GameState.ResetGame | infinite-runner.py:70-77 | position (100, 300), velocity 0, not jumping, both lists empty, score 0; obstacle speed, countdown and game over untouched |
| Runner.GameState.HandleEvents | infinite-runner.py:102-107 | A flips the hitbox flag; R resets the game and clears game over only when the game is over |
| Runner.GameState.CountdownTick | infinite-runner.py:110-115 | the fields after the countdown gate are Tick's result |
| Runner.GameState.ApplyDifficulty | infinite-runner.py:119-122 | the obstacle speed after the rule is ObstacleSpeed's result |
| Runner.GameState.MoveHorizontally | infinite-runner.py:125-131 | x after the in-place update is MoveX's result; nothing else changes |
| Runner.GameState.JumpAndFall | infinite-runner.py:134-144 | y, velocity and is_jumping after the in-place updates are Jump then Fall |
| Runner.GameState.AddObstacle | infinite-runner.py:56-58 | appends one obstacle at the drawn x on the ground line |
| Runner.GameState.ScrollObstacles | infinite-runner.py:151-152 | every obstacle moves left by the obstacle speed in place; nothing else changes |
| Runner.GameState.AdvanceObstacles | infinite-runner.py:147-153 | the spawn, the in-place scroll loop and the filter give Visible(Shifted(Spawn(..))) |
| Runner.GameState.AddNukes | infinite-runner.py:61-67 | appends two nukes at y = 0 at the two distinct drawn x values |
| Runner.GameState.SpawnNukes | infinite-runner.py:156-157 | the nukes after the spawner are Wave's result |
| Runner.GameState.FallNukes | infinite-runner.py:160-172 | the in-place walk with removal gives Loop's outcome and sets game over on a hit; with distinct x that is Sweep's outcome |
| Runner.GameState.ObstacleHit | infinite-runner.py:175-180 | the scan reports a hit iff some obstacle overlaps the character's box |
| Runner.GameState.CheckObstaclesAndScore | infinite-runner.py:175-184 | game over is set on an obstacle hit, and the score grows by one iff the game is not over |
| Runner.GameState.Frame | infinite-runner.py:94-184 | a whole frame computes FrameStep and keeps the reachable-state invariant |

## Left out

- Window creation, image loading, the ground, character, obstacle and nuke
  drawing, hitbox outlines, text rendering and the display flip: all of
  this is pygame output. The hitbox flag is kept only as a boolean that A
  flips.
- `pygame.time.delay(1000)` and `clock.tick(30)` only pace the loop. The
  countdown is one decrement per frame.
- Event polling, QUIT and the `running` flag are not modelled. Each frame
  gets an input record: held LEFT, RIGHT and SPACE, and whether an R or A
  KEYDOWN arrived. Several A presses within one frame are not modelled.
- `random.randint` is not modelled. The obstacle x and the two nuke x
  values are parameters required to be in range.
- The retry loop in `add_nukes`, which redraws the second x until it
  differs from the first, is modelled only by its outcome: a second value
  that differs from the first. That loop need not terminate, so it is not
  modelled as a loop.
- Python float arithmetic for y and velocity is replaced by exact integer
  tenths. Rounding of 0.7 in binary floating point is not modelled.
- `pygame.Rect` and `colliderect` are not part of this model. They are
  taken to be a strict overlap test of two 50×50 boxes, with the
  character's float y truncated toward zero.
- `Nukes.LoopIsSweep`, and through it `Runner.GameState.FallNukes`'s
  second ensures: the equality with `Sweep` is stated only for nukes with
  distinct x values. Every reachable state has distinct x, but a list
  with two nukes at the same position is not covered.

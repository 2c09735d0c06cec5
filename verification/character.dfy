/**
 * The character's movement in one running frame: horizontal move and clamp,
 * then jump, gravity and the snap to the ground line.
 *
 * The game keeps the vertical position and velocity as Python floats because
 * gravity is 0.7; here both are integers counted in tenths of a pixel, so that
 * every step is exact.  The horizontal position stays in whole pixels.
 */
module Character {
  import opened Geometry

  /** Pixels per frame that LEFT or RIGHT moves the character (both difficulty tiers). */
  const MOVE_SPEED: int := 7

  /** The ground line in tenths of a pixel. */
  const GROUND: int := GROUND_PX * 10

  /** Vertical velocity set by a jump: -10 pixels per frame, in tenths. */
  const JUMP_POWER: int := -100

  /** Gravity added to the velocity every running frame: 0.7 pixels per frame, in tenths. */
  const GRAVITY: int := 7

  /** The top of a jump's arc in tenths of a pixel (233.5 pixels). */
  const PEAK: int := 2335

  /** Python's max(0, min(WIDTH - 50, v)). */
  function Clamp(v: int): (r: int)
    ensures 0 <= r <= MAX_X
    ensures 0 <= v <= MAX_X ==> r == v
    ensures v < 0 ==> r == 0
    ensures v > MAX_X ==> r == MAX_X
  {
    var m := if MAX_X < v then MAX_X else v;
    if 0 < m then m else 0
  }

  /**
   * Horizontal movement and clamp.  LEFT is checked first, so when both arrows
   * are held the character moves left and RIGHT is not looked at.
   */
  function MoveX(x: int, input: Input): (r: int)
    ensures 0 <= r <= MAX_X
    ensures input.left ==> r == Clamp(x - MOVE_SPEED)
    ensures !input.left && input.right ==> r == Clamp(x + MOVE_SPEED)
    ensures 0 <= x <= MAX_X ==>
              (input.left ==> x - MOVE_SPEED <= r <= x) &&
              (!input.left && input.right ==> x <= r <= x + MOVE_SPEED) &&
              (!input.left && !input.right ==> r == x)
  {
    var moved := if input.left then x - MOVE_SPEED
                 else if input.right then x + MOVE_SPEED
                 else x;
    Clamp(moved)
  }

  /** Vertical state of the character: y and velocity in tenths, and is_jumping. */
  datatype Vertical = Vertical(y: int, velocity: int, jumping: bool)

  /** The jump impulse: it fires only when SPACE is held and the character is not already jumping. */
  function Jump(v: Vertical, space: bool): (r: Vertical)
    ensures space && !v.jumping ==> r.velocity == JUMP_POWER && r.jumping && r.y == v.y
    ensures !(space && !v.jumping) ==> r == v
  {
    if space && !v.jumping then v.(velocity := JUMP_POWER, jumping := true) else v
  }

  /**
   * Gravity, integration and the ground snap.  Gravity is added whether or not
   * the character is in the air, and landing resets neither velocity nor
   * anything but y and is_jumping.
   */
  function Fall(v: Vertical): (r: Vertical)
    ensures r.velocity == v.velocity + GRAVITY
    ensures r.y <= GROUND
    ensures v.y + v.velocity + GRAVITY >= GROUND ==> r.y == GROUND && !r.jumping
    ensures v.y + v.velocity + GRAVITY < GROUND ==> r.y == v.y + r.velocity && r.jumping == v.jumping
  {
    var velocity := v.velocity + GRAVITY;
    var y := v.y + velocity;
    if y >= GROUND then Vertical(GROUND, velocity, false) else Vertical(y, velocity, v.jumping)
  }

  /** The whole vertical update of one running frame. */
  function VerticalStep(v: Vertical, space: bool): Vertical
  {
    Fall(Jump(v, space))
  }

  /**
   * The vertical states the game can reach.  On the ground the character sits
   * exactly on the ground line with a velocity that is not negative; in the air,
   * y and velocity are tied by the discrete energy equation of a jump that left
   * the ground with JUMP_POWER and gains GRAVITY every frame.
   */
  ghost predicate Arc(v: Vertical)
  {
    v.y <= GROUND &&
    (!v.jumping ==> v.y == GROUND && v.velocity >= 0) &&
    (v.jumping ==>
       2 * GRAVITY * (v.y - GROUND) ==
       v.velocity * v.velocity + GRAVITY * v.velocity - JUMP_POWER * JUMP_POWER - GRAVITY * JUMP_POWER)
  }

  /** The vertical update keeps the character on a reachable arc. */
  lemma VerticalStepKeepsArc(v: Vertical, space: bool)
    requires Arc(v)
    ensures Arc(VerticalStep(v, space))
  {
    var j := Jump(v, space);
    var u := j.velocity + GRAVITY;
    if j.y + u < GROUND {
      assert j.jumping;
      assert u * u == j.velocity * j.velocity + 2 * GRAVITY * j.velocity + GRAVITY * GRAVITY;
    }
  }

  /** On a reachable arc the character's top edge stays between 233.5 and 300 pixels. */
  lemma ArcBounds(v: Vertical)
    requires Arc(v)
    ensures PEAK <= v.y <= GROUND
  {
    if v.jumping {
      var w := v.velocity;
      assert (w + 3) * (w + 4) >= 0 by {
        if w >= -3 {
          assert w + 3 >= 0 && w + 4 >= 0;
        } else {
          assert -(w + 3) >= 0 && -(w + 4) >= 0;
          assert (w + 3) * (w + 4) == (-(w + 3)) * (-(w + 4));
        }
      }
      assert (w + 3) * (w + 4) == w * w + 7 * w + 12;
    }
  }

  /** k frames of the vertical update with SPACE released. */
  function Idle(v: Vertical, k: nat): Vertical
    decreases k
  {
    if k == 0 then v else Idle(VerticalStep(v, false), k - 1)
  }

  /**
   * Standing on the ground without jumping keeps the character on the ground
   * while its velocity grows by GRAVITY every frame: landing never zeroes it.
   */
  lemma {:induction false} IdleVelocityGrows(v: Vertical, k: nat)
    requires !v.jumping && v.y == GROUND && v.velocity >= 0
    ensures Idle(v, k) == Vertical(GROUND, v.velocity + k * GRAVITY, false)
    decreases k
  {
    if k > 0 {
      var next := VerticalStep(v, false);
      assert next == Vertical(GROUND, v.velocity + GRAVITY, false);
      IdleVelocityGrows(next, k - 1);
    }
  }

  /** y (tenths) at the end of the k-th frame of a jump that left the ground line. */
  function JumpHeight(k: nat): int
  {
    if k == 0 then GROUND else JumpHeight(k - 1) + JUMP_POWER + GRAVITY * k
  }

  /** The vertical state at the end of the k-th frame of a jump, while still in the air. */
  function InAir(k: nat): Vertical
  {
    Vertical(JumpHeight(k), JUMP_POWER + GRAVITY * k, true)
  }

  /** Closed form of the jump height: the sum of the velocities of frames 1 to k. */
  lemma {:induction false} JumpHeightClosedForm(k: nat)
    ensures 2 * (JumpHeight(k) - GROUND) == k * (2 * JUMP_POWER + GRAVITY * (k + 1))
  {
    if k > 0 {
      JumpHeightClosedForm(k - 1);
      assert k * (2 * JUMP_POWER + GRAVITY * (k + 1)) == (k - 1) * (2 * JUMP_POWER + GRAVITY * k) + 2 * (JUMP_POWER + GRAVITY * k);
    }
  }

  /** Frame j of a jump is followed by frame j + 1 in the air, up to frame 27. */
  lemma AirStep(j: nat)
    requires 1 <= j < 27
    ensures VerticalStep(InAir(j), false) == InAir(j + 1)
  {
    JumpHeightClosedForm(j + 1);
    NegativeProduct(j + 1, 2 * JUMP_POWER + GRAVITY * (j + 2));
    assert JumpHeight(j + 1) == JumpHeight(j) + JUMP_POWER + GRAVITY * (j + 1);
  }

  /** A positive number times a negative one is negative. */
  lemma NegativeProduct(a: int, b: int)
    requires a > 0 && b < 0
    ensures a * b < 0
  {
  }

  /** From frame j of a jump, SPACE released: still in the air at frame 27, on the ground at frame 28. */
  lemma {:induction false} AirborneUntilFrame28(j: nat)
    requires 1 <= j <= 27
    ensures Idle(InAir(j), 27 - j) == InAir(27)
    ensures Idle(InAir(j), 28 - j) == Vertical(GROUND, 96, false)
    decreases 27 - j
  {
    if j == 27 {
      JumpHeightClosedForm(27);
      assert Idle(InAir(27), 1) == VerticalStep(InAir(27), false);
    } else {
      AirStep(j);
      AirborneUntilFrame28(j + 1);
    }
  }

  /**
   * A jump from the ground stays in the air for 27 frames and lands on the 28th,
   * still falling at 9.6 pixels per frame.
   */
  lemma JumpLandsOnFrame28(v: Vertical)
    requires !v.jumping && v.y == GROUND
    ensures VerticalStep(v, true) == InAir(1)
    ensures Idle(VerticalStep(v, true), 26).jumping
    ensures Idle(VerticalStep(v, true), 27) == Vertical(GROUND, 96, false)
  {
    AirborneUntilFrame28(1);
  }
}

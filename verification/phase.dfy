/**
 * The start-of-game countdown and the difficulty rule.
 *
 * The countdown runs one unit per frame while the game has not started (the
 * one-second delay that paces it is left out); once it reaches zero the game
 * starts and nothing ever stops it again.
 */
module Phase {

  /** Frames of countdown before the first running frame, and the value it is reset to. */
  const COUNTDOWN: int := 3

  /** Score above which the difficulty rule applies. */
  const SPEEDUP_SCORE: int := 1000

  /** Obstacle speed at start, in pixels per frame. */
  const BASE_OBSTACLE_SPEED: int := 10

  /** Obstacle speed the difficulty rule sets: lower than the base, so obstacles slow down. */
  const LATE_OBSTACLE_SPEED: int := 7

  /** timer_started and game_start_timer. */
  datatype Countdown = Countdown(started: bool, remaining: int)

  /** The countdown gate of one frame. */
  function Tick(c: Countdown): (r: Countdown)
    ensures c.started ==> r == c
    ensures !c.started ==> (r.started <==> c.remaining <= 1)
    ensures !c.started && !r.started ==> r.remaining == c.remaining - 1
    ensures !c.started && r.started ==> r.remaining == COUNTDOWN
    ensures 1 <= c.remaining <= COUNTDOWN ==> 1 <= r.remaining <= COUNTDOWN
  {
    if c.started then c
    else
      var remaining := c.remaining - 1;
      if remaining <= 0 then Countdown(true, COUNTDOWN) else Countdown(false, remaining)
  }

  /** k frames of the countdown gate. */
  function Ticks(c: Countdown, k: nat): Countdown
    decreases k
  {
    if k == 0 then c else Ticks(Tick(c), k - 1)
  }

  /**
   * A countdown showing n (at least 1) has started after k frames exactly when k >= n;
   * from the initial 3 the game starts on the third frame.
   */
  lemma {:induction false} StartsAfterRemaining(c: Countdown, k: nat)
    requires !c.started && 1 <= c.remaining
    ensures Ticks(c, k).started <==> k >= c.remaining
    decreases k
  {
    if k > 0 {
      if c.remaining <= 1 {
        StaysStarted(Tick(c), k - 1);
      } else {
        StartsAfterRemaining(Tick(c), k - 1);
      }
    }
  }

  /** Once started, the countdown gate leaves the state alone for good. */
  lemma {:induction false} StaysStarted(c: Countdown, k: nat)
    requires c.started
    ensures Ticks(c, k) == c
    decreases k
  {
    if k > 0 {
      StaysStarted(Tick(c), k - 1);
    }
  }

  /**
   * The difficulty rule: above SPEEDUP_SCORE the obstacle speed becomes
   * LATE_OBSTACLE_SPEED, otherwise it is left as it is.  Starting from either
   * tier it never makes obstacles faster.
   */
  function ObstacleSpeed(score: int, speed: int): (r: int)
    ensures score > SPEEDUP_SCORE ==> r == LATE_OBSTACLE_SPEED
    ensures score <= SPEEDUP_SCORE ==> r == speed
    ensures speed == BASE_OBSTACLE_SPEED || speed == LATE_OBSTACLE_SPEED ==>
              (r == BASE_OBSTACLE_SPEED || r == LATE_OBSTACLE_SPEED) && r <= speed
  {
    if score > SPEEDUP_SCORE then LATE_OBSTACLE_SPEED else speed
  }
}

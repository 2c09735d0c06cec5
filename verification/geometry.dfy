/** Screen geometry, hit boxes and the keys read in one frame of the infinite runner. */
module Geometry {

  const WIDTH: int := 800
  const HEIGHT: int := 400

  /** Side of every sprite and hit box: character, obstacle and nuke are all 50 x 50. */
  const SIZE: int := 50

  /** Largest x the character may take (WIDTH - 50). */
  const MAX_X: int := WIDTH - SIZE

  /** The ground line in pixels (HEIGHT - 100): where the character stands and obstacles sit. */
  const GROUND_PX: int := HEIGHT - 100

  /** An obstacle or a nuke: the two-element list [x, y] of the game, top-left corner in pixels. */
  datatype Pos = Pos(x: int, y: int)

  /**
   * What one frame reads from the keyboard: the held state of LEFT, RIGHT and SPACE,
   * and whether an R or an A key-down event arrived during the frame.
   */
  datatype Input = Input(left: bool, right: bool, space: bool, keyR: bool, keyA: bool)

  /** int() of a quantity held in tenths of a pixel: division by ten truncated toward zero. */
  function TruncTenths(t: int): (r: int)
    ensures t >= 0 ==> 0 <= 10 * r <= t < 10 * r + 10
    ensures t < 0 ==> 10 * r - 10 < t <= 10 * r <= 0
  {
    if t >= 0 then t / 10 else -((-t) / 10)
  }

  /**
   * Two SIZE x SIZE boxes given by their top-left corners overlap: the strict
   * rectangle test of colliderect, on integer rectangles.
   */
  predicate Collides(a: Pos, b: Pos)
  {
    a.x < b.x + SIZE && b.x < a.x + SIZE && a.y < b.y + SIZE && b.y < a.y + SIZE
  }
}

/**
 * Ground obstacles: the spawner, the scroll to the left with the off-screen
 * filter, and the collision test against the character.
 */
module Obstacles {
  import opened Geometry

  /** Range of the x at which a new obstacle appears (WIDTH + 100 .. WIDTH + 300). */
  const SPAWN_MIN_X: int := WIDTH + 100
  const SPAWN_MAX_X: int := WIDTH + 300

  /** A new obstacle is added once the last one has passed this x (WIDTH - 300). */
  const SPAWN_EDGE: int := WIDTH - 300

  /** Smallest horizontal distance between any two obstacles on screen. */
  const MIN_GAP: int := SPAWN_MIN_X - SPAWN_EDGE

  /** The spawn condition: no obstacle, or the newest one is left of SPAWN_EDGE. */
  predicate Due(obs: seq<Pos>)
  {
    |obs| == 0 || obs[|obs| - 1].x < SPAWN_EDGE
  }

  /**
   * The obstacle spawner: when due, the drawn x is appended as a new obstacle
   * on the ground line; the existing entries are never touched.
   */
  function Spawn(obs: seq<Pos>, draw: int): (r: seq<Pos>)
    requires SPAWN_MIN_X <= draw <= SPAWN_MAX_X
    ensures |r| == |obs| + 1 <==> |obs| == 0 || obs[|obs| - 1].x < SPAWN_EDGE
    ensures |r| == |obs| || |r| == |obs| + 1
    ensures r[..|obs|] == obs
    ensures |r| == |obs| + 1 ==> r[|obs|] == Pos(draw, GROUND_PX)
  {
    if Due(obs) then obs + [Pos(draw, GROUND_PX)] else obs
  }

  /** Every obstacle moved left by d pixels. */
  function Shifted(obs: seq<Pos>, d: int): (r: seq<Pos>)
    ensures |r| == |obs|
    ensures forall i :: 0 <= i < |obs| ==> r[i].x == obs[i].x - d && r[i].y == obs[i].y
  {
    seq(|obs|, i requires 0 <= i < |obs| => Pos(obs[i].x - d, obs[i].y))
  }

  /** Every two obstacles, in list order, are more than MIN_GAP apart and left to right. */
  ghost predicate Spaced(obs: seq<Pos>)
  {
    forall i, j :: 0 <= i < j < |obs| ==> obs[i].x + MIN_GAP < obs[j].x
  }

  /**
   * The filter that drops obstacles gone off the left edge.  What remains is
   * exactly the entries with x > -SIZE, in their original order.
   */
  function Visible(obs: seq<Pos>): (r: seq<Pos>)
    ensures |r| <= |obs|
  {
    if obs == [] then []
    else if obs[0].x > -SIZE then [obs[0]] + Visible(obs[1..])
    else Visible(obs[1..])
  }

  /** What the filter keeps is exactly the entries with x > -SIZE. */
  lemma {:induction false} VisibleMembers(obs: seq<Pos>)
    ensures forall o :: o in Visible(obs) <==> o in obs && o.x > -SIZE
  {
    if obs != [] {
      VisibleMembers(obs[1..]);
      assert obs == [obs[0]] + obs[1..];
    }
  }

  /** The filter keeps the relative order: filtering a concatenation filters each part in place. */
  lemma {:induction false} VisibleAppend(a: seq<Pos>, b: seq<Pos>)
    ensures Visible(a + b) == Visible(a) + Visible(b)
  {
    if a == [] {
      assert a + b == b;
    } else {
      var ab := a + b;
      assert ab[0] == a[0] && ab[1..] == a[1..] + b;
      VisibleAppend(a[1..], b);
      if a[0].x > -SIZE {
        assert Visible(ab) == [a[0]] + (Visible(a[1..]) + Visible(b));
      } else {
        assert Visible(ab) == Visible(a[1..]) + Visible(b);
      }
    }
  }

  /**
   * The obstacles the game can hold between frames: on the ground line, not yet
   * off the left edge, no further right than a fresh spawn, and spaced.
   */
  ghost predicate Lane(obs: seq<Pos>)
  {
    (forall o :: o in obs ==> o.y == GROUND_PX && -SIZE < o.x <= SPAWN_MAX_X) &&
    Spaced(obs)
  }

  /** Spawning keeps the obstacles a lane: a new one is always far right of the newest. */
  lemma SpawnKeepsLane(obs: seq<Pos>, draw: int)
    requires Lane(obs)
    requires SPAWN_MIN_X <= draw <= SPAWN_MAX_X
    ensures Lane(Spawn(obs, draw))
  {
    var r := Spawn(obs, draw);
    if |r| == |obs| + 1 {
      assert r == obs + [Pos(draw, GROUND_PX)];
      forall i, j | 0 <= i < j < |r|
        ensures r[i].x + MIN_GAP < r[j].x
      {
        if j == |obs| && i < |obs| - 1 {
          assert obs[i].x + MIN_GAP < obs[|obs| - 1].x;
        }
      }
    }
  }

  /** Spacing of a list with one more obstacle in front. */
  lemma ConsSpaced(a: Pos, s: seq<Pos>)
    requires Spaced(s)
    requires forall o :: o in s ==> a.x + MIN_GAP < o.x
    ensures Spaced([a] + s)
  {
    var r := [a] + s;
    forall i, j | 0 <= i < j < |r|
      ensures r[i].x + MIN_GAP < r[j].x
    {
      assert r[j] == s[j - 1];
      if i > 0 {
        assert r[i] == s[i - 1];
      } else {
        assert s[j - 1] in s;
      }
    }
  }

  /** The tail of a spaced list is spaced, and lies right of its head. */
  lemma TailSpaced(s: seq<Pos>)
    requires Spaced(s) && s != []
    ensures Spaced(s[1..])
    ensures forall o :: o in s[1..] ==> s[0].x + MIN_GAP < o.x
  {
    var rest := s[1..];
    forall i, j | 0 <= i < j < |rest|
      ensures rest[i].x + MIN_GAP < rest[j].x
    {
      assert rest[i] == s[i + 1] && rest[j] == s[j + 1];
    }
    forall o | o in rest
      ensures s[0].x + MIN_GAP < o.x
    {
      var k :| 0 <= k < |rest| && rest[k] == o;
      assert s[k + 1] == o;
    }
  }

  /** The filter keeps the spacing: it removes entries and never reorders the rest. */
  lemma {:induction false} VisibleKeepsSpaced(obs: seq<Pos>)
    requires Spaced(obs)
    ensures Spaced(Visible(obs))
  {
    if obs != [] {
      TailSpaced(obs);
      VisibleKeepsSpaced(obs[1..]);
      VisibleMembers(obs[1..]);
      if obs[0].x > -SIZE {
        ConsSpaced(obs[0], Visible(obs[1..]));
      }
    }
  }

  /** Shifting moves every entry by d and keeps the order, so the spacing survives. */
  lemma ShiftedMembers(obs: seq<Pos>, d: int)
    ensures forall o :: o in Shifted(obs, d) <==> Pos(o.x + d, o.y) in obs
    ensures Spaced(obs) ==> Spaced(Shifted(obs, d))
  {
    var s := Shifted(obs, d);
    forall o
      ensures o in s <==> Pos(o.x + d, o.y) in obs
    {
      if o in s {
        var i :| 0 <= i < |s| && s[i] == o;
        assert obs[i] == Pos(o.x + d, o.y);
      }
      if Pos(o.x + d, o.y) in obs {
        var i :| 0 <= i < |obs| && obs[i] == Pos(o.x + d, o.y);
        assert s[i] == o;
      }
    }
    if Spaced(obs) {
      forall i, j | 0 <= i < j < |s|
        ensures s[i].x + MIN_GAP < s[j].x
      {
        assert obs[i].x + MIN_GAP < obs[j].x;
      }
    }
  }

  /**
   * The scroll: every survivor is an old entry moved left by d, every old entry
   * still on screen after the move survives, and the obstacles stay a lane.
   */
  lemma ScrollKeepsLane(obs: seq<Pos>, d: int)
    requires Lane(obs)
    requires d >= 0
    ensures forall o :: o in Visible(Shifted(obs, d)) <==> o.x > -SIZE && Pos(o.x + d, o.y) in obs
    ensures Lane(Visible(Shifted(obs, d)))
  {
    ShiftedMembers(obs, d);
    VisibleMembers(Shifted(obs, d));
    VisibleKeepsSpaced(Shifted(obs, d));
  }

  /** Four spaced obstacles span more than three gaps. */
  lemma SpanOfFour(obs: seq<Pos>)
    requires Spaced(obs) && |obs| >= 4
    ensures obs[0] in obs && obs[3] in obs
    ensures obs[0].x + 3 * MIN_GAP < obs[3].x
  {
    assert obs[0].x + MIN_GAP < obs[1].x;
    assert obs[1].x + MIN_GAP < obs[2].x;
  }

  /** Because of the spacing, at most three obstacles exist at any time. */
  lemma AtMostThree(obs: seq<Pos>)
    requires Lane(obs)
    ensures |obs| <= 3
  {
    if |obs| > 3 {
      SpanOfFour(obs);
      assert false;
    }
  }

  /** The character's box overlaps some obstacle. */
  predicate HitsAny(player: Pos, obs: seq<Pos>)
  {
    exists i :: 0 <= i < |obs| && Collides(player, obs[i])
  }
}

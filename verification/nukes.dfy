/**
 * Falling nukes: the pair spawner and the per-frame pass that moves each nuke
 * down, removes the ones that reach the ground and checks them against the
 * character.
 *
 * The pass removes elements from the list it is iterating over.  Python's list
 * iterator walks an index over the list as it is at each step, so the element
 * that follows a removed nuke slides into the removed slot and is not visited
 * in that frame.  Loop models that iteration step by step; Sweep is an
 * independent description of its outcome over the original list, and
 * LoopMatchesSweep proves the two agree.
 */
module Nukes {
  import opened Geometry

  /** Range of a nuke's x at spawn (100 .. WIDTH - 100). */
  const NUKE_MIN_X: int := 100
  const NUKE_MAX_X: int := WIDTH - 100

  /** Nukes appear only once the score is above this. */
  const NUKE_SCORE: int := 500

  /** Pixels a nuke falls per frame. */
  const NUKE_FALL: int := 5

  /** The two x values drawn for a wave: in range and different from each other. */
  predicate WaveDraws(x1: int, x2: int)
  {
    NUKE_MIN_X <= x1 <= NUKE_MAX_X && NUKE_MIN_X <= x2 <= NUKE_MAX_X && x1 != x2
  }

  /**
   * The nuke-pair spawner: above NUKE_SCORE, and only when no nuke is left,
   * exactly two nukes are added at the top of the screen; otherwise nothing changes.
   */
  function Wave(score: int, nukes: seq<Pos>, x1: int, x2: int): (r: seq<Pos>)
    requires WaveDraws(x1, x2)
    ensures |r| == |nukes| + 2 <==> score > NUKE_SCORE && nukes == []
    ensures |r| != |nukes| + 2 ==> r == nukes
    ensures |r| == |nukes| + 2 ==>
              r == [Pos(x1, 0), Pos(x2, 0)] && r[0].x != r[1].x &&
              NUKE_MIN_X <= r[0].x <= NUKE_MAX_X && NUKE_MIN_X <= r[1].x <= NUKE_MAX_X
  {
    if score > NUKE_SCORE && |nukes| == 0 then nukes + [Pos(x1, 0), Pos(x2, 0)] else nukes
  }

  /** A nuke after one frame of falling. */
  function Drop(n: Pos): Pos
  {
    Pos(n.x, n.y + NUKE_FALL)
  }

  /** Python's list.remove(v): deletes the first element equal to v, which must be present. */
  function RemoveFirst(s: seq<Pos>, v: Pos): (r: seq<Pos>)
    requires v in s
    ensures |r| == |s| - 1
  {
    if s[0] == v then s[1..] else [s[0]] + RemoveFirst(s[1..], v)
  }

  /** list.remove(v) deletes exactly one occurrence of v and keeps every other element. */
  lemma {:induction false} RemoveFirstDeletesOne(s: seq<Pos>, v: Pos)
    requires v in s
    ensures multiset(RemoveFirst(s, v)) == multiset(s) - multiset{v}
  {
    assert s == [s[0]] + s[1..];
    if s[0] != v {
      RemoveFirstDeletesOne(s[1..], v);
    }
  }

  /** Outcome of the nuke pass: the nukes left, and whether one hit the character. */
  datatype Pass = Pass(nukes: seq<Pos>, hit: bool)

  /**
   * The pass as the game runs it, from list index i on: move the nuke at i
   * down, remove it (by value) if it reached the ground, check it against the
   * character and stop on a hit, then go on at index i + 1 of the list as it
   * now is.
   */
  function Loop(s: seq<Pos>, i: nat, player: Pos): Pass
    decreases |s| - i
  {
    if i >= |s| then Pass(s, false)
    else
      var moved := Drop(s[i]);
      var updated := s[i := moved];
      assert updated[i] == moved;
      var after := if moved.y >= GROUND_PX then RemoveFirst(updated, moved) else updated;
      if Collides(player, moved) then Pass(after, true)
      else Loop(after, i + 1, player)
  }

  /**
   * The outcome of the pass described over the original list: each nuke falls
   * and is checked in turn; a nuke that reaches the ground is dropped from the
   * list and the nuke right after it is neither moved nor checked this frame;
   * the first hit ends the pass and leaves the rest as they were.
   */
  function Sweep(s: seq<Pos>, player: Pos): Pass
    decreases |s|
  {
    if s == [] then Pass([], false)
    else
      var moved := Drop(s[0]);
      if moved.y >= GROUND_PX then
        if Collides(player, moved) then Pass(s[1..], true)
        else if |s| == 1 then Pass([], false)
        else
          var rest := Sweep(s[2..], player);
          Pass([s[1]] + rest.nukes, rest.hit)
      else
        if Collides(player, moved) then Pass([moved] + s[1..], true)
        else
          var rest := Sweep(s[1..], player);
          Pass([moved] + rest.nukes, rest.hit)
  }

  /** No two nukes share an x. */
  ghost predicate DistinctX(s: seq<Pos>)
  {
    forall i, j :: 0 <= i < j < |s| ==> s[i].x != s[j].x
  }

  /** The nukes the game can hold between frames: at most one wave, in range, above the ground. */
  ghost predicate Sky(s: seq<Pos>)
  {
    |s| <= 2 && DistinctX(s) &&
    forall n :: n in s ==> NUKE_MIN_X <= n.x <= NUKE_MAX_X && 0 <= n.y < GROUND_PX
  }

  /** Each nuke moved down by one frame. */
  function DropAll(s: seq<Pos>): (r: seq<Pos>)
    ensures |r| == |s|
    ensures forall i :: 0 <= i < |s| ==> r[i] == Drop(s[i])
  {
    seq(|s|, i requires 0 <= i < |s| => Drop(s[i]))
  }

  /** With v absent from p, list.remove(v) takes out the v placed right after p. */
  lemma {:induction false} RemoveFirstAfter(p: seq<Pos>, v: Pos, t: seq<Pos>)
    requires v !in p
    ensures RemoveFirst(p + [v] + t, v) == p + t
  {
    if p != [] {
      assert p + [v] + t == [p[0]] + (p[1..] + [v] + t);
      RemoveFirstAfter(p[1..], v, t);
      assert p + t == [p[0]] + (p[1..] + t);
    }
  }

  /** Distinct x values survive dropping the element at the head of s. */
  lemma DistinctWithoutHead(p: seq<Pos>, s: seq<Pos>)
    requires DistinctX(p + s) && s != []
    ensures DistinctX(p + s[1..])
  {
    var l := p + s;
    var r := p + s[1..];
    forall i, j | 0 <= i < j < |r|
      ensures r[i].x != r[j].x
    {
      var i' := if i < |p| then i else i + 1;
      var j' := if j < |p| then j else j + 1;
      assert r[i] == l[i'] && r[j] == l[j'];
    }
  }

  /** Distinct x values survive moving the head of s vertically. */
  lemma DistinctMovedHead(p: seq<Pos>, s: seq<Pos>, m: Pos)
    requires DistinctX(p + s) && s != [] && m.x == s[0].x
    ensures DistinctX(p + [m] + s[1..])
  {
    var l := p + s;
    var r := p + [m] + s[1..];
    forall i, j | 0 <= i < j < |r|
      ensures r[i].x != r[j].x
    {
      assert r[i].x == l[i].x && r[j].x == l[j].x;
    }
  }

  /** In a list with distinct x, the first unprocessed nuke, once moved, equals no processed one. */
  lemma MovedNotInPrefix(p: seq<Pos>, s: seq<Pos>)
    requires DistinctX(p + s) && s != []
    ensures Drop(s[0]) !in p
  {
    forall k | 0 <= k < |p|
      ensures p[k] != Drop(s[0])
    {
      assert (p + s)[k] == p[k] && (p + s)[|p|] == s[0];
    }
  }

  /**
   * One step of the index-by-index pass at the first unprocessed nuke s[0],
   * after a processed prefix p: when no processed nuke equals it once moved,
   * list.remove takes out that very nuke.
   */
  lemma LoopStep(p: seq<Pos>, s: seq<Pos>, player: Pos)
    requires s != [] && Drop(s[0]) !in p
    ensures Drop(s[0]).y >= GROUND_PX && Collides(player, Drop(s[0])) ==>
              Loop(p + s, |p|, player) == Pass(p + s[1..], true)
    ensures Drop(s[0]).y >= GROUND_PX && !Collides(player, Drop(s[0])) ==>
              Loop(p + s, |p|, player) == Loop(p + s[1..], |p| + 1, player)
    ensures Drop(s[0]).y < GROUND_PX && Collides(player, Drop(s[0])) ==>
              Loop(p + s, |p|, player) == Pass(p + [Drop(s[0])] + s[1..], true)
    ensures Drop(s[0]).y < GROUND_PX && !Collides(player, Drop(s[0])) ==>
              Loop(p + s, |p|, player) == Loop(p + [Drop(s[0])] + s[1..], |p| + 1, player)
  {
    var l := p + s;
    var m := Drop(s[0]);
    assert l[|p|] == s[0];
    assert l[|p| := m] == p + [m] + s[1..];
    if m.y >= GROUND_PX {
      RemoveFirstAfter(p, m, s[1..]);
    }
  }

  /**
   * The index-by-index pass over a list with distinct x values, started after
   * a processed prefix p, ends as Sweep describes for the rest.
   */
  lemma {:induction false} LoopMatchesSweep(p: seq<Pos>, s: seq<Pos>, player: Pos)
    requires DistinctX(p + s)
    ensures Loop(p + s, |p|, player) == Pass(p + Sweep(s, player).nukes, Sweep(s, player).hit)
    decreases |s|, 1
  {
    if s == [] {
      assert p + s == p;
    } else if Drop(s[0]).y >= GROUND_PX {
      LoopMatchesSweepLanded(p, s, player);
    } else {
      LoopMatchesSweepFalling(p, s, player);
    }
  }

  /**
   * A landed nuke that misses: the walk over the rest, which resumes past the
   * nuke that slid into its slot, gives Sweep's outcome for the whole list
   * once it does so for the list after that follower.
   */
  lemma LandedMissStep(p: seq<Pos>, s: seq<Pos>, player: Pos)
    requires |s| >= 2 && Drop(s[0]) !in p
    requires Drop(s[0]).y >= GROUND_PX && !Collides(player, Drop(s[0]))
    requires Loop((p + [s[1]]) + s[2..], |p| + 1, player) ==
             Pass((p + [s[1]]) + Sweep(s[2..], player).nukes, Sweep(s[2..], player).hit)
    ensures Loop(p + s, |p|, player) == Pass(p + Sweep(s, player).nukes, Sweep(s, player).hit)
  {
    var rest := Sweep(s[2..], player);
    SplitSecond(p, s);
    LoopStep(p, s, player);
    assert Sweep(s, player) == Pass([s[1]] + rest.nukes, rest.hit);
    Regroup(p, s[1], rest.nukes);
  }

  /** The list after a removed head, split at its first element. */
  lemma SplitSecond(p: seq<Pos>, s: seq<Pos>)
    requires |s| >= 2
    ensures p + s[1..] == (p + [s[1]]) + s[2..]
  {
    assert s[1..] == [s[1]] + s[2..];
  }

  /** One element appended to a prefix, or put in front of a suffix, gives the same list. */
  lemma Regroup(p: seq<Pos>, a: Pos, t: seq<Pos>)
    ensures (p + [a]) + t == p + ([a] + t)
  {
  }

  /** LoopMatchesSweep when the next nuke reaches the ground and is removed. */
  lemma {:induction false} LoopMatchesSweepLanded(p: seq<Pos>, s: seq<Pos>, player: Pos)
    requires DistinctX(p + s) && s != [] && Drop(s[0]).y >= GROUND_PX
    ensures Loop(p + s, |p|, player) == Pass(p + Sweep(s, player).nukes, Sweep(s, player).hit)
    decreases |s|, 0
  {
    MovedNotInPrefix(p, s);
    if Collides(player, Drop(s[0])) {
      LoopStep(p, s, player);
    } else if |s| == 1 {
      LoopStep(p, s, player);
      assert p + s[1..] == p;
    } else {
      var p' := p + [s[1]];
      assert DistinctX(p' + s[2..]) by {
        DistinctWithoutHead(p, s);
        assert s[1..] == [s[1]] + s[2..];
        assert p + s[1..] == p' + s[2..];
      }
      LoopMatchesSweep(p', s[2..], player);
      LandedMissStep(p, s, player);
    }
  }

  /** LoopMatchesSweep when the next nuke stays above the ground. */
  lemma {:induction false} LoopMatchesSweepFalling(p: seq<Pos>, s: seq<Pos>, player: Pos)
    requires DistinctX(p + s) && s != [] && Drop(s[0]).y < GROUND_PX
    ensures Loop(p + s, |p|, player) == Pass(p + Sweep(s, player).nukes, Sweep(s, player).hit)
    decreases |s|, 0
  {
    var m := Drop(s[0]);
    MovedNotInPrefix(p, s);
    LoopStep(p, s, player);
    if Collides(player, m) {
      assert p + [m] + s[1..] == p + ([m] + s[1..]);
    } else {
      DistinctMovedHead(p, s, m);
      var p' := p + [m];
      assert p + [m] + s[1..] == p' + s[1..];
      LoopMatchesSweep(p', s[1..], player);
      assert p' + Sweep(s[1..], player).nukes == p + ([m] + Sweep(s[1..], player).nukes);
    }
  }

  /** The whole pass, as the game runs it, is Sweep. */
  lemma LoopIsSweep(s: seq<Pos>, player: Pos)
    requires DistinctX(s)
    ensures Loop(s, 0, player) == Sweep(s, player)
  {
    assert [] + s == s;
    LoopMatchesSweep([], s, player);
    assert [] + Sweep(s, player).nukes == Sweep(s, player).nukes;
  }

  /** A head and a tail with distinct x values, where the head's x is new, have distinct x values. */
  lemma ConsDistinct(a: Pos, t: seq<Pos>)
    requires DistinctX(t)
    requires forall n :: n in t ==> n.x != a.x
    ensures DistinctX([a] + t)
  {
    var r := [a] + t;
    forall i, j | 0 <= i < j < |r|
      ensures r[i].x != r[j].x
    {
      assert r[j] == t[j - 1];
      if i > 0 {
        assert r[i] == t[i - 1];
      } else {
        assert t[j - 1] in t;
      }
    }
  }

  /** The tail of a list with distinct x values has distinct x values, all different from the head's. */
  lemma TailDistinct(s: seq<Pos>)
    requires DistinctX(s) && s != []
    ensures DistinctX(s[1..])
    ensures forall n :: n in s[1..] ==> n.x != s[0].x
  {
    var t := s[1..];
    forall i, j | 0 <= i < j < |t|
      ensures t[i].x != t[j].x
    {
      assert t[i] == s[i + 1] && t[j] == s[j + 1];
    }
    forall n | n in t
      ensures n.x != s[0].x
    {
      var k :| 0 <= k < |t| && t[k] == n;
      assert s[k + 1] == n;
    }
  }

  /** n is a nuke of s left as it was, or a nuke of s after one fall that is still above the ground. */
  ghost predicate Origin(n: Pos, s: seq<Pos>)
  {
    n in s || (n.y < GROUND_PX && Pos(n.x, n.y - NUKE_FALL) in s)
  }

  /** The pass never adds a nuke. */
  lemma {:induction false} SweepShrinks(s: seq<Pos>, player: Pos)
    ensures |Sweep(s, player).nukes| <= |s|
    decreases |s|
  {
    if s != [] {
      var m := Drop(s[0]);
      if m.y >= GROUND_PX && !Collides(player, m) && |s| > 1 {
        SweepShrinks(s[2..], player);
      } else if m.y < GROUND_PX && !Collides(player, m) {
        SweepShrinks(s[1..], player);
      }
    }
  }

  /** Every nuke left after the pass is one that was there, untouched or moved down by NUKE_FALL. */
  lemma {:induction false} SweepEntries(s: seq<Pos>, player: Pos)
    ensures forall n :: n in Sweep(s, player).nukes ==> Origin(n, s)
    decreases |s|
  {
    if s != [] {
      var m := Drop(s[0]);
      var r := Sweep(s, player).nukes;
      assert Pos(m.x, m.y - NUKE_FALL) == s[0];
      if m.y >= GROUND_PX && !Collides(player, m) && |s| > 1 {
        SweepEntries(s[2..], player);
        var rest := Sweep(s[2..], player).nukes;
        assert r == [s[1]] + rest;
        forall n | n in r
          ensures Origin(n, s)
        {
          if n != s[1] {
            assert n in rest;
            assert Origin(n, s[2..]);
            if n in s[2..] {
              var k :| 0 <= k < |s[2..]| && s[2..][k] == n;
              assert s[k + 2] == n;
            } else {
              var k :| 0 <= k < |s[2..]| && s[2..][k] == Pos(n.x, n.y - NUKE_FALL);
              assert s[k + 2] == Pos(n.x, n.y - NUKE_FALL);
            }
          }
        }
      } else if m.y < GROUND_PX && !Collides(player, m) {
        SweepEntries(s[1..], player);
        var rest := Sweep(s[1..], player).nukes;
        assert r == [m] + rest;
        forall n | n in r
          ensures Origin(n, s)
        {
          if n != m {
            assert n in rest;
            assert Origin(n, s[1..]);
            if n in s[1..] {
              var k :| 0 <= k < |s[1..]| && s[1..][k] == n;
              assert s[k + 1] == n;
            } else {
              var k :| 0 <= k < |s[1..]| && s[1..][k] == Pos(n.x, n.y - NUKE_FALL);
              assert s[k + 1] == Pos(n.x, n.y - NUKE_FALL);
            }
          }
        }
      } else if m.y < GROUND_PX {
        assert r == [m] + s[1..];
        forall n | n in r
          ensures Origin(n, s)
        {
          if n != m {
            var k :| 0 <= k < |s[1..]| && s[1..][k] == n;
            assert s[k + 1] == n;
          }
        }
      } else if Collides(player, m) {
        forall n | n in r
          ensures Origin(n, s)
        {
          var k :| 0 <= k < |s[1..]| && s[1..][k] == n;
          assert s[k + 1] == n;
        }
      }
    }
  }

  /** Every nuke that comes from the tail of a list with distinct x has an x other than the head's. */
  lemma OriginAvoidsHead(s: seq<Pos>, rest: seq<Pos>)
    requires DistinctX(s) && s != []
    requires forall n :: n in rest ==> Origin(n, s[1..])
    ensures forall n :: n in rest ==> n.x != s[0].x
  {
    TailDistinct(s);
    forall n | n in rest
      ensures n.x != s[0].x
    {
      assert Origin(n, s[1..]);
      if n !in s[1..] {
        assert Pos(n.x, n.y - NUKE_FALL) in s[1..];
      }
    }
  }

  /** The pass keeps the x values of the nukes distinct. */
  lemma {:induction false} SweepKeepsDistinct(s: seq<Pos>, player: Pos)
    requires DistinctX(s)
    ensures DistinctX(Sweep(s, player).nukes)
    decreases |s|
  {
    if s != [] {
      var m := Drop(s[0]);
      TailDistinct(s);
      if m.y >= GROUND_PX && !Collides(player, m) && |s| > 1 {
        var t := s[1..];
        TailDistinct(t);
        assert t[1..] == s[2..];
        SweepKeepsDistinct(s[2..], player);
        SweepEntries(s[2..], player);
        OriginAvoidsHead(t, Sweep(s[2..], player).nukes);
        ConsDistinct(s[1], Sweep(s[2..], player).nukes);
      } else if m.y < GROUND_PX && !Collides(player, m) {
        SweepKeepsDistinct(s[1..], player);
        SweepEntries(s[1..], player);
        OriginAvoidsHead(s, Sweep(s[1..], player).nukes);
        ConsDistinct(m, Sweep(s[1..], player).nukes);
      } else if m.y < GROUND_PX {
        ConsDistinct(m, s[1..]);
      }
    }
  }

  /** Only nukes that reach the ground are removed: any other nuke is still there, moved or not. */
  lemma {:induction false} SweepRemovesOnlyLanded(s: seq<Pos>, player: Pos)
    ensures forall m :: m in s && m.y + NUKE_FALL < GROUND_PX ==>
              m in Sweep(s, player).nukes || Drop(m) in Sweep(s, player).nukes
    decreases |s|
  {
    if s != [] {
      var moved := Drop(s[0]);
      var r := Sweep(s, player).nukes;
      if moved.y >= GROUND_PX {
        if !Collides(player, moved) && |s| > 1 {
          SweepRemovesOnlyLanded(s[2..], player);
          forall m | m in s && m.y + NUKE_FALL < GROUND_PX
            ensures m in r || Drop(m) in r
          {
            if m != s[0] && m != s[1] {
              var k :| 0 <= k < |s| && s[k] == m;
              assert m in s[2..] by { assert s[2..][k - 2] == m; }
            }
          }
        }
      } else if !Collides(player, moved) {
        SweepRemovesOnlyLanded(s[1..], player);
        forall m | m in s && m.y + NUKE_FALL < GROUND_PX
          ensures m in r || Drop(m) in r
        {
          if m != s[0] {
            var k :| 0 <= k < |s| && s[k] == m;
            assert m in s[1..] by { assert s[1..][k - 1] == m; }
          }
        }
      }
    }
  }

  /**
   * In a frame where no nuke reaches the ground, the pass reports a hit exactly
   * when some nuke overlaps the character after falling, and without a hit
   * every nuke is moved down by exactly NUKE_FALL.
   */
  lemma {:induction false} SweepWithoutLanding(s: seq<Pos>, player: Pos)
    requires forall k :: 0 <= k < |s| ==> s[k].y + NUKE_FALL < GROUND_PX
    ensures Sweep(s, player).hit <==> exists k :: 0 <= k < |s| && Collides(player, Drop(s[k]))
    ensures !Sweep(s, player).hit ==> Sweep(s, player).nukes == DropAll(s)
    decreases |s|
  {
    if s != [] {
      var m := Drop(s[0]);
      if !Collides(player, m) {
        SweepWithoutLanding(s[1..], player);
        if exists k :: 0 <= k < |s| && Collides(player, Drop(s[k])) {
          var k :| 0 <= k < |s| && Collides(player, Drop(s[k]));
          assert s[1..][k - 1] == s[k];
        }
        if Sweep(s[1..], player).hit {
          var k :| 0 <= k < |s| - 1 && Collides(player, Drop(s[1..][k]));
          assert s[k + 1] == s[1..][k];
        } else {
          assert DropAll(s) == [m] + DropAll(s[1..]);
        }
      }
    }
  }

  /**
   * The pass stops at the first nuke that overlaps the character: the nukes up
   * to it have fallen, it has fallen too, and those after it stay where they were.
   */
  lemma {:induction false} SweepStopsAtFirstHit(s: seq<Pos>, player: Pos, k: nat)
    requires k < |s|
    requires forall j :: 0 <= j <= k ==> s[j].y + NUKE_FALL < GROUND_PX
    requires forall j :: 0 <= j < k ==> !Collides(player, Drop(s[j]))
    requires Collides(player, Drop(s[k]))
    ensures Sweep(s, player).hit
    ensures Sweep(s, player).nukes == DropAll(s[..k + 1]) + s[k + 1..]
    decreases k
  {
    var m := Drop(s[0]);
    assert !(m.y >= GROUND_PX);
    if k == 0 {
      assert DropAll(s[..1]) == [m];
    } else {
      var t := s[1..];
      assert !Collides(player, m);
      forall j | 0 <= j <= k - 1
        ensures t[j].y + NUKE_FALL < GROUND_PX
      {
        assert t[j] == s[j + 1];
      }
      forall j | 0 <= j < k - 1
        ensures !Collides(player, Drop(t[j]))
      {
        assert t[j] == s[j + 1];
      }
      SweepStopsAtFirstHit(t, player, k - 1);
      assert t[..k] == s[1..k + 1];
      assert t[k..] == s[k + 1..];
      assert DropAll(s[..k + 1]) == [m] + DropAll(s[1..k + 1]);
    }
  }

  /** A hit reported by the pass always comes from some nuke that overlaps the character after falling. */
  lemma {:induction false} SweepHitSound(s: seq<Pos>, player: Pos)
    ensures Sweep(s, player).hit ==> exists k :: 0 <= k < |s| && Collides(player, Drop(s[k]))
    decreases |s|
  {
    if s != [] && Sweep(s, player).hit {
      var m := Drop(s[0]);
      if Collides(player, m) {
        assert Collides(player, Drop(s[0]));
      } else if m.y >= GROUND_PX {
        SweepHitSound(s[2..], player);
        var k :| 0 <= k < |s[2..]| && Collides(player, Drop(s[2..][k]));
        assert s[k + 2] == s[2..][k];
      } else {
        SweepHitSound(s[1..], player);
        var k :| 0 <= k < |s[1..]| && Collides(player, Drop(s[1..][k]));
        assert s[k + 1] == s[1..][k];
      }
    }
  }

  /**
   * A nuke that reaches the ground is removed but still checked against the
   * character; when it misses, the nuke after it is skipped for this frame:
   * left in place and not checked, whatever its position.
   */
  lemma LandingNuke(s: seq<Pos>, player: Pos)
    requires s != [] && Drop(s[0]).y >= GROUND_PX
    ensures Collides(player, Drop(s[0])) ==> Sweep(s, player) == Pass(s[1..], true)
    ensures !Collides(player, Drop(s[0])) && |s| > 1 ==>
              Sweep(s, player).nukes[0] == s[1] &&
              Sweep(s, player).hit == Sweep(s[2..], player).hit
  {
  }

  /**
   * A concrete frame: the first nuke lands away from the character and is
   * removed, and the second, high in the sky, is neither moved nor checked.
   */
  lemma FollowerSkipped()
    ensures Loop([Pos(100, 295), Pos(300, 100)], 0, Pos(600, 300)) == Pass([Pos(300, 100)], false)
  {
    assert RemoveFirst([Pos(100, 300), Pos(300, 100)], Pos(100, 300)) == [Pos(300, 100)];
  }

  /** Spawning a wave keeps the nukes a valid sky. */
  lemma WaveKeepsSky(score: int, nukes: seq<Pos>, x1: int, x2: int)
    requires Sky(nukes) && WaveDraws(x1, x2)
    ensures Sky(Wave(score, nukes, x1, x2))
  {
    var r := Wave(score, nukes, x1, x2);
    if r != nukes {
      assert r == [Pos(x1, 0), Pos(x2, 0)];
      assert forall n :: n in r ==> n == Pos(x1, 0) || n == Pos(x2, 0);
    }
  }

  /** The pass keeps the nukes a valid sky. */
  lemma SweepKeepsSky(s: seq<Pos>, player: Pos)
    requires Sky(s)
    ensures Sky(Sweep(s, player).nukes)
  {
    SweepShrinks(s, player);
    SweepEntries(s, player);
    SweepKeepsDistinct(s, player);
  }
}

/**
 * The bees: their three roles, the random numbers one bee draws per tick, the
 * pure parts of a bee's step (an onlooker's jitter, a scout's clamped random
 * walk, the choice of a recruit) and the initial swarm.
 */
module Bees {
  import opened World

  datatype Role = Scout | Onlooker | Forager

  /** A bee; `target` is the index of a food source in the world's table. */
  datatype Bee = Bee(id: nat, pos: Point, role: Role, target: Option<nat>, returnToHive: bool)

  const NumBees: nat := 50

  /** `numBees * 0.2` bees start as scouts. */
  const NumScouts: nat := 10

  /** The random numbers one bee may use during a tick: two for a scout's
      walk, two for an onlooker's jitter and one for choosing a recruit, all
      values of `Math.random()`. `toward` is where one step toward the hive or
      toward a target source lands; that step's geometry is not modelled. */
  datatype Draw = Draw(exploreX: real, exploreY: real, jitterX: real, jitterY: real, pick: real, toward: Point)

  predicate DrawOk(d: Draw) {
    Unit(d.exploreX) && Unit(d.exploreY) && Unit(d.jitterX) && Unit(d.jitterY) && Unit(d.pick)
  }

  /** An onlooker without a target: the only kind of bee a waggle dance may
      recruit (the filter `b.type === 'onlooker' && !b.targetSource`). */
  predicate IsIdle(b: Bee) {
    b.role == Onlooker && b.target.None?
  }

  /** A bee's references into a table of `n` sources are in range, and a
      bee flying home is a scout carrying the source it found. */
  predicate WellTargeted(b: Bee, n: nat) {
    (b.target.Some? ==> b.target.value < n) && (b.returnToHive ==> b.role == Scout && b.target.Some?)
  }

  function InitialBee(i: nat): Bee {
    Bee(i, Hive, if (i as real) < (NumBees as real) * 0.2 then Scout else Onlooker, None, false)
  }

  /** The initial swarm: fifty bees at the hive, none flying home and none
      with a target; exactly the first ten are scouts, the rest onlookers. */
  function InitialBees(): (r: seq<Bee>)
    ensures |r| == NumBees
    ensures forall i :: 0 <= i < |r| ==>
      r[i].id == i && r[i].pos == Hive && r[i].target.None? && !r[i].returnToHive
    ensures forall i :: 0 <= i < |r| ==>
      (r[i].role == Scout <==> i < NumScouts) && (r[i].role == Onlooker <==> NumScouts <= i)
  {
    seq(NumBees, i requires 0 <= i < NumBees => InitialBee(i))
  }

  /** `updateOnlookerBee`: an onlooker stays in the hive, placed at a random
      offset of at most 10 on each axis; nothing else about it changes. */
  function OnlookerStep(b: Bee, d: Draw): (r: Bee)
    requires DrawOk(d)
    ensures r.id == b.id && r.role == b.role && r.target == b.target && r.returnToHive == b.returnToHive
    ensures -10.0 <= r.pos.x - Hive.x < 10.0 && -10.0 <= r.pos.y - Hive.y < 10.0
    ensures InCanvas(r.pos)
  {
    b.(pos := Point(Hive.x + (d.jitterX - 0.5) * 20.0, Hive.y + (d.jitterY - 0.5) * 20.0))
  }

  /** An exploring scout's random step, clamped to the canvas: the result is
      on the canvas and, from a point on the canvas, at most 5 away on each
      axis. */
  function ExplorePosition(p: Point, d: Draw): (r: Point)
    requires DrawOk(d)
    ensures InCanvas(r)
    ensures InCanvas(p) ==> Abs(r.x - p.x) <= 5.0 && Abs(r.y - p.y) <= 5.0
  {
    Point(Clamp(p.x + (d.exploreX - 0.5) * 10.0, CanvasWidth),
          Clamp(p.y + (d.exploreY - 0.5) * 10.0, CanvasHeight))
  }

  /** `Math.floor(Math.random() * n)`: a valid index into a list of `n`. */
  function PickIndex(u: real, n: nat): (r: nat)
    requires Unit(u) && n > 0
    ensures r < n
  {
    var nr := n as real;
    assert 0.0 <= u * nr < nr by {
      assert u * nr <= 1.0 * nr;
      assert u * nr != nr;
    }
    (u * nr).Floor
  }

  /** `bees.filter(b => b.type === 'onlooker' && !b.targetSource)`, as the
      indices of those bees: exactly the idle ones, in increasing order. */
  function IdleOnlookers(s: seq<Bee>): (r: seq<nat>)
    ensures forall j: int :: j in r <==> 0 <= j < |s| && IsIdle(s[j])
    ensures forall a, b :: 0 <= a < b < |r| ==> r[a] < r[b]
  {
    if s == [] then []
    else
      var last := |s| - 1;
      var front := IdleOnlookers(s[..last]);
      assert forall a :: 0 <= a < |front| ==> front[a] in front && front[a] < last;
      front + (if IsIdle(s[last]) then [last] else [])
  }

  /** The onlooker a waggle dance recruits: `onlookers[Math.floor(u *
      onlookers.length)]` of the idle onlookers. There is a recruit exactly
      when some onlooker is idle, and it is one of them. */
  function Recruit(s: seq<Bee>, u: real): (r: Option<nat>)
    requires Unit(u)
    ensures r.Some? ==> r.value < |s| && IsIdle(s[r.value])
    ensures r.None? <==> forall j :: 0 <= j < |s| ==> !IsIdle(s[j])
  {
    var idle := IdleOnlookers(s);
    if idle == [] then None
    else
      var j := idle[PickIndex(u, |idle|)];
      assert j in idle;
      Some(j)
  }
}

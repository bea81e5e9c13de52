/**
 * The world the colony forages in: an 800 x 600 canvas, a hive fixed at its
 * centre and a table of food sources. A source carries an integer amount of
 * nectar and a `discovered` flag; the only two mutations the simulation makes
 * to it are discovery (the flag goes from false to true) and depletion (one
 * unit of nectar taken, floored at zero).
 */
module World {

  datatype Option<T> = None | Some(value: T)

  /** A position on the canvas. */
  datatype Point = Point(x: real, y: real)

  /** A food source; `id` is its index in the world's table. */
  datatype FoodSource = FoodSource(id: nat, pos: Point, nectar: int, discovered: bool)

  const CanvasWidth: real := 800.0
  const CanvasHeight: real := 600.0
  const NumFoodSources: nat := 10

  /** The hive sits at the centre of the canvas and never moves. */
  const Hive: Point := Point(CanvasWidth / 2.0, CanvasHeight / 2.0)

  /** Half-width of the square a scout searches around itself. */
  const DiscoveryRange: real := 20.0

  /** A bee has arrived when it is closer than 5; compared squared. */
  const ArrivalSq: real := 25.0

  function Min(a: real, b: real): real { if a <= b then a else b }

  function Max(a: real, b: real): real { if a >= b then a else b }

  function Abs(a: real): real { if a < 0.0 then -a else a }

  /** `Math.max(0, Math.min(v, hi))`: a coordinate confined to [0, hi]. */
  function Clamp(v: real, hi: real): (r: real)
    requires 0.0 <= hi
    ensures 0.0 <= r <= hi
    ensures 0.0 <= v <= hi ==> r == v
    ensures v < 0.0 ==> r == 0.0
    ensures hi < v ==> r == hi
  {
    Max(0.0, Min(v, hi))
  }

  predicate InCanvas(p: Point) {
    0.0 <= p.x <= CanvasWidth && 0.0 <= p.y <= CanvasHeight
  }

  function SqDist(a: Point, b: Point): real {
    (a.x - b.x) * (a.x - b.x) + (a.y - b.y) * (a.y - b.y)
  }

  /** Euclidean distance below 5, without the square root. */
  predicate Arrived(a: Point, b: Point) {
    SqDist(a, b) < ArrivalSq
  }

  /** A scout at `p` discovers `s` when `s` is still undiscovered and lies
      inside the axis-aligned box of half-width 20 around `p`. */
  predicate Discoverable(s: FoodSource, p: Point) {
    !s.discovered && Abs(s.pos.x - p.x) < DiscoveryRange && Abs(s.pos.y - p.y) < DiscoveryRange
  }

  /** The first source at index `from` or later that a scout at `p`
      discovers, in table order; None when there is none. */
  function Discover(s: seq<FoodSource>, p: Point, from: nat): (r: Option<nat>)
    ensures r.Some? ==> from <= r.value < |s| && Discoverable(s[r.value], p)
    ensures r.Some? ==> forall j :: from <= j < r.value ==> !Discoverable(s[j], p)
    ensures r.None? <==> forall j :: from <= j < |s| ==> !Discoverable(s[j], p)
    decreases |s| - from
  {
    if from >= |s| then None
    else if Discoverable(s[from], p) then Some(from)
    else Discover(s, p, from + 1)
  }

  /** `Math.max(0, nectar - 1)`: the nectar left after a forager takes one unit. */
  function Deplete(n: int): (r: int)
    ensures r >= 0
    ensures n > 0 ==> r == n - 1
    ensures n <= 0 ==> r == 0
  {
    MaxInt(0, n - 1)
  }

  function MaxInt(a: int, b: int): int { if a >= b then a else b }

  /** How a source table may change during a tick: the same sources at the
      same places, nectar never grows and `discovered` never reverts. */
  predicate SourcesEvolve(before: seq<FoodSource>, after: seq<FoodSource>) {
    |before| == |after| &&
    forall k :: 0 <= k < |before| ==>
      after[k].id == before[k].id && after[k].pos == before[k].pos &&
      after[k].nectar <= before[k].nectar &&
      (before[k].discovered ==> after[k].discovered)
  }

  /** A value of `Math.random()`. */
  predicate Unit(u: real) { 0.0 <= u < 1.0 }

  /** The three random numbers drawn for one source at initialisation. */
  datatype SourceDraw = SourceDraw(ux: real, uy: real, un: real)

  predicate SourceDrawOk(d: SourceDraw) { Unit(d.ux) && Unit(d.uy) && Unit(d.un) }

  /** Source `k`: at `Math.random() * 800, Math.random() * 600`, with
      `Math.floor(Math.random() * 100) + 50` units of nectar. */
  function InitialSource(k: nat, d: SourceDraw): (r: FoodSource)
    requires SourceDrawOk(d)
    ensures r.id == k && !r.discovered && 50 <= r.nectar <= 149
    ensures 0.0 <= r.pos.x < CanvasWidth && 0.0 <= r.pos.y < CanvasHeight
  {
    var n := (d.un * 100.0).Floor;
    assert n as real <= d.un * 100.0 < n as real + 1.0;
    FoodSource(k, Point(d.ux * CanvasWidth, d.uy * CanvasHeight), n + 50, false)
  }

  /** The initial source table: ten undiscovered sources, numbered in order,
      anywhere on the canvas, each holding between 50 and 149 units. */
  function InitialSources(draws: seq<SourceDraw>): (r: seq<FoodSource>)
    requires |draws| == NumFoodSources
    requires forall k :: 0 <= k < |draws| ==> SourceDrawOk(draws[k])
    ensures |r| == NumFoodSources
    ensures forall k :: 0 <= k < |r| ==>
      r[k].id == k && !r[k].discovered && 50 <= r[k].nectar <= 149 &&
      0.0 <= r[k].pos.x < CanvasWidth && 0.0 <= r[k].pos.y < CanvasHeight
  {
    seq(|draws|, k requires 0 <= k < |draws| => InitialSource(k, draws[k]))
  }
}

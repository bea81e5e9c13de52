# Bee colony simulation: a Dafny model

This project models the simulation core of the bee-colony page
`components/BeeColony.tsx`. The page animates the Artificial Bee Colony
heuristic on an 800 x 600 canvas. It has a hive at the centre, ten food
sources and fifty bees. Each bee is a scout, an onlooker or a forager.

- **World** (`world.dfy`). A food source has an id, a position, an integer
  amount of nectar and a `discovered` flag. The module holds the canvas
  constants and the clamp and arrival tests. It also defines discovery (the
  first undiscovered source in table order inside the 20-unit box around a
  scout), depletion (`max(0, nectar - 1)`) and the initial table of sources.
- **Statistics** (`statistics.dfy`). The two chart figures: the number of
  discovered sources (a filter and its length) and the total nectar (a
  left-to-right sum).
- **Bees** (`bees.dfy`). The three roles. The pure parts of a bee's step:
  - an onlooker's jitter around the hive;
  - a scout's clamped random walk;
  - the list of idle onlookers, and the choice of the recruit.

  It also builds the initial swarm: fifty bees at the hive, the first ten
  scouts.
- **Simulation** (`simulation.dfy`). Class `Colony` holds the source table
  and the swarm as arrays that a tick updates in place.
  - `UpdateScout` and `UpdateForager` edit a copy of the bee field by field
    and write it back. Discovery writes into the source table. Harvesting
    takes nectar out of it. The waggle dance turns another bee of the swarm
    into a forager.
  - `Tick` runs every bee once, in array order, dispatched on its role
    (`RunTurns`, one `Turn` per bee). Then it recomputes the statistics.
  - The same steps are also written as pure functions on a `Snapshot` of
    the two arrays: `ScoutStep`, `ForagerStep`, `BeeStep` and `Steps`. The
    methods are proved to leave the arrays exactly as these functions say,
    and the functions carry the properties of a step and of a whole tick.

Randomness is an input. Every `Math.random()` value becomes a caller-supplied
real in [0, 1). There is one `Draw` per bee per tick, and one `SourceDraw`
per source at initialisation. The model applies the source's own arithmetic
to these values: `(u - 0.5) * 10`, `(u - 0.5) * 20`,
`Math.floor(u * n)` and `Math.floor(u * 100) + 50`. Each arrival test
`distance < 5` becomes `dx*dx + dy*dy < 25`.

A bee's target is the index of a source in the table. The page keeps an
object reference there instead. Source ids equal their indices from
initialisation on, and the table never changes size, so the index always
names the same object.

The page's per-bee functions work on copies inside `prevBees.map(...)`. The
waggle dance, however, mutates a bee of the old array. A recruit at a LOWER
index than the dancing scout would therefore be lost in the page, while the
in-place model keeps it. The two never differ on a colony built by
initialisation, for three reasons:

- the scouts are exactly the first ten bees (`InitialBees`);
- no step makes or unmakes a scout (`SameScouts`, preserved by `Tick`);
- a recruit is always an onlooker.

So every recruit has a higher index than its scout (the `i < recruit.value`
ensures of `UpdateScout`). Every bee below the scout is itself a scout, so the page's
old-array list of idle onlookers is also the same.

In three places the page behaves differently from what an Artificial Bee
Colony simulation might be expected to do; the model follows the page:

- **Targets with no nectar.** A scout keeps its target after dancing,
  while the forager it recruited drains that source. So a scout may go on
  holding a source with no nectar left, until its next discovery replaces
  it.
- **No configuration checks.** Initialisation does not validate its
  configuration.
- **No re-targeting.** A forager never picks a new target by itself.

## Model

| member | source | states |
|---|---|---|
| `World.Clamp` | components/BeeColony.tsx:136-137 | the clamped coordinate lies in [0, hi]; it equals the input when the input already lies there, and is 0 or hi when the input is below or above |
| `World.Discover` | components/BeeColony.tsx:139-143 | the result is the first index, in table order, whose source is undiscovered and within 20 of the scout on both axes; None exactly when no source qualifies |
| `World.Deplete` | components/BeeColony.tsx:170 | nectar after a harvest is never negative, is exactly one less when it was positive, and is 0 otherwise |
| `World.InitialSource` | components/BeeColony.tsx:84-90 | source k has id k, is undiscovered, lies in [0,800) x [0,600) and holds between 50 and 149 units |
| `World.InitialSources` | components/BeeColony.tsx:84-90 | the initial table holds ten undiscovered sources numbered 0..9, on the canvas, each with nectar in [50, 149] |
| `Statistics.DiscoveredCount` | components/BeeColony.tsx:187 | the discovered count never exceeds the number of sources |
| `Statistics.DiscoveredCountIsSize` | components/BeeColony.tsx:187 | the filtered count equals the number of indices whose source is discovered |
| `Statistics.TotalNectar` | components/BeeColony.tsx:188 | the left-to-right sum of the nectar of every source; it is not negative when no source holds negative nectar |
| `Statistics.TotalNectarUpdate` | components/BeeColony.tsx:170 | changing one source's nectar changes the total by exactly the difference |
| `Statistics.TotalNectarSameNectar` | components/BeeColony.tsx:146 | the total depends only on each source's nectar: marking a source discovered leaves it unchanged |
| `Statistics.DiscoveredCountMark` | components/BeeColony.tsx:146 | marking an undiscovered source raises the discovered count by exactly one |
| `Statistics.EvolveStats` | components/BeeColony.tsx:185-190 | under any change that keeps sources in place, never adds nectar and never clears `discovered`, the total does not grow and the discovered count does not shrink |
| `Statistics.ComputeStats` | components/BeeColony.tsx:185-190 | the discovered figure is the number of discovered sources, at most the table size; the nectar figure is not negative when no source is |
| `Bees.InitialBees` | components/BeeColony.tsx:74-80 | fifty bees with ids 0..49, all at the hive, with no target and not flying home; a bee is a scout exactly when its index is below 10 (`i < 50 * 0.2`), an onlooker otherwise |
| `Bees.OnlookerStep` | components/BeeColony.tsx:154-160 | an onlooker keeps its id, role, target and flag; its new position is within [-10, 10) of the hive on each axis, hence on the canvas |
| `Bees.ExplorePosition` | components/BeeColony.tsx:134-137 | after an exploring step the scout is on the canvas, and from a point on the canvas it has moved at most 5 on each axis |
| `Bees.PickIndex` | components/BeeColony.tsx:124 | `Math.floor(u * n)` for u in [0, 1) is a valid index into a list of n |
| `Bees.IdleOnlookers` | components/BeeColony.tsx:122 | the list holds exactly the indices of onlookers without a target, in increasing order |
| `Bees.Recruit` | components/BeeColony.tsx:122-124 | there is a recruit exactly when some onlooker is idle, and the recruit is an idle onlooker |
| `Simulation.ScoutStep` | components/BeeColony.tsx:112-152 | a scout's step, as a function of the whole state, keeps it consistent: every target names a source, a bee flying home is a scout with a target, and no nectar is negative; the swarm and the table keep their sizes |
| `Simulation.ScoutStepEffect` | components/BeeColony.tsx:112-152 | a scout's step leaves every source in place, keeps the total nectar exactly, discovers at most one source (the discovered count rises by 0 or 1), keeps the bees' ids and the scouts, and changes no bee but the scout and at most one idle onlooker, which becomes a forager with the scout's target |
| `Simulation.ForagerStep` | components/BeeColony.tsx:162-183 | a forager's step, as a function of the whole state, keeps it consistent, with the swarm and the table keeping their sizes |
| `Simulation.ForagerStepEffect` | components/BeeColony.tsx:162-183 | a forager's step leaves every source in place, takes at most one unit of nectar in total, changes no `discovered` flag, keeps the bees' ids and the scouts, and changes no other bee |
| `Simulation.BeeStep` | components/BeeColony.tsx:96-107 | any bee's turn keeps the state consistent, never adds nectar or clears `discovered`, and keeps the bees' ids and the scouts |
| `Simulation.Steps` | components/BeeColony.tsx:95-108 | the turns of the first n bees in array order, each seeing the earlier ones' changes, keep the state consistent, never add nectar or clear `discovered`, and keep the scouts |
| `Simulation.TickMonotone` | components/BeeColony.tsx:185-190 | over a whole tick the total nectar does not grow and the discovered count does not shrink |
| `Simulation.Colony.constructor` | components/BeeColony.tsx:37-92 | the colony starts with the initial swarm and the initial source table of `initializeSimulation` (lines 65-92), and with the figures at zero, the initial value of their `useState` (line 40), and satisfies the invariant with the scouts first |
| `Simulation.Colony.FindSource` | components/BeeColony.tsx:139-143 | the scan of the live table returns the first discoverable source, as `Discover` defines it |
| `Simulation.Colony.CollectIdle` | components/BeeColony.tsx:122 | the scan of the live swarm returns `IdleOnlookers` of it |
| `Simulation.Colony.WaggleDance` | components/BeeColony.tsx:120-127 | the recruit is `Recruit` of the swarm before the dance; that bee alone changes, becoming a forager bound for the dancer's target, and with no idle onlooker the swarm is left as it was |
| `Simulation.Colony.UpdateScout` | components/BeeColony.tsx:112-152 | the arrays end up exactly as `ScoutStep` of the old state says; the recruit returned is the `Recruit` of the old swarm when a homebound scout reaches the hive, and none otherwise; the recruit is an idle onlooker other than the scout that becomes a forager with the scout's target; no other bee changes; the recruit has a higher index than the scout when scouts come first; a discovery raises the discovered count by exactly one |
| `Simulation.Colony.UpdateForager` | components/BeeColony.tsx:162-183 | the arrays end up exactly as `ForagerStep` of the old state says; on arrival the source's nectar becomes `max(0, nectar - 1)` and the total drops by exactly one when it was positive |
| `Simulation.Colony.Turn` | components/BeeColony.tsx:96-107 | one bee's turn leaves the arrays exactly as `BeeStep` of the old state says |
| `Simulation.Colony.RunTurns` | components/BeeColony.tsx:95-108 | every bee takes its turn once, in array order, with its own draws; the arrays end up exactly as `Steps` of the old state over all the bees says |
| `Simulation.Colony.Tick` | components/BeeColony.tsx:94-110 | after the tick the arrays hold exactly `Steps` of the old state over every bee in array order, each with its own draws. Targets stay valid and nectar non-negative; every source keeps its place; nectar never rises and `discovered` never reverts; bees keep their ids and the scouts stay the scouts. The figures are recomputed from the table; the total nectar is not above the previous total and the discovered count is not below the previous count. Scouts-first is preserved |

## Left out

- Canvas drawing, image loading, the speed slider, the bar chart and the
  JSX (components/BeeColony.tsx:49-63, 192-290): presentation and browser
  APIs.
- The React effects and the `setInterval` timer that drive the page: the
  model exposes `Tick`, to be called by whoever owns the clock.
- React state plumbing. `updateSimulation` is memoised with no
  dependencies, so the page as written runs the first render's closures.
  Those see an empty swarm, an empty source table and a hive at (0, 0).
  The model holds the swarm and the table explicitly and follows the
  intended logic instead.
- `Math.random`: replaced by the caller-supplied values of `Draw` and
  `SourceDraw`, constrained to [0, 1).
- Simulation.Colony.UpdateScout: the step toward the hive (normalised with
  `Math.sqrt` and a division, length 5) is not modelled, here or in
  `ScoutStep`. The scout's new position is the caller-supplied `Draw.toward`, so nothing is proved about
  where a homebound scout lands.
- Simulation.Colony.UpdateForager: the step of length 3 toward the target
  is not modelled either, here or in `ForagerStep`. The new position is the
  caller-supplied `toward`, so nothing is proved about a forager's position.
- Floating point: positions are exact reals. Rounding and NaN are not
  modelled.
- The `default` branch of the role dispatch (components/BeeColony.tsx:104-105):
  roles are a closed datatype, so it cannot be reached.

/**
 * One colony: the table of food sources and the swarm, both held in arrays
 * that a tick updates in place, and the chart's figures. A tick runs every
 * bee once, in array order, dispatched on its role; a scout's discovery
 * writes into the source table, a forager's harvest takes nectar out of it,
 * and a scout's waggle dance turns another bee of the swarm into a forager.
 */
module Simulation {
  import opened World
  import opened Bees
  import opened Statistics

  /** Bees keep their identity, and the scouts stay exactly the scouts:
      no role change makes or unmakes a scout. */
  predicate SameScouts(before: seq<Bee>, after: seq<Bee>) {
    |before| == |after| &&
    forall j :: 0 <= j < |before| ==>
      after[j].id == before[j].id && (after[j].role == Scout <==> before[j].role == Scout)
  }

  /** The scouts are exactly the first `NumScouts` bees. */
  predicate ScoutsFirst(s: seq<Bee>) {
    forall j :: 0 <= j < |s| ==> (s[j].role == Scout <==> j < NumScouts)
  }

  /** The colony's state as values: the swarm and the source table. */
  datatype Snapshot = Snapshot(bees: seq<Bee>, sources: seq<FoodSource>)

  /** Every target names a source of the table, a bee flying home is a
      scout with a target, and no source holds negative nectar. */
  predicate Consistent(s: Snapshot) {
    (forall j :: 0 <= j < |s.bees| ==> WellTargeted(s.bees[j], |s.sources|)) &&
    (forall k :: 0 <= k < |s.sources| ==> s.sources[k].nectar >= 0)
  }

  /** `updateScoutBee` for bee `i`, as a step of the whole state: a scout
      flying home either steps toward the hive or, once there, stops and
      dances, turning the recruit (if any) into a forager bound for its
      source; an exploring scout takes a clamped random step and discovers
      the first qualifying source. The state stays consistent. */
  function ScoutStep(s: Snapshot, i: nat, d: Draw): (r: Snapshot)
    requires Consistent(s) && i < |s.bees| && s.bees[i].role == Scout && DrawOk(d)
    ensures Consistent(r) && |r.bees| == |s.bees| && |r.sources| == |s.sources|
  {
    var b := s.bees[i];
    if b.returnToHive then
      if Arrived(b.pos, Hive) then
        var home := b.(returnToHive := false);
        match Recruit(s.bees, d.pick)
        case None => Snapshot(s.bees[i := home], s.sources)
        case Some(j) =>
          Snapshot(s.bees[j := s.bees[j].(role := Forager, target := home.target)][i := home], s.sources)
      else
        Snapshot(s.bees[i := b.(pos := d.toward)], s.sources)
    else
      var p := ExplorePosition(b.pos, d);
      match Discover(s.sources, p, 0)
      case None => Snapshot(s.bees[i := b.(pos := p)], s.sources)
      case Some(k) =>
        Snapshot(s.bees[i := b.(pos := p, target := Some(k), returnToHive := true)],
                 s.sources[k := s.sources[k].(discovered := true)])
  }

  /** A scout step leaves every source in place, takes no nectar, discovers
      at most one source, keeps the scouts the scouts, and changes no bee
      but the scout and at most one idle onlooker, which becomes a forager
      bound for the scout's source. */
  lemma ScoutStepEffect(s: Snapshot, i: nat, d: Draw)
    requires Consistent(s) && i < |s.bees| && s.bees[i].role == Scout && DrawOk(d)
    ensures SourcesEvolve(s.sources, ScoutStep(s, i, d).sources)
    ensures SameScouts(s.bees, ScoutStep(s, i, d).bees)
    ensures TotalNectar(ScoutStep(s, i, d).sources) == TotalNectar(s.sources)
    ensures DiscoveredCount(s.sources) <= DiscoveredCount(ScoutStep(s, i, d).sources) <= DiscoveredCount(s.sources) + 1
    ensures forall j :: 0 <= j < |s.bees| && j != i && ScoutStep(s, i, d).bees[j] != s.bees[j] ==>
      IsIdle(s.bees[j]) && ScoutStep(s, i, d).bees[j] == s.bees[j].(role := Forager, target := s.bees[i].target)
    ensures forall j1, j2 ::
      0 <= j1 < |s.bees| && 0 <= j2 < |s.bees| && j1 != i && j2 != i &&
      ScoutStep(s, i, d).bees[j1] != s.bees[j1] && ScoutStep(s, i, d).bees[j2] != s.bees[j2]
      ==> j1 == j2
  {
    var b := s.bees[i];
    if !b.returnToHive {
      match Discover(s.sources, ExplorePosition(b.pos, d), 0)
      case None =>
      case Some(k) =>
        DiscoveredCountMark(s.sources, k);
        TotalNectarSameNectar(s.sources, s.sources[k := s.sources[k].(discovered := true)]);
    } else if Arrived(b.pos, Hive) {
      match Recruit(s.bees, d.pick)
      case None =>
      case Some(j) =>
        // the recruit is an onlooker, so it neither was nor becomes a scout
        var after := s.bees[j := s.bees[j].(role := Forager, target := b.target)][i := b.(returnToHive := false)];
        assert ScoutStep(s, i, d).bees == after;
        forall m | 0 <= m < |s.bees|
          ensures after[m].id == s.bees[m].id && (after[m].role == Scout <==> s.bees[m].role == Scout)
          ensures m != i && m != j ==> after[m] == s.bees[m]
        {
        }
    }
  }

  /** `updateForagerBee` for bee `i`, as a step of the whole state: without a
      target the forager becomes an onlooker; away from its target it steps
      toward it; at its target it takes one unit of nectar, floored at zero,
      and becomes a target-less onlooker once the source is empty. The state
      stays consistent. */
  function ForagerStep(s: Snapshot, i: nat, toward: Point): (r: Snapshot)
    requires Consistent(s) && i < |s.bees| && s.bees[i].role == Forager
    ensures Consistent(r) && |r.bees| == |s.bees| && |r.sources| == |s.sources|
  {
    var b := s.bees[i];
    match b.target
    case None => Snapshot(s.bees[i := b.(role := Onlooker)], s.sources)
    case Some(k) =>
      if Arrived(b.pos, s.sources[k].pos) then
        var left := Deplete(s.sources[k].nectar);
        Snapshot(s.bees[i := if left == 0 then b.(role := Onlooker, target := None) else b],
                 s.sources[k := s.sources[k].(nectar := left)])
      else
        Snapshot(s.bees[i := b.(pos := toward)], s.sources)
  }

  /** A forager step leaves every source in place, takes at most one unit of
      nectar in total, changes no `discovered` flag, keeps the scouts the
      scouts and changes no other bee. */
  lemma ForagerStepEffect(s: Snapshot, i: nat, toward: Point)
    requires Consistent(s) && i < |s.bees| && s.bees[i].role == Forager
    ensures SourcesEvolve(s.sources, ForagerStep(s, i, toward).sources)
    ensures SameScouts(s.bees, ForagerStep(s, i, toward).bees)
    ensures TotalNectar(s.sources) - 1 <= TotalNectar(ForagerStep(s, i, toward).sources) <= TotalNectar(s.sources)
    ensures forall k :: 0 <= k < |s.sources| ==>
      ForagerStep(s, i, toward).sources[k].discovered == s.sources[k].discovered
    ensures forall j :: 0 <= j < |s.bees| && j != i ==> ForagerStep(s, i, toward).bees[j] == s.bees[j]
  {
    var b := s.bees[i];
    if b.target.Some? && Arrived(b.pos, s.sources[b.target.value].pos) {
      var k := b.target.value;
      TotalNectarUpdate(s.sources, k, Deplete(s.sources[k].nectar));
    }
  }

  /** One bee's turn in a tick, dispatched on its role as `updateSimulation`
      does. Any turn keeps the state consistent, leaves every source in
      place, never adds nectar or clears `discovered`, and keeps the bees'
      ids and the scouts. */
  function BeeStep(s: Snapshot, i: nat, d: Draw): (r: Snapshot)
    requires Consistent(s) && i < |s.bees| && DrawOk(d)
    ensures Consistent(r) && SourcesEvolve(s.sources, r.sources) && SameScouts(s.bees, r.bees)
  {
    match s.bees[i].role
    case Scout => ScoutStepEffect(s, i, d); ScoutStep(s, i, d)
    case Onlooker => Snapshot(s.bees[i := OnlookerStep(s.bees[i], d)], s.sources)
    case Forager => ForagerStepEffect(s, i, d.toward); ForagerStep(s, i, d.toward)
  }

  /** Two changes that each keep sources in place, never add nectar and
      never clear `discovered` compose into one that does the same. */
  lemma SourcesEvolveTrans(a: seq<FoodSource>, b: seq<FoodSource>, c: seq<FoodSource>)
    requires SourcesEvolve(a, b) && SourcesEvolve(b, c)
    ensures SourcesEvolve(a, c)
  {
  }

  /** Same for keeping the bees' ids and the scouts. */
  lemma SameScoutsTrans(a: seq<Bee>, b: seq<Bee>, c: seq<Bee>)
    requires SameScouts(a, b) && SameScouts(b, c)
    ensures SameScouts(a, c)
  {
  }

  /** The turns of bees `0 .. n-1`, taken in array order, each bee `j` with
      its own draws `draws[j]`; every turn sees what the earlier ones did.
      However many turns are taken, the state stays consistent, every source
      keeps its place, nectar never rises, `discovered` never reverts, and
      the scouts stay the scouts. */
  function Steps(s: Snapshot, draws: seq<Draw>, n: nat): (r: Snapshot)
    requires Consistent(s) && n <= |draws| == |s.bees|
    requires forall j :: 0 <= j < |draws| ==> DrawOk(draws[j])
    ensures Consistent(r) && SourcesEvolve(s.sources, r.sources) && SameScouts(s.bees, r.bees)
  {
    if n == 0 then s
    else
      var prev := Steps(s, draws, n - 1);
      var next := BeeStep(prev, n - 1, draws[n - 1]);
      SourcesEvolveTrans(s.sources, prev.sources, next.sources);
      SameScoutsTrans(s.bees, prev.bees, next.bees);
      next
  }

  /** Over a whole tick the total nectar does not grow and the discovered
      count does not shrink. */
  lemma TickMonotone(s: Snapshot, draws: seq<Draw>)
    requires Consistent(s) && |draws| == |s.bees|
    requires forall j :: 0 <= j < |draws| ==> DrawOk(draws[j])
    ensures TotalNectar(Steps(s, draws, |draws|).sources) <= TotalNectar(s.sources)
    ensures DiscoveredCount(s.sources) <= DiscoveredCount(Steps(s, draws, |draws|).sources)
  {
    EvolveStats(s.sources, Steps(s, draws, |draws|).sources);
  }

  /** `t` lists the states a tick passes through: `t[k]` is the state after
      the turns of the first `k` bees. */
  ghost predicate IsTrace(t: seq<Snapshot>, s: Snapshot, draws: seq<Draw>)
    requires Consistent(s) && |draws| == |s.bees|
    requires forall j :: 0 <= j < |draws| ==> DrawOk(draws[j])
  {
    |t| == |draws| + 1 &&
    forall k {:trigger Steps(s, draws, k)} :: 0 <= k <= |draws| ==> t[k] == Steps(s, draws, k)
  }

  /** Every tick has its list of intermediate states. */
  lemma TraceOf(s: Snapshot, draws: seq<Draw>) returns (t: seq<Snapshot>)
    requires Consistent(s) && |draws| == |s.bees|
    requires forall j :: 0 <= j < |draws| ==> DrawOk(draws[j])
    ensures IsTrace(t, s, draws)
  {
    t := seq(|draws| + 1, k requires 0 <= k <= |draws| => Steps(s, draws, k));
  }

  class Colony {
    const sources: array<FoodSource>
    const bees: array<Bee>
    var stats: Stats

    /** The arrays hold a consistent state. */
    ghost predicate Valid()
      reads bees, sources
    {
      Consistent(State())
    }

    /** The arrays' current contents as a value. */
    ghost function State(): Snapshot
      reads bees, sources
    {
      Snapshot(bees[..], sources[..])
    }

    /** The scouts are exactly the first `NumScouts` bees. */
    ghost predicate ScoutsLead()
      reads bees
    {
      ScoutsFirst(bees[..])
    }

    /** `initializeSimulation`: the initial swarm at the hive and ten fresh
        sources drawn from `draws`. The chart's figures start at zero, the
        initial value of their `useState` (components/BeeColony.tsx:40);
        `initializeSimulation` itself does not touch them. */
    constructor (draws: seq<SourceDraw>)
      requires |draws| == NumFoodSources
      requires forall k :: 0 <= k < |draws| ==> SourceDrawOk(draws[k])
      ensures fresh(sources) && fresh(bees)
      ensures sources[..] == InitialSources(draws)
      ensures bees[..] == InitialBees()
      ensures stats == Stats(0, 0)
      ensures Valid() && ScoutsLead()
    {
      var init := InitialSources(draws);
      var swarm := InitialBees();
      sources := new FoodSource[|init|](k requires 0 <= k < |init| => init[k]);
      bees := new Bee[|swarm|](i requires 0 <= i < |swarm| => swarm[i]);
      stats := Stats(0, 0);
      new;
      assert sources[..] == init;
      assert bees[..] == swarm;
    }

    /** `foodSources.find(...)`: the first source, in table order, that a
        scout at `p` discovers. */
    method FindSource(p: Point) returns (found: Option<nat>)
      ensures found == Discover(sources[..], p, 0)
    {
      var k := 0;
      while k < sources.Length
        invariant 0 <= k <= sources.Length
        invariant forall j :: 0 <= j < k ==> !Discoverable(sources[j], p)
      {
        if Discoverable(sources[k], p) {
          return Some(k);
        }
        k := k + 1;
      }
      return None;
    }

    /** The idle onlookers of the swarm, in array order. */
    method CollectIdle() returns (idle: seq<nat>)
      ensures idle == IdleOnlookers(bees[..])
    {
      idle := [];
      var j := 0;
      while j < bees.Length
        invariant 0 <= j <= bees.Length
        invariant idle == IdleOnlookers(bees[..j])
      {
        assert bees[..j + 1][..j] == bees[..j];
        if IsIdle(bees[j]) {
          idle := idle + [j];
        }
        j := j + 1;
      }
      assert bees[..j] == bees[..];
    }

    /** The waggle dance of a scout back at the hive with `target`: when
        some onlooker is idle, the one picked with `u` among the idle ones,
        in array order, becomes a forager bound for `target`; no other bee
        changes. */
    method WaggleDance(target: Option<nat>, u: real) returns (recruit: Option<nat>)
      requires Unit(u)
      modifies bees
      ensures recruit == Recruit(old(bees[..]), u)
      ensures recruit.None? ==> bees[..] == old(bees[..])
      ensures recruit.Some? ==>
        bees[..] == old(bees[..])[recruit.value := old(bees[recruit.value]).(role := Forager, target := target)]
    {
      recruit := None;
      var idle := CollectIdle();
      if |idle| > 0 {
        var j := idle[PickIndex(u, |idle|)];
        assert j in idle;
        bees[j] := bees[j].(role := Forager, target := target);
        recruit := Some(j);
      }
    }

    /** `updateScoutBee` for bee `i`. A scout flying home steps toward the
        hive; once it is there it stops flying home and, if some onlooker is
        idle, turns exactly one of them into a forager bound for the scout's
        source. An exploring scout takes a clamped random step and discovers
        the first qualifying source, marking it and flying home with it. */
    method UpdateScout(i: nat, d: Draw) returns (recruit: Option<nat>)
      requires Valid() && i < bees.Length && bees[i].role == Scout && DrawOk(d)
      modifies bees, sources
      ensures State() == ScoutStep(old(State()), i, d)
      ensures Valid()
      ensures recruit == if old(bees[i].returnToHive) && Arrived(old(bees[i].pos), Hive)
                         then Recruit(old(bees[..]), d.pick) else None
      ensures recruit.Some? ==>
        var j := recruit.value;
        j < bees.Length && j != i && IsIdle(old(bees[j])) &&
        bees[j].role == Forager && bees[j].target == old(bees[i].target) && bees[j].target.Some?
      ensures forall j :: 0 <= j < bees.Length && j != i && recruit != Some(j) ==> bees[j] == old(bees[j])
      ensures old(ScoutsLead()) && recruit.Some? ==> i < recruit.value
      ensures !old(bees[i].returnToHive) && Discover(old(sources[..]), ExplorePosition(old(bees[i].pos), d), 0).Some? ==>
        DiscoveredCount(sources[..]) == old(DiscoveredCount(sources[..])) + 1
    {
      var b := bees[i];
      recruit := None;
      if b.returnToHive {
        if Arrived(b.pos, Hive) {
          b := b.(returnToHive := false);
          recruit := WaggleDance(b.target, d.pick);
        } else {
          b := b.(pos := d.toward);
        }
      } else {
        b := b.(pos := ExplorePosition(b.pos, d));
        var found := FindSource(b.pos);
        if found.Some? {
          var k := found.value;
          DiscoveredCountMark(sources[..], k);
          sources[k] := sources[k].(discovered := true);
          b := b.(target := Some(k), returnToHive := true);
        }
      }
      bees[i] := b;
    }

    /** `updateForagerBee` for bee `i`. A forager with a target flies toward
        it; once there it takes one unit of nectar, never going below zero,
        and when the source is empty it forgets it and becomes an onlooker.
        A forager without a target becomes an onlooker at once. */
    method UpdateForager(i: nat, toward: Point)
      requires Valid() && i < bees.Length && bees[i].role == Forager
      modifies bees, sources
      ensures State() == ForagerStep(old(State()), i, toward)
      ensures Valid()
      ensures old(bees[i].target).Some? && Arrived(old(bees[i].pos), old(sources[bees[i].target.value]).pos) ==>
        var k := old(bees[i].target).value;
        sources[k].nectar == Deplete(old(sources[k]).nectar) &&
        TotalNectar(sources[..]) == old(TotalNectar(sources[..])) - (if old(sources[k]).nectar > 0 then 1 else 0)
    {
      var b := bees[i];
      if b.target.Some? {
        var k := b.target.value;
        if Arrived(b.pos, sources[k].pos) {
          TotalNectarUpdate(sources[..], k, Deplete(sources[k].nectar));
          sources[k] := sources[k].(nectar := Deplete(sources[k].nectar));
          if sources[k].nectar == 0 {
            b := b.(target := None, role := Onlooker);
          }
        } else {
          b := b.(pos := toward);
        }
      } else {
        b := b.(role := Onlooker);
      }
      bees[i] := b;
    }

    /** One bee's turn in `updateSimulation`, dispatched on its role. */
    method Turn(i: nat, d: Draw)
      requires Valid() && i < bees.Length && DrawOk(d)
      modifies bees, sources
      ensures State() == BeeStep(old(State()), i, d)
    {
      ghost var pre := State();
      match bees[i].role {
        case Scout =>
          var _ := UpdateScout(i, d);
        case Onlooker =>
          bees[i] := OnlookerStep(bees[i], d);
          assert State() == Snapshot(pre.bees[i := OnlookerStep(pre.bees[i], d)], pre.sources);
        case Forager =>
          UpdateForager(i, d.toward);
      }
    }

    /** Turn `i` of a tick, taking the arrays from one entry of the tick's
        trace to the next. */
    method TurnAt(ghost start: Snapshot, draws: seq<Draw>, ghost trace: seq<Snapshot>, i: nat)
      requires Consistent(start) && |draws| == |start.bees|
      requires forall j :: 0 <= j < |draws| ==> DrawOk(draws[j])
      requires IsTrace(trace, start, draws) && i < |draws| && State() == trace[i]
      modifies bees, sources
      ensures State() == trace[i + 1]
    {
      assert trace[i] == Steps(start, draws, i);
      assert trace[i + 1] == Steps(start, draws, i + 1);
      Turn(i, draws[i]);
    }

    /** The `prevBees.map(...)` of `updateSimulation`: every bee takes its
        turn once, in array order, with its own draws, and each turn sees
        what the earlier ones did. */
    method RunTurns(draws: seq<Draw>)
      requires Valid()
      requires |draws| == bees.Length && forall j :: 0 <= j < |draws| ==> DrawOk(draws[j])
      modifies bees, sources
      ensures State() == Steps(old(State()), draws, |draws|)
    {
      ghost var start := State();
      ghost var trace := TraceOf(start, draws);
      assert trace[0] == Steps(start, draws, 0) == start;
      var i := 0;
      while i < bees.Length
        invariant 0 <= i <= bees.Length && State() == trace[i]
      {
        TurnAt(start, draws, trace, i);
        i := i + 1;
      }
    }

    /** `updateSimulation`: every bee steps once, then the chart's figures
        are recomputed. Across the tick no source loses its place, gains
        nectar or becomes undiscovered, so the total nectar does not grow
        and the discovered count does not shrink; the scouts stay the
        scouts. */
    method Tick(draws: seq<Draw>)
      requires Valid()
      requires |draws| == bees.Length && forall j :: 0 <= j < |draws| ==> DrawOk(draws[j])
      modifies this, bees, sources
      ensures State() == Steps(old(State()), draws, |draws|)
      ensures Valid()
      ensures SourcesEvolve(old(sources[..]), sources[..])
      ensures SameScouts(old(bees[..]), bees[..])
      ensures stats == ComputeStats(sources[..])
      ensures stats.totalNectar <= old(TotalNectar(sources[..]))
      ensures old(DiscoveredCount(sources[..])) <= stats.discoveredSources
      ensures old(ScoutsLead()) ==> ScoutsLead()
    {
      ghost var start := State();
      RunTurns(draws);
      TickMonotone(start, draws);
      stats := ComputeStats(sources[..]);
    }
  }
}

/**
 * The two figures shown on the chart, recomputed from the source table after
 * every tick: how many sources have been discovered, and how much nectar is
 * left in all of them together.
 */
module Statistics {
  import opened World

  datatype Stats = Stats(discoveredSources: nat, totalNectar: int)

  /** `sources.filter(s => s.discovered).length` */
  function DiscoveredCount(s: seq<FoodSource>): (r: nat)
    ensures r <= |s|
  {
    if s == [] then 0
    else DiscoveredCount(s[..|s| - 1]) + (if s[|s| - 1].discovered then 1 else 0)
  }

  /** `sources.reduce((sum, s) => sum + s.nectar, 0)`, summed left to right;
      nectar that is never negative adds up to a total that is not either. */
  function TotalNectar(s: seq<FoodSource>): (r: int)
    ensures (forall k :: 0 <= k < |s| ==> s[k].nectar >= 0) ==> r >= 0
  {
    if s == [] then 0 else TotalNectar(s[..|s| - 1]) + s[|s| - 1].nectar
  }

  /** The indices of the discovered sources. */
  ghost function DiscoveredSet(s: seq<FoodSource>): set<int> {
    set k | 0 <= k < |s| && s[k].discovered
  }

  /** The filtered count is the number of discovered sources. */
  lemma {:induction false} DiscoveredCountIsSize(s: seq<FoodSource>)
    ensures DiscoveredCount(s) == |DiscoveredSet(s)|
  {
    if s != [] {
      var n := |s| - 1;
      DiscoveredCountIsSize(s[..n]);
      var before := DiscoveredSet(s[..n]);
      assert n !in before;
      if s[n].discovered {
        assert DiscoveredSet(s) == before + {n};
      } else {
        assert DiscoveredSet(s) == before;
      }
    }
  }

  /** Replacing the nectar of one source changes the total by the difference. */
  lemma {:induction false} TotalNectarUpdate(s: seq<FoodSource>, k: nat, n: int)
    requires k < |s|
    ensures TotalNectar(s[k := s[k].(nectar := n)]) == TotalNectar(s) - s[k].nectar + n
  {
    var t := s[k := s[k].(nectar := n)];
    var last := |s| - 1;
    if k == last {
      assert t[..last] == s[..last];
    } else {
      assert t[..last] == s[..last][k := s[k].(nectar := n)];
      TotalNectarUpdate(s[..last], k, n);
    }
  }

  /** The total depends on nothing but each source's nectar: tables that
      agree on it, whatever their flags, hold the same total. */
  lemma {:induction false} TotalNectarSameNectar(a: seq<FoodSource>, b: seq<FoodSource>)
    requires |a| == |b| && forall k :: 0 <= k < |a| ==> a[k].nectar == b[k].nectar
    ensures TotalNectar(a) == TotalNectar(b)
  {
    if a != [] {
      TotalNectarSameNectar(a[..|a| - 1], b[..|b| - 1]);
    }
  }

  /** Discovering an undiscovered source raises the count by exactly one. */
  lemma {:induction false} DiscoveredCountMark(s: seq<FoodSource>, k: nat)
    requires k < |s| && !s[k].discovered
    ensures DiscoveredCount(s[k := s[k].(discovered := true)]) == DiscoveredCount(s) + 1
  {
    var t := s[k := s[k].(discovered := true)];
    var last := |s| - 1;
    if k == last {
      assert t[..last] == s[..last];
    } else {
      assert t[..last] == s[..last][k := s[k].(discovered := true)];
      DiscoveredCountMark(s[..last], k);
    }
  }

  /** Over any change a tick may make to the table, the total nectar does
      not grow and the number of discovered sources does not shrink. */
  lemma {:induction false} EvolveStats(before: seq<FoodSource>, after: seq<FoodSource>)
    requires SourcesEvolve(before, after)
    ensures TotalNectar(after) <= TotalNectar(before)
    ensures DiscoveredCount(before) <= DiscoveredCount(after)
  {
    if before != [] {
      var last := |before| - 1;
      EvolveStats(before[..last], after[..last]);
    }
  }

  /** `updateStats`: both figures recomputed from the table. */
  function ComputeStats(s: seq<FoodSource>): (r: Stats)
    ensures r.discoveredSources == |DiscoveredSet(s)| <= |s|
    ensures (forall k :: 0 <= k < |s| ==> s[k].nectar >= 0) ==> r.totalNectar >= 0
  {
    DiscoveredCountIsSize(s);
    Stats(DiscoveredCount(s), TotalNectar(s))
  }
}

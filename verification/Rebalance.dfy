/** Which devices a rebalancing batch moves data from, and where to. Usages are exact fractions. */
module Rebalances {
  import opened Words

  ghost predicate IsUsage(usages: seq<real>) {
    forall i :: 0 <= i < |usages| ==> 0.0 <= usages[i] <= 1.0
  }

  ghost predicate IsMax(usages: seq<real>, m: real) {
    m in usages && forall i :: 0 <= i < |usages| ==> usages[i] <= m
  }

  ghost predicate IsMin(usages: seq<real>, m: real) {
    m in usages && forall i :: 0 <= i < |usages| ==> m <= usages[i]
  }

  method Extremes(usages: seq<real>) returns (max: real, min: real)
    requires IsUsage(usages) && usages != []
    ensures IsMax(usages, max) && IsMin(usages, min)
  {
    max, min := 0.0, 1.0;
    for i := 0 to |usages|
      invariant forall k :: 0 <= k < i ==> min <= usages[k] <= max
      invariant i == 0 ==> max == 0.0 && min == 1.0
      invariant i > 0 ==> max in usages[..i] && min in usages[..i]
    {
      if i == 0 {
        max := if usages[0] > max then usages[0] else max;
        min := if usages[0] < min then usages[0] else min;
        assert usages[..1] == [usages[0]];
        assert max == usages[0] && min == usages[0];
      } else {
        assert usages[..i + 1] == usages[..i] + [usages[i]];
        max := if usages[i] > max then usages[i] else max;
        min := if usages[i] < min then usages[i] else min;
      }
    }
    assert usages[..|usages|] == usages;
  }

  /** The first device with the least usage. */
  method LeastUsed(usages: seq<real>) returns (target: nat)
    requires usages != []
    ensures target < |usages| && forall i :: 0 <= i < |usages| ==> usages[target] <= usages[i]
    ensures forall i :: 0 <= i < target ==> usages[i] > usages[target]
  {
    target := 0;
    for i := 1 to |usages|
      invariant target < i && forall k :: 0 <= k < i ==> usages[target] <= usages[k]
      invariant forall k :: 0 <= k < target ==> usages[k] > usages[target]
    {
      if usages[i] < usages[target] {
        target := i;
      }
    }
  }

  method AtLeast(usages: seq<real>, mid: real) returns (sources: seq<nat>)
    ensures forall i: nat :: i in sources <==> i < |usages| && usages[i] >= mid
    ensures forall i, j :: 0 <= i < j < |sources| ==> sources[i] < sources[j]
  {
    sources := [];
    for i := 0 to |usages|
      invariant forall k: nat :: k in sources <==> k < i && usages[k] >= mid
      invariant forall k :: 0 <= k < |sources| ==> sources[k] < i
      invariant forall k, j :: 0 <= k < j < |sources| ==> sources[k] < sources[j]
    {
      if usages[i] >= mid {
        sources := sources + [i];
      }
    }
  }

  /** Nothing is moved once all usages are within ten points of each other. Otherwise data moves from
      the devices of the upper half of the range to the least used device, which is never a source, and
      every source is at least five points above it. */
  method RebalancePlan(usages: seq<real>) returns (plan: Option<(seq<nat>, nat)>)
    requires IsUsage(usages)
    ensures plan.None? <==> |usages| < 2 || forall i, j :: 0 <= i < |usages| && 0 <= j < |usages| ==> usages[i] - usages[j] < 0.10
    ensures plan.Some? ==>
      var (sources, target) := plan.value;
      && target < |usages| && sources != [] && target !in sources
      && (forall i :: 0 <= i < |usages| ==> usages[target] <= usages[i])
      && (forall i :: i in sources ==> i < |usages| && usages[i] >= usages[target] + 0.05)
      && (forall max, min :: IsMax(usages, max) && IsMin(usages, min) ==>
            forall i: nat :: i in sources <==> i < |usages| && 2.0 * usages[i] >= max + min)
      && (forall i, j :: 0 <= i < j < |sources| ==> sources[i] < sources[j])
      && (forall i :: 0 <= i < target ==> usages[i] > usages[target])
      && (forall i, k :: 0 <= i < |usages| && k in sources && k < |usages| && usages[i] >= usages[k] ==> i in sources)
  {
    if |usages| < 2 {
      return None;
    }
    var max, min := Extremes(usages);
    var spread := max - min;
    if spread < 0.10 {
      return None;
    }
    ghost var top, bottom :| 0 <= top < |usages| && usages[top] == max && 0 <= bottom < |usages| && usages[bottom] == min;
    var mid := min + spread / 2.0;
    var sources := AtLeast(usages, mid);
    var target := LeastUsed(usages);
    assert usages[target] == min;
    assert top in sources;
    plan := Some((sources, target));
  }
}

/** Edges as the DNS code sees them, and the routing fields written for each
    (regions.go): location lookup, Smart-Record fields and the record weight. */
module Regions {
  import opened Arith
  import opened Text

  const SMART_NONE := 0
  const SMART_LATENCY := 1
  const SMART_GEOLOCATION := 2

  const MODE_GEOGRAPHIC := "geographic"
  const MODE_LATENCY := "latency"

  datatype RegionLoc = RegionLoc(lat: real, long: real, latencyZone: string)

  datatype Endpoint = Endpoint(
    edgeID: string, region: string, ip: string, status: string, lastSeen: Option<int>,
    weight: int, routingOverride: string, capacityMbps: int, weightByCapacity: bool,
    loadFactor: real, health: string, drained: bool)

  // ---------- location ----------

  /** The position of the last dash of s, |s| when there is none. */
  function LastDash(s: string): (i: nat)
    ensures i <= |s|
    ensures i < |s| ==> s[i] == '-' && '-' !in s[i + 1..]
    ensures i == |s| ==> '-' !in s
  {
    if s == "" then 0
    else if s[|s| - 1] == '-' then |s| - 1
    else
      var i := LastDash(s[..|s| - 1]);
      assert s == s[..|s| - 1] + [s[|s| - 1]];
      if i == |s| - 1 then |s| else i
  }

  /** Tries key, then key cut at its last dash, and so on. */
  function LookupKey(key: string, regions: map<string, RegionLoc>): Option<RegionLoc> {
    if key in regions then Some(regions[key])
    else if LastDash(key) < |key| then LookupKey(key[..LastDash(key)], regions)
    else None
  }

  function LookupRegion(region: string, regions: map<string, RegionLoc>): Option<RegionLoc> {
    var key := Upper(TrimSpace(region));
    if key == "" then None else LookupKey(key, regions)
  }

  /** p is key itself or key cut just before one of its dashes. */
  predicate DashPrefix(p: string, key: string) {
    p == key || (|p| < |key| && p == key[..|p|] && key[|p|] == '-')
  }

  /** The lookup answers with the longest dash prefix that is mapped, and says
      "unmapped" only when no dash prefix is. */
  lemma {:induction false} LookupIsMostSpecific(key: string, regions: map<string, RegionLoc>)
    ensures LookupKey(key, regions).None? <==> forall p :: DashPrefix(p, key) ==> p !in regions
    ensures LookupKey(key, regions).Some? ==>
              exists p :: DashPrefix(p, key) && p in regions && LookupKey(key, regions).value == regions[p]
                          && forall q :: DashPrefix(q, key) && q in regions ==> |q| <= |p|
  {
    assert DashPrefix(key, key);
    if key !in regions {
      var i := LastDash(key);
      if i < |key| {
        var short := key[..i];
        LookupIsMostSpecific(short, regions);
        assert forall j :: i < j < |key| ==> key[i + 1..][j - i - 1] == key[j];
        forall q | DashPrefix(q, key) && q != key ensures DashPrefix(q, short) {
        }
        forall q | DashPrefix(q, short) ensures DashPrefix(q, key) {
          if q == short { assert key[|q|] == '-'; } else { assert short[|q|] == key[|q|]; }
        }
      } else {
        forall q | DashPrefix(q, key) ensures q == key {}
      }
    }
  }

  function NormalizeOverride(s: string): string {
    var m := Lower(TrimSpace(s));
    if m == MODE_LATENCY || m == MODE_GEOGRAPHIC then m else ""
  }

  function ResolveMode(networkMode: string, routingOverride: string): string {
    var o := NormalizeOverride(routingOverride);
    if o != "" then o else if networkMode == "" then MODE_GEOGRAPHIC else networkMode
  }

  datatype SmartFields = SmartFields(smart: int, lat: real, long: real, latencyZone: string)

  function SmartFieldsFor(ep: Endpoint, mode: string, regions: map<string, RegionLoc>): SmartFields {
    match LookupRegion(ep.region, regions)
    case None => SmartFields(SMART_NONE, 0.0, 0.0, "")
    case Some(loc) =>
      if ResolveMode(mode, ep.routingOverride) == MODE_LATENCY
      then SmartFields(SMART_LATENCY, 0.0, 0.0, loc.latencyZone)
      else SmartFields(SMART_GEOLOCATION, loc.lat, loc.long, "")
  }

  // ---------- weight ----------

  function NormWeight(w: int): int {
    if w <= 0 then 100 else if w > 100 then 100 else w
  }

  function MaxCapacity(eps: seq<Endpoint>): nat {
    if eps == [] then 0
    else
      var ep := eps[|eps| - 1];
      var m := MaxCapacity(eps[..|eps| - 1]);
      if ep.weightByCapacity && ep.capacityMbps > m then ep.capacityMbps else m
  }

  /** MaxCapacity is the largest capacity of the edges that opted in, 0 without one. */
  lemma {:induction false} MaxCapacityBounds(eps: seq<Endpoint>)
    ensures forall ep :: ep in eps && ep.weightByCapacity ==> ep.capacityMbps <= MaxCapacity(eps)
    ensures MaxCapacity(eps) == 0 || exists ep :: ep in eps && ep.weightByCapacity && ep.capacityMbps == MaxCapacity(eps)
  {
    if eps == [] {
    } else {
      var front, last := eps[..|eps| - 1], eps[|eps| - 1];
      MaxCapacityBounds(front);
      assert eps == front + [last];
      assert last in eps;
      if MaxCapacity(eps) != 0 && MaxCapacity(eps) == MaxCapacity(front) {
        var ep :| ep in front && ep.weightByCapacity && ep.capacityMbps == MaxCapacity(front);
        assert ep in eps;
      }
    }
  }

  method ComputeMaxCapacity(eps: seq<Endpoint>) returns (m: int)
    ensures m == MaxCapacity(eps)
    ensures forall ep :: ep in eps && ep.weightByCapacity ==> ep.capacityMbps <= m
    ensures m == 0 || exists ep :: ep in eps && ep.weightByCapacity && ep.capacityMbps == m
  {
    m := 0;
    for i := 0 to |eps|
      invariant m == MaxCapacity(eps[..i])
    {
      assert eps[..i + 1][..i] == eps[..i];
      if eps[i].weightByCapacity && eps[i].capacityMbps > m {
        m := eps[i].capacityMbps;
      }
    }
    assert eps[..|eps|] == eps;
    MaxCapacityBounds(eps);
  }

  function BaseWeight(ep: Endpoint, maxCap: int): int {
    if ep.weightByCapacity && ep.capacityMbps > 0 && maxCap > 0 then
      var w := (ep.capacityMbps * 100 + maxCap / 2) / maxCap;
      if w < 1 then 1 else if w > 100 then 100 else w
    else NormWeight(ep.weight)
  }

  function ApplyLoadFactor(base: int, factor: real): int {
    if factor <= 0.0 || factor >= 1.0 then base
    else
      var w := (base as real * factor + 0.5).Floor;
      if w < 1 then 1 else w
  }

  function EffectiveWeight(ep: Endpoint, maxCap: int): int {
    ApplyLoadFactor(BaseWeight(ep, maxCap), ep.loadFactor)
  }

  lemma ScaledBetween(x: real, factor: real)
    requires x >= 0.0 && 0.0 < factor < 1.0
    ensures 0.0 <= x * factor <= x
  {
  }

  /** Every weight written is in Bunny's range, is never 0, and load steering can
      only lower it. */
  lemma WeightInRange(ep: Endpoint, maxCap: int)
    ensures 1 <= EffectiveWeight(ep, maxCap) <= BaseWeight(ep, maxCap) <= 100
  {
    var base := BaseWeight(ep, maxCap);
    if 0.0 < ep.loadFactor < 1.0 {
      ScaledBetween(base as real, ep.loadFactor);
    }
  }

  lemma ScaledOrder(x: real, y: real, factor: real)
    requires x <= y && 0.0 < factor
    ensures x * factor <= y * factor
  {
    assert 0.0 <= (y - x) * factor;
  }

  /** A load factor keeps the order of the weights it scales. */
  lemma LoadKeepsOrder(x: int, y: int, factor: real)
    requires x <= y
    ensures ApplyLoadFactor(x, factor) <= ApplyLoadFactor(y, factor)
  {
    if 0.0 < factor < 1.0 {
      ScaledOrder(x as real, y as real, factor);
    }
  }

  /** Two boxes of a fleet that opted in to capacity weighting and are equally loaded
      get weights in the order of their capacities, and the biggest one that is not
      loaded gets the full weight. */
  lemma CapacityWeightOrder(eps: seq<Endpoint>, a: Endpoint, b: Endpoint)
    requires a in eps && b in eps && a.weightByCapacity && b.weightByCapacity
    requires 0 < a.capacityMbps <= b.capacityMbps && a.loadFactor == b.loadFactor
    ensures EffectiveWeight(a, MaxCapacity(eps)) <= EffectiveWeight(b, MaxCapacity(eps))
    ensures b.capacityMbps == MaxCapacity(eps) && !(0.0 < b.loadFactor < 1.0) ==> EffectiveWeight(b, MaxCapacity(eps)) == 100
  {
    var maxCap := MaxCapacity(eps);
    MaxCapacityBounds(eps);
    hide MaxCapacity;
    DivMonotone(a.capacityMbps * 100 + maxCap / 2, b.capacityMbps * 100 + maxCap / 2, maxCap);
    if b.capacityMbps == maxCap {
      DivExact(100, maxCap / 2, maxCap);
    }
    LoadKeepsOrder(BaseWeight(a, maxCap), BaseWeight(b, maxCap), a.loadFactor);
  }

  // ---------- the weight, to the nearest ----------

  /** Manual weights: 1 to 100 is kept, anything else stands for 100. */
  lemma ManualWeight(ep: Endpoint, maxCap: int)
    requires !ep.weightByCapacity && !(0.0 < ep.loadFactor < 1.0)
    ensures EffectiveWeight(ep, maxCap) == if 1 <= ep.weight <= 100 then ep.weight else 100
  {
  }

  /** A capacity weight before the load factor, which is none here. */
  lemma CapacityShare(ep: Endpoint, most: int)
    requires ep.weightByCapacity && ep.capacityMbps > 0 && most > 0 && !(0.0 < ep.loadFactor < 1.0)
    ensures var w := (ep.capacityMbps * 100 + most / 2) / most;
            EffectiveWeight(ep, most) == if w < 1 then 1 else if w > 100 then 100 else w
  {
  }

  lemma UnmeasuredWeight(ep: Endpoint, maxCap: int)
    requires ep.capacityMbps <= 0 && !(0.0 < ep.loadFactor < 1.0)
    ensures EffectiveWeight(ep, maxCap) == if 1 <= ep.weight <= 100 then ep.weight else 100
  {
  }

  lemma RoundedDivision(a: int, c: int)
    requires c > 0
    ensures -c <= 2 * (((a + c / 2) / c) * c - a) <= c
  {
    var q := (a + c / 2) / c;
    assert a + c / 2 == q * c + (a + c / 2) % c;
  }

  /** Capacity weights: the whole percentage of the fleet's maximum that is nearest,
      1 at least. Without a capacity of its own an edge keeps its manual weight. */
  lemma CapacityWeight(eps: seq<Endpoint>, ep: Endpoint)
    requires ep in eps && ep.weightByCapacity && !(0.0 < ep.loadFactor < 1.0)
    ensures var w: int, most: int := EffectiveWeight(ep, MaxCapacity(eps)), MaxCapacity(eps);
            if ep.capacityMbps > 0
            then 2 * (w * most - 100 * ep.capacityMbps) >= -most && (w == 1 || 2 * (w * most - 100 * ep.capacityMbps) <= most)
            else w == if 1 <= ep.weight <= 100 then ep.weight else 100
  {
    MaxCapacityBounds(eps);
    var most := MaxCapacity(eps);
    hide MaxCapacity, EffectiveWeight;
    if ep.capacityMbps > 0 {
      CapacityShare(ep, most);
      RoundedDivision(ep.capacityMbps * 100, most);
      DivMonotone(ep.capacityMbps * 100 + most / 2, most * 100 + most / 2, most);
      DivExact(100, most / 2, most);
      var w := (ep.capacityMbps * 100 + most / 2) / most;
      assert w <= 100;
      if w < 1 {
        MulMonotone(w, 0, most);
      }
    } else {
      UnmeasuredWeight(ep, most);
    }
  }

  /** A load factor between 0 and 1 scales the unloaded weight, to the nearest whole
      number, 1 at least; any other factor stands for no load. */
  lemma LoadedWeight(ep: Endpoint, maxCap: int)
    ensures var w, base := EffectiveWeight(ep, maxCap), EffectiveWeight(ep.(loadFactor := 1.0), maxCap);
            if 0.0 < ep.loadFactor < 1.0
            then base as real * ep.loadFactor - 0.5 <= w as real && (w == 1 || w as real <= base as real * ep.loadFactor + 0.5)
            else w == base
  {
    hide NormWeight;
    assert BaseWeight(ep.(loadFactor := 1.0), maxCap) == BaseWeight(ep, maxCap);
    hide BaseWeight;
  }
}

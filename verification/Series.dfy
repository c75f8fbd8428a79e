/** The dashboard's series arithmetic (stats.ts): merging servers' series,
    downsampling and the summary. Numbers are exact. */
module Series {
  import opened Arith
  import opened Text

  datatype Point = Point(time: string, requests: int, hits: int, misses: int, bytes: int, bandwidth: Option<real>,
                         cpu: Option<real>, ram: Option<real>, disk: Option<real>, hitRatio: real)

  // ---------- sums ----------

  datatype Totals = Totals(requests: int, hits: int, misses: int, bytes: int)

  const ZERO := Totals(0, 0, 0, 0)

  function Plus(a: Totals, b: Totals): Totals {
    Totals(a.requests + b.requests, a.hits + b.hits, a.misses + b.misses, a.bytes + b.bytes)
  }

  function TotalsOf(p: Point): Totals {
    Totals(p.requests, p.hits, p.misses, p.bytes)
  }

  function Sum(ps: seq<Point>): Totals {
    if ps == [] then ZERO else Plus(Sum(ps[..|ps| - 1]), TotalsOf(ps[|ps| - 1]))
  }

  lemma {:induction false} SumConcat(a: seq<Point>, b: seq<Point>)
    ensures Sum(a + b) == Plus(Sum(a), Sum(b))
  {
    if b == [] {
      assert a + b == a;
    } else {
      assert (a + b)[..|a + b| - 1] == a + b[..|b| - 1];
      SumConcat(a, b[..|b| - 1]);
    }
  }

  /** The gauges of a set of points: sums and how many points report each. */
  datatype Gauges = Gauges(bw: real, bwN: int, cpu: real, ram: real, disk: real, sysN: int)

  function OrZero(x: Option<real>): real {
    if x.Some? then x.value else 0.0
  }

  function AddGauges(g: Gauges, p: Point): Gauges {
    var g' := if p.bandwidth.Some? then g.(bw := g.bw + p.bandwidth.value, bwN := g.bwN + 1) else g;
    if p.cpu.Some?
    then g'.(cpu := g'.cpu + p.cpu.value, ram := g'.ram + OrZero(p.ram), disk := g'.disk + OrZero(p.disk), sysN := g'.sysN + 1)
    else g'
  }

  function GaugesOf(ps: seq<Point>): (g: Gauges)
    ensures g.bwN >= 0 && g.sysN >= 0
  {
    if ps == [] then Gauges(0.0, 0, 0.0, 0.0, 0.0, 0) else AddGauges(GaugesOf(ps[..|ps| - 1]), ps[|ps| - 1])
  }

  function Ratio(t: Totals): real {
    if t.hits + t.misses > 0 then t.hits as real / (t.hits + t.misses) as real else 0.0
  }

  function Mean(total: real, n: int): Option<real> {
    if n > 0 then Some(total / n as real) else None
  }

  /** One point standing for several: counts are summed, the hit ratio is taken anew
      from the sums, and cpu, ram and disk are averaged over the reporting ones. */
  function Combined(time: string, t: Totals, g: Gauges, bandwidth: real): Point {
    Point(time, t.requests, t.hits, t.misses, t.bytes, Some(bandwidth), Mean(g.cpu, g.sysN), Mean(g.ram, g.sysN), Mean(g.disk, g.sysN), Ratio(t))
  }

  // ---------- merging ----------

  function Flat(all: seq<seq<Point>>): seq<Point> {
    if all == [] then [] else Flat(all[..|all| - 1]) + all[|all| - 1]
  }

  function AtTime(ps: seq<Point>, time: string): seq<Point> {
    if ps == [] then [] else AtTime(ps[..|ps| - 1], time) + if ps[|ps| - 1].time == time then [ps[|ps| - 1]] else []
  }

  function MergedAt(ps: seq<Point>, time: string): Point {
    var here := AtTime(ps, time);
    Combined(time, Sum(here), GaugesOf(here), GaugesOf(here).bw)
  }

  ghost predicate Ascending(ps: seq<Point>) {
    forall i, j :: 0 <= i < j < |ps| ==> Before(ps[i].time, ps[j].time)
  }

  function Inserted(ps: seq<Point>, p: Point): seq<Point> {
    if ps == [] || Before(ps[|ps| - 1].time, p.time) then ps + [p] else Inserted(ps[..|ps| - 1], p) + [ps[|ps| - 1]]
  }

  lemma {:induction false} InsertedAscending(ps: seq<Point>, p: Point)
    requires Ascending(ps) && forall x :: x in ps ==> x.time != p.time
    ensures Ascending(Inserted(ps, p)) && forall x :: x in Inserted(ps, p) <==> x in ps || x == p
  {
    hide Before;
    if ps == [] {
    } else {
      var front, last := ps[..|ps| - 1], ps[|ps| - 1];
      assert ps == front + [last];
      assert last in ps;
      BeforeIsStrict(last.time, p.time);
      assert Inserted(ps, p) == if Before(last.time, p.time) then ps + [p] else Inserted(front, p) + [last];
      hide Inserted;
      if Before(last.time, p.time) {
        forall i | 0 <= i < |front| ensures Before(ps[i].time, p.time) { BeforeIsTransitive(ps[i].time, last.time, p.time); }
      } else {
        InsertedAscending(front, p);
        var all := Inserted(front, p);
        forall i | 0 <= i < |all| ensures Before(all[i].time, last.time) {
          assert all[i] in all;
          if all[i] != p {
            var k :| 0 <= k < |front| && front[k] == all[i];
            assert ps[k] == all[i];
          }
        }
      }
    }
  }

  /** What has been gathered for one time. */
  datatype Agg = Agg(t: Totals, g: Gauges)

  ghost function TimesOf(ps: seq<Point>): set<string> {
    set p | p in ps :: p.time
  }

  function AggAt(ps: seq<Point>, time: string): Agg {
    Agg(Sum(AtTime(ps, time)), GaugesOf(AtTime(ps, time)))
  }

  lemma Gathered(ps: seq<Point>, p: Point, time: string)
    ensures AtTime(ps + [p], time) == AtTime(ps, time) + if p.time == time then [p] else []
    ensures AggAt(ps + [p], time) == if p.time == time then Agg(Plus(AggAt(ps, time).t, TotalsOf(p)), AddGauges(AggAt(ps, time).g, p)) else AggAt(ps, time)
    ensures TimesOf(ps + [p]) == TimesOf(ps) + {p.time}
  {
    var here := AtTime(ps, time);
    assert (ps + [p])[..|ps|] == ps;
    assert (here + [p])[..|here|] == here;
    assert here + [] == here;
    assert p in ps + [p];
    forall t | t in TimesOf(ps) ensures t in TimesOf(ps + [p]) {
      var x :| x in ps && x.time == t;
      assert x in ps + [p];
    }
  }

  lemma {:induction false} NoneAtTime(ps: seq<Point>, time: string)
    requires time !in TimesOf(ps)
    ensures AtTime(ps, time) == []
  {
    if ps == [] {
    } else {
      assert ps[|ps| - 1] in ps;
      forall t | t in TimesOf(ps[..|ps| - 1]) ensures t in TimesOf(ps) {
        var x :| x in ps[..|ps| - 1] && x.time == t;
        assert x in ps;
      }
      NoneAtTime(ps[..|ps| - 1], time);
    }
  }

  /** merged is the network-wide series of points ps. */
  ghost predicate IsMerge(merged: seq<Point>, ps: seq<Point>) {
    Ascending(merged)
    && (forall p :: p in merged ==> p.time in TimesOf(ps) && p == MergedAt(ps, p.time))
    && (forall t :: t in TimesOf(ps) ==> exists p :: p in merged && p.time == t)
  }

  ghost predicate Gathers(byTime: map<string, Agg>, ps: seq<Point>) {
    byTime.Keys == TimesOf(ps) && forall t :: t in byTime ==> byTime[t] == AggAt(ps, t)
  }

  lemma GatherOne(byTime: map<string, Agg>, ps: seq<Point>, p: Point)
    requires Gathers(byTime, ps)
    ensures var agg := if p.time in byTime then byTime[p.time] else Agg(ZERO, Gauges(0.0, 0, 0.0, 0.0, 0.0, 0));
            Gathers(byTime[p.time := Agg(Plus(agg.t, TotalsOf(p)), AddGauges(agg.g, p))], ps + [p])
  {
    hide AggAt, AddGauges, TimesOf, TotalsOf, Plus;
    if p.time !in byTime { NewTime(ps, p.time); }
    Gathered(ps, p, p.time);
    forall t ensures AggAt(ps + [p], t) == if p.time == t then Agg(Plus(AggAt(ps, t).t, TotalsOf(p)), AddGauges(AggAt(ps, t).g, p)) else AggAt(ps, t) {
      Gathered(ps, p, t);
    }
  }

  method Gather(all: seq<seq<Point>>) returns (byTime: map<string, Agg>)
    ensures Gathers(byTime, Flat(all))
  {
    hide Gathers, AddGauges, Plus, TotalsOf;
    byTime := map[];
    ghost var seen: seq<Point> := [];
    assert Gathers(byTime, []) by { GathersNothing(); }
    for i := 0 to |all|
      invariant seen == Flat(all[..i]) && Gathers(byTime, seen)
    {
      assert all[..i + 1][..i] == all[..i];
      ghost var before := seen;
      for k := 0 to |all[i]|
        invariant seen == before + all[i][..k] && Gathers(byTime, seen)
      {
        var p := all[i][k];
        assert before + all[i][..k + 1] == seen + [p];
        GatherOne(byTime, seen, p);
        var agg := if p.time in byTime then byTime[p.time] else Agg(ZERO, Gauges(0.0, 0, 0.0, 0.0, 0.0, 0));
        byTime := byTime[p.time := Agg(Plus(agg.t, TotalsOf(p)), AddGauges(agg.g, p))];
        seen := seen + [p];
      }
      assert all[i][..|all[i]|] == all[i];
    }
    assert all[..|all|] == all;
  }

  lemma GathersNothing()
    ensures Gathers(map[], [])
  {
    assert TimesOf([]) == {};
  }

  method MergeSeries(all: seq<seq<Point>>) returns (merged: seq<Point>)
    ensures IsMerge(merged, Flat(all))
  {
    hide AggAt, Combined, Ascending, MergedAt, Flat, TimesOf;
    var byTime := Gather(all);
    ghost var ps := Flat(all);
    merged := [];
    var left := byTime.Keys;
    assert Ascending([]) by { NothingAscends(); }
    while left != {}
      invariant left <= byTime.Keys && Ascending(merged)
      invariant forall p :: p in merged ==> p.time in byTime && p.time !in left && p == MergedAt(ps, p.time)
      invariant forall t :: t in byTime && t !in left ==> exists p :: p in merged && p.time == t
      decreases |left|
    {
      var t :| t in left;
      var p := Combined(t, byTime[t].t, byTime[t].g, byTime[t].g.bw);
      MergedIs(ps, t);
      InsertedAscending(merged, p);
      ghost var m := merged;
      merged := Inserted(merged, p);
      left := left - {t};
      assert p in merged;
      forall u | u in byTime && u !in left ensures exists x :: x in merged && x.time == u {
        if u != t {
          var x :| x in m && x.time == u;
          assert x in merged;
        }
      }
    }
  }

  lemma NewTime(ps: seq<Point>, time: string)
    requires time !in TimesOf(ps)
    ensures AggAt(ps, time) == Agg(ZERO, Gauges(0.0, 0, 0.0, 0.0, 0.0, 0))
  {
    NoneAtTime(ps, time);
  }

  lemma NothingAscends()
    ensures Ascending([])
  {
  }

  lemma MergedIs(ps: seq<Point>, time: string)
    ensures MergedAt(ps, time) == Combined(time, AggAt(ps, time).t, AggAt(ps, time).g, AggAt(ps, time).g.bw)
    ensures MergedAt(ps, time).time == time && TotalsOf(MergedAt(ps, time)) == Sum(AtTime(ps, time))
  {
  }

  function Without(ps: seq<Point>, time: string): seq<Point> {
    if ps == [] then [] else Without(ps[..|ps| - 1], time) + if ps[|ps| - 1].time == time then [] else [ps[|ps| - 1]]
  }

  lemma SumSnoc(ps: seq<Point>, p: Point)
    ensures Sum(ps + [p]) == Plus(Sum(ps), TotalsOf(p))
  {
    assert (ps + [p])[..|ps|] == ps;
  }

  lemma {:induction false} WithoutMembers(ps: seq<Point>, time: string)
    ensures forall p :: p in Without(ps, time) <==> p in ps && p.time != time
  {
    if ps == [] {
    } else {
      WithoutMembers(ps[..|ps| - 1], time);
      assert ps == ps[..|ps| - 1] + [ps[|ps| - 1]];
    }
  }

  lemma SplitSnoc(ps: seq<Point>, p: Point, time: string)
    ensures AtTime(ps + [p], time) == if p.time == time then AtTime(ps, time) + [p] else AtTime(ps, time)
    ensures Without(ps + [p], time) == if p.time == time then Without(ps, time) else Without(ps, time) + [p]
  {
    assert (ps + [p])[..|ps|] == ps;
    assert AtTime(ps, time) + [] == AtTime(ps, time) && Without(ps, time) + [] == Without(ps, time);
  }

  lemma PlusLast(a: Totals, b: Totals, c: Totals)
    ensures Plus(Plus(a, b), c) == Plus(Plus(a, c), b) == Plus(a, Plus(b, c))
    ensures Plus(a, b) == Plus(b, a)
  {
  }

  lemma {:induction false} SumSplits(ps: seq<Point>, time: string)
    ensures Sum(ps) == Plus(Sum(AtTime(ps, time)), Sum(Without(ps, time)))
  {
    if ps == [] {
    } else {
      hide *;
      var front, last := ps[..|ps| - 1], ps[|ps| - 1];
      assert ps == front + [last];
      SumSplits(front, time);
      SumSnoc(front, last);
      SumSnoc(AtTime(front, time), last);
      SumSnoc(Without(front, time), last);
      SplitSnoc(front, last, time);
      PlusLast(Sum(AtTime(front, time)), Sum(Without(front, time)), TotalsOf(last));
    }
  }

  lemma {:induction false} AtOtherTime(ps: seq<Point>, gone: string, time: string)
    requires gone != time
    ensures AtTime(Without(ps, gone), time) == AtTime(ps, time)
  {
    if ps == [] {
    } else {
      var front, last := ps[..|ps| - 1], ps[|ps| - 1];
      AtOtherTime(front, gone, time);
      var w := Without(front, gone);
      assert (w + [last])[..|w|] == w && w + [] == w && AtTime(front, time) + [] == AtTime(front, time);
    }
  }

  /** Every time of ps has its one point in merged, with the sums of that time. */
  ghost predicate Represents(merged: seq<Point>, ps: seq<Point>) {
    (forall i, j :: 0 <= i < j < |merged| ==> merged[i].time != merged[j].time)
    && (forall i :: 0 <= i < |merged| ==> TotalsOf(merged[i]) == Sum(AtTime(ps, merged[i].time)))
    && (forall p :: p in ps ==> exists i :: 0 <= i < |merged| && merged[i].time == p.time)
  }

  lemma RepresentsRest(merged: seq<Point>, ps: seq<Point>)
    requires Represents(merged, ps) && merged != []
    ensures var last := merged[|merged| - 1]; Represents(merged[..|merged| - 1], Without(ps, last.time))
  {
    hide Sum, AtTime, Without, TotalsOf;
    var front, last := merged[..|merged| - 1], merged[|merged| - 1];
    var rest := Without(ps, last.time);
    WithoutMembers(ps, last.time);
    forall i | 0 <= i < |front| ensures TotalsOf(front[i]) == Sum(AtTime(rest, front[i].time)) {
      assert front[i] == merged[i];
      AtOtherTime(ps, last.time, front[i].time);
    }
    forall p | p in rest ensures exists i :: 0 <= i < |front| && front[i].time == p.time {
      var i :| 0 <= i < |merged| && merged[i].time == p.time;
      assert front[i].time == p.time;
    }
  }

  lemma LastSum(merged: seq<Point>, ps: seq<Point>)
    requires Represents(merged, ps)
    ensures merged != [] ==> var last := merged[|merged| - 1]; TotalsOf(last) == Sum(AtTime(ps, last.time))
    ensures merged == [] ==> ps == []
  {
    hide Sum, AtTime, TotalsOf;
    assert ps != [] ==> ps[0] in ps;
  }

  lemma {:induction false} MergeConservesFrom(merged: seq<Point>, ps: seq<Point>)
    requires Represents(merged, ps)
    ensures Sum(merged) == Sum(ps)
  {
    hide *;
    LastSum(merged, ps);
    if merged == [] {
    } else {
      var front, last := merged[..|merged| - 1], merged[|merged| - 1];
      RepresentsRest(merged, ps);
      MergeConservesFrom(front, Without(ps, last.time));
      assert merged == front + [last];
      SumSnoc(front, last);
      SumSplits(ps, last.time);
      PlusLast(Sum(front), TotalsOf(last), ZERO);
    }
  }

  /** Merging conserves every count, whatever servers report whatever times. */
  lemma MergeConserves(merged: seq<Point>, ps: seq<Point>)
    requires IsMerge(merged, ps)
    ensures Sum(merged) == Sum(ps)
  {
    hide Before, MergedAt, AtTime, Sum, TotalsOf;
    forall i, j | 0 <= i < j < |merged| ensures merged[i].time != merged[j].time { BeforeIsStrict(merged[i].time, merged[j].time); }
    forall i | 0 <= i < |merged| ensures TotalsOf(merged[i]) == Sum(AtTime(ps, merged[i].time)) {
      assert merged[i] in merged;
      MergedIs(ps, merged[i].time);
    }
    forall p | p in ps ensures exists i :: 0 <= i < |merged| && merged[i].time == p.time {
      assert p.time in TimesOf(ps);
      var m :| m in merged && m.time == p.time;
    }
    MergeConservesFrom(merged, ps);
  }

  // ---------- downsampling ----------

  function Grouped(group: seq<Point>): Point
    requires group != []
  {
    var g := GaugesOf(group);
    Combined(group[0].time, Sum(group), g, OrZero(Mean(g.bw, g.bwN)))
  }

  /** Every size consecutive points as one. */
  function InGroups(ps: seq<Point>, size: nat): seq<Point>
    requires size > 0
    decreases |ps|
  {
    if |ps| <= size then if ps == [] then [] else [Grouped(ps)]
    else [Grouped(ps[..size])] + InGroups(ps[size..], size)
  }

  /** For no points at all the quotient is infinite, and everything is one group. */
  function GroupSize(n: nat, target: nat): (size: nat)
    ensures (target > 0 ==> target * size >= n) && (n > 0 ==> size > 0) && (target == 0 ==> size == n)
    ensures target > 0 && n > 0 ==> target * (size - 1) < n
  {
    if target == 0 then n else (n + target - 1) / target
  }

  method GroupPoint(group: seq<Point>) returns (p: Point)
    requires group != []
    ensures p == Grouped(group)
  {
    var acc, g := ZERO, Gauges(0.0, 0, 0.0, 0.0, 0.0, 0);
    for k := 0 to |group|
      invariant acc == Sum(group[..k]) && g == GaugesOf(group[..k])
    {
      assert group[..k + 1][..k] == group[..k];
      acc := Plus(acc, TotalsOf(group[k]));
      g := AddGauges(g, group[k]);
    }
    assert group[..|group|] == group;
    return Combined(group[0].time, acc, g, OrZero(Mean(g.bw, g.bwN)));
  }

  method Downsample(series: seq<Point>, target: nat) returns (out: seq<Point>)
    ensures out == if |series| <= target then series else InGroups(series, GroupSize(|series|, target))
  {
    if |series| <= target {
      return series;
    }
    hide Grouped, InGroups, GroupSize, GroupsLeft;
    var size := GroupSize(|series|, target);
    out := [];
    var i := 0;
    assert GroupsLeft(series, out, i, size) by { AllGroupsLeft(series, size); }
    while i < |series|
      invariant i <= |series| && GroupsLeft(series, out, i, size)
      decreases |series| - i
    {
      var next := if i + size <= |series| then i + size else |series|;
      var p := GroupPoint(series[i..next]);
      OneGroupLess(series, out, i, next, size);
      out := out + [p];
      i := next;
    }
    NoGroupsLeft(series, out, size);
  }

  /** The groups of series are those emitted and those from position i on. */
  ghost predicate GroupsLeft(series: seq<Point>, out: seq<Point>, i: nat, size: nat) {
    size > 0 && i <= |series| && InGroups(series, size) == out + InGroups(series[i..], size)
  }

  lemma AllGroupsLeft(series: seq<Point>, size: nat)
    requires size > 0
    ensures GroupsLeft(series, [], 0, size)
  {
    assert series[0..] == series;
  }

  lemma OneGroupLess(series: seq<Point>, out: seq<Point>, i: nat, next: nat, size: nat)
    requires GroupsLeft(series, out, i, size) && i < |series| && next == if i + size <= |series| then i + size else |series|
    ensures GroupsLeft(series, out + [Grouped(series[i..next])], next, size)
  {
    hide Grouped, InGroups;
    GroupsFrom(series, i, next, size);
    var p, rest := Grouped(series[i..next]), InGroups(series[next..], size);
    assert out + ([p] + rest) == (out + [p]) + rest;
  }

  lemma NoGroupsLeft(series: seq<Point>, out: seq<Point>, size: nat)
    requires GroupsLeft(series, out, |series|, size)
    ensures out == InGroups(series, size)
  {
    assert series[|series|..] == [];
    NoGroups(size);
  }

  lemma NoGroups(size: nat)
    requires size > 0
    ensures InGroups([], size) == []
  {
  }

  lemma GroupsFrom(series: seq<Point>, i: nat, next: nat, size: nat)
    requires size > 0 && i < |series| && next == if i + size <= |series| then i + size else |series|
    ensures i < next && InGroups(series[i..], size) == [Grouped(series[i..next])] + InGroups(series[next..], size)
  {
    hide Grouped, InGroups;
    GroupsHead(series[i..], size);
    assert series[i..next] == if |series[i..]| <= size then series[i..] else series[i..][..size];
    assert series[next..] == if |series[i..]| <= size then [] else series[i..][size..];
  }

  lemma GroupsHead(ps: seq<Point>, size: nat)
    requires size > 0 && ps != []
    ensures InGroups(ps, size) == [Grouped(if |ps| <= size then ps else ps[..size])] + InGroups(if |ps| <= size then [] else ps[size..], size)
  {
  }

  lemma SumOfOne(p: Point)
    ensures Sum([p]) == TotalsOf(p)
  {
    assert [p][..0] == [];
  }

  lemma GroupedSum(ps: seq<Point>)
    requires ps != []
    ensures Sum([Grouped(ps)]) == Sum(ps)
  {
    SumOfOne(Grouped(ps));
  }

  lemma {:induction false} GroupsConserve(ps: seq<Point>, size: nat)
    requires size > 0
    ensures Sum(InGroups(ps, size)) == Sum(ps)
    ensures |InGroups(ps, size)| * size < |ps| + size
    decreases |ps|
  {
    hide Sum, Grouped;
    if ps == [] {
      assert InGroups(ps, size) == [];
    } else if |ps| <= size {
      GroupedSum(ps);
    } else {
      var head := Grouped(ps[..size]);
      GroupsConserve(ps[size..], size);
      GroupedSum(ps[..size]);
      SumConcat([head], InGroups(ps[size..], size));
      SumConcat(ps[..size], ps[size..]);
      assert ps == ps[..size] + ps[size..];
      OneMore(|InGroups(ps[size..], size)|, size);
    }
  }

  /** Downsampling conserves every count and keeps to the number of points asked for;
      asked for none, it gives one. */
  lemma DownsampleConserves(series: seq<Point>, target: nat)
    requires target < |series|
    ensures var out := InGroups(series, GroupSize(|series|, target));
            Sum(out) == Sum(series) && if target > 0 then |out| <= target else |out| == 1
  {
    var size := GroupSize(|series|, target);
    assert size > 0;
    GroupsConserve(series, size);
    if target > 0 {
      AtMost(|InGroups(series, size)|, size, target, |series|);
    } else {
      assert series[..size] == series && series[size..] == [];
    }
  }

  lemma AtMost(n: nat, size: nat, target: nat, len: nat)
    requires n * size < len + size && target * size >= len && size > 0
    ensures n <= target
  {
    if n > target {
      MulMonotone(target + 1, n, size);
      OneMore(target, size);
    }
  }

  /** Point k of a downsampled series stands for the k-th stretch of size points, the
      last one for what is left. */
  lemma {:induction false} GroupsAreStretches(ps: seq<Point>, size: nat, k: nat)
    requires size > 0 && k * size < |ps|
    ensures k < |InGroups(ps, size)|
    ensures InGroups(ps, size)[k] == Grouped(ps[k * size..if k * size + size <= |ps| then k * size + size else |ps|])
    decreases k
  {
    hide Grouped;
    GroupsFrom(ps, 0, if |ps| <= size then |ps| else size, size);
    if k == 0 {
      assert ps[0..if size <= |ps| then size else |ps|] == if |ps| <= size then ps else ps[..size];
    } else {
      assert k * size == (k - 1) * size + size;
      assert (k - 1) * size >= 0 by { MulMonotone(0, k - 1, size); }
      var rest := ps[size..];
      GroupsAreStretches(rest, size, k - 1);
      var from := (k - 1) * size;
      var end := if from + size <= |rest| then from + size else |rest|;
      assert rest[from..end] == ps[from + size..end + size];
    }
  }

  // ---------- the summary ----------

  datatype Summary = Summary(requests: int, bytes: int, hitRatio: real, perSecond: real, missRatio: real)

  function Summarized(t: Totals, seconds: int): Summary {
    Summary(t.requests, t.bytes, Ratio(t), if seconds > 0 then t.requests as real / seconds as real else 0.0, 1.0 - Ratio(t))
  }

  method Summarize(series: seq<Point>, seconds: int) returns (s: Summary)
    ensures s == Summarized(Sum(series), seconds)
  {
    var t := ZERO;
    for i := 0 to |series|
      invariant t == Sum(series[..i])
    {
      assert series[..i + 1][..i] == series[..i];
      t := Plus(t, TotalsOf(series[i]));
    }
    assert series[..|series|] == series;
    var total := t.hits + t.misses;
    var hitRatio := if total > 0 then t.hits as real / total as real else 0.0;
    return Summary(t.requests, t.bytes, hitRatio, if seconds > 0 then t.requests as real / seconds as real else 0.0, 1.0 - hitRatio);
  }

  /** The summary of the chart is the summary of the raw points of all servers:
      neither merging nor downsampling changes a figure in it. */
  lemma SummarySurvives(all: seq<seq<Point>>, merged: seq<Point>, target: nat, seconds: int)
    requires IsMerge(merged, Flat(all))
    ensures var shown := if |merged| <= target then merged else InGroups(merged, GroupSize(|merged|, target));
            Summarized(Sum(shown), seconds) == Summarized(Sum(Flat(all)), seconds)
  {
    MergeConserves(merged, Flat(all));
    if |merged| > target {
      DownsampleConserves(merged, target);
    }
  }

  // ---------- the figures in a point ----------

  /** Sums add up field by field. */
  lemma SumsAddUp(a: seq<Point>, b: seq<Point>, p: Point)
    ensures Sum([p]).requests == p.requests && Sum([p]).hits == p.hits && Sum([p]).misses == p.misses && Sum([p]).bytes == p.bytes
    ensures Sum(a + b).requests == Sum(a).requests + Sum(b).requests && Sum(a + b).hits == Sum(a).hits + Sum(b).hits
    ensures Sum(a + b).misses == Sum(a).misses + Sum(b).misses && Sum(a + b).bytes == Sum(a).bytes + Sum(b).bytes
    ensures Sum([]) == Totals(0, 0, 0, 0)
  {
    SumConcat(a, b);
    SumOfOne(p);
  }

  /** A hit ratio is the share of hits, 0 without requests. */
  lemma RatioIsShare(t: Totals)
    ensures t.hits + t.misses > 0 ==> Ratio(t) * (t.hits + t.misses) as real == t.hits as real
    ensures t.hits + t.misses <= 0 ==> Ratio(t) == 0.0
    ensures t.hits >= 0 && t.misses >= 0 ==> 0.0 <= Ratio(t) <= 1.0
  {
    if t.hits + t.misses > 0 && t.hits >= 0 && t.misses >= 0 {
      ShareAtMostOne(t.hits as real, (t.hits + t.misses) as real);
    }
  }

  lemma ShareAtMostOne(a: real, b: real)
    requires 0.0 <= a <= b && 0.0 < b
    ensures 0.0 <= a / b <= 1.0
  {
  }

  lemma SummaryFigures(t: Totals, seconds: int)
    ensures var s := Summarized(t, seconds);
            s.requests == t.requests && s.bytes == t.bytes && s.hitRatio == Ratio(t) && s.hitRatio + s.missRatio == 1.0
            && (if seconds > 0 then s.perSecond * seconds as real == t.requests as real else s.perSecond == 0.0)
  {
    hide Ratio;
    if seconds > 0 {
      Quotient(t.requests as real, seconds as real);
    }
  }

  lemma Quotient(a: real, b: real)
    requires b != 0.0
    ensures a / b * b == a
  {
  }

  lemma {:induction false} AtTimeMembers(ps: seq<Point>, time: string)
    ensures forall p :: p in AtTime(ps, time) <==> p in ps && p.time == time
  {
    if ps == [] {
    } else {
      AtTimeMembers(ps[..|ps| - 1], time);
      assert ps == ps[..|ps| - 1] + [ps[|ps| - 1]];
    }
  }

  /** The reported gauges lie within these bounds; a missing memory or disk figure of a
      reporting server counts as 0. */
  ghost predicate Within(ps: seq<Point>, lo: real, hi: real) {
    forall p :: p in ps ==> PointWithin(p, lo, hi)
  }

  ghost predicate PointWithin(p: Point, lo: real, hi: real) {
    (p.bandwidth.Some? ==> lo <= p.bandwidth.value <= hi)
    && (p.cpu.Some? ==> lo <= p.cpu.value <= hi && lo <= OrZero(p.ram) <= hi && lo <= OrZero(p.disk) <= hi)
  }

  ghost predicate SumsWithin(g: Gauges, lo: real, hi: real) {
    Between(g.bw, g.bwN, lo, hi) && Between(g.cpu, g.sysN, lo, hi) && Between(g.ram, g.sysN, lo, hi) && Between(g.disk, g.sysN, lo, hi)
  }

  ghost predicate Between(total: real, n: int, lo: real, hi: real) {
    lo * n as real <= total <= hi * n as real
  }

  lemma OneMoreBetween(total: real, n: int, x: real, lo: real, hi: real)
    requires Between(total, n, lo, hi) && lo <= x <= hi
    ensures Between(total + x, n + 1, lo, hi)
  {
    OneMoreReal(lo, n);
    OneMoreReal(hi, n);
  }

  lemma AddWithin(g: Gauges, p: Point, lo: real, hi: real)
    requires SumsWithin(g, lo, hi) && PointWithin(p, lo, hi)
    ensures SumsWithin(AddGauges(g, p), lo, hi)
  {
    hide Between, OrZero;
    if p.bandwidth.Some? { OneMoreBetween(g.bw, g.bwN, p.bandwidth.value, lo, hi); }
    if p.cpu.Some? {
      OneMoreBetween(g.cpu, g.sysN, p.cpu.value, lo, hi);
      OneMoreBetween(g.ram, g.sysN, OrZero(p.ram), lo, hi);
      OneMoreBetween(g.disk, g.sysN, OrZero(p.disk), lo, hi);
    }
  }

  lemma NoneWithin(lo: real, hi: real)
    ensures SumsWithin(GaugesOf([]), lo, hi)
  {
  }

  lemma {:induction false} GaugeSums(ps: seq<Point>, lo: real, hi: real)
    requires Within(ps, lo, hi)
    ensures SumsWithin(GaugesOf(ps), lo, hi)
  {
    hide SumsWithin, AddGauges, PointWithin;
    if ps == [] {
      NoneWithin(lo, hi);
    } else {
      var front, last := ps[..|ps| - 1], ps[|ps| - 1];
      assert ps == front + [last];
      GaugeSums(front, lo, hi);
      AddWithin(GaugesOf(front), last, lo, hi);
    }
  }

  lemma {:induction false} Reports(ps: seq<Point>)
    ensures GaugesOf(ps).sysN > 0 <==> exists p :: p in ps && p.cpu.Some?
    ensures GaugesOf(ps).bwN > 0 <==> exists p :: p in ps && p.bandwidth.Some?
  {
    if ps == [] {
    } else {
      var front, last := ps[..|ps| - 1], ps[|ps| - 1];
      assert ps == front + [last];
      Reports(front);
      var g := GaugesOf(front);
      assert GaugesOf(ps) == AddGauges(g, last);
      assert last in ps && forall p :: p in ps <==> p in front || p == last;
    }
  }

  lemma OneMoreReal(x: real, n: int)
    ensures x * (n + 1) as real == x * n as real + x
  {
  }

  lemma MeanWithin(total: real, n: int, lo: real, hi: real)
    requires n > 0 && Between(total, n, lo, hi)
    ensures Mean(total, n).Some? && lo <= Mean(total, n).value <= hi
  {
    var d := n as real;
    Quotient(total, d);
    if total / d < lo { assert total / d * d < lo * d; }
    if total / d > hi { assert total / d * d > hi * d; }
  }

  /** Merged or grouped cpu, memory and disk are averages over the servers that report:
      within whatever bounds the reports are, so equal to them when they agree, and
      missing only when nobody reports. */
  lemma GaugesAreAverages(ps: seq<Point>, time: string, bandwidth: real, lo: real, hi: real)
    requires Within(ps, lo, hi)
    ensures var p := Combined(time, Sum(ps), GaugesOf(ps), bandwidth);
            (p.cpu.Some? <==> exists x :: x in ps && x.cpu.Some?) && (p.ram.Some? <==> p.cpu.Some?) && (p.disk.Some? <==> p.cpu.Some?)
            && (p.cpu.Some? ==> lo <= p.cpu.value <= hi && lo <= p.ram.value <= hi && lo <= p.disk.value <= hi)
  {
    GaugeSums(ps, lo, hi);
    Reports(ps);
    var g := GaugesOf(ps);
    hide GaugesOf, Sum, Within, PointWithin, Between;
    assert g.sysN <= 0 ==> Mean(g.cpu, g.sysN).None? && Mean(g.ram, g.sysN).None? && Mean(g.disk, g.sysN).None?;
    if g.sysN > 0 {
      MeanWithin(g.cpu, g.sysN, lo, hi);
      MeanWithin(g.ram, g.sysN, lo, hi);
      MeanWithin(g.disk, g.sysN, lo, hi);
    }
  }

  /** The one merged point of a time combines exactly the points of that time, and a
      group's bandwidth is an average, 0 without reports. */
  lemma GroupBandwidth(ps: seq<Point>, lo: real, hi: real)
    requires ps != [] && Within(ps, lo, hi)
    ensures Grouped(ps).bandwidth.Some? && Grouped(ps).time == ps[0].time
    ensures if exists p :: p in ps && p.bandwidth.Some? then lo <= Grouped(ps).bandwidth.value <= hi else Grouped(ps).bandwidth.value == 0.0
  {
    GaugeSums(ps, lo, hi);
    Reports(ps);
    var g := GaugesOf(ps);
    hide GaugesOf, Sum, Within, PointWithin, Between;
    if g.bwN > 0 {
      MeanWithin(g.bw, g.bwN, lo, hi);
    }
  }

  // ---------- the order of servers ----------

  function PlusGauges(a: Gauges, b: Gauges): Gauges {
    Gauges(a.bw + b.bw, a.bwN + b.bwN, a.cpu + b.cpu, a.ram + b.ram, a.disk + b.disk, a.sysN + b.sysN)
  }

  lemma AddLater(g: Gauges, h: Gauges, p: Point)
    ensures AddGauges(PlusGauges(g, h), p) == PlusGauges(g, AddGauges(h, p))
  {
  }

  lemma GaugesSnoc(ps: seq<Point>, p: Point)
    ensures GaugesOf(ps + [p]) == AddGauges(GaugesOf(ps), p)
  {
    assert (ps + [p])[..|ps|] == ps;
  }

  lemma NoGauges(g: Gauges)
    ensures PlusGauges(g, GaugesOf([])) == g
  {
  }

  lemma {:induction false} GaugesConcat(a: seq<Point>, b: seq<Point>)
    ensures GaugesOf(a + b) == PlusGauges(GaugesOf(a), GaugesOf(b))
  {
    hide AddGauges, PlusGauges, GaugesOf;
    if b == [] {
      assert a + b == a;
      NoGauges(GaugesOf(a));
    } else {
      var front, last := b[..|b| - 1], b[|b| - 1];
      assert b == front + [last] && a + b == (a + front) + [last];
      GaugesConcat(a, front);
      GaugesSnoc(a + front, last);
      GaugesSnoc(front, last);
      AddLater(GaugesOf(a), GaugesOf(front), last);
    }
  }

  /** Taking one point out anywhere takes its share. */
  lemma TakenOut(ps: seq<Point>, i: nat)
    requires i < |ps|
    ensures var rest := ps[..i] + ps[i + 1..];
            Sum(ps) == Plus(Sum(rest), Sum([ps[i]])) && GaugesOf(ps) == PlusGauges(GaugesOf(rest), GaugesOf([ps[i]]))
            && multiset(rest) == multiset(ps) - multiset{ps[i]}
  {
    var a, x, b := ps[..i], [ps[i]], ps[i + 1..];
    assert ps == (a + x) + b;
    hide Sum, GaugesOf, Plus;
    SumConcat(a + x, b);
    SumConcat(a, x);
    SumConcat(a, b);
    PlusLast(Sum(a), Sum(x), Sum(b));
    GaugesConcat(a + x, b);
    GaugesConcat(a, x);
    GaugesConcat(a, b);
  }

  lemma {:induction false} OrderIrrelevant(ps: seq<Point>, qs: seq<Point>)
    requires multiset(ps) == multiset(qs)
    ensures Sum(ps) == Sum(qs) && GaugesOf(ps) == GaugesOf(qs)
  {
    if ps == [] {
      assert |multiset(qs)| == 0;
      assert qs == [];
    } else {
      var n := |ps| - 1;
      assert ps[n] in multiset(qs);
      var i :| 0 <= i < |qs| && qs[i] == ps[n];
      var rest := qs[..i] + qs[i + 1..];
      TakenOut(ps, n);
      TakenOut(qs, i);
      assert ps[..n] + ps[n + 1..] == ps[..n];
      OrderIrrelevant(ps[..n], rest);
    }
  }

  lemma {:induction false} AtTimeCounts(ps: seq<Point>, time: string, p: Point)
    ensures multiset(AtTime(ps, time))[p] == if p.time == time then multiset(ps)[p] else 0
  {
    if ps == [] {
    } else {
      AtTimeCounts(ps[..|ps| - 1], time, p);
      assert ps == ps[..|ps| - 1] + [ps[|ps| - 1]];
    }
  }

  /** Merging does not depend on the order of the servers, nor of a server's points. */
  lemma MergeIgnoresOrder(merged: seq<Point>, ps: seq<Point>, qs: seq<Point>)
    requires IsMerge(merged, ps) && multiset(ps) == multiset(qs)
    ensures IsMerge(merged, qs)
  {
    hide Ascending, GaugesOf, Sum, AtTime, Combined;
    forall p ensures p in ps <==> p in qs { assert p in multiset(ps) <==> p in multiset(qs); }
    assert TimesOf(ps) == TimesOf(qs);
    forall t ensures MergedAt(ps, t) == MergedAt(qs, t) {
      forall p ensures multiset(AtTime(ps, t))[p] == multiset(AtTime(qs, t))[p] {
        AtTimeCounts(ps, t, p);
        AtTimeCounts(qs, t, p);
      }
      assert multiset(AtTime(ps, t)) == multiset(AtTime(qs, t));
      OrderIrrelevant(AtTime(ps, t), AtTime(qs, t));
    }
  }

  // ---------- bandwidth ----------

  function Bandwidth(ps: seq<Point>): real {
    if ps == [] then 0.0 else Bandwidth(ps[..|ps| - 1]) + OrZero(ps[|ps| - 1].bandwidth)
  }

  lemma {:induction false} BandwidthOf(ps: seq<Point>)
    ensures GaugesOf(ps).bw == Bandwidth(ps)
  {
    if ps == [] {
    } else {
      BandwidthOf(ps[..|ps| - 1]);
    }
  }

  /** The bandwidth of a merged point is what all servers report for that time together. */
  lemma MergedBandwidth(merged: seq<Point>, ps: seq<Point>, p: Point)
    requires IsMerge(merged, ps) && p in merged
    ensures p.bandwidth == Some(Bandwidth(AtTime(ps, p.time))) && forall x :: x in AtTime(ps, p.time) <==> x in ps && x.time == p.time
  {
    hide Ascending, AtTime, Sum;
    BandwidthOf(AtTime(ps, p.time));
    AtTimeMembers(ps, p.time);
  }
}

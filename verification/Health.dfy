/** The edge health checker (checker.go): hysteresis counters per edge, the
    transitions they fire, and how often they can. */
module Health {
  import opened Arith
  import opened Text

  datatype Verdict = Healthy | Unhealthy | Unknown

  const SECOND := 1_000_000_000

  /** Thresholds and interval (in seconds) of 0 or less mean: use the network default. */
  datatype Target = Target(edgeID: string, persisted: string, enabled: bool, interval: int, fail: int, rise: int)

  /** Durations in nanoseconds. */
  datatype Config = Config(interval: int, timeout: int, fail: int, rise: int)

  datatype EdgeHealth = EdgeHealth(target: Target, current: Verdict, fails: nat, oks: nat, inflight: bool, nextDue: int)

  /** Every setting becomes usable and a usable one is kept; a timeout is usable when
      it is shorter than the interval, so that probes never pile up. */
  function WithDefaults(c: Config): (d: Config)
    ensures d.interval > 0 && d.timeout > 0 && d.fail > 0 && d.rise > 0
    ensures d.interval >= 3 ==> d.timeout < d.interval
    ensures (c.interval > 0 ==> d.interval == c.interval) && (c.fail > 0 ==> d.fail == c.fail) && (c.rise > 0 ==> d.rise == c.rise)
    ensures 0 < c.timeout < d.interval ==> d.timeout == c.timeout
  {
    var interval := if c.interval <= 0 then 10 * SECOND else c.interval;
    var third := if interval / 3 <= 0 then 3 * SECOND else interval / 3;
    Config(interval, if c.timeout <= 0 || c.timeout >= interval then third else c.timeout,
           if c.fail <= 0 then 2 else c.fail, if c.rise <= 0 then 3 else c.rise)
  }

  lemma Defaults()
    ensures WithDefaults(Config(0, 0, 0, 0)) == Config(10 * SECOND, 10 * SECOND / 3, 2, 3)
    ensures WithDefaults(Config(-1, 60 * SECOND, 5, -7)) == Config(10 * SECOND, 10 * SECOND / 3, 5, 3)
  {
  }

  function FailThreshold(c: Config, t: Target): int {
    if t.fail > 0 then t.fail else c.fail
  }

  function RiseThreshold(c: Config, t: Target): int {
    if t.rise > 0 then t.rise else c.rise
  }

  function Interval(c: Config, t: Target): int {
    if t.interval > 0 then t.interval * SECOND else c.interval
  }

  /** A setting of the edge's own, when positive, wins over the network's; its interval
      is stored in seconds. */
  lemma OwnSettingsWin(c: Config, t: Target)
    ensures FailThreshold(c, t) == (if t.fail >= 1 then t.fail else c.fail) && RiseThreshold(c, t) == (if t.rise >= 1 then t.rise else c.rise)
    ensures t.interval >= 1 ==> Interval(c, t) == 1_000_000_000 * t.interval
    ensures t.interval < 1 ==> Interval(c, t) == c.interval
  {
  }

  function NormState(s: string): Verdict {
    var n := Lower(TrimSpace(s));
    if n == "healthy" then Healthy else if n == "unhealthy" then Unhealthy else Unknown
  }

  // ---------- one probe result ----------

  /** The counters and the verdict; what a result does to them. */
  datatype Gauge = Gauge(current: Verdict, fails: nat, oks: nat)

  function GaugeOf(e: EdgeHealth): Gauge {
    Gauge(e.current, e.fails, e.oks)
  }

  function Fires(g: Gauge, ok: bool, f: int, r: int): bool {
    if ok then g.current != Healthy && g.oks + 1 >= r else g.current != Unhealthy && g.fails + 1 >= f
  }

  function Observed(g: Gauge, ok: bool, f: int, r: int): Gauge {
    if ok then Gauge(if Fires(g, ok, f, r) then Healthy else g.current, 0, g.oks + 1)
    else Gauge(if Fires(g, ok, f, r) then Unhealthy else g.current, g.fails + 1, 0)
  }

  // ---------- the checker ----------

  function Seeded(t: Target, now: int, stagger: int): EdgeHealth {
    EdgeHealth(t, NormState(t.persisted), 0, 0, false, now + stagger)
  }

  /** The table's rows applied one after the other to what is known. */
  function Refreshed(state: map<string, EdgeHealth>, ts: seq<Target>, now: int, stagger: map<string, int>): map<string, EdgeHealth> {
    if ts == [] then state
    else
      var m, t := Refreshed(state, ts[..|ts| - 1], now, stagger), ts[|ts| - 1];
      m[t.edgeID := if t.edgeID in m then m[t.edgeID].(target := t)
                    else Seeded(t, now, if t.edgeID in stagger then stagger[t.edgeID] else 0)]
  }

  function EdgeIDs(ts: seq<Target>): set<string> {
    set i | 0 <= i < |ts| :: ts[i].edgeID
  }

  function Reloaded(state: map<string, EdgeHealth>, ts: seq<Target>, now: int, stagger: map<string, int>): map<string, EdgeHealth> {
    map id | id in Refreshed(state, ts, now, stagger) && id in EdgeIDs(ts) :: Refreshed(state, ts, now, stagger)[id]
  }

  lemma {:induction false} RefreshedKeeps(state: map<string, EdgeHealth>, ts: seq<Target>, now: int, stagger: map<string, int>)
    ensures Refreshed(state, ts, now, stagger).Keys == state.Keys + EdgeIDs(ts)
    ensures forall id :: id in state ==> GaugeOf(Refreshed(state, ts, now, stagger)[id]) == GaugeOf(state[id])
  {
    if ts == [] {
      assert EdgeIDs(ts) == {};
    } else {
      hide Seeded, EdgeIDs;
      RefreshedKeeps(state, ts[..|ts| - 1], now, stagger);
      SeenSnoc(ts, |ts| - 1);
      assert ts[..|ts|] == ts;
    }
  }

  lemma {:induction false} NewIsSeeded(state: map<string, EdgeHealth>, ts: seq<Target>, now: int, stagger: map<string, int>, id: string)
    requires id in Refreshed(state, ts, now, stagger) && id !in state
    ensures exists t :: t in ts && t.edgeID == id && GaugeOf(Refreshed(state, ts, now, stagger)[id]) == Gauge(NormState(t.persisted), 0, 0)
  {
    hide NormState;
    var front, t := ts[..|ts| - 1], ts[|ts| - 1];
    assert ts == front + [t] && t in ts;
    var before := Refreshed(state, front, now, stagger);
    if id !in before {
    } else {
      NewIsSeeded(state, front, now, stagger, id);
      var x :| x in front && x.edgeID == id && GaugeOf(before[id]) == Gauge(NormState(x.persisted), 0, 0);
      assert x in ts;
    }
  }

  /** A reload never changes a known edge's counters or verdict; an edge seen for
      the first time starts at its stored verdict with no streak; the edges are the
      table's. */
  lemma ReloadKeepsVerdicts(state: map<string, EdgeHealth>, ts: seq<Target>, now: int, stagger: map<string, int>)
    ensures Reloaded(state, ts, now, stagger).Keys == EdgeIDs(ts)
    ensures forall id :: id in EdgeIDs(ts) && id in state ==> GaugeOf(Reloaded(state, ts, now, stagger)[id]) == GaugeOf(state[id])
    ensures forall id :: id in EdgeIDs(ts) && id !in state ==>
              exists t :: t in ts && t.edgeID == id && GaugeOf(Reloaded(state, ts, now, stagger)[id]) == Gauge(NormState(t.persisted), 0, 0)
  {
    hide NormState, Refreshed, GaugeOf, EdgeIDs;
    RefreshedKeeps(state, ts, now, stagger);
    forall id | id in EdgeIDs(ts) && id !in state
      ensures exists t :: t in ts && t.edgeID == id && GaugeOf(Reloaded(state, ts, now, stagger)[id]) == Gauge(NormState(t.persisted), 0, 0)
    {
      NewIsSeeded(state, ts, now, stagger, id);
    }
  }

  lemma {:induction false} RefreshedSchedule(state: map<string, EdgeHealth>, ts: seq<Target>, now: int, stagger: map<string, int>, id: string)
    requires id in Refreshed(state, ts, now, stagger)
    ensures var e := Refreshed(state, ts, now, stagger)[id];
            if id in state then e.inflight == state[id].inflight && e.nextDue == state[id].nextDue
            else !e.inflight && e.nextDue == now + if id in stagger then stagger[id] else 0
  {
    hide NormState, EdgeIDs, GaugeOf;
    if ts == [] {
    } else {
      var front := ts[..|ts| - 1];
      RefreshedKeeps(state, front, now, stagger);
      if id in Refreshed(state, front, now, stagger) {
        RefreshedSchedule(state, front, now, stagger, id);
      }
    }
  }

  /** Row i is the last one of its edge. */
  ghost predicate LastRow(ts: seq<Target>, i: int, id: string) {
    0 <= i < |ts| && ts[i].edgeID == id && forall k :: i < k < |ts| ==> ts[k].edgeID != id
  }

  lemma LastRowStays(ts: seq<Target>, i: int, id: string)
    requires ts != [] && ts[|ts| - 1].edgeID != id && LastRow(ts[..|ts| - 1], i, id)
    ensures LastRow(ts, i, id) && 0 <= i < |ts| - 1 && ts[..|ts| - 1][i] == ts[i]
  {
  }

  lemma RefreshedLast(state: map<string, EdgeHealth>, ts: seq<Target>, now: int, stagger: map<string, int>, id: string)
    requires ts != []
    ensures var front, t := ts[..|ts| - 1], ts[|ts| - 1];
            var m, before := Refreshed(state, ts, now, stagger), Refreshed(state, front, now, stagger);
            if t.edgeID == id then id in m && m[id].target == t else (id in before ==> id in m && m[id] == before[id])
  {
    hide NormState;
  }

  lemma {:induction false} RefreshedTarget(state: map<string, EdgeHealth>, ts: seq<Target>, now: int, stagger: map<string, int>, id: string)
    requires id in EdgeIDs(ts)
    ensures id in Refreshed(state, ts, now, stagger) && exists i :: 0 <= i < |ts| && LastRow(ts, i, id) && Refreshed(state, ts, now, stagger)[id].target == ts[i]
  {
    var front, t := ts[..|ts| - 1], ts[|ts| - 1];
    RefreshedLast(state, ts, now, stagger, id);
    hide Refreshed;
    if t.edgeID == id {
      assert LastRow(ts, |ts| - 1, id);
    } else {
      var n :| 0 <= n < |ts| && ts[n].edgeID == id;
      assert front[n].edgeID == id;
      hide EdgeIDs;
      RefreshedTarget(state, front, now, stagger, id);
      hide LastRow;
      var i :| 0 <= i < |front| && LastRow(front, i, id) && Refreshed(state, front, now, stagger)[id].target == front[i];
      LastRowStays(ts, i, id);
    }
  }

  /** Nor does it touch a known edge's schedule: a probe in flight stays in flight and
      the next one stays due when it was; a new edge is due after its stagger. Every
      edge has its settings from its last row. */
  lemma ReloadKeepsSchedule(state: map<string, EdgeHealth>, ts: seq<Target>, now: int, stagger: map<string, int>, id: string)
    requires id in Reloaded(state, ts, now, stagger)
    ensures var e := Reloaded(state, ts, now, stagger)[id];
            (if id in state then e.inflight == state[id].inflight && e.nextDue == state[id].nextDue
             else !e.inflight && e.nextDue == now + if id in stagger then stagger[id] else 0)
            && exists i :: 0 <= i < |ts| && LastRow(ts, i, id) && e.target == ts[i]
  {
    hide Refreshed, EdgeIDs, LastRow;
    RefreshedSchedule(state, ts, now, stagger, id);
    RefreshedTarget(state, ts, now, stagger, id);
  }

  class Checker {
    const cfg: Config
    var state: map<string, EdgeHealth>
    var fired: seq<(string, bool)>

    constructor (cfg: Config)
      ensures this.cfg == WithDefaults(cfg) && state == map[] && fired == []
    {
      this.cfg, state, fired := WithDefaults(cfg), map[], [];
    }

    /** A result of an edge that is gone is dropped. Only the probed edge changes,
        and the callback runs exactly when its verdict does. */
    method HandleResult(edgeID: string, ok: bool)
      modifies this
      ensures edgeID !in old(state) ==> state == old(state) && fired == old(fired)
      ensures edgeID in old(state) ==>
                var e := old(state)[edgeID];
                var f, r := FailThreshold(cfg, e.target), RiseThreshold(cfg, e.target);
                var g := Observed(GaugeOf(e), ok, f, r);
                state == old(state)[edgeID := EdgeHealth(e.target, g.current, g.fails, g.oks, false, e.nextDue)]
                && fired == old(fired) + if Fires(GaugeOf(e), ok, f, r) then [(edgeID, ok)] else []
    {
      if edgeID !in state {
        return;
      }
      var es := state[edgeID].(inflight := false);
      var failTh, riseTh := FailThreshold(cfg, es.target), RiseThreshold(cfg, es.target);
      var transition: Option<bool> := None;
      if ok {
        es := es.(oks := es.oks + 1, fails := 0);
        if es.current != Healthy && es.oks >= riseTh {
          es := es.(current := Healthy);
          transition := Some(true);
        }
      } else {
        es := es.(fails := es.fails + 1, oks := 0);
        if es.current != Unhealthy && es.fails >= failTh {
          es := es.(current := Unhealthy);
          transition := Some(false);
        }
      }
      state := state[edgeID := es];
      if transition.Some? {
        fired := fired + [(edgeID, transition.value)];
      }
    }

    /** Known edges get their new target, new ones are seeded from the table, edges
        that are gone are dropped; no transition fires. */
    method Reload(targets: seq<Target>, now: int, stagger: map<string, int>)
      modifies this`state
      ensures state == Reloaded(old(state), targets, now, stagger)
    {
      hide Seeded, EdgeIDs;
      ghost var was := state;
      assert EdgeIDs([]) == {} by { NoEdges(); }
      var seen: set<string> := {};
      for i := 0 to |targets|
        invariant seen == EdgeIDs(targets[..i])
        invariant state == Refreshed(was, targets[..i], now, stagger)
      {
        var t := targets[i];
        assert targets[..i + 1][..i] == targets[..i];
        SeenSnoc(targets, i);
        seen := seen + {t.edgeID};
        if t.edgeID !in state {
          state := state[t.edgeID := Seeded(t, now, if t.edgeID in stagger then stagger[t.edgeID] else 0)];
        } else {
          state := state[t.edgeID := state[t.edgeID].(target := t)];
        }
      }
      assert targets[..|targets|] == targets;
      DropGone(seen);
    }

    method DropGone(seen: set<string>)
      modifies this`state
      ensures state == map id | id in old(state) && id in seen :: old(state)[id]
    {
      ghost var full := state;
      var left := state.Keys;
      while left != {}
        invariant state == map id | id in full && (id in left || id in seen) :: full[id]
        decreases |left|
      {
        var id :| id in left;
        left := left - {id};
        if id !in seen {
          state := state - {id};
        }
      }
    }

    /** Starts a probe for every enabled edge that is due and has none in flight. */
    method ScheduleDue(now: int) returns (due: set<string>)
      modifies this`state
      ensures due == set id | id in old(state) && old(state)[id].target.enabled && !old(state)[id].inflight && now >= old(state)[id].nextDue
      ensures state.Keys == old(state).Keys
      ensures forall id :: id in state ==>
                state[id] == if id in due then old(state)[id].(inflight := true, nextDue := now + Interval(cfg,
                old(state)[id].target)) else old(state)[id]
    {
      due := {};
      var left := state.Keys;
      while left != {}
        invariant left <= state.Keys && state.Keys == old(state).Keys
        invariant due == set id | id in old(state) && id !in left && old(state)[id].target.enabled && !old(state)[id].inflight
            && now >= old(state)[id].nextDue
        invariant forall id :: id in state ==>
                    state[id] == if id in due then old(state)[id].(inflight := true, nextDue := now + Interval(cfg,
                    old(state)[id].target)) else old(state)[id]
        decreases |left|
      {
        var id :| id in left;
        left := left - {id};
        var es := state[id];
        if !es.target.enabled || es.inflight || now < es.nextDue {
          continue;
        }
        state := state[id := es.(inflight := true, nextDue := now + Interval(cfg, es.target))];
        due := due + {id};
      }
    }
  }

  lemma NoEdges()
    ensures EdgeIDs([]) == {}
  {
  }

  lemma SeenSnoc(ts: seq<Target>, i: nat)
    requires i < |ts|
    ensures EdgeIDs(ts[..i + 1]) == EdgeIDs(ts[..i]) + {ts[i].edgeID}
  {
    assert ts[..i + 1][i] == ts[i];
    forall id | id in EdgeIDs(ts[..i]) ensures id in EdgeIDs(ts[..i + 1]) {
      var k :| 0 <= k < i && ts[..i][k].edgeID == id;
      assert ts[..i + 1][k].edgeID == id;
    }
  }

  // ---------- runs of results with fixed thresholds ----------

  function AfterAll(seed: Verdict, results: seq<bool>, f: int, r: int): Gauge {
    if results == [] then Gauge(seed, 0, 0)
    else Observed(AfterAll(seed, results[..|results| - 1], f, r), results[|results| - 1], f, r)
  }

  /** A transition: after how many results it fired, and to which verdict. */
  datatype Fire = Fire(at: nat, healthy: bool)

  function Fired(seed: Verdict, results: seq<bool>, f: int, r: int): seq<Fire> {
    if results == [] then []
    else
      var before, ok := results[..|results| - 1], results[|results| - 1];
      Fired(seed, before, f, r) + if Fires(AfterAll(seed, before, f, r), ok, f, r) then [Fire(|results|, ok)] else []
  }

  /** Length of the run of equal results at the end. */
  function Trailing(results: seq<bool>, ok: bool): nat {
    if results == [] || results[|results| - 1] != ok then 0 else 1 + Trailing(results[..|results| - 1], ok)
  }

  lemma {:induction false} TrailingIsRun(results: seq<bool>, ok: bool)
    ensures Trailing(results, ok) <= |results|
    ensures forall k :: |results| - Trailing(results, ok) <= k < |results| ==> results[k] == ok
    ensures Trailing(results, ok) < |results| ==> results[|results| - Trailing(results, ok) - 1] != ok
  {
    if results == [] || results[|results| - 1] != ok {
    } else {
      TrailingIsRun(results[..|results| - 1], ok);
    }
  }

  /** The counters are exactly the trailing runs. */
  lemma {:induction false} CountersAreRuns(seed: Verdict, results: seq<bool>, f: int, r: int)
    ensures AfterAll(seed, results, f, r).fails == Trailing(results, false)
    ensures AfterAll(seed, results, f, r).oks == Trailing(results, true)
  {
    if results == [] {
    } else {
      CountersAreRuns(seed, results[..|results| - 1], f, r);
    }
  }

  /** A run of failures as long as its threshold means unhealthy, a run of successes
      as long as its own means healthy, whatever came before and whatever was stored. */
  lemma {:induction false} RunsDecide(seed: Verdict, results: seq<bool>, f: int, r: int)
    requires f > 0 && r > 0
    ensures Trailing(results, false) >= f ==> AfterAll(seed, results, f, r).current == Unhealthy
    ensures Trailing(results, true) >= r ==> AfterAll(seed, results, f, r).current == Healthy
  {
    if results == [] {
    } else {
      var before := results[..|results| - 1];
      RunsDecide(seed, before, f, r);
      CountersAreRuns(seed, before, f, r);
    }
  }

  /** The verdict changes, and the callback runs, exactly at a result that completes a
      run as long as its threshold against the verdict so far. */
  lemma VerdictChangesIff(seed: Verdict, results: seq<bool>, f: int, r: int)
    requires f > 0 && r > 0 && results != []
    ensures var before, ok := results[..|results| - 1], results[|results| - 1];
            var was, now := AfterAll(seed, before, f, r).current, AfterAll(seed, results, f, r).current;
            var against := if ok then Trailing(results, true) >= r && was != Healthy else Trailing(results, false) >= f && was != Unhealthy;
            now == (if against then if ok then Healthy else Unhealthy else was)
            && Fired(seed, results, f, r) == Fired(seed, before, f, r) + if against then [Fire(|results|, ok)] else []
  {
    CountersAreRuns(seed, results[..|results| - 1], f, r);
    FiredLast(seed, results, f, r);
  }

  /** Stored states are read whatever their case and surrounding space; anything but
      the two verdicts is unknown. */
  lemma StoredStateRead(s: string)
    ensures NormState(s) == Healthy <==> Lower(TrimSpace(s)) == "healthy"
    ensures NormState(s) == Unhealthy <==> Lower(TrimSpace(s)) == "unhealthy"
    ensures NormState(" Healthy ") == Healthy && NormState("UNHEALTHY") == Unhealthy && NormState("") == Unknown
  {
    hide TrimSpace, Lower;
    assert TrimSpace(" Healthy ") == "Healthy" && TrimSpace("UNHEALTHY") == "UNHEALTHY" && TrimSpace("") == "" by { TrimExamples(); }
    assert Lower("Healthy") == "healthy" && Lower("UNHEALTHY") == "unhealthy" && Lower("") == "" by { FoldExamples(); }
  }

  lemma TrimExamples()
    ensures TrimSpace(" Healthy ") == "Healthy" && TrimSpace("UNHEALTHY") == "UNHEALTHY" && TrimSpace("") == ""
  {
    assert " Healthy "[1..] == "Healthy " && "Healthy "[..7] == "Healthy";
  }

  lemma FoldExamples()
    ensures Lower("Healthy") == "healthy" && Lower("UNHEALTHY") == "unhealthy" && Lower("") == ""
  {
  }

  function Threshold(healthy: bool, f: int, r: int): int {
    if healthy then r else f
  }

  /** Transition m ends a run of equal results at least as long as its threshold
      that began after transition m - 1, and has the other sign. */
  ghost predicate EndsFreshRun(results: seq<bool>, fires: seq<Fire>, m: nat, f: int, r: int)
    requires m < |fires|
  {
    var th := Threshold(fires[m].healthy, f, r);
    fires[m].at <= |results| && th <= fires[m].at
    && (forall k :: fires[m].at - th <= k < fires[m].at ==> results[k] == fires[m].healthy)
    && (m > 0 ==> fires[m - 1].at <= fires[m].at - th && fires[m].healthy != fires[m - 1].healthy)
  }

  ghost predicate AllFresh(results: seq<bool>, fires: seq<Fire>, f: int, r: int) {
    forall m :: 0 <= m < |fires| ==> EndsFreshRun(results, fires, m, f, r)
  }

  /** The verdict is the last transition's, and the run against it started after it. */
  ghost predicate Matches(seed: Verdict, results: seq<bool>, fires: seq<Fire>, g: Gauge) {
    if fires == [] then g.current == seed
    else
      var last := fires[|fires| - 1];
      last.at <= |results| && g.current == (if last.healthy then Healthy else Unhealthy)
      && (if last.healthy then g.fails else g.oks) <= |results| - last.at
  }

  lemma {:induction false} TransitionsAlternate(seed: Verdict, results: seq<bool>, f: int, r: int)
    requires f > 0 && r > 0
    ensures AllFresh(results, Fired(seed, results, f, r), f, r)
    ensures Matches(seed, results, Fired(seed, results, f, r), AfterAll(seed, results, f, r))
  {
    if results == [] {
    } else {
      var before, ok := results[..|results| - 1], results[|results| - 1];
      TransitionsAlternate(seed, before, f, r);
      CountersAreRuns(seed, results, f, r);
      TrailingIsRun(results, ok);
      FiredLast(seed, results, f, r);
      var g, fires := AfterAll(seed, before, f, r), Fired(seed, before, f, r);
      FreshStays(results, fires, f, r);
      hide Trailing, AfterAll, Fired, AllFresh, EndsFreshRun;
      if Fires(g, ok, f, r) {
        FireIsFresh(results, fires, ok, Trailing(results, ok), f, r);
      } else {
        assert fires + [] == fires;
      }
    }
  }

  lemma FreshStays(results: seq<bool>, fires: seq<Fire>, f: int, r: int)
    requires results != [] && AllFresh(results[..|results| - 1], fires, f, r)
    ensures AllFresh(results, fires, f, r)
  {
    forall m | 0 <= m < |fires| ensures EndsFreshRun(results, fires, m, f, r) {
      assert EndsFreshRun(results[..|results| - 1], fires, m, f, r);
    }
  }

  /** The transition fired by the last result, the last of run equal ones. */
  lemma FireIsFresh(results: seq<bool>, fires: seq<Fire>, ok: bool, run: nat, f: int, r: int)
    requires AllFresh(results, fires, f, r) && Threshold(ok, f, r) <= run <= |results|
    requires forall k :: |results| - run <= k < |results| ==> results[k] == ok
    requires fires != [] ==> fires[|fires| - 1].at <= |results| - run && fires[|fires| - 1].healthy != ok
    ensures AllFresh(results, fires + [Fire(|results|, ok)], f, r)
  {
    var fires' := fires + [Fire(|results|, ok)];
    hide AllFresh, Threshold;
    forall m | 0 <= m < |fires'| ensures EndsFreshRun(results, fires', m, f, r) {
      if m < |fires| {
        SameFire(results, fires, fires', m, f, r);
      } else {
        assert fires'[m] == Fire(|results|, ok);
        assert m > 0 ==> fires'[m - 1] == fires[m - 1];
      }
    }
    AllAreFresh(results, fires', f, r);
  }

  lemma SameFire(results: seq<bool>, fires: seq<Fire>, fires': seq<Fire>, m: nat, f: int, r: int)
    requires m < |fires| && fires <= fires' && AllFresh(results, fires, f, r)
    ensures EndsFreshRun(results, fires', m, f, r)
  {
    assert EndsFreshRun(results, fires, m, f, r);
  }

  lemma AllAreFresh(results: seq<bool>, fires: seq<Fire>, f: int, r: int)
    requires forall m :: 0 <= m < |fires| ==> EndsFreshRun(results, fires, m, f, r)
    ensures AllFresh(results, fires, f, r)
  {
  }

  lemma FiredLast(seed: Verdict, results: seq<bool>, f: int, r: int)
    requires results != []
    ensures var before, ok := results[..|results| - 1], results[|results| - 1];
            var g := AfterAll(seed, before, f, r);
            Fired(seed, results, f, r) == Fired(seed, before, f, r) + (if Fires(g, ok, f, r) then [Fire(|results|, ok)] else [])
            && AfterAll(seed, results, f, r) == Observed(g, ok, f, r)
  {
  }

  lemma FreshFacts(results: seq<bool>, fires: seq<Fire>, m: nat, f: int, r: int)
    requires m < |fires| && AllFresh(results, fires, f, r)
    ensures Threshold(fires[m].healthy, f, r) <= fires[m].at <= |results|
    ensures m > 0 ==> fires[m - 1].at + Threshold(fires[m].healthy, f, r) <= fires[m].at && fires[m].healthy != fires[m - 1].healthy
  {
    assert EndsFreshRun(results, fires, m, f, r);
  }

  /** Fresh runs do not overlap: transition m fires after the results of all runs
      up to it. */
  lemma {:induction false} RunsAddUp(results: seq<bool>, fires: seq<Fire>, m: nat, f: int, r: int)
    requires f > 0 && r > 0 && m < |fires| && AllFresh(results, fires, f, r)
    ensures 2 * fires[m].at >= (m + 1) * (f + r) - (if f < r then r - f else f - r)
    ensures m % 2 == 1 ==> 2 * fires[m].at >= (m + 1) * (f + r)
  {
    hide AllFresh;
    FreshFacts(results, fires, m, f, r);
    if m == 0 {
    } else if m == 1 {
      FreshFacts(results, fires, 0, f, r);
    } else {
      RunsAddUp(results, fires, m - 2, f, r);
      FreshFacts(results, fires, m - 1, f, r);
      OneMore(m - 1, f + r);
    }
  }

  /** The flap bound: n results fire k transitions with k*(f+r) <= 2n + |f-r|, which
      is at most 2n/(f+r) + 1. */
  lemma FlapBound(seed: Verdict, results: seq<bool>, f: int, r: int)
    requires f > 0 && r > 0
    ensures var k, n := |Fired(seed, results, f, r)|, |results|;
            k * (f + r) <= 2 * n + (if f < r then r - f else f - r) && k <= 2 * n / (f + r) + 1
  {
    var fires := Fired(seed, results, f, r);
    var k, n := |fires|, |results|;
    TransitionsAlternate(seed, results, f, r);
    if k > 0 {
      RunsAddUp(results, fires, k - 1, f, r);
      assert EndsFreshRun(results, fires, k - 1, f, r);
    }
    DivideBound(k, 2 * n, f + r);
  }

  lemma DivideBound(k: int, a: int, c: int)
    requires c > 0 && k * c < a + c
    ensures k <= a / c + 1
  {
    assert a < (a / c + 1) * c by { assert a == a / c * c + a % c; }
    if k > a / c + 1 {
      MulMonotone(a / c + 2, k, c);
    }
  }
}

/** What a rollout does get done: healthy edges finish, scheduled rollouts start on
    time, a pause changes nothing, and a rollback leads back. */
module RolloutLaws {
  import opened Text
  import opened Rollout
  import opened RolloutRuns

  // ---------- a healthy edge finishes ----------

  /** Every tick sees the edge online, healthy and on the new version, and no call
      touches rollout i. */
  ghost predicate AllWell(evs: seq<Event>, i: nat, edge: string, version: string) {
    forall k :: 0 <= k < |evs| ==>
      if evs[k].Tick? then evs[k].edges(edge).online && evs[k].edges(edge).healthy && evs[k].edges(edge).version == version
      else Spares(evs[k].call, i)
  }

  /** The time of the first tick. */
  function FirstTime(evs: seq<Event>): Option<int> {
    if evs == [] then None
    else
      var t := FirstTime(evs[..|evs| - 1]);
      if t.None? && evs[|evs| - 1].Tick? then Some(evs[|evs| - 1].now) else t
  }

  ghost predicate TickFrom(evs: seq<Event>, from: int) {
    exists k :: 0 <= k < |evs| && evs[k].Tick? && evs[k].now >= from
  }

  /** Target j of rollout i, in flight as t in a rollout with that soak, after evs. */
  ghost predicate OnItsWay(rs: seq<Rollout>, i: nat, j: nat, t: Target, soak: int, evs: seq<Event>) {
    i < |rs| && j < |rs[i].targets| && rs[i].soak == soak && rs[i].targets[j].to == t.to
    && var start := if t.state.Soaking? then Some(t.updatedAt) else FirstTime(evs);
       var now := rs[i].targets[j];
       now.edgeID == t.edgeID
       && if start.None? then rs[i].status.Running? && now == t
          else if TickFrom(evs, start.value + soak) then now.state.Finished?
          else rs[i].status.Running? && now.state.Soaking? && now.soakUntil == Some(start.value + soak)
  }

  lemma OneInFlight(r: Rollout, j: nat)
    requires Sound(r) && j < |r.targets| && InFlight(r.targets[j])
    ensures FirstInFlight(r.targets) == Some(j)
  {
    Shape(r, j);
    OnlyInFlight(r.targets, j);
  }

  /** What one tick that sees all well does to the target in flight. */
  lemma WellTick(r: Rollout, j: nat, edges: string -> EdgeState, now: int, grace: int)
    requires Sound(r) && r.status.Running? && j < |r.targets| && InFlight(r.targets[j]) && HealthyOnNew(r.targets[j], edges(r.targets[j].edgeID))
    ensures var r' := TickedOne(r, edges, now, grace);
            var t, t' := r.targets[j], r'.targets[j];
            r'.status.Running? && t'.edgeID == t.edgeID && t'.to == t.to && r'.soak == r.soak && |r'.targets| == |r.targets|
            && if t.state.InProgress? then t'.state.Soaking? && t'.soakUntil == Some(now + r.soak)
               else if now >= t.soakUntil.value then t'.state.Finished? else t' == t
  {
    OneInFlight(r, j);
    hide FirstInFlight, FirstQueued, InOrder;
    assert r.targets[j].state.Soaking? ==> r.targets[j].soakUntil.Some?;
  }

  /** A target that is over is never touched again, whatever happens. */
  lemma OverStays(rs: seq<Rollout>, e: Event, grace: int, i: nat, j: nat)
    requires World(rs) && i < |rs| && j < |rs[i].targets| && Terminal(rs[i].targets[j])
    ensures i < |Step(rs, e, grace)| && j < |Step(rs, e, grace)[i].targets|
    ensures Step(rs, e, grace)[i].targets[j] == rs[i].targets[j] && Step(rs, e, grace)[i].soak == rs[i].soak
  {
    hide NewTargets, Distinct, RollbackTo, TickedOne, Sound, Terminal;
    if e.Tick? && ActiveID(rs) == Some(i) {
      TickSparesOver(rs[i], e.edges, e.now, grace, j);
    }
  }

  lemma TickSparesOver(r: Rollout, edges: string -> EdgeState, now: int, grace: int, j: nat)
    requires j < |r.targets| && Terminal(r.targets[j])
    ensures var r' := TickedOne(r, edges, now, grace); j < |r'.targets| && r'.targets[j] == r.targets[j] && r'.soak == r.soak
  {
  }

  lemma FromSnoc(evs: seq<Event>, from: int)
    requires evs != []
    ensures var before, e := evs[..|evs| - 1], evs[|evs| - 1];
            TickFrom(evs, from) <==> TickFrom(before, from) || (e.Tick? && e.now >= from)
  {
    var before, e := evs[..|evs| - 1], evs[|evs| - 1];
    if TickFrom(before, from) {
      var k :| 0 <= k < |before| && before[k].Tick? && before[k].now >= from;
      assert evs[k] == before[k];
    }
    if TickFrom(evs, from) && !(e.Tick? && e.now >= from) {
      var k :| 0 <= k < |evs| && evs[k].Tick? && evs[k].now >= from;
      assert before[k] == evs[k];
    }
  }

  lemma {:induction false} NoTickBefore(evs: seq<Event>, from: int)
    requires FirstTime(evs).None?
    ensures !TickFrom(evs, from)
  {
    if evs == [] {
    } else {
      NoTickBefore(evs[..|evs| - 1], from);
      FromSnoc(evs, from);
    }
  }

  /** A target in flight whose edge every tick sees online, healthy and on the new
      version is never broken or skipped. Its soak starts at the first tick, or has
      started, and it is finished by the first tick that comes the soak window later. */
  lemma {:induction false} HealthyTargetFinishes(rs: seq<Rollout>, i: nat, j: nat, evs: seq<Event>, grace: int)
    requires World(rs) && i < |rs| && rs[i].status.Running? && j < |rs[i].targets| && InFlight(rs[i].targets[j])
    requires AllWell(evs, i, rs[i].targets[j].edgeID, rs[i].version)
    ensures World(After(rs, evs, grace)) && OnItsWay(After(rs, evs, grace), i, j, rs[i].targets[j], rs[i].soak, evs)
  {
    hide World, Step;
    if evs == [] {
      StartsOnItsWay(rs, i, j);
    } else {
      var before, e := evs[..|evs| - 1], evs[|evs| - 1];
      assert forall k :: 0 <= k < |before| ==> before[k] == evs[k];
      HealthyTargetFinishes(rs, i, j, before, grace);
      var mid := After(rs, before, grace);
      StepKeepsWorld(mid, e, grace);
      VersionIsTo(rs, i, j);
      StepOnItsWay(mid, i, j, rs[i].targets[j], rs[i].soak, evs, grace);
    }
  }

  lemma StartsOnItsWay(rs: seq<Rollout>, i: nat, j: nat)
    requires World(rs) && i < |rs| && rs[i].status.Running? && j < |rs[i].targets| && InFlight(rs[i].targets[j])
    ensures OnItsWay(rs, i, j, rs[i].targets[j], rs[i].soak, [])
  {
    assert Sound(rs[i]);
  }

  lemma VersionIsTo(rs: seq<Rollout>, i: nat, j: nat)
    requires World(rs) && i < |rs| && j < |rs[i].targets|
    ensures rs[i].targets[j].to == rs[i].version && rs[i].soak > 0
  {
    assert Sound(rs[i]);
  }

  lemma FinishedIsOver(t: Target)
    requires t.state.Finished?
    ensures Terminal(t)
  {
  }

  lemma OnlyOneActive(rs: seq<Rollout>, i: nat)
    requires World(rs) && i < |rs| && IsActive(rs[i].status)
    ensures forall k :: 0 <= k < |rs| && k != i ==> !IsActive(rs[k].status)
  {
  }

  lemma StepOnItsWay(rs: seq<Rollout>, i: nat, j: nat, t: Target, soak: int, evs: seq<Event>, grace: int)
    requires World(rs) && evs != [] && InFlight(t) && soak > 0
    requires OnItsWay(rs, i, j, t, soak, evs[..|evs| - 1])
    requires var e := evs[|evs| - 1];
             if e.Tick? then HealthyOnNew(t, e.edges(t.edgeID)) else Spares(e.call, i)
    ensures OnItsWay(Step(rs, evs[|evs| - 1], grace), i, j, t, soak, evs)
  {
    var before, e := evs[..|evs| - 1], evs[|evs| - 1];
    var start := if t.state.Soaking? then Some(t.updatedAt) else FirstTime(before);
    assert Sound(rs[i]);
    hide Step, Sound, TickFrom, TickedOne, World, Terminal;
    if start.Some? {
      FromSnoc(evs, start.value + soak);
    } else if e.Tick? {
      FromSnoc(evs, e.now + soak);
      NoTickBefore(before, e.now + soak);
    }
    if rs[i].targets[j].state.Finished? {
      assert Terminal(rs[i].targets[j]) by { FinishedIsOver(rs[i].targets[j]); }
      OverStays(rs, e, grace, i, j);
    } else if e.Admin? {
      SparedStays(rs, e, grace, i);
    } else {
      OnlyOneActive(rs, i);
      OnlyActive(rs, i);
      WellTick(rs[i], j, e.edges, e.now, grace);
      TickIs(rs, e, grace, i);
    }
  }

  lemma TickIs(rs: seq<Rollout>, e: Event, grace: int, i: nat)
    requires e.Tick? && ActiveID(rs) == Some(i)
    ensures Step(rs, e, grace) == rs[i := TickedOne(rs[i], e.edges, e.now, grace)]
  {
  }

  // ---------- a scheduled rollout starts on time ----------

  lemma ScheduledStep(rs: seq<Rollout>, e: Event, grace: int, i: nat)
    requires World(rs) && i < |rs| && rs[i].status.Scheduled? && rs[i].scheduledAt.Some? && (e.Admin? ==> Spares(e.call, i))
    ensures i < |Step(rs, e, grace)|
    ensures Step(rs, e, grace)[i] ==
            if e.Tick? && e.now >= rs[i].scheduledAt.value then rs[i].(status := Running, startedAt := Some(e.now)) else rs[i]
  {
    assert Sound(rs[i]);
    OnlyActive(rs, i);
    hide Sound, NewTargets, Distinct, RollbackTo, ActiveID, TickedRunning;
  }

  lemma NeverScheduledAgain(rs: seq<Rollout>, e: Event, grace: int, i: nat)
    requires i < |rs| && !rs[i].status.Scheduled?
    ensures i < |Step(rs, e, grace)| && !Step(rs, e, grace)[i].status.Scheduled?
  {
    hide NewTargets, Distinct, RollbackTo, ActiveID, FirstInFlight, FirstQueued;
  }

  /** A scheduled rollout, left alone, stays as it is until the first tick at or after
      its time, and has been running from that tick on. */
  lemma {:induction false} ScheduledStartsOnTime(rs: seq<Rollout>, i: nat, evs: seq<Event>, grace: int)
    requires World(rs) && i < |rs| && rs[i].status.Scheduled? && rs[i].scheduledAt.Some?
    requires forall k :: 0 <= k < |evs| && evs[k].Admin? ==> Spares(evs[k].call, i)
    ensures World(After(rs, evs, grace)) && i < |After(rs, evs, grace)|
    ensures if TickFrom(evs, rs[i].scheduledAt.value) then !After(rs, evs, grace)[i].status.Scheduled? else After(rs, evs, grace)[i] == rs[i]
    ensures evs != [] && TickFrom(evs, rs[i].scheduledAt.value) && !TickFrom(evs[..|evs| - 1], rs[i].scheduledAt.value) ==>
              After(rs, evs, grace)[i] == rs[i].(status := Running, startedAt := Some(evs[|evs| - 1].now))
  {
    hide World, Step, TickFrom;
    if evs == [] {
      assert !TickFrom(evs, rs[i].scheduledAt.value) by { NoTickBefore(evs, rs[i].scheduledAt.value); }
    } else {
      var before, e := evs[..|evs| - 1], evs[|evs| - 1];
      assert forall k :: 0 <= k < |before| ==> before[k] == evs[k];
      ScheduledStartsOnTime(rs, i, before, grace);
      FromSnoc(evs, rs[i].scheduledAt.value);
      var mid := After(rs, before, grace);
      StepKeepsWorld(mid, e, grace);
      if TickFrom(before, rs[i].scheduledAt.value) {
        NeverScheduledAgain(mid, e, grace, i);
      } else {
        ScheduledStep(mid, e, grace, i);
      }
    }
  }

  // ---------- a pause changes nothing ----------

  lemma PausedTick(rs: seq<Rollout>, i: nat, edges: string -> EdgeState, now: int, grace: int)
    requires i < |rs| && rs[i].status.Paused? && forall k :: 0 <= k < |rs| && k != i ==> !IsActive(rs[k].status)
    ensures Ticked(rs, edges, now, grace) == rs
  {
    OnlyActive(rs, i);
  }

  lemma {:induction false} PausedTicks(rs: seq<Rollout>, i: nat, evs: seq<Event>, grace: int)
    requires i < |rs| && rs[i].status.Paused? && forall k :: 0 <= k < |rs| && k != i ==> !IsActive(rs[k].status)
    requires forall k :: 0 <= k < |evs| ==> evs[k].Tick?
    ensures After(rs, evs, grace) == rs
  {
    if evs == [] {
    } else {
      PausedTicks(rs, i, evs[..|evs| - 1], grace);
      PausedTick(rs, i, evs[|evs| - 1].edges, evs[|evs| - 1].now, grace);
    }
  }

  /** Pausing a running rollout, any number of ticks, whatever they see, and resuming
      it leave every rollout as it was: a soak under way is neither lost nor stretched. */
  lemma PauseHolds(rs: seq<Rollout>, i: nat, evs: seq<Event>, grace: int, releases: set<string>, from: map<string, string>, now: int, later: int)
    requires World(rs) && i < |rs| && rs[i].status.Running? && forall k :: 0 <= k < |evs| ==> evs[k].Tick?
    ensures var paused := Called(rs, Pause(i), releases, from, now);
            paused[i].status.Paused? && Called(After(paused, evs, grace), Resume(i), releases, from, later) == rs
  {
    assert Sound(rs[i]);
    var paused := Called(rs, Pause(i), releases, from, now);
    PausedTicks(paused, i, evs, grace);
    hide Sound, After;
    assert paused[i := rs[i]] == rs;
  }

  // ---------- calls ----------

  /** A start is accepted exactly when the release is known, some edge is named, none
      twice, and no rollout is scheduled, running or paused; it changes nothing else. */
  lemma StartAcceptedIff(rs: seq<Rollout>, version: string, pops: seq<string>, soak: int, at: Option<int>,
                         releases: set<string>, from: map<string, string>, now: int)
    ensures var rs' := Called(rs, Start(version, pops, soak, at), releases, from, now);
            var ok := version != "" && version in releases && pops != [] && (forall i, j :: 0 <= i < j < |pops| ==> pops[i] != pops[j])
                      && forall i :: 0 <= i < |rs| ==> rs[i].status.Done? || rs[i].status.Failed? || rs[i].status.Cancelled?;
            if !ok then rs' == rs
            else
              |rs'| == |rs| + 1 && rs'[..|rs|] == rs
              && var r := rs'[|rs|];
                 r.version == version && r.pops == pops && r.soak == (if soak >= 1 then soak else 90)
                 && r.status == (if at.Some? then Scheduled else Running) && r.scheduledAt == at
                 && (forall t :: t in r.targets <==>
                       exists k :: 0 <= k < |pops| && t == Target(pops[k], if pops[k] in from then from[pops[k]] else "", version, Queued, "", None, now))
  {
    if Distinct(pops) { FreshTargets(pops, version, from, now); }
    hide NewTargets, InOrder;
    assert ActiveID(rs).None? <==> forall i :: 0 <= i < |rs| ==> rs[i].status.Done? || rs[i].status.Failed? || rs[i].status.Cancelled?;
    hide ActiveID;
  }

  lemma FreshTargets(pops: seq<string>, version: string, from: map<string, string>, now: int)
    requires Distinct(pops)
    ensures forall t :: t in NewTargets(pops, version, from, now) <==>
              exists k :: 0 <= k < |pops| && t == Target(pops[k], if pops[k] in from then from[pops[k]] else "", version, Queued, "", None, now)
  {
    NewTargetsAre(pops, version, from, now);
    hide NewTargets, InOrder;
    forall t: Target ensures t.edgeID in pops && t == Fresh(t.edgeID, version, from, now)
                             <==> exists k :: 0 <= k < |pops| && t == Fresh(pops[k], version, from, now) { }
  }

  /** A cancelled rollout is over for good, and its targets stay as they are. */
  lemma CancelStops(rs: seq<Rollout>, i: nat, releases: set<string>, from: map<string, string>, now: int, evs: seq<Event>, grace: int)
    requires i < |rs|
    ensures var stopped := Called(rs, Cancel(i), releases, from, now);
            stopped[i].status.Cancelled? && stopped[i].targets == rs[i].targets
            && (forall k :: 0 <= k < |rs| && k != i ==> stopped[k] == rs[k])
            && i < |After(stopped, evs, grace)| && !IsActive(After(stopped, evs, grace)[i].status)
            && After(stopped, evs, grace)[i].targets == rs[i].targets
  {
    OverIsOver(Called(rs, Cancel(i), releases, from, now), evs, grace, i);
    hide After;
  }

  /** A rollback without a version leads back: if the targets that have been opened came
      from version v, a new rollout to v runs on the same edges, and the one rolled
      back is over. */
  lemma RollbackLeadsBack(rs: seq<Rollout>, i: nat, v: string, releases: set<string>, from: map<string, string>, now: int)
    requires World(rs) && i < |rs| && v != "" && v in releases && Distinct(rs[i].pops)
    requires forall k :: 0 <= k < |rs| && k != i ==> !IsActive(rs[k].status)
    requires (forall j :: 0 <= j < |rs[i].targets| ==> rs[i].targets[j].from in {"", v})
             && exists j :: 0 <= j < |rs[i].targets| && rs[i].targets[j].from == v
    ensures var rs' := Called(rs, Rollback(i, ""), releases, from, now);
            |rs'| == |rs| + 1 && !IsActive(rs'[i].status) && rs'[i].targets == rs[i].targets
            && rs'[|rs|].version == v && rs'[|rs|].status.Running? && rs'[|rs|].soak == rs[i].soak
            && forall e :: e in rs[i].pops <==> exists t :: t in rs'[|rs|].targets && t.edgeID == e && t.to == v && t.state.Queued?
  {
    hide *;
    FromIsFound(rs[i].targets, v);
    RolledBackTo(rs, i, v, releases, from, now);
    FreshTargets(rs[i].pops, v, from, now);
    var rs' := Called(rs, Rollback(i, ""), releases, from, now);
    forall e | e in rs[i].pops ensures exists t :: t in rs'[|rs|].targets && t.edgeID == e && t.to == v && t.state.Queued? {
      var k :| 0 <= k < |rs[i].pops| && rs[i].pops[k] == e;
      assert Target(e, if e in from then from[e] else "", v, Queued, "", None, now) in rs'[|rs|].targets;
    }
  }

  lemma RolledBackTo(rs: seq<Rollout>, i: nat, v: string, releases: set<string>, from: map<string, string>, now: int)
    requires World(rs) && i < |rs| && v != "" && v in releases && Distinct(rs[i].pops) && FirstFrom(rs[i].targets) == v
    requires forall k :: 0 <= k < |rs| && k != i ==> !IsActive(rs[k].status)
    ensures var rs' := Called(rs, Rollback(i, ""), releases, from, now);
            |rs'| == |rs| + 1 && !IsActive(rs'[i].status) && rs'[i].targets == rs[i].targets
            && rs'[|rs|].version == v && rs'[|rs|].status.Running? && rs'[|rs|].soak == rs[i].soak
            && rs'[|rs|].targets == NewTargets(rs[i].pops, v, from, now)
  {
    assert rs[i].soak > 0 by { hide InOrder; assert Sound(rs[i]); }
    hide World, Sound, NewTargets, FirstFrom, Distinct;
    var stopped := if IsActive(rs[i].status) then rs[i := WithStatus(rs[i], Cancelled, "rolled back", now)] else rs;
    assert ActiveID(stopped).None?;
  }

  lemma FromIsFound(ts: seq<Target>, v: string)
    requires v != "" && (forall j :: 0 <= j < |ts| ==> ts[j].from in {"", v}) && exists j :: 0 <= j < |ts| && ts[j].from == v
    ensures FirstFrom(ts) == v
  {
  }

  // ---------- stamps and reasons ----------

  /** The event that ends a rollout stamps its finish with its own time. */
  lemma EndIsStamped(rs: seq<Rollout>, e: Event, grace: int, i: nat)
    requires i < |rs| && i < |Step(rs, e, grace)| && IsActive(rs[i].status) && !IsActive(Step(rs, e, grace)[i].status)
    ensures Step(rs, e, grace)[i].finishedAt == Some(e.now)
  {
    hide NewTargets, Distinct, RollbackTo, TickedOne, ActiveID;
    if e.Tick? && ActiveID(rs) == Some(i) { TickStamps(rs[i], e.edges, e.now, grace); }
  }

  lemma TickStamps(r: Rollout, edges: string -> EdgeState, now: int, grace: int)
    requires IsActive(r.status) && !IsActive(TickedOne(r, edges, now, grace).status)
    ensures TickedOne(r, edges, now, grace).finishedAt == Some(now)
  {
    hide FirstInFlight, FirstQueued;
  }

  /** A broken target, and the rollout it halted, say why; so does a skipped one. */
  ghost predicate EndsSayWhy(r: Rollout) {
    forall j :: 0 <= j < |r.targets| ==>
      (r.targets[j].state.Broken? ==>
         r.targets[j].reason == r.reason == "edge did not report a healthy new version within the soak window")
      && (r.targets[j].state.Skipped? ==> r.targets[j].reason == "edge offline at its turn")
  }

  lemma TickSaysWhy(r: Rollout, edges: string -> EdgeState, now: int, grace: int)
    requires Sound(r) && IsActive(r.status) && EndsSayWhy(r)
    ensures EndsSayWhy(TickedOne(r, edges, now, grace))
  {
    hide InOrder;
  }

  lemma CreatedSaysWhy(rs: seq<Rollout>, version: string, pops: seq<string>, soak: int, scheduledAt: Option<int>, from: map<string, string>, now: int)
    requires forall i :: 0 <= i < |rs| ==> EndsSayWhy(rs[i])
    ensures var rs' := Created(rs, version, pops, soak, scheduledAt, from, now); forall i :: 0 <= i < |rs'| ==> EndsSayWhy(rs'[i])
  {
    var rs' := Created(rs, version, pops, soak, scheduledAt, from, now);
    if rs' != rs {
      NewTargetsAre(pops, version, from, now);
      hide NewTargets, Distinct, ActiveID, InOrder;
      forall j | 0 <= j < |rs'[|rs|].targets| ensures rs'[|rs|].targets[j].state.Queued? { assert rs'[|rs|].targets[j] in rs'[|rs|].targets; }
    }
  }

  lemma StepSaysWhy(rs: seq<Rollout>, e: Event, grace: int)
    requires World(rs) && forall i :: 0 <= i < |rs| ==> EndsSayWhy(rs[i])
    ensures forall i :: 0 <= i < |Step(rs, e, grace)| ==> EndsSayWhy(Step(rs, e, grace)[i])
  {
    hide Created, TickedOne, Sound, RollbackTo;
    match e
    case Tick(edges, now) =>
      var id := ActiveID(rs);
      if id.Some? { TickSaysWhy(rs[id.value], edges, now, grace); }
    case Admin(call, releases, from, now) =>
      match call
      case Start(version, pops, soak, scheduledAt) => CreatedSaysWhy(rs, version, pops, soak, scheduledAt, from, now);
      case Rollback(id, version) =>
        if 0 <= id < |rs| {
          assert Sound(rs[id]);
          if IsActive(rs[id].status) { StoppedSaysWhy(rs[id], now); }
          var stopped := if IsActive(rs[id].status) then rs[id := WithStatus(rs[id], Cancelled, "rolled back", now)] else rs;
          CreatedSaysWhy(stopped, RollbackTo(rs[id], version), rs[id].pops, rs[id].soak, None, from, now);
        }
      case _ =>
  }

  lemma StoppedSaysWhy(r: Rollout, now: int)
    requires Sound(r) && IsActive(r.status) && EndsSayWhy(r)
    ensures EndsSayWhy(WithStatus(r, Cancelled, "rolled back", now))
  {
    hide InOrder;
  }

  /** In every run from an empty store a failure keeps its reason, also when the failed
      rollout is cancelled afterwards. */
  lemma {:induction false} FailuresSayWhy(evs: seq<Event>, grace: int)
    ensures World(After([], evs, grace)) && forall i :: 0 <= i < |After([], evs, grace)| ==> EndsSayWhy(After([], evs, grace)[i])
  {
    hide World, Step, EndsSayWhy;
    if evs == [] {
      assert World([]) by { NoRollouts(); }
    } else {
      FailuresSayWhy(evs[..|evs| - 1], grace);
      StepKeepsWorld(After([], evs[..|evs| - 1], grace), evs[|evs| - 1], grace);
      StepSaysWhy(After([], evs[..|evs| - 1], grace), evs[|evs| - 1], grace);
    }
  }

  lemma NoRollouts()
    ensures World([])
  {
  }
}

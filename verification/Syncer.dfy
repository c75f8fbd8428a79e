/** The syncer at work (syncer.go): one Bunny zone behind calls that may each fail, and
    the reconcile that lists, plans and writes it. */
module Syncer {
  import opened Text
  import opened Records
  import opened Regions
  import opened Reconcile
  import opened Converge
  import opened Rotation
  import opened Frames
  import opened ReconcilePass
  import opened ReconcileTheorems
  import opened Faults
  import opened Live
  import opened Bunny

  // ---------- plans as the planners hand them over ----------

  /** done is exactly the plan up to where it ends: no add was made twice. */
  ghost predicate Prefix(plan: seq<Action>, done: seq<Action>) {
    |done| <= |plan| && PlannedAll(done) == PlannedAll(plan)[..|done|]
  }

  /** What Apply did of a plan is a cut of it, all of it when every call was
      acknowledged, and without repetition when no add was made twice. */
  lemma DoneIsCut(plan: seq<Action>, done: seq<Action>, ws: seq<Want>, managed: map<string, Record>, relics: map<string, Record>)
    requires IsPlan(plan, PlanWants(ws, managed, relics)) && Carries(PlannedAll(plan), done)
    ensures CutPlan(done, PlanWants(ws, managed, relics))
    ensures PlannedAll(done) == PlannedAll(plan) ==> IsPlan(PlannedAll(done), PlanWants(ws, managed, relics))
    ensures (forall i, j :: 0 <= i < j < |ws| ==> ws[i].edgeID != ws[j].edgeID) && Prefix(plan, done) ==> Once(done)
  {
    hide IsPlan, PlanWants, Carries, Once;
    PlansArePlanned(plan, ws, managed, relics);
    if (forall i, j :: 0 <= i < j < |ws| ==> ws[i].edgeID != ws[j].edgeID) && Prefix(plan, done) {
      PrefixIsOnce(ws, managed, relics, plan, done);
    }
  }

  /** With no reply lost, what was acknowledged is what was done. */
  lemma NothingLost(plan: seq<Action>, applied: seq<Action>, done: seq<Action>)
    requires Part(applied, done) && |applied| <= |plan| && PlannedAll(applied) == PlannedAll(plan[..|applied|]) && |done| == |applied|
    ensures applied == done && (|applied| == |plan| ==> PlannedAll(done) == PlannedAll(plan))
  {
    hide Part;
    PartOf(applied, done);
    assert plan[..|plan|] == plan;
  }

  lemma OrphansArePlanned(records: seq<Record>, active: set<int>)
    ensures forall a :: a in OrphanActions(records, active) ==> a.kind.Remove?
  {
  }

  // ---------- runs grow at the end ----------

  lemma {:induction false} RunSnoc(snap: seq<Record>, rs: seq<Record>, zones: seq<ZoneRouting>, zr: ZoneRouting, eps: seq<Endpoint>,
                                   o: Opts, runs: seq<seq<Action>>, run: seq<Action>)
    requires CutRun(snap, rs, zones, eps, o, runs)
    requires CutPlan(run, ZoneProgress(zr, eps, snap, o)) && Accepted(ZonesEnd(rs, runs), run)
    ensures CutRun(snap, rs, zones + [zr], eps, o, runs + [run])
    ensures ZonesEnd(rs, runs + [run]) == Execute(ZonesEnd(rs, runs), run)
    ensures StaleRun(snap, rs, zones, eps, o, runs) && IsPlan(PlannedAll(run), ZoneProgress(zr, eps, snap, o))
            ==> StaleRun(snap, rs, zones + [zr], eps, o, runs + [run])
    decreases |zones|
  {
    hide Execute, CutPlan, IsPlan, Accepted, ZoneProgress, PlannedAll;
    if zones == [] {
      assert [zr][1..] == [] && [run][1..] == [];
      assert zones + [zr] == [zr] && runs + [run] == [run];
    } else {
      assert (zones + [zr])[0] == zones[0] && (zones + [zr])[1..] == zones[1..] + [zr];
      assert (runs + [run])[0] == runs[0] && (runs + [run])[1..] == runs[1..] + [run];
      RunSnoc(snap, Execute(rs, runs[0]), zones[1..], zr, eps, o, runs[1..], run);
    }
  }

  // ---------- the syncer ----------

  /** All audited actions of a pass; the wildcard is created without an audit entry. */
  function Audited(pass: Pass): seq<Action> {
    pass.apex + Flat(pass.zones) + pass.orphans
  }

  function Flat(runs: seq<seq<Action>>): seq<Action> {
    if runs == [] then [] else Flat(runs[..|runs| - 1]) + runs[|runs| - 1]
  }

  lemma {:induction false} FlatRunsInARow(rs: seq<Record>, runs: seq<seq<Action>>)
    ensures ZonesEnd(rs, runs) == Execute(rs, Flat(runs))
  {
    if runs == [] {
      NothingYet(rs);
    } else {
      var front, last := runs[..|runs| - 1], runs[|runs| - 1];
      FlatRunsInARow(rs, front);
      ZonesEndSnoc(rs, front, last);
      assert runs == front + [last];
      ExecuteConcat(rs, Flat(front), last);
    }
  }

  lemma {:induction false} ZonesEndSnoc(rs: seq<Record>, runs: seq<seq<Action>>, run: seq<Action>)
    ensures ZonesEnd(rs, runs + [run]) == Execute(ZonesEnd(rs, runs), run)
    decreases |runs|
  {
    hide Execute;
    if runs == [] {
      assert ([run])[1..] == [] && runs + [run] == [run];
    } else {
      assert (runs + [run])[1..] == runs[1..] + [run];
      ZonesEndSnoc(Execute(rs, runs[0]), runs[1..], run);
    }
  }

  /** The audit trail is complete: replayed on the records as they were after the
      wildcard was ensured, it gives the records as they are now. */
  lemma AuditReplays(rs: seq<Record>, pass: Pass)
    ensures AfterPass(rs, pass) == Execute(AfterWildcard(rs, pass), Audited(pass))
  {
    hide Execute;
    var rs1 := AfterWildcard(rs, pass);
    ExecuteConcat(rs1, pass.apex + Flat(pass.zones), pass.orphans);
    ExecuteConcat(rs1, pass.apex, Flat(pass.zones));
    FlatRunsInARow(AfterApex(rs, pass), pass.zones);
  }

  class Syncer {
    const client: Client
    const routing: string
    const ttl: int
    const staleAfter: int
    const mode: string
    const monitorType: int
    const regions: map<string, RegionLoc>
    var audit: seq<Action>

    constructor (client: Client, routing: string, ttl: int, staleAfter: int, mode: string, monitorType: int,
                 regions: map<string, RegionLoc>)
      ensures this.client == client && audit == []
    {
      this.client, this.routing, this.ttl, this.staleAfter := client, routing, ttl, staleAfter;
      this.mode, this.monitorType, this.regions, audit := mode, monitorType, regions, [];
    }

    function OptsAt(now: int): Opts {
      Opts(routing, ttl, staleAfter, mode, monitorType, now, regions)
    }

    function InputsOf(eps: seq<Endpoint>, zones: seq<ZoneRouting>, now: int, zoneNow: int): Inputs {
      Inputs(eps, zones, OptsAt(now), zoneNow, client.domain)
    }

    /** Every zone plan and the sweep come from one listing. A failing zone does not
        stop the next one. */
    method ReconcileZones(zones: seq<ZoneRouting>, eps: seq<Endpoint>, now: int)
      returns (listed: bool, ghost runs: seq<seq<Action>>, ghost orphans: seq<Action>, ghost seen: seq<seq<Action>>, ghost swept: seq<Action>)
      modifies this`audit, client
      ensures !listed ==> client.records == old(client.records) && audit == old(audit) && client.faults > old(client.faults)
      ensures client.faults >= old(client.faults) && client.lost >= old(client.lost) && client.twins >= old(client.twins)
      ensures listed ==> CutRun(old(client.records), old(client.records), zones, eps, OptsAt(now), runs)
      ensures listed ==> orphans <= OrphanActions(old(client.records), ActiveIDs(zones))
                         && Accepted(ZonesEnd(old(client.records), runs), orphans)
      ensures listed ==> client.records == Execute(ZonesEnd(old(client.records), runs), orphans)
      ensures listed ==> audit == old(audit) + Flat(seen) + swept && Parts(seen, runs) && Part(swept, orphans)
      ensures client.lost == old(client.lost) ==> seen == runs && swept == orphans
      ensures ZonesOK(zones, routing) && ttl != 0 && client.twins == old(client.twins) ==> AllOnce(runs)
      ensures client.faults == old(client.faults) && client.lost == old(client.lost) ==>
                StaleRun(old(client.records), old(client.records), zones, eps, OptsAt(now), runs)
                && PlannedAll(orphans) == OrphanActions(old(client.records), ActiveIDs(zones))
    {
      hide CutPlan, IsPlan, Accepted, Execute, CutRun, StaleRun, ZoneWants, Planned, Index, OrphanActions, Key, Carries, Part, Once, PlanWants,
           PlannedAll, ZonesEnd, ZoneOK, Prefix;
      runs, orphans, seen, swept := [], [], [], [];
      ghost var was, f, l, t := client.records, client.faults, client.lost, client.twins;
      var records := client.ListRecords();
      if records.None? {
        return false, runs, orphans, seen, swept;
      }
      var o := OptsAt(now);
      var active: set<int> := {};
      assert CutRun(was, was, [], eps, o, runs) && StaleRun(was, was, [], eps, o, runs) && ZonesEnd(was, runs) == was by { EmptyRun(was, eps, o); }
      assert zones[..0] == [];
      assert audit == old(audit) + Flat(seen);
      for i := 0 to |zones|
        invariant active == ActiveIDs(zones[..i])
        invariant client.faults >= f && client.lost >= l && client.twins >= t
        invariant CutRun(was, was, zones[..i], eps, o, runs) && client.records == ZonesEnd(was, runs)
        invariant client.faults == f && client.lost == l ==> StaleRun(was, was, zones[..i], eps, o, runs)
        invariant ZonesOK(zones, routing) && ttl != 0 && client.twins == t ==> AllOnce(runs)
        invariant audit == old(audit) + Flat(seen) && Parts(seen, runs) && (client.lost == l ==> seen == runs)
      {
        var zr := zones[i];
        active := active + {zr.zoneID};
        assert zones[..i + 1] == zones[..i] + [zr];
        ActiveSnoc(zones[..i], zr);
        var plan := DiffZone(zr, eps, records.value, o);
        ghost var f', l', t' := client.faults, client.lost, client.twins;
        var applied, ok, done := client.Apply(plan);
        ZoneDone(zr, eps, was, o, routing, plan, done);
        if client.lost == l' { NothingLost(plan, applied, done); }
        if client.twins == t' { assert Prefix(plan, done) by { PrefixIs(plan, done); } }
        HappenedIs(ZonesEnd(was, runs), done, client.records);
        RunSnoc(was, was, zones[..i], zr, eps, o, runs, done);
        audit := audit + applied;
        assert (seen + [applied])[..|seen|] == seen;
        runs, seen := runs + [done], seen + [applied];
      }
      assert zones[..|zones|] == zones;
      var plan := OrphanZonePlan(records.value, active);
      ghost var l' := client.lost;
      var applied, ok, done := client.Apply(plan);
      audit := audit + applied;
      OrphansArePlanned(was, active);
      RemovesStayPlanned(plan, done);
      HappenedIs(ZonesEnd(was, runs), done, client.records);
      if client.lost == l' { NothingLost(plan, applied, done); }
      orphans, swept := done, applied;
      listed := true;
    }

    /** One reconcile. Whatever fails, the records end as the returned log of what was
        done says, and the log is a pass cut at the failing calls; with every call
        acknowledged it is a whole pass. The audit trail gains what was acknowledged of
        it, which is all of it when no reply was lost. A dry run writes nothing. */
    method Reconcile(dryRun: bool, eps: Option<seq<Endpoint>>, zones: Option<seq<ZoneRouting>>, now: int, zoneNow: int)
      returns (plan: seq<Action>, ok: bool, ghost pass: Pass, ghost seen: Pass)
      modifies this`audit, client
      ensures client.records == AfterPass(old(client.records), pass)
      ensures audit == old(audit) + Audited(seen) && PartPass(seen, pass) && (client.lost == old(client.lost) ==> seen == pass)
      ensures dryRun || eps.None? ==> client.records == old(client.records) && audit == old(audit)
      ensures eps.Some? && client.faults == old(client.faults) ==> IsPlan(plan, ApexProgress(eps.value, old(client.records), OptsAt(now)))
      ensures eps.Some? && !dryRun ==>
                var inp := InputsOf(eps.value, if zones.Some? then zones.value else [], now, zoneNow);
                CutPass(inp, old(client.records), pass)
                && (InputsOK(inp) && client.twins == old(client.twins) ==> SentOnce(pass))
                && (zones.Some? && client.faults == old(client.faults) && client.lost == old(client.lost) ==> IsPass(inp, old(client.records), pass))
    {
      hide CutPlan, IsPlan, Accepted, Execute, CutRun, StaleRun, ApexWants, Planned, Index, OrphanActions, Key, WildcardPlan, PlanWants,
          ZonesEnd, Flat, Idle,
           Carries, Part, Once, PlannedAll, DistinctEdges, ZonesOK, Prefix;
      ghost var was, l, t := client.records, client.lost, client.twins;
      ghost var zrs := if zones.Some? then zones.value else [];
      pass := Pass([], [], Idle(|zrs|), []);
      seen := pass;
      if eps.Some? {
        NothingCut(InputsOf(eps.value, zrs, now, zoneNow), was);
      }
      NothingHappens(was, |zrs|);
      IdleOnce(|zrs|);
      var records := client.ListRecords();
      if records.None? || eps.None? {
        return [], false, pass, seen;
      }
      plan := Diff(eps.value, records.value, OptsAt(now));
      if dryRun {
        return plan, true, pass, seen;
      }
      var created, ensured, wild := client.EnsureWildcardCNAME(routing, ttl);
      ghost var l', t' := client.lost, client.twins;
      HappenedIs(was, wild, client.records);
      var applied, applyOk, done := client.Apply(plan);
      audit := audit + applied;
      ApexDone(eps.value, was, OptsAt(now), plan, done);
      HappenedIs(Execute(was, wild), done, client.records);
      if client.lost == l' { NothingLost(plan, applied, done); }
      if client.twins == t' { assert Prefix(plan, done) by { PrefixIs(plan, done); } }
      pass := pass.(wild := wild, apex := done);
      seen := seen.(wild := wild, apex := applied);
      ok := applyOk;
      ghost var rs2 := client.records;
      assert rs2 == AfterApex(was, pass);
      IdleZones(rs2, eps.value, zrs, OptsAt(zoneNow));
      NothingYet(rs2);
      AuditIs(old(audit), seen);
      if zones.Some? {
        ghost var runs, orphans, seenRuns, swept;
        var listed;
        listed, runs, orphans, seenRuns, swept := ReconcileZones(zones.value, eps.value, zoneNow);
        if listed {
          pass, seen := pass.(zones := runs, orphans := orphans), seen.(zones := seenRuns, orphans := swept);
          AuditIs(old(audit), seen);
        }
      }
    }
  }

  /** Phase by phase, seen leaves out some actions of pass. */
  ghost predicate PartPass(seen: Pass, pass: Pass) {
    Part(seen.apex, pass.apex) && Parts(seen.zones, pass.zones) && Part(seen.orphans, pass.orphans)
  }

  ghost predicate Parts(seen: seq<seq<Action>>, runs: seq<seq<Action>>) {
    |seen| == |runs| && forall i :: 0 <= i < |runs| ==> Part(seen[i], runs[i])
  }

  ghost predicate AllOnce(runs: seq<seq<Action>>) {
    forall i :: 0 <= i < |runs| ==> Once(runs[i])
  }

  lemma PrefixIs(plan: seq<Action>, done: seq<Action>)
    requires |done| <= |plan| && PlannedAll(done) == PlannedAll(plan)[..|done|]
    ensures Prefix(plan, done)
  {
  }

  lemma HappenedIs(was: seq<Record>, done: seq<Action>, now: seq<Record>)
    requires Happened(was, done, now)
    ensures Accepted(was, done) && now == Execute(was, done)
  {
  }

  lemma AuditIs(before: seq<Action>, seen: Pass)
    ensures before + seen.apex + Flat(seen.zones) + seen.orphans == before + Audited(seen)
  {
    assert before + seen.apex + Flat(seen.zones) + seen.orphans == before + (seen.apex + Flat(seen.zones) + seen.orphans);
  }

  lemma ZoneDone(zr: ZoneRouting, eps: seq<Endpoint>, snap: seq<Record>, o: Opts, routing: string, plan: seq<Action>, done: seq<Action>)
    requires IsPlan(plan, ZoneProgress(zr, eps, snap, o)) && Carries(PlannedAll(plan), done)
    ensures CutPlan(done, ZoneProgress(zr, eps, snap, o))
    ensures PlannedAll(done) == PlannedAll(plan) ==> IsPlan(PlannedAll(done), ZoneProgress(zr, eps, snap, o))
    ensures ZoneOK(zr, routing) && o.ttl != 0 && Prefix(plan, done) ==> Once(done)
  {
    hide CutPlan, IsPlan, Carries, Once, ZoneWants, Index, PlanWants, ZoneOK, Prefix, WantsOK;
    DoneIsCut(plan, done, ZoneWants(zr, eps, o), Index(ZoneScope(zr), snap), map[]);
    if ZoneOK(zr, routing) && o.ttl != 0 {
      ZoneWantsOK(zr, eps, o, routing);
      DistinctWants(ZoneScope(zr), ZoneWants(zr, eps, o));
    }
  }

  lemma ApexDone(eps: seq<Endpoint>, was: seq<Record>, o: Opts, plan: seq<Action>, done: seq<Action>)
    requires IsPlan(plan, ApexProgress(eps, was, o)) && Carries(PlannedAll(plan), done)
    ensures CutPlan(done, ApexProgress(eps, was, o))
    ensures PlannedAll(done) == PlannedAll(plan) ==> IsPlan(PlannedAll(done), ApexProgress(eps, was, o))
    ensures DistinctEdges(eps) && o.ttl != 0 && Prefix(plan, done) ==> Once(done)
  {
    hide CutPlan, IsPlan, Carries, Once, ApexWants, Index, PlanWants, DistinctEdges, Prefix, WantsOK;
    DoneIsCut(plan, done, ApexWants(eps, o), Index(Apex, was), Index(Relics(o.routing), was));
    if DistinctEdges(eps) && o.ttl != 0 {
      ApexWantsOK(eps, o);
      DistinctWants(Apex, ApexWants(eps, o));
    }
  }

  lemma IdleOnce(n: nat)
    ensures AllOnce(Idle(n)) && Parts(Idle(n), Idle(n)) && Part([], []) && Once([])
  {
  }

  /** n plans of which nothing was executed. */
  function Idle(n: nat): seq<seq<Action>> {
    seq(n, i => [])
  }

  lemma EmptyRun(rs: seq<Record>, eps: seq<Endpoint>, o: Opts)
    ensures CutRun(rs, rs, [], eps, o, []) && StaleRun(rs, rs, [], eps, o, []) && ZonesEnd(rs, []) == rs
  {
  }

  lemma ActiveSnoc(zones: seq<ZoneRouting>, zr: ZoneRouting)
    ensures ActiveIDs(zones + [zr]) == ActiveIDs(zones) + {zr.zoneID}
  {
    var both := zones + [zr];
    assert both[|zones|] == zr;
    forall id | id in ActiveIDs(zones) ensures id in ActiveIDs(both) {
      var i :| 0 <= i < |zones| && zones[i].zoneID == id;
      assert both[i].zoneID == id;
    }
  }

  lemma RemovesStayPlanned(plan: seq<Action>, log: seq<Action>)
    requires forall a :: a in plan ==> a.kind.Remove?
    requires Carries(PlannedAll(plan), log)
    ensures log <= plan && (PlannedAll(log) == PlannedAll(plan) ==> PlannedAll(log) == plan)
  {
    var planned := PlannedAll(plan);
    assert planned == plan by { forall i | 0 <= i < |plan| ensures planned[i] == plan[i] { assert plan[i] in plan; } }
    CarriedAreOfPlan(planned, log);
    assert Once(log);
    OnceIsPrefix(planned, log);
    hide Carries;
    forall i | 0 <= i < |log| ensures log[i] == plan[i] {
      assert PlannedAll(log)[i] == Planned(log[i]);
      assert plan[i] in plan;
    }
  }

  lemma NothingIsCut(p: Progress)
    ensures CutPlan([], p)
  {
    hide IsPlan;
    var plan := SomePlan(p);
    assert Carries(plan, []);
  }

  lemma {:induction false} IdleZones(rs: seq<Record>, eps: seq<Endpoint>, zones: seq<ZoneRouting>, o: Opts)
    ensures CutRun(rs, rs, zones, eps, o, Idle(|zones|))
    ensures ZonesEnd(rs, Idle(|zones|)) == rs && Flat(Idle(|zones|)) == []
    decreases |zones|
  {
    hide Execute, CutPlan, ZoneProgress, StaleRun, Accepted, PlannedAll, Flat, Idle, CutRun, ZonesEnd;
    NothingYet(rs);
    IdleRuns(rs, |zones|);
    if zones == [] {
      IdleSnoc(0);
      EmptyRun(rs, eps, o);
    } else {
      var n := |zones| - 1;
      IdleZones(rs, eps, zones[..n], o);
      NothingIsCut(ZoneProgress(zones[n], eps, rs, o));
      IdleSnoc(n);
      RunSnoc(rs, rs, zones[..n], zones[n], eps, o, Idle(n), []);
      assert zones == zones[..n] + [zones[n]];
    }
  }

  lemma IdleSnoc(n: nat)
    ensures Idle(0) == [] && Idle(n + 1) == Idle(n) + [[]] && Idle(n + 1)[..n] == Idle(n)
  {
  }

  lemma NothingCut(inp: Inputs, rs: seq<Record>)
    ensures CutPass(inp, rs, Pass([], [], Idle(|inp.zones|), []))
  {
    hide CutPlan, ApexProgress;
    NothingYet(rs);
    NothingIsCut(ApexProgress(inp.eps, rs, inp.o));
    IdleZones(rs, inp.eps, inp.zones, ZoneOpts(inp));
  }

  lemma NothingHappens(rs: seq<Record>, n: nat)
    ensures var idle := Pass([], [], Idle(n), []);
            AfterPass(rs, idle) == rs && Audited(idle) == []
  {
    NothingYet(rs);
    IdleRuns(rs, n);
  }

  lemma {:induction false} IdleRuns(rs: seq<Record>, n: nat)
    ensures ZonesEnd(rs, Idle(n)) == rs && Flat(Idle(n)) == []
  {
    if n == 0 {
    } else {
      IdleRuns(rs, n - 1);
      NothingYet(rs);
      ZonesEndSnoc(rs, Idle(n - 1), []);
      IdleSnoc(n - 1);
    }
  }
}

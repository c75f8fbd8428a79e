/** More laws of the planners: recovery of interrupted plans, independence of the
    apex and zone plans, and the one field the planners never repair. */
module ReconcileLaws {
  import opened Text
  import opened Tags
  import opened Records
  import opened Regions
  import opened Rotation
  import opened Reconcile
  import opened Converge
  import opened Frames
  import opened Recovery
  import opened ReconcilePass
  import opened ReconcileTheorems
  import opened Faults

  // ---------- interrupted plans ----------

  ghost predicate DistinctAddresses(eps: seq<Endpoint>) {
    forall a, b :: a in eps && b in eps && a.ip == b.ip && a.ip != "" ==> a.edgeID == b.edgeID
  }

  lemma ApexValuesDistinct(eps: seq<Endpoint>, o: Opts, i: nat, j: nat)
    requires DistinctEdges(eps) && o.ttl != 0 && DistinctAddresses(eps)
    requires i < j < |ApexWants(eps, o)|
    ensures ApexWants(eps, o)[i].record.value != ApexWants(eps, o)[j].record.value
  {
    var rot, maxCap := DecisionMap(eps, eps, o.now, o.staleAfter), MaxCapacity(eps);
    var ws := ApexWants(eps, o);
    ApexWantsOK(eps, o);
    ApexWantsMembers(eps, rot, maxCap, o);
    hide ApexWantsFrom, WantOK, DesiredRecord, DistinctEdges, DecisionMap, MaxCapacity;
    assert ws[i] in ws && ws[j] in ws;
    var a :| a in eps && a.edgeID != "" && a.ip != "" && ws[i] == ApexWantOf(a, rot, maxCap, o);
    var b :| b in eps && b.edgeID != "" && b.ip != "" && ws[j] == ApexWantOf(b, rot, maxCap, o);
  }

  lemma WritesAreLegal(ws: seq<Want>, m: map<string, Record>, relics: map<string, Record>, log: seq<Action>)
    requires forall i, j :: 0 <= i < j < |ws| ==> ws[i].edgeID != ws[j].edgeID
    requires PlannedAll(log) == PlanWants(ws, m, relics).acts
    ensures forall i :: 0 <= i < |log| ==> Legal(log[i], ws, m, relics)
  {
    hide PlanWants, ActsFor;
    PlanTargets(ws, m, relics);
    forall i | 0 <= i < |log| ensures Legal(log[i], ws, m, relics) {
      assert Planned(log[i]) == PlannedAll(log)[i];
      assert Planned(log[i]) in PlanWants(ws, m, relics).acts;
    }
  }

  /** With distinct addresses, the relics a new listing shows at the addresses not
      yet served are the ones the interrupted planner had. */
  lemma ApexRelicsStill(eps: seq<Endpoint>, rs: seq<Record>, o: Opts, log: seq<Action>)
    requires DistinctEdges(eps) && o.ttl != 0 && DistinctAddresses(eps) && DistinctIDs(rs)
    ensures RelicsStill(Apex, rs, ApexWants(eps, o), Index(Relics(o.routing), rs), log, Index(Relics(o.routing), Execute(rs, log)))
  {
    hide Key, At, Index, Execute, PlanWants, PlannedAll, DistinctIDs, DistinctEdges, DistinctAddresses, ApexWants, RelicsOK, WantOK;
    var ws, relics, m := ApexWants(eps, o), Index(Relics(o.routing), rs), Index(Apex, rs);
    var sc := Relics(o.routing);
    ApexWantsOK(eps, o);
    ApexRelicsOK(rs, o.routing);
    IndexMembers(sc, rs);
    forall r | Key(Apex, r).Some? ensures Key(sc, r).None? { ApexApart(r, 0, "", {}, o.routing); }
    forall j, i | 0 <= j <= i < |ws| && PlannedAll(log) == PlanWants(ws[..j], m, relics).acts
      ensures AgreeAt(Index(sc, Execute(rs, log)), PlanWants(ws[..j], m, relics).relics, ws[i].record.value)
    {
      var head, v := ws[..j], ws[i].record.value;
      PrefixOK(Apex, ws, j);
      forall n | 0 <= n < |head| ensures head[n].record.value != v && Key(sc, head[n].record) != Some(v) {
        assert head[n] == ws[n];
        ApexValuesDistinct(eps, o, n, i);
        assert WantOK(Apex, ws[n]);
        WantKey(Apex, ws[n]);
      }
      RelicsUnclaimed(head, m, relics, v);
      WritesAreLegal(head, m, relics, log);
      PlanSeparate(Apex, sc, v, rs, head, relics, log);
      ExecuteSeparate(sc, v, rs, log);
      IndexIsLast(sc, v, rs);
      IndexIsLast(sc, v, Execute(rs, log));
    }
  }

  /** The apex plan survives interruption: if Apply stopped after any prefix of it,
      a new Diff plans exactly what completes it, with the deletes in any order. */
  lemma ApexPlanResumes(eps: seq<Endpoint>, rs: seq<Record>, o: Opts, plan: seq<Action>, log: seq<Action>, p: seq<Action>)
    requires DistinctEdges(eps) && o.ttl != 0 && DistinctAddresses(eps) && DistinctIDs(rs) && UniqueKeys(Apex, rs)
    requires IsPlan(plan, ApexProgress(eps, rs, o))
    requires |log| <= |plan| && PlannedAll(log) == plan[..|log|] && Accepted(rs, log)
    requires IsPlan(p, ApexProgress(eps, Execute(rs, log), o))
    ensures IsPlan(plan[..|log|] + p, ApexProgress(eps, rs, o))
  {
    hide Key, At, Index, Execute, PlanWants, PlannedAll, DistinctIDs, DistinctEdges, DistinctAddresses, ApexWants, RelicsOK, WantsOK,
         IsPlan, Accepted, UniqueKeys, RelicsStill;
    ApexWantsOK(eps, o);
    ApexRelicsOK(rs, o.routing);
    ApexRelicsStill(eps, rs, o, log);
    ResumedRunIsOnePlan(Apex, rs, ApexWants(eps, o), Index(Relics(o.routing), rs), plan, log, Index(Relics(o.routing), Execute(rs, log)), p);
  }

  /** So does every zone plan; it adopts nothing, so addresses do not matter. */
  lemma ZonePlanResumes(zr: ZoneRouting, eps: seq<Endpoint>, rs: seq<Record>, o: Opts, routing: string,
                        plan: seq<Action>, log: seq<Action>, p: seq<Action>)
    requires ZoneOK(zr, routing) && o.ttl != 0 && DistinctIDs(rs) && UniqueKeys(ZoneScope(zr), rs)
    requires IsPlan(plan, ZoneProgress(zr, eps, rs, o))
    requires |log| <= |plan| && PlannedAll(log) == plan[..|log|] && Accepted(rs, log)
    requires IsPlan(p, ZoneProgress(zr, eps, Execute(rs, log), o))
    ensures IsPlan(plan[..|log|] + p, ZoneProgress(zr, eps, rs, o))
  {
    hide Key, At, Index, Execute, PlanWants, PlannedAll, DistinctIDs, ZoneWants, WantsOK, IsPlan, Accepted, UniqueKeys;
    var ws, m := ZoneWants(zr, eps, o), Index(ZoneScope(zr), rs);
    var none: map<string, Record> := map[];
    ZoneWantsOK(zr, eps, o, routing);
    forall j, i | 0 <= j <= i < |ws| && PlannedAll(log) == PlanWants(ws[..j], m, none).acts
      ensures AgreeAt(none, PlanWants(ws[..j], m, none).relics, ws[i].record.value)
    {
      NoRelics(ws[..j], m);
    }
    ResumedRunIsOnePlan(ZoneScope(zr), rs, ws, none, plan, log, none, p);
  }

  lemma {:induction false} NoRelics(ws: seq<Want>, m: map<string, Record>)
    ensures PlanWants(ws, m, map[]).relics == map[]
    decreases |ws|
  {
    hide Turn;
    if ws == [] {
    } else {
      var none: map<string, Record> := map[];
      assert RelicsLeft(ws[0], m, none) == none;
      NoRelics(ws[1..], m - {ws[0].edgeID});
    }
  }

  lemma PlannedConcat(a: seq<Action>, b: seq<Action>)
    ensures PlannedAll(a + b) == PlannedAll(a) + PlannedAll(b)
  {
    hide Planned;
  }

  /** Runs in a row, each planned afresh from the records as it finds them: all but the
      last stop somewhere in their plan, the last one is complete. */
  ghost predicate Interrupted(progress: seq<Record> -> Progress, rs: seq<Record>, runs: seq<seq<Action>>)
    decreases |runs|
  {
    runs != [] && Accepted(rs, runs[0])
    && if |runs| == 1 then IsPlan(PlannedAll(runs[0]), progress(rs))
       else
         (exists plan: seq<Action> :: IsPlan(plan, progress(rs)) && |runs[0]| <= |plan| && PlannedAll(runs[0]) == plan[..|runs[0]|])
         && Interrupted(progress, Execute(rs, runs[0]), runs[1..])
  }

  lemma ApexCutOK(eps: seq<Endpoint>, rs: seq<Record>, o: Opts, plan: seq<Action>, log: seq<Action>)
    requires DistinctEdges(eps) && o.ttl != 0 && DistinctIDs(rs) && UniqueKeys(Apex, rs)
    requires IsPlan(plan, ApexProgress(eps, rs, o)) && |log| <= |plan| && PlannedAll(log) == plan[..|log|] && Accepted(rs, log)
    ensures DistinctIDs(Execute(rs, log)) && UniqueKeys(Apex, Execute(rs, log))
  {
    hide Key, At, Index, Execute, PlanWants, DistinctIDs, DistinctEdges, ApexWants, RelicsOK, WantsOK, IsPlan, Accepted, UniqueKeys, PlannedAll,
        CutPlan, Once;
    var ws, relics := ApexWants(eps, o), Index(Relics(o.routing), rs);
    ApexWantsOK(eps, o);
    ApexRelicsOK(rs, o.routing);
    DistinctWants(Apex, ws);
    PrefixIsOnce(ws, Index(Apex, rs), relics, plan, log);
    PrefixIsCut(plan, log, PlanWants(ws, Index(Apex, rs), relics));
    CutKeepsUnique(Apex, rs, ws, relics, log);
    ExecuteKeepsIDsDistinct(rs, log);
  }

  lemma {:induction false} ApexRunsAreOnePlan(eps: seq<Endpoint>, rs: seq<Record>, o: Opts, runs: seq<seq<Action>>) returns (log: seq<Action>)
    requires DistinctEdges(eps) && o.ttl != 0 && DistinctAddresses(eps) && DistinctIDs(rs) && UniqueKeys(Apex, rs)
    requires Interrupted(now => ApexProgress(eps, now, o), rs, runs)
    ensures IsPlan(PlannedAll(log), ApexProgress(eps, rs, o)) && Accepted(rs, log) && Execute(rs, log) == ZonesEnd(rs, runs)
    decreases |runs|
  {
    hide Execute, DistinctIDs, DistinctEdges, DistinctAddresses, IsPlan, Accepted, UniqueKeys, PlannedAll, ApexProgress;
    var first := runs[0];
    if |runs| == 1 {
      log := first;
    } else {
      var plan: seq<Action> :| IsPlan(plan, ApexProgress(eps, rs, o)) && |first| <= |plan| && PlannedAll(first) == plan[..|first|];
      ApexCutOK(eps, rs, o, plan, first);
      var rest := ApexRunsAreOnePlan(eps, Execute(rs, first), o, runs[1..]);
      ApexPlanResumes(eps, rs, o, plan, first, PlannedAll(rest));
      ExecuteConcat(rs, first, rest);
      PlannedConcat(first, rest);
      log := first + rest;
    }
  }

  /** Interrupted or not, the apex set ends the same: the run of one plan to its end
      and runs stopped anywhere, any number of times, and planned again give the same
      records, up to the ids of records created meanwhile. */
  lemma InterruptedApexSameEnd(eps: seq<Endpoint>, rs: seq<Record>, o: Opts, full: seq<Action>, runs: seq<seq<Action>>)
    requires DistinctEdges(eps) && o.ttl != 0 && DistinctAddresses(eps) && DistinctIDs(rs) && UniqueKeys(Apex, rs)
    requires IsPlan(PlannedAll(full), ApexProgress(eps, rs, o)) && Accepted(rs, full)
    requires Interrupted(now => ApexProgress(eps, now, o), rs, runs)
    ensures SameButNewIDs(rs, Execute(rs, full), ZonesEnd(rs, runs))
  {
    hide Key, At, Index, Execute, PlanWants, DistinctIDs, DistinctEdges, DistinctAddresses, ApexWants, RelicsOK, WantsOK,
         IsPlan, Accepted, UniqueKeys, SameButNewIDs, PlannedAll, Interrupted, ZonesEnd;
    var resumed := ApexRunsAreOnePlan(eps, rs, o, runs);
    ApexWantsOK(eps, o);
    ApexRelicsOK(rs, o.routing);
    CompleteRunsAgree(Apex, rs, ApexWants(eps, o), Index(Relics(o.routing), rs), full, resumed);
  }

  lemma ZoneCutOK(zr: ZoneRouting, eps: seq<Endpoint>, rs: seq<Record>, o: Opts, routing: string, plan: seq<Action>, log: seq<Action>)
    requires ZoneOK(zr, routing) && o.ttl != 0 && DistinctIDs(rs) && UniqueKeys(ZoneScope(zr), rs)
    requires IsPlan(plan, ZoneProgress(zr, eps, rs, o)) && |log| <= |plan| && PlannedAll(log) == plan[..|log|] && Accepted(rs, log)
    ensures DistinctIDs(Execute(rs, log)) && UniqueKeys(ZoneScope(zr), Execute(rs, log))
  {
    hide Key, At, Index, Execute, PlanWants, DistinctIDs, ZoneWants, WantsOK, IsPlan, Accepted, UniqueKeys, PlannedAll, CutPlan, Once,
        ZoneScope, ZoneOK;
    var ws := ZoneWants(zr, eps, o);
    ZoneWantsOK(zr, eps, o, routing);
    DistinctWants(ZoneScope(zr), ws);
    PrefixIsOnce(ws, Index(ZoneScope(zr), rs), map[], plan, log);
    PrefixIsCut(plan, log, PlanWants(ws, Index(ZoneScope(zr), rs), map[]));
    CutKeepsUnique(ZoneScope(zr), rs, ws, map[], log);
    ExecuteKeepsIDsDistinct(rs, log);
  }

  lemma {:induction false} ZoneRunsAreOnePlan(zr: ZoneRouting, eps: seq<Endpoint>, rs: seq<Record>, o: Opts, routing: string, runs: seq<seq<Action>>)
    returns (log: seq<Action>)
    requires ZoneOK(zr, routing) && o.ttl != 0 && DistinctIDs(rs) && UniqueKeys(ZoneScope(zr), rs)
    requires Interrupted(now => ZoneProgress(zr, eps, now, o), rs, runs)
    ensures IsPlan(PlannedAll(log), ZoneProgress(zr, eps, rs, o)) && Accepted(rs, log) && Execute(rs, log) == ZonesEnd(rs, runs)
    decreases |runs|
  {
    hide Execute, DistinctIDs, IsPlan, Accepted, UniqueKeys, PlannedAll, ZoneProgress, ZoneScope, ZoneOK;
    var first := runs[0];
    if |runs| == 1 {
      log := first;
    } else {
      var plan: seq<Action> :| IsPlan(plan, ZoneProgress(zr, eps, rs, o)) && |first| <= |plan| && PlannedAll(first) == plan[..|first|];
      ZoneCutOK(zr, eps, rs, o, routing, plan, first);
      var rest := ZoneRunsAreOnePlan(zr, eps, Execute(rs, first), o, routing, runs[1..]);
      ZonePlanResumes(zr, eps, rs, o, routing, plan, first, PlannedAll(rest));
      ExecuteConcat(rs, first, rest);
      PlannedConcat(first, rest);
      log := first + rest;
    }
  }

  /** So does every zone's set, whatever the addresses. */
  lemma InterruptedZoneSameEnd(zr: ZoneRouting, eps: seq<Endpoint>, rs: seq<Record>, o: Opts, routing: string,
                               full: seq<Action>, runs: seq<seq<Action>>)
    requires ZoneOK(zr, routing) && o.ttl != 0 && DistinctIDs(rs) && UniqueKeys(ZoneScope(zr), rs)
    requires IsPlan(PlannedAll(full), ZoneProgress(zr, eps, rs, o)) && Accepted(rs, full)
    requires Interrupted(now => ZoneProgress(zr, eps, now, o), rs, runs)
    ensures SameButNewIDs(rs, Execute(rs, full), ZonesEnd(rs, runs))
  {
    hide Key, At, Index, Execute, PlanWants, DistinctIDs, ZoneWants, WantsOK, ZoneScope, ZoneOK,
         IsPlan, Accepted, UniqueKeys, SameButNewIDs, PlannedAll, Interrupted, ZonesEnd;
    var resumed := ZoneRunsAreOnePlan(zr, eps, rs, o, routing, runs);
    ZoneWantsOK(zr, eps, o, routing);
    CompleteRunsAgree(ZoneScope(zr), rs, ZoneWants(zr, eps, o), map[], full, resumed);
  }

  /** The apex plan and a zone's plan do not depend on each other: running either,
      wholly or up to a failing call, changes neither what the other would plan nor
      the records of the other's class. */
  lemma ApexAndZonePlansCommute(eps: seq<Endpoint>, rs: seq<Record>, o: Opts, zr: ZoneRouting, zo: Opts,
                                apex: seq<Action>, zone: seq<Action>)
    requires DistinctEdges(eps) && o.ttl != 0 && zo.ttl != 0 && ZoneOK(zr, o.routing) && DistinctIDs(rs)
    requires CutPlan(apex, ApexProgress(eps, rs, o)) && CutPlan(zone, ZoneProgress(zr, eps, rs, zo))
    ensures ZoneProgress(zr, eps, Execute(rs, apex), zo) == ZoneProgress(zr, eps, rs, zo)
    ensures ApexProgress(eps, Execute(rs, zone), o) == ApexProgress(eps, rs, o)
    ensures SameView(ZoneScope(zr), Execute(rs, apex), rs) && SameView(Apex, Execute(rs, zone), rs)
  {
    hide Key, At, Index, Execute, PlanWants, DistinctIDs, DistinctEdges, ApexWants, ZoneWants, CutPlan, SameView, ZoneProgress;
    ApexPlanFrame(eps, rs, o, apex, zr);
    SameZonePlan(zr, eps, Execute(rs, apex), rs, zo);
    ZonePlanFrame(zr, eps, rs, zo, zone, o.routing, Apex);
    ZonePlanFrame(zr, eps, rs, zo, zone, o.routing, Relics(o.routing));
    SameViewSameIndex(Apex, Execute(rs, zone), rs);
    SameViewSameIndex(Relics(o.routing), Execute(rs, zone), rs);
  }

  // ---------- what a settled apex set answers ----------

  lemma WantEnabled(eps: seq<Endpoint>, ep: Endpoint, o: Opts)
    requires DistinctEdges(eps) && ep in eps
    ensures var w := ApexWantOf(ep, DecisionMap(eps, eps, o.now, o.staleAfter), MaxCapacity(eps), o);
            !w.record.disabled <==> InPoolOf(ep, eps, o.now, o.staleAfter)
  {
    DecisionMapKeys(eps, eps, o.now, o.staleAfter);
    hide DecisionMap, Verdict, EffectiveWeight, SmartFieldsFor, MaxCapacity, ServerTag;
  }

  /** A settled apex set has an enabled record exactly when some edge with an id and an
      address is in rotation. */
  lemma EnabledIffInPool(eps: seq<Endpoint>, o: Opts, rs: seq<Record>)
    requires DistinctEdges(eps) && o.ttl != 0 && Settled(Apex, ApexWants(eps, o), rs)
    ensures (exists r :: r in rs && Key(Apex, r).Some? && !r.disabled)
       <==> exists ep :: ep in eps && ep.edgeID != "" && ep.ip != "" && InPoolOf(ep, eps, o.now, o.staleAfter)
  {
    var ws, rot, maxCap := ApexWants(eps, o), DecisionMap(eps, eps, o.now, o.staleAfter), MaxCapacity(eps);
    ApexWantsMembers(eps, rot, maxCap, o);
    hide Key, At, ApexWantsFrom, ApexWantOf, DecisionMap, MaxCapacity, InPoolOf, DistinctEdges, ContentChanged;
    if r :| r in rs && Key(Apex, r).Some? && !r.disabled {
      SettledMember(Apex, ws, rs, r);
      var i :| 0 <= i < |ws| && Key(Apex, r) == Some(ws[i].edgeID) && Converged(r, ws[i].record);
      assert ws[i] in ws;
      var ep :| ep in eps && ep.edgeID != "" && ep.ip != "" && ws[i] == ApexWantOf(ep, rot, maxCap, o);
      WantEnabled(eps, ep, o);
    }
    if ep :| ep in eps && ep.edgeID != "" && ep.ip != "" && InPoolOf(ep, eps, o.now, o.staleAfter) {
      var w := ApexWantOf(ep, rot, maxCap, o);
      assert w in ws;
      var i :| 0 <= i < |ws| && ws[i] == w;
      WantEnabled(eps, ep, o);
      var r := At(Apex, w.edgeID, rs)[0];
      AtMembers(Apex, w.edgeID, rs);
      assert r in At(Apex, w.edgeID, rs) && Converged(r, w.record);
    }
  }

  // ---------- the record type is never repaired ----------

  lemma {:induction false} NewRecordsAreA(rs: seq<Record>, log: seq<Action>)
    requires forall i :: 0 <= i < |log| ==> log[i].kind.Remove? || log[i].record.typ == TYPE_A
    ensures forall r :: r in Execute(rs, log) ==> r in rs || r.typ == TYPE_A
    decreases |log|
  {
    if log == [] {
    } else {
      WithoutMembers(rs, log[0].recordID);
      var rest := log[1..];
      assert forall i :: 0 <= i < |rest| ==> rest[i] == log[i + 1];
      NewRecordsAreA(Step(rs, log[0]), rest);
    }
  }

  /** After the apex plan the one record of a wanted edge is an A record, except
      exactly when a record of another type already carried the tag and matched in
      every field the planner compares: that one is left as it is. */
  lemma ApexTypeExactly(eps: seq<Endpoint>, rs: seq<Record>, o: Opts, log: seq<Action>, i: nat)
    requires DistinctEdges(eps) && o.ttl != 0 && DistinctIDs(rs) && UniqueKeys(Apex, rs) && i < |ApexWants(eps, o)|
    requires IsPlan(PlannedAll(log), ApexProgress(eps, rs, o)) && Accepted(rs, log)
    ensures var w := ApexWants(eps, o)[i];
            var end := At(Apex, w.edgeID, Execute(rs, log));
            |end| == 1
            && (end[0].typ != TYPE_A <==>
                exists x :: x in rs && Key(Apex, x) == Some(w.edgeID) && x.typ != TYPE_A && Converged(x, w.record))
  {
    hide Key, At, Index, Execute, PlanWants, DistinctEdges, ApexWants, IsPlan, Accepted, Converged, Merge, RelicsOK, DistinctIDs;
    var ws, m, relics := ApexWants(eps, o), Index(Apex, rs), Index(Relics(o.routing), rs);
    var w := ws[i];
    ApexWantsOK(eps, o);
    ApexRelicsOK(rs, o.routing);
    DistinctWants(Apex, ws);
    WholeIsCut(log, PlanWants(ws, m, relics));
    LogIsLegal(ws, m, relics, log);
    PlanSettles(Apex, rs, ws, relics, log);
    IndexMembers(Apex, rs);
    hide WantsOK, WantOK;
    forall n | 0 <= n < |log| ensures log[n].kind.Remove? || log[n].record.typ == TYPE_A {
      if !log[n].kind.Remove? {
        var j :| 0 <= j < |ws| && ActsFor(Planned(log[n]), ws[j], m, relics);
      }
    }
    NewRecordsAreA(rs, log);
    var end := At(Apex, w.edgeID, Execute(rs, log));
    assert Settled(Apex, ws, Execute(rs, log)) && |end| == 1 && Converged(end[0], w.record);
    AtMembers(Apex, w.edgeID, Execute(rs, log));
    assert end[0] in end;
    forall x | x in rs && Key(Apex, x) == Some(w.edgeID) && Converged(x, w.record) ensures x == end[0] {
      ConvergedStays(eps, rs, o, log, i, x);
      assert x in end;
    }
  }

  /** For every lone edge: a CNAME that carries its tag and matches otherwise is what
      every apex plan leaves. */
  lemma OtherTypeStays(ep: Endpoint, o: Opts, log: seq<Action>)
    requires ep.edgeID != "" && ep.ip != "" && o.ttl != 0
    requires IsPlan(PlannedAll(log), ApexProgress([ep], [LoneCNAME(ep, o)], o)) && Accepted([LoneCNAME(ep, o)], log)
    ensures var end := At(Apex, ep.edgeID, Execute([LoneCNAME(ep, o)], log)); |end| == 1 && end[0].typ == TYPE_CNAME
  {
    hide *;
    var r, rs := LoneCNAME(ep, o), [LoneCNAME(ep, o)];
    LoneWant(ep, o);
    LoneListing(ep, r);
    ApexTypeExactly([ep], rs, o, log, 0);
    ConvergedStays([ep], rs, o, log, 0, r);
    AtMembers(Apex, ep.edgeID, Execute(rs, log));
    assert r in At(Apex, ep.edgeID, Execute(rs, log));
  }

  lemma LoneListing(ep: Endpoint, r: Record)
    ensures DistinctEdges([ep]) && DistinctIDs([r]) && UniqueKeys(Apex, [r]) && r in [r]
  {
    hide Key;
    forall k ensures |At(Apex, k, [r])| <= 1 {
      assert [r][..0] == [] && At(Apex, k, []) == [];
    }
  }

  ghost function LoneCNAME(ep: Endpoint, o: Opts): Record {
    DesiredRecord(ep, o.routing, ServerTag(ep.edgeID), DecisionMap([ep], [ep], o.now, o.staleAfter), MaxCapacity([ep]), o).(id := 1, typ := TYPE_CNAME)
  }

  lemma LoneWant(ep: Endpoint, o: Opts)
    requires ep.edgeID != "" && ep.ip != ""
    ensures |ApexWants([ep], o)| == 1 && ApexWants([ep], o)[0].edgeID == ep.edgeID
    ensures Key(Apex, LoneCNAME(ep, o)) == Some(ep.edgeID) && Converged(LoneCNAME(ep, o), ApexWants([ep], o)[0].record)
    ensures LoneCNAME(ep, o).typ == TYPE_CNAME
  {
    ServerTagRoundTrip(ep.edgeID);
    hide ServerTag, EdgeIDFromComment, EffectiveWeight, SmartFieldsFor, DecisionMap, MaxCapacity;
    var rot, maxCap := DecisionMap([ep], [ep], o.now, o.staleAfter), MaxCapacity([ep]);
    assert ApexWantsFrom([], rot, maxCap, o) == [];
    assert [ep][1..] == [];
    assert ApexWants([ep], o) == [ApexWantOf(ep, rot, maxCap, o)] + [];
  }

  lemma ConvergedStays(eps: seq<Endpoint>, rs: seq<Record>, o: Opts, log: seq<Action>, i: nat, x: Record)
    requires DistinctEdges(eps) && o.ttl != 0 && DistinctIDs(rs) && UniqueKeys(Apex, rs) && i < |ApexWants(eps, o)|
    requires IsPlan(PlannedAll(log), ApexProgress(eps, rs, o))
    requires x in rs && Key(Apex, x) == Some(ApexWants(eps, o)[i].edgeID) && Converged(x, ApexWants(eps, o)[i].record)
    ensures x in Execute(rs, log)
  {
    hide Key, At, Index, Execute, PlanWants, DistinctEdges, ApexWants, IsPlan, Converged, Merge;
    var ws, m, relics := ApexWants(eps, o), Index(Apex, rs), Index(Relics(o.routing), rs);
    ApexWantsOK(eps, o);
    ApexRelicsOK(rs, o.routing);
    DistinctWants(Apex, ws);
    WholeIsCut(log, PlanWants(ws, m, relics));
    LogIsLegal(ws, m, relics, log);
    IndexMembers(Apex, rs);
    AtMembers(Apex, ws[i].edgeID, rs);
    IndexIsLast(Apex, ws[i].edgeID, rs);
    hide WantsOK, WantOK;
    assert x in At(Apex, ws[i].edgeID, rs) && At(Apex, ws[i].edgeID, rs) == [x] && m[ws[i].edgeID] == x;
    forall n | 0 <= n < |log| && !log[n].kind.Add? ensures log[n].recordID != x.id {
      if log[n].kind.Remove? {
        assert Wanted(ws, ws[i].edgeID);
        NamesOnly(rs, m[log[n].edgeID], log[n].recordID);
      } else {
        var j :| 0 <= j < |ws| && ActsFor(Planned(log[n]), ws[j], m, relics);
        NamesOnly(rs, if ws[j].edgeID in m then m[ws[j].edgeID] else relics[ws[j].record.value], log[n].recordID);
      }
    }
    UntouchedSurvives(rs, log, x);
  }
}

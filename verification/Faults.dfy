/** Reconciles whose calls to Bunny may fail anywhere. Whatever fails, the record
    set stays one that a later error-free reconcile settles. */
module Faults {
  import opened Text
  import opened Tags
  import opened Records
  import opened Regions
  import opened Rotation
  import opened Reconcile
  import opened Converge
  import opened Frames
  import opened Recovery
  import opened ReconcilePass
  import opened ReconcileTheorems

  // ---------- the invariant ----------

  /** Record ids are unique and no tag that the reconciler reads is on two records
      of one class: not in the apex set, and not in any zone's own set, whatever
      its id and name. */
  ghost predicate AllUnique(rs: seq<Record>) {
    DistinctIDs(rs) && UniqueKeys(Apex, rs)
    && forall id, name :: IsInt64(id) ==> UniqueKeys(Zone(id, name), rs)
  }

  lemma AllUniqueIsListingOK(inp: Inputs, rs: seq<Record>)
    requires AllUnique(rs) && InputsOK(inp)
    ensures ListingOK(inp, rs)
  {
    hide UniqueKeys, DistinctIDs, EqualFold;
    forall i | 0 <= i < |inp.zones| ensures UniqueKeys(ZoneScope(inp.zones[i]), rs) {
      assert ZoneOK(inp.zones[i], inp.o.routing);
    }
  }

  /** Nothing that carries no Brisk tag can break the invariant. */
  lemma UntaggedIsAllUnique(rs: seq<Record>)
    requires DistinctIDs(rs)
    requires forall r :: r in rs ==> Key(Apex, r).None? && ZoneIDFromComment(r.comment).None?
    ensures AllUnique(rs)
  {
    forall k ensures At(Apex, k, rs) == [] { AtNone(Apex, k, rs); }
    forall id, name | IsInt64(id) ensures UniqueKeys(Zone(id, name), rs) {
      forall r | r in rs ensures Key(Zone(id, name), r).None? { NotZoneTagged(r.comment); }
      hide Key, At;
      forall k ensures At(Zone(id, name), k, rs) == [] { AtNone(Zone(id, name), k, rs); }
    }
  }

  // ---------- a prefix of a plan ----------

  /** Stopped anywhere, a plan leaves each key of its class at most once, provided
      that no add was made twice. */
  lemma CutKeepsUnique(sc: Scope, rs: seq<Record>, ws: seq<Want>, relics: map<string, Record>, log: seq<Action>)
    requires DistinctIDs(rs) && UniqueKeys(sc, rs) && RelicsOK(sc, rs, relics) && WantsOK(sc, ws)
    requires CutPlan(log, PlanWants(ws, Index(sc, rs), relics)) && Accepted(rs, log) && Once(log)
    ensures UniqueKeys(sc, Execute(rs, log))
  {
    hide Key, At, Index, Execute, PlanWants, PlannedAll, RelicsOK, WantsOK, IsPlan, Accepted, UniqueKeys, DistinctIDs, Carries, Once;
    var p := PlanWants(ws, Index(sc, rs), relics);
    var plan: seq<Action> :| IsPlan(plan, p) && Carries(plan, log);
    OnceIsPrefix(plan, log);
    if |log| <= |p.acts| {
      var j := CutBetweenWants(ws, Index(sc, rs), relics, |log|);
      assert PlannedAll(log) == p.acts[..|log|] by { PlanPrefix(plan, p, |log|); }
      CutInWrites(sc, rs, ws[..j], relics, log) by { PrefixOK(sc, ws, j); }
    } else {
      CutInDeletes(sc, rs, ws, relics, plan, log);
    }
  }

  lemma PlanPrefix(plan: seq<Action>, p: Progress, n: nat)
    requires IsPlan(plan, p) && n <= |p.acts|
    ensures plan[..n] == p.acts[..n]
  {
    hide Removes;
    assert plan[..n] == plan[..|p.acts|][..n];
  }

  lemma CutInWrites(sc: Scope, rs: seq<Record>, ws: seq<Want>, relics: map<string, Record>, log: seq<Action>)
    requires DistinctIDs(rs) && UniqueKeys(sc, rs) && RelicsOK(sc, rs, relics) && WantsOK(sc, ws)
    requires PlannedAll(log) == PlanWants(ws, Index(sc, rs), relics).acts && Accepted(rs, log)
    ensures UniqueKeys(sc, Execute(rs, log))
  {
    hide Key, At, Index, Execute, PlanWants, PlannedAll, RelicsOK, WantsOK, Accepted, DistinctIDs, Converged;
    IndexCoherent(sc, rs, ws, relics);
    hide Coherent;
    RunWants(sc, rs, ws, Index(sc, rs), relics, log);
    forall k ensures |At(sc, k, Execute(rs, log))| <= 1 {
      if Wanted(ws, k) {
        var i :| 0 <= i < |ws| && ws[i].edgeID == k;
      }
    }
  }

  lemma CutInDeletes(sc: Scope, rs: seq<Record>, ws: seq<Want>, relics: map<string, Record>, plan: seq<Action>, log: seq<Action>)
    requires DistinctIDs(rs) && UniqueKeys(sc, rs) && RelicsOK(sc, rs, relics) && WantsOK(sc, ws)
    requires IsPlan(plan, PlanWants(ws, Index(sc, rs), relics))
    requires |PlanWants(ws, Index(sc, rs), relics).acts| <= |log| <= |plan|
    requires PlannedAll(log) == plan[..|log|] && Accepted(rs, log)
    ensures UniqueKeys(sc, Execute(rs, log))
  {
    hide Key, At, Index, Execute, PlanWants, PlannedAll, RelicsOK, WantsOK, Accepted, DistinctIDs, UniqueKeys;
    var p := PlanWants(ws, Index(sc, rs), relics);
    var n := |p.acts|;
    assert plan[..|log|] == p.acts + plan[n..|log|] by { assert plan[..n] == p.acts; }
    LogSplit(log, p.acts, plan[n..|log|]);
    var writes, rm := log[..n], log[n..];
    ExecuteConcat(rs, writes, rm);
    RemovesPrefix(plan[n..], |log| - n, p.managed);
    assert plan[n..][..|log| - n] == plan[n..|log|];
    RemovalsArePlanned(rm, p.managed, Edges(plan[n..|log|]));
    CutInWrites(sc, rs, ws, relics, writes);
    WritesOutsideKeepUnique(sc, Execute(rs, writes), rm) by { hide *; RemovesRemove(rm, p.managed, Edges(plan[n..|log|])); }
  }

  lemma RemovesRemove(rm: seq<Action>, m: map<string, Record>, keys: set<string>)
    requires keys <= m.Keys && Removes(rm, m, keys)
    ensures forall i :: 0 <= i < |rm| ==> rm[i].kind.Remove?
  {
  }

  lemma {:induction false} WithoutIsShorter(rs: seq<Record>, id: int)
    ensures |Without(rs, id)| <= |rs|
  {
    if rs == [] {
    } else {
      WithoutIsShorter(rs[..|rs| - 1], id);
    }
  }

  // ---------- the zone phase, cut anywhere ----------

  /** Two scopes that differ only in the letter case of the name are one class. */
  lemma SameZoneClass(id: int, a: string, b: string, rs: seq<Record>)
    requires EqualFold(a, b)
    ensures UniqueKeys(Zone(id, a), rs) <==> UniqueKeys(Zone(id, b), rs)
  {
    forall k ensures At(Zone(id, a), k, rs) == At(Zone(id, b), k, rs) { SameClassAt(id, a, b, k, rs); }
  }

  lemma {:induction false} SameClassAt(id: int, a: string, b: string, k: string, rs: seq<Record>)
    requires EqualFold(a, b)
    ensures At(Zone(id, a), k, rs) == At(Zone(id, b), k, rs)
  {
    if rs == [] {
    } else {
      SameClassAt(id, a, b, k, rs[..|rs| - 1]);
    }
  }

  lemma ZoneCutKeepsUnique(zr: ZoneRouting, eps: seq<Endpoint>, rs: seq<Record>, o: Opts, routing: string, log: seq<Action>,
                           id: int, name: string)
    requires ZoneOK(zr, routing) && o.ttl != 0 && DistinctIDs(rs) && IsInt64(id) && UniqueKeys(Zone(id, name), rs)
    requires CutPlan(log, ZoneProgress(zr, eps, rs, o)) && Accepted(rs, log) && Once(log)
    ensures UniqueKeys(Zone(id, name), Execute(rs, log))
  {
    hide Key, At, Execute, CutPlan, Once, DistinctIDs, WantsOK, ZoneWants, Accepted, Index, UniqueKeys;
    ZoneScopeIs(zr);
    if Foreign(zr, Zone(id, name)) {
      ZonePlanFrame(zr, eps, rs, o, log, routing, Zone(id, name));
      ViewKeepsUnique(Zone(id, name), Execute(rs, log), rs);
    } else {
      SameZoneClass(id, name, zr.name, rs);
      SameZoneClass(id, name, zr.name, Execute(rs, log));
      ZoneWantsOK(zr, eps, o, routing);
      CutKeepsUnique(ZoneScope(zr), rs, ZoneWants(zr, eps, o), map[], log);
    }
  }

  lemma {:induction false} ZonesCutKeepUnique(snap: seq<Record>, rs: seq<Record>, zones: seq<ZoneRouting>, eps: seq<Endpoint>,
                                              o: Opts, routing: string, runs: seq<seq<Action>>, id: int, name: string)
    requires ZonesOK(zones, routing) && o.ttl != 0 && DistinctIDs(rs) && SnapshotGood(snap, rs, zones)
    requires CutRun(snap, rs, zones, eps, o, runs) && IsInt64(id) && UniqueKeys(Zone(id, name), rs)
    requires forall i :: 0 <= i < |runs| ==> Once(runs[i])
    ensures UniqueKeys(Zone(id, name), ZonesEnd(rs, runs))
    decreases |zones|
  {
    hide Key, Execute, At, CutPlan, DistinctIDs, Accepted, ZoneProgress, ZoneOK, SnapshotGood, SameView, UniqueKeys, Once;
    if zones == [] {
    } else {
      assert forall i :: 0 <= i < |runs[1..]| ==> runs[1..][i] == runs[i + 1];
      var next := Execute(rs, runs[0]);
      assert SameView(ZoneScope(zones[0]), snap, rs) by { FirstSnapshot(snap, rs, zones); }
      SameZonePlan(zones[0], eps, snap, rs, o);
      SnapshotStaysGood(snap, rs, zones, eps, o, routing, runs[0]);
      ExecuteKeepsIDsDistinct(rs, runs[0]);
      ZoneCutKeepsUnique(zones[0], eps, rs, o, routing, runs[0], id, name);
      ZonesCutKeepUnique(snap, next, zones[1..], eps, o, routing, runs[1..], id, name);
    }
  }

  lemma NoZonesAreForeignToApex(zones: seq<ZoneRouting>)
    ensures AllForeign(zones, Apex)
  {
  }

  // ---------- one reconcile, cut anywhere ----------

  /** pass is what a reconcile executed when any call may have failed: the wildcard
      was created or not, the apex plan, every zone plan and the sweep were each
      executed up to their first failing call, and that one too if it took effect
      all the same. Adds whose reply was lost may have been made repeatedly. A phase
      whose listing failed executed nothing. */
  ghost predicate CutPass(inp: Inputs, rs: seq<Record>, pass: Pass) {
    Carries(WildcardPlan(rs, inp.o.routing, inp.domain, inp.o.ttl), pass.wild)
    && Accepted(rs, pass.wild)
    && CutPlan(pass.apex, ApexProgress(inp.eps, rs, inp.o))
    && Accepted(AfterWildcard(rs, pass), pass.apex)
    && CutRun(AfterApex(rs, pass), AfterApex(rs, pass), inp.zones, inp.eps, ZoneOpts(inp), pass.zones)
    && pass.orphans <= OrphanActions(AfterApex(rs, pass), ActiveIDs(inp.zones))
    && Accepted(AfterZones(rs, pass), pass.orphans)
  }

  /** A reconcile without a failing call is the case where nothing was cut off. */
  lemma WholePassIsCut(inp: Inputs, rs: seq<Record>, pass: Pass)
    requires IsPass(inp, rs, pass)
    ensures CutPass(inp, rs, pass)
  {
    hide CutPlan, IsPlan, Accepted, CutRun, StaleRun, OrphanActions, WildcardPlan, ApexProgress, PlannedAll, Carries;
    WholeCarries(WildcardPlan(rs, inp.o.routing, inp.domain, inp.o.ttl), pass.wild);
    WholeIsCut(pass.apex, ApexProgress(inp.eps, rs, inp.o));
    StaleRunIsCutRun(AfterApex(rs, pass), AfterApex(rs, pass), inp.zones, inp.eps, ZoneOpts(inp), pass.zones);
    OrphansAreOrphans(inp, pass, AfterApex(rs, pass));
  }

  lemma {:induction false} StaleRunSentOnce(snap: seq<Record>, rs: seq<Record>, zones: seq<ZoneRouting>, eps: seq<Endpoint>,
                                            o: Opts, routing: string, runs: seq<seq<Action>>)
    requires StaleRun(snap, rs, zones, eps, o, runs) && ZonesOK(zones, routing) && o.ttl != 0
    ensures forall i :: 0 <= i < |runs| ==> Once(runs[i])
    decreases |zones|
  {
    hide Execute, IsPlan, Accepted, PlannedAll, Once, ZoneOK, WantsOK, ZoneWants, Index, PlanWants, ZoneScope;
    if zones == [] {
    } else {
      assert ZoneOK(zones[0], routing);
      assert forall i :: 0 <= i < |zones[1..]| ==> zones[1..][i] == zones[i + 1];
      ZoneWantsOK(zones[0], eps, o, routing);
      DistinctWants(ZoneScope(zones[0]), ZoneWants(zones[0], eps, o));
      WholeIsOnce(ZoneWants(zones[0], eps, o), Index(ZoneScope(zones[0]), snap), map[], runs[0]);
      StaleRunSentOnce(snap, Execute(rs, runs[0]), zones[1..], eps, o, routing, runs[1..]);
      assert runs == [runs[0]] + runs[1..];
    }
  }

  lemma WholePassSentOnce(inp: Inputs, rs: seq<Record>, pass: Pass)
    requires IsPass(inp, rs, pass) && InputsOK(inp)
    ensures SentOnce(pass)
  {
    hide IsPlan, Accepted, StaleRun, OrphanActions, WildcardPlan, PlannedAll, WantsOK, ZonesOK, DistinctEdges, ApexWants, Index, PlanWants,
        Once, Execute;
    ApexWantsOK(inp.eps, inp.o);
    DistinctWants(Apex, ApexWants(inp.eps, inp.o));
    WholeIsOnce(ApexWants(inp.eps, inp.o), Index(Apex, rs), Index(Relics(inp.o.routing), rs), pass.apex);
    StaleRunSentOnce(AfterApex(rs, pass), AfterApex(rs, pass), inp.zones, inp.eps, ZoneOpts(inp), inp.o.routing, pass.zones);
  }

  lemma CutWildcardFrame(inp: Inputs, rs: seq<Record>, pass: Pass)
    requires CutPass(inp, rs, pass) && DistinctIDs(rs)
    ensures DistinctIDs(AfterWildcard(rs, pass))
    ensures CutPlan(pass.apex, ApexProgress(inp.eps, AfterWildcard(rs, pass), inp.o))
    ensures forall sc: Scope :: !sc.Wildcard? ==> SameView(sc, AfterWildcard(rs, pass), rs)
    ensures forall r :: r in rs ==> r in AfterWildcard(rs, pass)
  {
    hide Key, At, CutPlan, DistinctIDs, Accepted, WildcardPlan, Execute, SameView, CutRun, OrphanActions, Carries, MakesWildcards;
    var rs1 := AfterWildcard(rs, pass);
    ExecuteKeepsIDsDistinct(rs, pass.wild);
    WildcardPlanMakes(inp, rs, pass.wild);
    forall sc: Scope | !sc.Wildcard? ensures SameView(sc, rs1, rs) && forall r :: r in rs ==> r in rs1 {
      WildcardsFrame(inp, rs, pass.wild, sc);
    }
    assert SameView(Apex, rs1, rs);
    SameViewSameIndex(Apex, rs1, rs);
    SameViewSameIndex(Relics(inp.o.routing), rs1, rs);
  }

  lemma CutWildcardOK(inp: Inputs, rs: seq<Record>, pass: Pass)
    requires CutPass(inp, rs, pass) && AllUnique(rs)
    ensures AllUnique(AfterWildcard(rs, pass))
    ensures CutPlan(pass.apex, ApexProgress(inp.eps, AfterWildcard(rs, pass), inp.o))
  {
    hide DistinctIDs, SameView, UniqueKeys, CutPass, CutPlan;
    var rs1 := AfterWildcard(rs, pass);
    hide AfterWildcard;
    CutWildcardFrame(inp, rs, pass);
    ViewKeepsUnique(Apex, rs1, rs);
    forall id, name | IsInt64(id) ensures UniqueKeys(Zone(id, name), rs1) {
      ViewKeepsUnique(Zone(id, name), rs1, rs);
    }
  }

  /** a brings no record into class sc. */
  ghost predicate WritesOutside(sc: Scope, a: Action) {
    a.kind.Remove? || (a.record.comment != "" && Key(sc, a.record).None?)
  }

  lemma {:induction false} MergedShrinks(sc: Scope, k: string, rs: seq<Record>, id: int, body: Record)
    requires forall r :: Key(sc, Merge(r, body)) != Some(k)
    ensures |At(sc, k, Merged(rs, id, body))| <= |At(sc, k, rs)|
  {
    hide Key, Merge;
    if rs == [] {
    } else {
      var front, last := rs[..|rs| - 1], rs[|rs| - 1];
      assert rs == front + [last];
      MergedSnoc(front, last, id, body);
      MergedShrinks(sc, k, front, id, body);
      AtSnoc(sc, k, Merged(front, id, body), if last.id == id then Merge(last, body) else last);
    }
  }

  lemma StepOutside(sc: Scope, rs: seq<Record>, a: Action)
    requires UniqueKeys(sc, rs) && WritesOutside(sc, a)
    ensures UniqueKeys(sc, Step(rs, a))
  {
    if !a.kind.Remove? {
      KeyOfBody(sc, a.record, a.record, a.recordID);
      forall r ensures Key(sc, Merge(r, a.record)) == Key(sc, a.record) {
        KeyOfBody(sc, r, a.record, a.record.id);
        assert a.record.(id := a.record.id) == a.record;
      }
    }
    hide Key, At, Merge;
    forall k ensures |At(sc, k, Step(rs, a))| <= |At(sc, k, rs)| {
      match a.kind
      case Add => AtAdded(sc, k, rs, a.recordID, a.record);
      case Remove =>
        AtWithout(sc, k, rs, a.recordID);
        WithoutIsShorter(At(sc, k, rs), a.recordID);
      case _ => MergedShrinks(sc, k, rs, a.recordID, a.record);
    }
  }

  lemma {:induction false} WritesOutsideKeepUnique(sc: Scope, rs: seq<Record>, log: seq<Action>)
    requires UniqueKeys(sc, rs) && forall i :: 0 <= i < |log| ==> WritesOutside(sc, log[i])
    ensures UniqueKeys(sc, Execute(rs, log))
    decreases |log|
  {
    hide Step, WritesOutside, UniqueKeys;
    if log == [] {
    } else {
      assert forall i :: 0 <= i < |log[1..]| ==> log[1..][i] == log[i + 1];
      StepOutside(sc, rs, log[0]);
      WritesOutsideKeepUnique(sc, Step(rs, log[0]), log[1..]);
    }
  }

  /** The apex plan brings no record into any zone's own set, not even of a zone
      named like the routing record. */
  lemma ApexWritesOutsideZones(inp: Inputs, rs: seq<Record>, a: Action, id: int, name: string)
    requires IsInt64(id) && WantsOK(Apex, ApexWants(inp.eps, inp.o))
    requires Legal(a, ApexWants(inp.eps, inp.o), Index(Apex, rs), Index(Relics(inp.o.routing), rs))
    ensures WritesOutside(Zone(id, name), a)
  {
    hide Key, ApexWants, Index, Wanted;
    if !a.kind.Remove? {
      var ws := ApexWants(inp.eps, inp.o);
      var j :| 0 <= j < |ws| && ActsFor(Planned(a), ws[j], Index(Apex, rs), Index(Relics(inp.o.routing), rs));
      KeyOfBody(Apex, ws[j].record, ws[j].record, a.recordID);
      ApexApart(a.record, id, name, {}, inp.o.routing);
    }
  }

  lemma CutApexOK(inp: Inputs, rs: seq<Record>, log: seq<Action>)
    requires InputsOK(inp) && AllUnique(rs)
    requires CutPlan(log, ApexProgress(inp.eps, rs, inp.o)) && Accepted(rs, log) && Once(log)
    ensures AllUnique(Execute(rs, log))
  {
    hide Once, Key, At, CutPlan, DistinctIDs, Accepted, Execute, SameView, UniqueKeys, ApexWants, WantsOK, RelicsOK, Index, DistinctEdges, ZonesOK,
         Legal, WritesOutside;
    ExecuteKeepsIDsDistinct(rs, log);
    ApexRunIsLegal(inp.eps, rs, inp.o, log);
    CutKeepsUnique(Apex, rs, ApexWants(inp.eps, inp.o), Index(Relics(inp.o.routing), rs), log);
    forall id, name | IsInt64(id) ensures UniqueKeys(Zone(id, name), Execute(rs, log)) {
      forall i | 0 <= i < |log| ensures WritesOutside(Zone(id, name), log[i]) {
        ApexWritesOutsideZones(inp, rs, log[i], id, name);
      }
      WritesOutsideKeepUnique(Zone(id, name), rs, log);
    }
  }

  lemma SweptAreRemoves(snap: seq<Record>, active: set<int>, log: seq<Action>)
    requires log <= OrphanActions(snap, active)
    ensures forall i :: 0 <= i < |log| ==> log[i].kind.Remove?
  {
    OrphanTargets(snap, active);
  }

  /** No add of the apex set or of a zone's set was made more than once. */
  ghost predicate SentOnce(pass: Pass) {
    Once(pass.apex) && forall i :: 0 <= i < |pass.zones| ==> Once(pass.zones[i])
  }

  /** The invariant survives every reconcile in which no add was made twice, whichever
      of its calls fail. */
  lemma CutPassKeepsAllUnique(inp: Inputs, rs: seq<Record>, pass: Pass)
    requires InputsOK(inp) && AllUnique(rs) && CutPass(inp, rs, pass) && SentOnce(pass)
    ensures AllUnique(AfterPass(rs, pass))
  {
    hide Once, Carries, Key, At, CutPlan, DistinctIDs, Accepted, Execute, SameView, UniqueKeys, CutRun, SnapshotGood, ZonesOK, ApexProgress,
        DistinctEdges,
         WildcardPlan, ZonesEnd;
    hide OrphanActions;
    var rs1, rs2, rs3 := AfterWildcard(rs, pass), AfterApex(rs, pass), AfterZones(rs, pass);
    SweptAreRemoves(rs2, ActiveIDs(inp.zones), pass.orphans);
    CutWildcardOK(inp, rs, pass);
    CutApexOK(inp, rs1, pass.apex);
    SnapshotOfItself(rs2, inp.zones);
    NoZonesAreForeignToApex(inp.zones);
    ZonesFrame(rs2, rs2, inp.zones, inp.eps, ZoneOpts(inp), inp.o.routing, pass.zones, Apex);
    ViewKeepsUnique(Apex, rs3, rs2);
    ExecuteKeepsIDsDistinct(rs3, pass.orphans);
    WritesOutsideKeepUnique(Apex, rs3, pass.orphans);
    forall id, name | IsInt64(id) ensures UniqueKeys(Zone(id, name), AfterPass(rs, pass)) {
      ZonesCutKeepUnique(rs2, rs2, inp.zones, inp.eps, ZoneOpts(inp), inp.o.routing, pass.zones, id, name);
      WritesOutsideKeepUnique(Zone(id, name), rs3, pass.orphans);
    }
  }

  // ---------- what is foreign stays ----------

  /** r is the A record without server tag, under the routing name, that an edge
      without a record of its own finds for its address. */
  ghost predicate Adopted(inp: Inputs, rs: seq<Record>, r: Record) {
    var relics := Index(Relics(inp.o.routing), rs);
    exists ep :: ep in inp.eps && ep.edgeID != "" && ep.ip != "" && At(Apex, ep.edgeID, rs) == []
                 && ep.ip in relics && relics[ep.ip] == r
  }

  /** A record that no phase of a reconcile owns: no server tag, not in an active
      zone's own set, no tag of a zone that is gone, and not adopted. */
  ghost predicate ForeignRecord(inp: Inputs, rs: seq<Record>, r: Record) {
    Key(Apex, r).None?
    && (forall i :: 0 <= i < |inp.zones| ==> Key(ZoneScope(inp.zones[i]), r).None?)
    && Key(Orphans(ActiveIDs(inp.zones)), r).None? && !Adopted(inp, rs, r)
  }

  lemma {:induction false} ZonesKeep(snap: seq<Record>, rs: seq<Record>, zones: seq<ZoneRouting>, eps: seq<Endpoint>,
                                     o: Opts, routing: string, runs: seq<seq<Action>>, r: Record)
    requires ZonesOK(zones, routing) && o.ttl != 0 && DistinctIDs(rs) && SnapshotGood(snap, rs, zones)
    requires CutRun(snap, rs, zones, eps, o, runs) && r in rs
    requires forall i :: 0 <= i < |zones| ==> Key(ZoneScope(zones[i]), r).None?
    ensures r in ZonesEnd(rs, runs)
    decreases |zones|
  {
    hide Key, Execute, At, CutPlan, DistinctIDs, Accepted, ZoneOK, PlannedAll, SnapshotGood, SameView, ZoneWants, ZoneScope, Index, WantsOK;
    if zones == [] {
    } else {
      var next := Execute(rs, runs[0]);
      assert SameView(ZoneScope(zones[0]), snap, rs) by { FirstSnapshot(snap, rs, zones); }
      SameZonePlan(zones[0], eps, snap, rs, o);
      SnapshotStaysGood(snap, rs, zones, eps, o, routing, runs[0]);
      ExecuteKeepsIDsDistinct(rs, runs[0]);
      ZoneWantsOK(zones[0], eps, o, routing);
      DistinctWants(ZoneScope(zones[0]), ZoneWants(zones[0], eps, o));
      LogIsLegal(ZoneWants(zones[0], eps, o), Index(ZoneScope(zones[0]), rs), map[], runs[0]);
      PlanTouchesOnlyItsOwn(ZoneScope(zones[0]), rs, ZoneWants(zones[0], eps, o), map[], runs[0], r);
      assert forall i :: 0 <= i < |zones[1..]| ==> zones[1..][i] == zones[i + 1];
      ZonesKeep(snap, next, zones[1..], eps, o, routing, runs[1..], r);
    }
  }

  lemma ApexWantIsForEdge(eps: seq<Endpoint>, o: Opts, i: nat)
    requires i < |ApexWants(eps, o)|
    ensures exists ep :: ep in eps && ep.edgeID == ApexWants(eps, o)[i].edgeID && ep.ip == ApexWants(eps, o)[i].record.value
                         && ep.edgeID != "" && ep.ip != ""
  {
    var rot, maxCap := DecisionMap(eps, eps, o.now, o.staleAfter), MaxCapacity(eps);
    ApexWantsMembers(eps, rot, maxCap, o);
    hide ApexWantsFrom, DesiredRecord;
    assert ApexWants(eps, o)[i] in ApexWants(eps, o);
  }

  /** Non-interference, whatever fails: manual records, other people's records, and
      also an active zone's records that were given another name, are left
      exactly as they were. */
  lemma ForeignRecordsStay(inp: Inputs, rs: seq<Record>, pass: Pass, r: Record)
    requires InputsOK(inp) && DistinctIDs(rs) && CutPass(inp, rs, pass)
    requires r in rs && ForeignRecord(inp, rs, r)
    ensures r in AfterPass(rs, pass)
  {
    hide Key, At, CutPlan, DistinctIDs, Accepted, Execute, SameView, OrphanActions, ApexWants, ZonesEnd, DistinctEdges, ZonesOK, ActiveIDs,
         CutRun, ApexProgress, RelicsOK, WantsOK, Legal, Index, SnapshotGood, AllForeign, ZoneScope, WildcardPlan, Carries;
    var rs1, rs2, rs3 := AfterWildcard(rs, pass), AfterApex(rs, pass), AfterZones(rs, pass);
    CutWildcardFrame(inp, rs, pass);
    SameViewSameIndex(Relics(inp.o.routing), rs1, rs);
    var ws, relics := ApexWants(inp.eps, inp.o), Index(Relics(inp.o.routing), rs1);
    ApexRunIsLegal(inp.eps, rs1, inp.o, pass.apex);
    forall i | 0 <= i < |ws| && At(Apex, ws[i].edgeID, rs1) == [] && ws[i].record.value in relics ensures relics[ws[i].record.value] != r {
      ApexWantIsForEdge(inp.eps, inp.o, i);
      ViewAt(Apex, rs1, rs, ws[i].edgeID);
    }
    PlanTouchesOnlyItsOwn(Apex, rs1, ws, relics, pass.apex, r);
    ExecuteKeepsIDsDistinct(rs1, pass.apex);
    SnapshotOfItself(rs2, inp.zones);
    AllForeignTo(inp.zones, inp.o.routing);
    ZonesKeep(rs2, rs2, inp.zones, inp.eps, ZoneOpts(inp), inp.o.routing, pass.zones, r);
    ZonesFrame(rs2, rs2, inp.zones, inp.eps, ZoneOpts(inp), inp.o.routing, pass.zones, Orphans(ActiveIDs(inp.zones)));
    SweepSpares(rs2, rs3, ActiveIDs(inp.zones), pass.orphans, r);
  }

  lemma SweepSpares(snap: seq<Record>, rs: seq<Record>, active: set<int>, log: seq<Action>, r: Record)
    requires SameView(Orphans(active), rs, snap) && DistinctIDs(rs) && log <= OrphanActions(snap, active)
    requires r in rs && Key(Orphans(active), r).None?
    ensures r in Execute(rs, log)
  {
    hide Key, At, OrphanActions, Execute, SameView;
    forall i | 0 <= i < |log| ensures log[i].recordID != r.id {
      var acts := OrphanActions(snap, active);
      assert log[i] == acts[i] && acts[i].recordID in Targets(acts);
      OrphanIDs(snap, rs, active, acts[i].recordID);
      var x :| x in rs && x.id == acts[i].recordID && Key(Orphans(active), x).Some?;
      if x.id == r.id { SameID(rs, x, r); }
    }
    UntouchedSurvives(rs, log, r);
  }

  lemma {:induction false} ZonesWriteTheirOwn(snap: seq<Record>, rs: seq<Record>, zones: seq<ZoneRouting>, eps: seq<Endpoint>,
                                              o: Opts, routing: string, runs: seq<seq<Action>>, r: Record)
    requires ZonesOK(zones, routing) && o.ttl != 0 && CutRun(snap, rs, zones, eps, o, runs)
    requires r in ZonesEnd(rs, runs) && r !in rs
    ensures exists i :: 0 <= i < |zones| && Key(ZoneScope(zones[i]), r).Some?
    decreases |zones|
  {
    hide Key, Execute, CutPlan, Accepted, ZoneWants, ZoneScope, Index, WantsOK, PlanWants, Legal;
    if zones == [] {
    } else {
      var next := Execute(rs, runs[0]);
      assert ZoneOK(zones[0], routing);
      ZoneWantsOK(zones[0], eps, o, routing);
      DistinctWants(ZoneScope(zones[0]), ZoneWants(zones[0], eps, o));
      LogIsLegal(ZoneWants(zones[0], eps, o), Index(ZoneScope(zones[0]), snap), map[], runs[0]);
      PlanWritesOnlyItsOwn(ZoneScope(zones[0]), rs, ZoneWants(zones[0], eps, o), Index(ZoneScope(zones[0]), snap), map[], runs[0]);
      if r !in next {
        assert forall i :: 0 <= i < |zones[1..]| ==> zones[1..][i] == zones[i + 1];
        ZonesWriteTheirOwn(snap, next, zones[1..], eps, o, routing, runs[1..], r);
        var i :| 0 <= i < |zones[1..]| && Key(ZoneScope(zones[1..][i]), r).Some?;
        assert Key(ZoneScope(zones[i + 1]), r).Some?;
      }
    }
  }

  lemma {:induction false} RemovesAddNothing(rs: seq<Record>, log: seq<Action>, r: Record)
    requires forall i :: 0 <= i < |log| ==> log[i].kind.Remove?
    requires r in Execute(rs, log)
    ensures r in rs
    decreases |log|
  {
    if log == [] {
    } else {
      WithoutMembers(rs, log[0].recordID);
      RemovesAddNothing(Step(rs, log[0]), log[1..], r);
    }
  }

  /** Nothing foreign appears either: a record that was not there before, or not
      like that, is a server's, an active zone's, or the tenant wildcard. */
  lemma OnlyOwnRecordsAppear(inp: Inputs, rs: seq<Record>, pass: Pass, r: Record)
    requires InputsOK(inp) && CutPass(inp, rs, pass)
    requires r in AfterPass(rs, pass) && r !in rs
    ensures Key(Apex, r).Some? || (exists i :: 0 <= i < |inp.zones| && Key(ZoneScope(inp.zones[i]), r).Some?)
            || r == WildcardRecord(inp.o.routing, inp.domain, inp.o.ttl).(id := r.id)
  {
    hide Carries, MakesWildcards, CutPlan, Accepted, Execute, OrphanActions, ApexWants, ZonesEnd, DistinctEdges, ZonesOK, ActiveIDs, Key,
         CutRun, PlanWants, RelicsOK, WantsOK, Legal, Index, ZoneScope, WildcardRecord;
    var rs1, rs2, rs3 := AfterWildcard(rs, pass), AfterApex(rs, pass), AfterZones(rs, pass);
    SweptAreRemoves(rs2, ActiveIDs(inp.zones), pass.orphans);
    RemovesAddNothing(rs3, pass.orphans, r);
    if r !in rs2 {
      ZonesWriteTheirOwn(rs2, rs2, inp.zones, inp.eps, ZoneOpts(inp), inp.o.routing, pass.zones, r);
    } else if r !in rs1 {
      ApexRunIsLegal(inp.eps, rs, inp.o, pass.apex);
      PlanWritesOnlyItsOwn(Apex, rs1, ApexWants(inp.eps, inp.o), Index(Apex, rs), Index(Relics(inp.o.routing), rs), pass.apex);
    } else {
      WildcardPlanMakes(inp, rs, pass.wild);
      WildcardsFrame(inp, rs, pass.wild, Apex);
    }
  }

  // ---------- zone records in no zone's own set ----------

  /** A record with an active zone's tag that is in no zone's own set, for example
      because it was renamed or retyped by hand. */
  ghost predicate StrayZoneRecord(inp: Inputs, r: Record) {
    ZoneIDFromComment(r.comment).Some? && ZoneIDFromComment(r.comment).value in ActiveIDs(inp.zones)
    && forall i :: 0 <= i < |inp.zones| ==> Key(ZoneScope(inp.zones[i]), r).None?
  }

  lemma StrayIsForeign(inp: Inputs, rs: seq<Record>, r: Record)
    requires StrayZoneRecord(inp, r)
    ensures Key(Apex, r).None? && (!Adopted(inp, rs, r) ==> ForeignRecord(inp, rs, r))
    ensures r != WildcardRecord(inp.o.routing, inp.domain, inp.o.ttl).(id := r.id)
  {
    ZoneTagIsNotServerTag(r.comment);
    assert Key(Apex, r).None? && Key(Orphans(ActiveIDs(inp.zones)), r).None?;
    hide Key, Adopted, ZoneIDFromComment;
    WildcardKeys(inp, Apex, r.id);
  }

  /** Such a record is neither repaired nor removed, and none comes into being: unless
      it is adopted, it is there after a reconcile, whatever fails, exactly when it was
      there before. */
  lemma StrayZoneRecordStaysIff(inp: Inputs, rs: seq<Record>, pass: Pass, r: Record)
    requires InputsOK(inp) && DistinctIDs(rs) && CutPass(inp, rs, pass) && StrayZoneRecord(inp, r) && !Adopted(inp, rs, r)
    ensures r in AfterPass(rs, pass) <==> r in rs
  {
    hide Key, CutPass, AfterPass, InputsOK, DistinctIDs, ForeignRecord, Adopted, WildcardRecord;
    StrayIsForeign(inp, rs, r);
    if r in rs {
      ForeignRecordsStay(inp, rs, pass, r);
    } else if r in AfterPass(rs, pass) {
      OnlyOwnRecordsAppear(inp, rs, pass, r);
      assert false;
    }
  }

  lemma {:induction false} AdoptionIsPlanned(ws: seq<Want>, managed: map<string, Record>, relics: map<string, Record>, i: nat)
    requires i < |ws| && ws[i].edgeID !in managed && ws[i].record.value in relics
    ensures exists a :: a in PlanWants(ws, managed, relics).acts && IsWrite(a) && a.recordID == relics[ws[i].record.value].id
    decreases |ws|
  {
    var w := ws[0];
    var managed', relics' := managed - {w.edgeID}, RelicsLeft(w, managed, relics);
    var rest := PlanWants(ws[1..], managed', relics').acts;
    PlanWantsHead(ws, managed, relics);
    if w.edgeID !in managed && w.record.value == ws[i].record.value {
      assert WriteAction(w, relics[w.record.value], true) in Turn(w, managed, relics) + rest;
    } else {
      hide PlanWants, Turn;
      assert ws[1..][i - 1] == ws[i];
      AdoptionIsPlanned(ws[1..], managed', relics', i - 1);
      var a :| a in rest && IsWrite(a) && a.recordID == relics[ws[i].record.value].id;
      assert a in Turn(w, managed, relics) + rest;
    }
  }

  /** After a write with another tag, and with writes of that tag only, r is gone. */
  lemma {:induction false} Rewritten(rs: seq<Record>, log: seq<Action>, i: nat, r: Record)
    requires i < |log| && IsWrite(log[i]) && log[i].recordID == r.id && Key(Apex, r).None?
    requires forall n :: 0 <= n < |log| ==> log[n].kind.Remove? || (log[n].record.comment != "" && Key(Apex, log[n].record).Some?)
    ensures r !in Execute(rs, log)
    decreases i
  {
    hide Key, Merge;
    var a, rest := log[0], log[1..];
    assert forall n :: 0 <= n < |rest| ==> rest[n] == log[n + 1];
    if i > 0 {
      Rewritten(Step(rs, a), rest, i - 1, r);
    } else {
      forall x ensures Key(Apex, Merge(x, a.record)).Some? {
        KeyOfBody(Apex, a.record, a.record, a.record.id);
        KeyOfBody(Apex, x, a.record, a.record.id);
        assert a.record.(id := a.record.id) == a.record;
      }
      assert r !in Step(rs, a) by {
        forall n | 0 <= n < |rs| ensures Step(rs, a)[n] != r { }
      }
      NewRecordsAreWritten(Apex, Step(rs, a), rest);
    }
  }

  lemma AdoptionRuns(inp: Inputs, rs: seq<Record>, start: seq<Record>, log: seq<Action>, r: Record)
    requires DistinctEdges(inp.eps) && inp.o.ttl != 0 && Adopted(inp, rs, r) && Key(Apex, r).None?
    requires IsPlan(PlannedAll(log), ApexProgress(inp.eps, rs, inp.o))
    ensures r !in Execute(start, log)
  {
    hide Key, Index, ApexWants, DistinctEdges, IsPlan, Legal, Execute, WantOK, PlanWants, At, RelicsOK;
    var ws, m, relics := ApexWants(inp.eps, inp.o), Index(Apex, rs), Index(Relics(inp.o.routing), rs);
    var i := AdoptingWant(inp, rs, r);
    AdoptionIsPlanned(ws, m, relics, i);
    var a :| a in PlanWants(ws, m, relics).acts && IsWrite(a) && a.recordID == relics[ws[i].record.value].id;
    var n := PlannedAt(log, PlanWants(ws, m, relics), a);
    WholeIsCut(log, PlanWants(ws, m, relics));
    ApexRunIsLegal(inp.eps, rs, inp.o, log);
    forall k | 0 <= k < |log| ensures log[k].kind.Remove? || (log[k].record.comment != "" && Key(Apex, log[k].record).Some?) {
      LegalWritesItsOwn(Apex, ws, m, relics, log[k]);
    }
    Rewritten(start, log, n, r);
  }

  lemma AdoptingWant(inp: Inputs, rs: seq<Record>, r: Record) returns (i: nat)
    requires Adopted(inp, rs, r)
    ensures var ws, relics := ApexWants(inp.eps, inp.o), Index(Relics(inp.o.routing), rs);
            i < |ws| && ws[i].edgeID !in Index(Apex, rs) && ws[i].record.value in relics && relics[ws[i].record.value] == r
  {
    var rot, maxCap := DecisionMap(inp.eps, inp.eps, inp.o.now, inp.o.staleAfter), MaxCapacity(inp.eps);
    ApexWantsMembers(inp.eps, rot, maxCap, inp.o);
    IndexMembers(Apex, rs);
    hide Key, At, Index, ApexWantsFrom, DesiredRecord;
    var ep :| ep in inp.eps && ep.edgeID != "" && ep.ip != "" && At(Apex, ep.edgeID, rs) == []
              && ep.ip in Index(Relics(inp.o.routing), rs) && Index(Relics(inp.o.routing), rs)[ep.ip] == r;
    var ws := ApexWants(inp.eps, inp.o);
    assert ApexWantOf(ep, rot, maxCap, inp.o) in ws;
    i :| 0 <= i < |ws| && ws[i] == ApexWantOf(ep, rot, maxCap, inp.o);
  }

  lemma PlannedAt(log: seq<Action>, p: Progress, a: Action) returns (n: nat)
    requires IsPlan(PlannedAll(log), p) && a in p.acts && !a.kind.Add?
    ensures n < |log| && log[n] == a
  {
    hide Removes;
    n :| 0 <= n < |p.acts| && p.acts[n] == a;
    assert PlannedAll(log)[n] == PlannedAll(log)[..|p.acts|][n] == a;
    assert PlannedAll(log)[n] == Planned(log[n]);
  }

  lemma LegalWritesItsOwn(sc: Scope, ws: seq<Want>, m: map<string, Record>, relics: map<string, Record>, a: Action)
    requires WantsOK(sc, ws) && Legal(a, ws, m, relics)
    ensures a.kind.Remove? || (a.record.comment != "" && Key(sc, a.record).Some?)
  {
    hide Key, Wanted;
    if !a.kind.Remove? {
      var j :| 0 <= j < |ws| && ActsFor(Planned(a), ws[j], m, relics);
      KeyOfBody(sc, ws[j].record, ws[j].record, a.recordID);
    }
  }

  /** An adopted one becomes its edge's record: after an error-free reconcile it is
      gone as it was, and otherwise such a record stays. */
  lemma StrayZoneRecordKeptIff(inp: Inputs, rs: seq<Record>, pass: Pass, r: Record)
    requires InputsOK(inp) && DistinctIDs(rs) && IsPass(inp, rs, pass) && StrayZoneRecord(inp, r)
    ensures r in AfterPass(rs, pass) <==> r in rs && !Adopted(inp, rs, r)
  {
    hide Key, CutPass, AfterPass, InputsOK, DistinctIDs, ForeignRecord, Adopted, WildcardRecord, StrayZoneRecord, IsPass;
    WholePassIsCut(inp, rs, pass);
    StrayIsForeign(inp, rs, r);
    if Adopted(inp, rs, r) {
      AdoptedGoes(inp, rs, pass, r);
    } else {
      StrayZoneRecordStaysIff(inp, rs, pass, r);
    }
  }

  lemma AdoptedGoes(inp: Inputs, rs: seq<Record>, pass: Pass, r: Record)
    requires InputsOK(inp) && IsPass(inp, rs, pass) && CutPass(inp, rs, pass) && StrayZoneRecord(inp, r) && Adopted(inp, rs, r) && Key(Apex, r).None?
    ensures r !in AfterPass(rs, pass)
  {
    hide Key, Adopted, Execute, ZonesEnd, IsPlan, ApexProgress, OrphanActions, CutPlan, CutRun, StaleRun, Accepted, WildcardPlan, ZonesOK,
        ActiveIDs, Carries;
    var rs1, rs2, rs3 := AfterWildcard(rs, pass), AfterApex(rs, pass), AfterZones(rs, pass);
    AdoptionRuns(inp, rs, rs1, pass.apex, r);
    SweptAreRemoves(rs2, ActiveIDs(inp.zones), pass.orphans);
    if r in AfterPass(rs, pass) {
      RemovesAddNothing(rs3, pass.orphans, r);
      ZonesWriteTheirOwn(rs2, rs2, inp.zones, inp.eps, ZoneOpts(inp), inp.o.routing, pass.zones, r);
      assert false;
    }
  }

  const RENAMED := NO_RECORD.(id := 1, typ := TYPE_A, name := "old.cdn", value := "192.0.2.1", comment := ZoneEdgeTag(7, "e"))

  function OneZone(o: Opts): Inputs {
    Inputs([], [ZoneRouting(7, "shop.cdn", [])], o, o.now, "")
  }

  lemma RenamedInNoSet(sc: Scope)
    requires sc == Zone(7, "shop.cdn") || sc == Relics("cdn") || sc == Wildcard("cdn") || sc == Apex
    ensures Key(sc, RENAMED).None? && UniqueKeys(sc, [RENAMED])
  {
    ZoneIDRoundTrip(7, "e");
    ZoneTagIsNotServerTag(RENAMED.comment);
    DifferentLengths("old.cdn", "shop.cdn");
    DifferentLengths("old.cdn", "cdn");
    hide EqualFold, EdgeIDFromComment, EdgeIDFromZoneComment, ZoneEdgeTag;
    assert Key(sc, RENAMED).None?;
    forall k ensures At(sc, k, [RENAMED]) == [] { AtNone(sc, k, [RENAMED]); }
  }

  /** Zone 7 at "shop.cdn" without edges, and one of its records renamed by hand to
      "old.cdn": the listing is well formed, and every reconcile leaves the record. */
  lemma RenamedRecordIsStray(o: Opts, pass: Pass)
    requires o.routing == "cdn" && o.ttl != 0 && CutPass(OneZone(o), [RENAMED], pass)
    ensures InputsOK(OneZone(o)) && ListingOK(OneZone(o), [RENAMED]) && StrayZoneRecord(OneZone(o), RENAMED)
    ensures RENAMED in AfterPass([RENAMED], pass)
  {
    hide *;
    RenamedListing(o);
    RenamedClasses(o);
    NobodyAdopts(o);
    StrayZoneRecordStaysIff(OneZone(o), [RENAMED], pass, RENAMED);
  }

  lemma NobodyAdopts(o: Opts)
    ensures !Adopted(OneZone(o), [RENAMED], RENAMED)
  {
    assert OneZone(o).eps == [];
  }

  lemma RenamedListing(o: Opts)
    requires o.routing == "cdn" && o.ttl != 0
    ensures InputsOK(OneZone(o)) && ListingOK(OneZone(o), [RENAMED]) && DistinctIDs([RENAMED]) && RENAMED in [RENAMED]
  {
    DifferentLengths("shop.cdn", "cdn");
    RenamedInNoSet(Zone(7, "shop.cdn"));
    RenamedInNoSet(Apex);
    hide EqualFold, Key, At, UniqueKeys, RENAMED;
    assert OneZone(o).zones == [ZoneRouting(7, "shop.cdn", [])] && OneZone(o).o.routing == "cdn";
  }

  lemma RenamedClasses(o: Opts)
    requires o.routing == "cdn"
    ensures StrayZoneRecord(OneZone(o), RENAMED)
  {
    RenamedTag();
    OneZoneIs(o);
    hide EqualFold, Key, UniqueKeys, ZoneIDFromComment, RENAMED, OneZone, ActiveIDs;
    RenamedInNoSet(Zone(7, "shop.cdn"));
    RenamedInNoSet(Relics("cdn"));
    RenamedInNoSet(Wildcard("cdn"));
  }

  lemma RenamedTag()
    ensures ZoneIDFromComment(RENAMED.comment) == Some(7)
  {
    ZoneIDRoundTrip(7, "e");
    hide ZoneIDFromComment, ZoneEdgeTag;
  }

  lemma OneZoneIs(o: Opts)
    requires o.routing == "cdn"
    ensures var inp := OneZone(o);
            |inp.zones| == 1 && ZoneScope(inp.zones[0]) == Zone(7, "shop.cdn") && 7 in ActiveIDs(inp.zones)
            && inp.o.routing == "cdn" && WildcardScope(inp.o.routing) == Wildcard("cdn")
  {
    assert OneZone(o).zones[0].zoneID == 7;
    CdnIsTrimmed();
  }

  lemma CdnIsTrimmed()
    ensures TrimSpace("cdn") == "cdn"
  {
  }

  lemma DifferentLengths(a: string, b: string)
    requires |a| != |b|
    ensures !EqualFold(a, b)
  {
    assert |Lower(a)| == |a| && |Lower(b)| == |b|;
  }

  // ---------- histories ----------

  /** A step of a history: a reconcile, whose edges, zones, settings and clock differ
      freely from one to the next, or an edit of the records by somebody else. */
  datatype Round = Reconciled(inp: Inputs, pass: Pass) | Edited(records: seq<Record>)

  function AfterRound(rs: seq<Record>, round: Round): seq<Record> {
    match round
    case Reconciled(_, pass) => AfterPass(rs, pass)
    case Edited(records) => records
  }

  function EndOf(rs: seq<Record>, rounds: seq<Round>): seq<Record>
    decreases |rounds|
  {
    if rounds == [] then rs else EndOf(AfterRound(rs, rounds[0]), rounds[1..])
  }

  /** Any calls may fail, but no add was made twice, and no edit put a tag on two
      records of one class. */
  ghost predicate History(rs: seq<Record>, rounds: seq<Round>)
    decreases |rounds|
  {
    rounds == [] ||
    ((match rounds[0]
      case Reconciled(inp, pass) => InputsOK(inp) && CutPass(inp, rs, pass) && SentOnce(pass)
      case Edited(records) => AllUnique(records))
     && History(AfterRound(rs, rounds[0]), rounds[1..]))
  }

  lemma {:induction false} HistoryKeepsAllUnique(rs: seq<Record>, rounds: seq<Round>)
    requires AllUnique(rs) && History(rs, rounds)
    ensures AllUnique(EndOf(rs, rounds))
    decreases |rounds|
  {
    hide AllUnique, CutPass, InputsOK, AfterPass, SentOnce;
    if rounds == [] {
    } else {
      if rounds[0].Reconciled? { CutPassKeepsAllUnique(rounds[0].inp, rs, rounds[0].pass); }
      HistoryKeepsAllUnique(AfterRound(rs, rounds[0]), rounds[1..]);
    }
  }

  /** Self-stabilisation: after any history of reconciles, with any calls failing
      in any of them, the tables changing and the records being edited in between, the
      first reconcile without a failing call settles every class and keeps the
      invariant, so that the history may go on; and one more with the same inputs
      plans nothing for the apex set, the zones and the orphans. */
  lemma AnyHistoryThenSettled(rs: seq<Record>, rounds: seq<Round>, inp: Inputs, clean: Pass, next: Pass)
    requires AllUnique(rs) && History(rs, rounds)
    requires InputsOK(inp) && IsPass(inp, EndOf(rs, rounds), clean)
    requires IsPass(inp, AfterPass(EndOf(rs, rounds), clean), next)
    ensures var end := AfterPass(EndOf(rs, rounds), clean);
            Settled(Apex, ApexWants(inp.eps, inp.o), end)
            && (forall i :: 0 <= i < |inp.zones| ==> Settled(ZoneScope(inp.zones[i]), ZoneWants(inp.zones[i], inp.eps, ZoneOpts(inp)), end))
            && At(Orphans(ActiveIDs(inp.zones)), "", end) == [] && AllUnique(end)
    ensures next.apex == [] && next.orphans == [] && forall i :: 0 <= i < |next.zones| ==> next.zones[i] == []
  {
    hide AllUnique, CutPass, InputsOK, AfterPass, IsPass, Settled, ListingOK, ApexWants, ZoneWants, At, EndOf, SentOnce;
    HistoryKeepsAllUnique(rs, rounds);
    AllUniqueIsListingOK(inp, EndOf(rs, rounds));
    WholePassSentOnce(inp, EndOf(rs, rounds), clean);
    WholePassIsCut(inp, EndOf(rs, rounds), clean);
    CutPassKeepsAllUnique(inp, EndOf(rs, rounds), clean);
    OnePassSettles(inp, EndOf(rs, rounds), clean);
    SecondPassIsIdle(inp, EndOf(rs, rounds), clean, next);
  }
}

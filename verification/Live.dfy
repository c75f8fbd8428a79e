/** No plan ever names a missing record: with Bunny reachable, every call of a
    reconcile can succeed, so an error-free reconcile is always possible. */
module Live {
  import opened Text
  import opened Records
  import opened Regions
  import opened Rotation
  import opened Reconcile
  import opened Converge
  import opened Frames
  import opened Recovery
  import opened ReconcilePass
  import opened ReconcileTheorems

  // ---------- plans that name live records ----------

  /** Every update and delete names a record of rs that no earlier action deletes. */
  ghost predicate NamesLive(rs: seq<Record>, plan: seq<Action>) {
    (forall i :: 0 <= i < |plan| && !plan[i].kind.Add? ==> HasID(rs, plan[i].recordID))
    && (forall i, j :: 0 <= i < j < |plan| && plan[i].kind.Remove? && !plan[j].kind.Add? ==> plan[i].recordID != plan[j].recordID)
  }

  function UnusedID(rs: seq<Record>): (id: int)
    ensures !HasID(rs, id)
  {
    Above(rs) + 1
  }

  function Above(rs: seq<Record>): (n: int)
    ensures forall i :: 0 <= i < |rs| ==> rs[i].id <= n
  {
    if rs == [] then 0
    else
      var n := Above(rs[..|rs| - 1]);
      if rs[|rs| - 1].id > n then rs[|rs| - 1].id else n
  }

  lemma StepKeepsLive(rs: seq<Record>, a: Action, id: int)
    requires HasID(rs, id) && (a.kind.Remove? ==> a.recordID != id)
    ensures HasID(Step(rs, a), id)
  {
    var i :| 0 <= i < |rs| && rs[i].id == id;
    if a.kind.Remove? {
      WithoutMembers(rs, a.recordID);
      assert rs[i] in rs;
      var k :| 0 <= k < |Without(rs, a.recordID)| && Without(rs, a.recordID)[k] == rs[i];
    } else {
      assert Step(rs, a)[i].id == id;
    }
  }

  /** Such a plan can be executed to its end, with some new ids for its adds. */
  lemma {:induction false} LivePlanRuns(rs: seq<Record>, plan: seq<Action>) returns (log: seq<Action>)
    requires NamesLive(rs, plan) && PlannedAll(plan) == plan
    ensures PlannedAll(log) == plan && Accepted(rs, log)
    decreases |plan|
  {
    if plan == [] {
      log := [];
    } else {
      var p, tail := plan[0], plan[1..];
      assert Planned(p) == PlannedAll(plan)[0] == p;
      var a := if p.kind.Add? then p.(recordID := UnusedID(rs)) else p;
      forall i | 0 <= i < |tail| ensures tail[i] == plan[i + 1] && Planned(tail[i]) == tail[i] {
        assert PlannedAll(plan)[i + 1] == Planned(plan[i + 1]);
      }
      assert PlannedAll(tail) == tail;
      forall i | 0 <= i < |tail| && !tail[i].kind.Add? ensures HasID(Step(rs, a), tail[i].recordID) {
        StepKeepsLive(rs, a, tail[i].recordID);
      }
      hide HasID, Step;
      var rest := LivePlanRuns(Step(rs, a), tail);
      log := [a] + rest;
      assert log[1..] == rest;
      assert PlannedAll(log) == [Planned(a)] + PlannedAll(rest);
    }
  }

  lemma WritesNameLive(sc: Scope, rs: seq<Record>, ws: seq<Want>, relics: map<string, Record>)
    requires RelicsOK(sc, rs, relics) && WantsOK(sc, ws)
    ensures forall a :: a in PlanWants(ws, Index(sc, rs), relics).acts ==> !a.kind.Remove? && (a.kind.Add? || HasID(rs, a.recordID))
  {
    hide Key, At, Index, WantOK, HasID;
    var m := Index(sc, rs);
    PlanTargets(ws, m, relics);
    IndexMembers(sc, rs);
    hide PlanWants;
    forall a | a in PlanWants(ws, m, relics).acts ensures !a.kind.Remove? && (a.kind.Add? || HasID(rs, a.recordID)) {
      var j :| 0 <= j < |ws| && ActsFor(a, ws[j], m, relics);
      if !a.kind.Add? {
        MemberHasID(rs, if ws[j].edgeID in m then m[ws[j].edgeID] else relics[ws[j].record.value]);
      }
    }
  }

  lemma RemovesNameLive(sc: Scope, rs: seq<Record>, m: map<string, Record>, rm: seq<Action>)
    requires DistinctIDs(rs) && Removes(rm, m, m.Keys) && forall k :: k in m ==> m[k] in rs && Key(sc, m[k]) == Some(k)
    ensures forall i :: 0 <= i < |rm| ==> rm[i].kind.Remove? && HasID(rs, rm[i].recordID)
    ensures forall i, j :: 0 <= i < j < |rm| ==> rm[i].recordID != rm[j].recordID
  {
    hide Key, HasID, DistinctIDs;
    forall i | 0 <= i < |rm| ensures HasID(rs, rm[i].recordID) { MemberHasID(rs, m[rm[i].edgeID]); }
    forall i, j | 0 <= i < j < |rm| ensures rm[i].recordID != rm[j].recordID {
      OtherKeyOtherID(sc, rs, m[rm[i].edgeID], m[rm[j].edgeID]);
    }
  }

  lemma JoinNamesLive(rs: seq<Record>, acts: seq<Action>, rm: seq<Action>)
    requires forall a :: a in acts ==> !a.kind.Remove? && (a.kind.Add? || HasID(rs, a.recordID))
    requires forall i :: 0 <= i < |rm| ==> rm[i].kind.Remove? && HasID(rs, rm[i].recordID)
    requires forall i, j :: 0 <= i < j < |rm| ==> rm[i].recordID != rm[j].recordID
    ensures NamesLive(rs, acts + rm)
  {
    hide HasID;
    var plan := acts + rm;
    forall i | 0 <= i < |plan| ensures i < |acts| ==> plan[i] in acts { }
  }

  /** A planner's plan names only live records of the listing it was computed from. */
  lemma PlanNamesLive(sc: Scope, rs: seq<Record>, ws: seq<Want>, relics: map<string, Record>, plan: seq<Action>)
    requires DistinctIDs(rs) && RelicsOK(sc, rs, relics) && WantsOK(sc, ws)
    requires IsPlan(plan, PlanWants(ws, Index(sc, rs), relics))
    ensures NamesLive(rs, plan) && PlannedAll(plan) == plan
  {
    hide Key, At, Index, Wanted, WantOK, Planned, PlannedAll, HasID, PlanWants, Removes, RelicsOK, DistinctIDs, NamesLive;
    var m := Index(sc, rs);
    var p := PlanWants(ws, m, relics);
    PlansArePlanned(plan, ws, m, relics);
    LeftoverKeys(ws, m, relics);
    IndexMembers(sc, rs);
    WritesNameLive(sc, rs, ws, relics);
    RemovesNameLive(sc, rs, p.managed, plan[|p.acts|..]);
    JoinNamesLive(rs, p.acts, plan[|p.acts|..]);
    assert plan == p.acts + plan[|p.acts|..];
  }

  lemma OtherKeyOtherID(sc: Scope, rs: seq<Record>, a: Record, b: Record)
    requires DistinctIDs(rs) && a in rs && b in rs && Key(sc, a) != Key(sc, b)
    ensures a.id != b.id
  {
    hide Key;
  }

  lemma {:induction false} TurnsArePlanned(ws: seq<Want>, managed: map<string, Record>, relics: map<string, Record>)
    ensures forall a :: a in PlanWants(ws, managed, relics).acts ==> Planned(a) == a
    decreases |ws|
  {
    if ws == [] {
    } else {
      TurnsArePlanned(ws[1..], managed - {ws[0].edgeID}, RelicsLeft(ws[0], managed, relics));
    }
  }

  /** A plan names no id for a record that does not exist yet. */
  lemma PlansArePlanned(plan: seq<Action>, ws: seq<Want>, managed: map<string, Record>, relics: map<string, Record>)
    requires IsPlan(plan, PlanWants(ws, managed, relics))
    ensures PlannedAll(plan) == plan
  {
    TurnsArePlanned(ws, managed, relics);
    hide PlanWants;
    var p := PlanWants(ws, managed, relics);
    forall i | 0 <= i < |plan| ensures Planned(plan[i]) == plan[i] {
      if i < |p.acts| {
        assert plan[i] == plan[..|p.acts|][i];
        assert plan[i] in p.acts;
      } else {
        assert plan[i] == plan[|p.acts|..][i - |p.acts|];
      }
    }
  }

  // ---------- plans exist ----------

  lemma {:induction false} SomeRemoves(m: map<string, Record>, keys: set<string>) returns (rm: seq<Action>)
    requires keys <= m.Keys
    ensures Removes(rm, m, keys)
    decreases |keys|
  {
    if keys == {} {
      rm := [];
    } else {
      var k :| k in keys;
      rm := SomeRemoves(m, keys - {k});
      RemovesOneMore(rm, m, keys - {k}, k);
      assert keys - {k} + {k} == keys;
      rm := rm + [RemoveAction(k, m[k])];
    }
  }

  /** Every standing has a plan. */
  lemma SomePlan(p: Progress) returns (plan: seq<Action>)
    ensures IsPlan(plan, p)
  {
    var rm := SomeRemoves(p.managed, p.managed.Keys);
    plan := p.acts + rm;
    assert plan[..|p.acts|] == p.acts && plan[|p.acts|..] == rm;
  }

  // ---------- a whole reconcile ----------

  lemma {:induction false} OrphanIDsDistinct(snap: seq<Record>, active: set<int>)
    requires DistinctIDs(snap)
    ensures var acts := OrphanActions(snap, active);
            forall i, j :: 0 <= i < j < |acts| ==> acts[i].recordID != acts[j].recordID
  {
    hide Key;
    if snap == [] {
    } else {
      var front, last := snap[..|snap| - 1], snap[|snap| - 1];
      OrphanIDsDistinct(front, active);
      OrphanTargets(front, active);
      var before := OrphanActions(front, active);
      forall i | 0 <= i < |before| ensures before[i].recordID != last.id {
        assert before[i].recordID in Targets(before);
        var r :| r in front && r.id == before[i].recordID && Key(Orphans(active), r).Some?;
        var k :| 0 <= k < |front| && front[k] == r;
        assert snap[k].id != snap[|snap| - 1].id;
      }
    }
  }

  lemma SweepNamesLive(snap: seq<Record>, rs: seq<Record>, active: set<int>)
    requires SameView(Orphans(active), rs, snap) && DistinctIDs(snap)
    ensures NamesLive(rs, OrphanActions(snap, active)) && PlannedAll(OrphanActions(snap, active)) == OrphanActions(snap, active)
  {
    var acts := OrphanActions(snap, active);
    OrphanTargets(snap, active);
    OrphanIDsDistinct(snap, active);
    hide Key, At, OrphanActions, SameView, DistinctIDs, HasID;
    forall i | 0 <= i < |acts| ensures HasID(rs, acts[i].recordID) && Planned(acts[i]) == acts[i] {
      assert acts[i].recordID in Targets(acts);
      OrphanIDs(snap, rs, active, acts[i].recordID);
      var r :| r in rs && r.id == acts[i].recordID && Key(Orphans(active), r).Some?;
      MemberHasID(rs, r);
    }
  }

  lemma {:induction false} ZonesCanRun(snap: seq<Record>, rs: seq<Record>, zones: seq<ZoneRouting>, eps: seq<Endpoint>, o: Opts,
                                       routing: string) returns (runs: seq<seq<Action>>)
    requires ZonesOK(zones, routing) && o.ttl != 0 && DistinctIDs(rs) && SnapshotGood(snap, rs, zones)
    ensures StaleRun(snap, rs, zones, eps, o, runs)
    decreases |zones|
  {
    hide Key, Execute, At, IsPlan, CutPlan, DistinctIDs, Accepted, ZoneWants, ZoneOK, PlannedAll, SnapshotGood, SameView, Index, PlanWants,
         WantsOK, NamesLive, RelicsOK, ZoneScope;
    if zones == [] {
      runs := [];
    } else {
      assert ZoneOK(zones[0], routing) && SameView(ZoneScope(zones[0]), snap, rs) by { FirstSnapshot(snap, rs, zones); }
      SameZonePlan(zones[0], eps, snap, rs, o);
      var plan := SomePlan(ZoneProgress(zones[0], eps, rs, o));
      ZoneWantsOK(zones[0], eps, o, routing);
      NoRelicsOK(ZoneScope(zones[0]), rs);
      PlanNamesLive(ZoneScope(zones[0]), rs, ZoneWants(zones[0], eps, o), map[], plan);
      var log := LivePlanRuns(rs, plan);
      WholeIsCut(log, ZoneProgress(zones[0], eps, rs, o));
      SnapshotStaysGood(snap, rs, zones, eps, o, routing, log);
      ExecuteKeepsIDsDistinct(rs, log);
      var rest := ZonesCanRun(snap, Execute(rs, log), zones[1..], eps, o, routing);
      runs := [log] + rest;
      assert runs[1..] == rest;
    }
  }

  lemma NoRelicsOK(sc: Scope, rs: seq<Record>)
    ensures RelicsOK(sc, rs, map[])
  {
  }

  lemma WildcardCanRun(inp: Inputs, rs: seq<Record>) returns (log: seq<Action>)
    ensures PlannedAll(log) == WildcardPlan(rs, inp.o.routing, inp.domain, inp.o.ttl) && Accepted(rs, log)
  {
    hide Key, WildcardRecord;
    log := LivePlanRuns(rs, WildcardPlan(rs, inp.o.routing, inp.domain, inp.o.ttl));
  }

  /** Whatever the records, the tables and the settings: with no call refused, a
      reconcile runs to its end. */
  lemma ReconcileCanSucceed(inp: Inputs, rs: seq<Record>) returns (pass: Pass)
    requires InputsOK(inp) && DistinctIDs(rs)
    ensures IsPass(inp, rs, pass)
  {
    hide Key, At, IsPlan, DistinctIDs, Accepted, Execute, SameView, StaleRun, OrphanActions, ApexWants, PlannedAll, WildcardPlan, ZonesEnd,
         WantsOK, RelicsOK, Index, NamesLive, PlanWants, DistinctEdges, ZonesOK, SnapshotGood, AllForeign, CutRun, ActiveIDs;
    var wild := WildcardCanRun(inp, rs);
    var rs1 := Execute(rs, wild);
    ExecuteKeepsIDsDistinct(rs, wild);
    WildcardFrame(inp, rs, wild, Apex);
    WildcardFrame(inp, rs, wild, Relics(inp.o.routing));
    SameViewSameIndex(Apex, rs1, rs);
    SameViewSameIndex(Relics(inp.o.routing), rs1, rs);
    var plan := SomePlan(ApexProgress(inp.eps, rs1, inp.o));
    ApexWantsOK(inp.eps, inp.o);
    ApexRelicsOK(rs1, inp.o.routing);
    PlanNamesLive(Apex, rs1, ApexWants(inp.eps, inp.o), Index(Relics(inp.o.routing), rs1), plan);
    var apex := LivePlanRuns(rs1, plan);
    var rs2 := Execute(rs1, apex);
    ExecuteKeepsIDsDistinct(rs1, apex);
    SnapshotOfItself(rs2, inp.zones);
    var zones := ZonesCanRun(rs2, rs2, inp.zones, inp.eps, ZoneOpts(inp), inp.o.routing);
    AllForeignTo(inp.zones, inp.o.routing);
    StaleRunIsCutRun(rs2, rs2, inp.zones, inp.eps, ZoneOpts(inp), zones);
    ZonesFrame(rs2, rs2, inp.zones, inp.eps, ZoneOpts(inp), inp.o.routing, zones, Orphans(ActiveIDs(inp.zones)));
    SweepNamesLive(rs2, ZonesEnd(rs2, zones), ActiveIDs(inp.zones));
    var orphans := LivePlanRuns(ZonesEnd(rs2, zones), OrphanActions(rs2, ActiveIDs(inp.zones)));
    pass := Pass(wild, apex, zones, orphans);
  }
}

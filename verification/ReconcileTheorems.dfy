/** The theorems about a whole reconcile: one pass settles every class, a second
    pass has nothing to do, the single snapshot is as good as listing again, an
    interrupted plan is completed, and nothing foreign is touched. */
module ReconcileTheorems {
  import opened Text
  import opened Tags
  import opened Records
  import opened Regions
  import opened Rotation
  import opened Reconcile
  import opened Converge
  import opened Frames
  import opened Recovery
  import opened ReconcilePass

  lemma ViewChain(sc: Scope, a: seq<Record>, b: seq<Record>, c: seq<Record>)
    requires SameView(sc, a, b) && SameView(sc, b, c)
    ensures SameView(sc, a, c)
  {
  }

  lemma ViewKeepsUnique(sc: Scope, a: seq<Record>, b: seq<Record>)
    requires SameView(sc, a, b) && UniqueKeys(sc, b)
    ensures UniqueKeys(sc, a)
  {
  }

  // ---------- what each phase leaves alone ----------

  /** The apex plan, all of it or any prefix, leaves every tenant zone's set alone. */
  lemma ApexPlanFrame(eps: seq<Endpoint>, rs: seq<Record>, o: Opts, log: seq<Action>, zr: ZoneRouting)
    requires DistinctEdges(eps) && o.ttl != 0 && ZoneOK(zr, o.routing) && DistinctIDs(rs)
    requires CutPlan(log, ApexProgress(eps, rs, o))
    ensures SameView(ZoneScope(zr), Execute(rs, log), rs)
  {
    hide Key, Execute, At, CutPlan, DistinctIDs, WantOK, ApexWants, DistinctEdges, Index;
    var ws, relics := ApexWants(eps, o), Index(Relics(o.routing), rs);
    ApexWantsOK(eps, o);
    ApexRelicsOK(rs, o.routing);
    LogIsLegal(ws, Index(Apex, rs), relics, log);
    IndexMembers(Relics(o.routing), rs);
    forall r | Key(Apex, r).Some? ensures Key(ZoneScope(zr), r).None? { ApexApart(r, zr.zoneID, zr.name, {}, o.routing); }
    forall v | v in relics ensures Key(ZoneScope(zr), relics[v]).None? {
      if Key(ZoneScope(zr), relics[v]).Some? { ZoneApartFromApex(relics[v], zr.zoneID, zr.name, o.routing); }
    }
    forall k ensures At(ZoneScope(zr), k, Execute(rs, log)) == At(ZoneScope(zr), k, rs) {
      forall i | 0 <= i < |ws| ensures Key(ZoneScope(zr), ws[i].record) != Some(k) { assert WantOK(Apex, ws[i]); WantKey(Apex, ws[i]); }
      PlanSeparate(Apex, ZoneScope(zr), k, rs, ws, relics, log);
      ExecuteSeparate(ZoneScope(zr), k, rs, log);
    }
  }

  lemma WantKey(sc: Scope, w: Want)
    requires WantOK(sc, w)
    ensures Key(sc, w.record) == Some(w.edgeID)
  {
  }

  /** sc is a class of records that tenant zone zr never holds. */
  ghost predicate Foreign(zr: ZoneRouting, sc: Scope) {
    match sc
    case Apex => true
    case Relics(routing) => !EqualFold(zr.name, routing)
    case Zone(zoneID, name) => IsInt64(zoneID) && (zoneID != zr.zoneID || !EqualFold(name, zr.name))
    case Orphans(active) => zr.zoneID in active
    case Wildcard(_) => true
  }

  lemma NamesApart(r: Record, a: string, b: string)
    requires EqualFold(r.name, a) && !EqualFold(b, a)
    ensures !EqualFold(r.name, b)
  {
  }

  lemma ForeignApart(zr: ZoneRouting, sc: Scope, r: Record)
    requires IsInt64(zr.zoneID) && Foreign(zr, sc) && Key(ZoneScope(zr), r).Some?
    ensures Key(sc, r).None?
  {
    hide EdgeIDFromZoneComment, EdgeIDFromComment, ZoneIDFromComment, EqualFold;
    match sc
    case Apex => ZoneReadersAgree(r.comment, zr.zoneID);
    case Relics(routing) => ZoneApartFromApex(r, zr.zoneID, zr.name, routing);
    case Zone(zoneID, name) =>
      if zoneID != zr.zoneID { ZonesApart(r, zr.zoneID, zr.name, zoneID, name, {zr.zoneID}); } else { NamesApart(r, zr.name, name); }
    case Orphans(active) => ZoneReadersAgree(r.comment, zr.zoneID);
    case Wildcard(_) =>
  }

  /** A zone plan leaves the apex set, the adoptable records, every other zone's
      set, the orphans and the wildcard alone. */
  lemma ZonePlanFrame(zr: ZoneRouting, eps: seq<Endpoint>, rs: seq<Record>, o: Opts, log: seq<Action>, routing: string, sc: Scope)
    requires o.ttl != 0 && ZoneOK(zr, routing) && DistinctIDs(rs) && Foreign(zr, sc)
    requires CutPlan(log, ZoneProgress(zr, eps, rs, o))
    ensures SameView(sc, Execute(rs, log), rs)
  {
    hide Key, Execute, At, CutPlan, DistinctIDs, WantOK, ZoneWants, Foreign, Index;
    var ws := ZoneWants(zr, eps, o);
    ZoneWantsOK(zr, eps, o, routing);
    LogIsLegal(ws, Index(ZoneScope(zr), rs), map[], log);
    forall r | Key(ZoneScope(zr), r).Some? ensures Key(sc, r).None? { ForeignApart(zr, sc, r); }
    forall k ensures At(sc, k, Execute(rs, log)) == At(sc, k, rs) {
      forall i | 0 <= i < |ws| ensures Key(sc, ws[i].record) != Some(k) { assert WantOK(ZoneScope(zr), ws[i]); WantKey(ZoneScope(zr), ws[i]); }
      PlanSeparate(ZoneScope(zr), sc, k, rs, ws, map[], log);
      ExecuteSeparate(sc, k, rs, log);
    }
  }

  /** Every action of wild creates the tenant wildcard. */
  ghost predicate MakesWildcards(inp: Inputs, wild: seq<Action>) {
    forall i :: 0 <= i < |wild| ==> wild[i].kind.Add? && wild[i].record == WildcardRecord(inp.o.routing, inp.domain, inp.o.ttl)
  }

  lemma WildcardPlanMakes(inp: Inputs, rs: seq<Record>, wild: seq<Action>)
    requires Carries(WildcardPlan(rs, inp.o.routing, inp.domain, inp.o.ttl), wild)
    ensures MakesWildcards(inp, wild)
  {
    hide Key, WildcardRecord, Carries;
    CarriedAreOfPlan(WildcardPlan(rs, inp.o.routing, inp.domain, inp.o.ttl), wild);
  }

  /** However often the wildcard is created, no class but its own moves, and nothing
      else appears. */
  lemma {:induction false} WildcardsFrame(inp: Inputs, rs: seq<Record>, wild: seq<Action>, sc: Scope)
    requires MakesWildcards(inp, wild) && !sc.Wildcard?
    ensures SameView(sc, Execute(rs, wild), rs)
    ensures forall r :: r in rs ==> r in Execute(rs, wild)
    ensures forall r :: r in Execute(rs, wild) ==> r in rs || r == WildcardRecord(inp.o.routing, inp.domain, inp.o.ttl).(id := r.id)
    decreases |wild|
  {
    hide Key, At, WildcardRecord;
    if wild == [] {
    } else {
      var body, id, rest := WildcardRecord(inp.o.routing, inp.domain, inp.o.ttl), wild[0].recordID, wild[1..];
      assert Step(rs, wild[0]) == Added(rs, id, body);
      assert forall i :: 0 <= i < |rest| ==> rest[i] == wild[i + 1];
      WildcardKeys(inp, sc, id);
      forall k ensures At(sc, k, Added(rs, id, body)) == At(sc, k, rs) {
        AtAdded(sc, k, rs, id, body);
      }
      WildcardsFrame(inp, Added(rs, id, body), rest, sc);
      ViewChain(sc, Execute(rs, wild), Added(rs, id, body), rs);
    }
  }

  /** A class only the wildcard scope shares nothing with: every class but it. */
  lemma WildcardFrame(inp: Inputs, rs: seq<Record>, wild: seq<Action>, sc: Scope)
    requires PlannedAll(wild) == WildcardPlan(rs, inp.o.routing, inp.domain, inp.o.ttl) && !sc.Wildcard?
    ensures SameView(sc, Execute(rs, wild), rs)
    ensures forall r :: r in rs ==> r in Execute(rs, wild)
    ensures forall r :: r in Execute(rs, wild) ==> r in rs || (r.typ == TYPE_CNAME && Key(Apex, r).None? && ZoneIDFromComment(r.comment).None?)
  {
    hide *;
    WholeCarries(WildcardPlan(rs, inp.o.routing, inp.domain, inp.o.ttl), wild);
    WildcardPlanMakes(inp, rs, wild);
    WildcardsFrame(inp, rs, wild, sc);
    forall r | r in Execute(rs, wild) && r !in rs ensures r.typ == TYPE_CNAME && Key(Apex, r).None? && ZoneIDFromComment(r.comment).None? {
      WildcardKeys(inp, Apex, r.id);
    }
  }

  lemma WildcardKeys(inp: Inputs, sc: Scope, id: int)
    ensures var r := WildcardRecord(inp.o.routing, inp.domain, inp.o.ttl).(id := id);
            r.typ == TYPE_CNAME && Key(Apex, r).None? && ZoneIDFromComment(r.comment).None? && (!sc.Wildcard? ==> Key(sc, r).None?)
  {
    WildcardTagIsNeither(TrimSpace(inp.o.routing));
    NotZoneTagged(WildcardRecord(inp.o.routing, inp.domain, inp.o.ttl).comment);
  }

  lemma NotZoneTagged(comment: string)
    requires ZoneIDFromComment(comment).None?
    ensures forall z :: IsInt64(z) ==> EdgeIDFromZoneComment(comment, z).None?
  {
    forall z | IsInt64(z) ensures EdgeIDFromZoneComment(comment, z).None? {
      if EdgeIDFromZoneComment(comment, z).Some? { ZoneReadersAgree(comment, z); }
    }
  }

  // ---------- zones: stale snapshot ----------

  ghost predicate SnapshotGood(snap: seq<Record>, rs: seq<Record>, zones: seq<ZoneRouting>) {
    forall i :: 0 <= i < |zones| ==> SameView(ZoneScope(zones[i]), snap, rs)
  }

  lemma SnapshotStaysGood(snap: seq<Record>, rs: seq<Record>, zones: seq<ZoneRouting>, eps: seq<Endpoint>, o: Opts,
                          routing: string, log: seq<Action>)
    requires zones != [] && ZonesOK(zones, routing) && o.ttl != 0 && DistinctIDs(rs)
    requires SnapshotGood(snap, rs, zones)
    requires CutPlan(log, ZoneProgress(zones[0], eps, rs, o))
    ensures SnapshotGood(snap, Execute(rs, log), zones[1..]) && ZonesOK(zones[1..], routing)
  {
    hide Key, Execute, At, CutPlan, DistinctIDs, ZoneProgress, SameView, ZoneScope;
    var rest := zones[1..];
    forall i | 0 <= i < |rest| ensures SameView(ZoneScope(rest[i]), snap, Execute(rs, log)) && ZoneOK(rest[i], routing) {
      assert rest[i] == zones[i + 1] && ZoneOK(zones[i + 1], routing);
      ZoneScopeIs(rest[i]);
      ZonePlanFrame(zones[0], eps, rs, o, log, routing, ZoneScope(rest[i]));
      SameViewSym(ZoneScope(rest[i]), Execute(rs, log), rs);
      ViewChain(ZoneScope(rest[i]), snap, rs, Execute(rs, log));
    }
  }

  lemma ZoneScopeIs(zr: ZoneRouting)
    ensures ZoneScope(zr) == Zone(zr.zoneID, zr.name)
  {
  }

  lemma SameViewSym(sc: Scope, a: seq<Record>, b: seq<Record>)
    requires SameView(sc, a, b)
    ensures SameView(sc, b, a)
  {
  }

  lemma SameZonePlan(zr: ZoneRouting, eps: seq<Endpoint>, a: seq<Record>, b: seq<Record>, o: Opts)
    requires SameView(ZoneScope(zr), a, b)
    ensures ZoneProgress(zr, eps, a, o) == ZoneProgress(zr, eps, b, o)
  {
    SameViewSameIndex(ZoneScope(zr), a, b);
  }

  /** The single snapshot is sound: a run whose zone plans all come from it is a run
      that lists the records again before every plan, and the other way round. */
  lemma {:induction false} StaleSnapshotSound(snap: seq<Record>, rs: seq<Record>, zones: seq<ZoneRouting>, eps: seq<Endpoint>,
                                              o: Opts, routing: string, runs: seq<seq<Action>>)
    requires ZonesOK(zones, routing) && o.ttl != 0 && DistinctIDs(rs) && SnapshotGood(snap, rs, zones)
    ensures StaleRun(snap, rs, zones, eps, o, runs) <==> RelistingRun(rs, zones, eps, o, runs)
    decreases |zones|
  {
    hide Key, Execute, At, IsPlan, CutPlan, DistinctIDs, Accepted, ZoneProgress, ZonesOK, PlannedAll;
    if zones == [] || |runs| != |zones| {
    } else {
      SameZonePlan(zones[0], eps, snap, rs, o);
      if IsPlan(PlannedAll(runs[0]), ZoneProgress(zones[0], eps, rs, o)) && Accepted(rs, runs[0]) {
        WholeIsCut(runs[0], ZoneProgress(zones[0], eps, rs, o));
        SnapshotStaysGood(snap, rs, zones, eps, o, routing, runs[0]);
        ExecuteKeepsIDsDistinct(rs, runs[0]);
        StaleSnapshotSound(snap, Execute(rs, runs[0]), zones[1..], eps, o, routing, runs[1..]);
      }
    }
  }

  ghost predicate AllForeign(zones: seq<ZoneRouting>, sc: Scope) {
    forall i :: 0 <= i < |zones| ==> Foreign(zones[i], sc)
  }

  /** A class foreign to all zones is the same after their plans ran. */
  lemma {:induction false} ZonesFrame(snap: seq<Record>, rs: seq<Record>, zones: seq<ZoneRouting>, eps: seq<Endpoint>,
                                      o: Opts, routing: string, runs: seq<seq<Action>>, sc: Scope)
    requires ZonesOK(zones, routing) && o.ttl != 0 && DistinctIDs(rs) && SnapshotGood(snap, rs, zones)
    requires CutRun(snap, rs, zones, eps, o, runs) && AllForeign(zones, sc)
    ensures SameView(sc, ZonesEnd(rs, runs), rs) && DistinctIDs(ZonesEnd(rs, runs))
    decreases |zones|
  {
    hide Key, Execute, At, CutPlan, DistinctIDs, Accepted, ZoneProgress, ZoneOK, PlannedAll, Foreign, SnapshotGood, SameView;
    if zones == [] {
      SameViewRefl(sc, rs);
    } else {
      var next := Execute(rs, runs[0]);
      assert SameView(ZoneScope(zones[0]), snap, rs) by { FirstSnapshot(snap, rs, zones); }
      SameZonePlan(zones[0], eps, snap, rs, o);
      ZonePlanFrame(zones[0], eps, rs, o, runs[0], routing, sc);
      SnapshotStaysGood(snap, rs, zones, eps, o, routing, runs[0]);
      ExecuteKeepsIDsDistinct(rs, runs[0]);
      ZonesFrame(snap, next, zones[1..], eps, o, routing, runs[1..], sc);
      ViewChain(sc, ZonesEnd(next, runs[1..]), next, rs);
    }
  }

  lemma SameViewRefl(sc: Scope, rs: seq<Record>)
    ensures SameView(sc, rs, rs)
  {
  }

  lemma FirstSnapshot(snap: seq<Record>, rs: seq<Record>, zones: seq<ZoneRouting>)
    requires zones != [] && SnapshotGood(snap, rs, zones)
    ensures SameView(ZoneScope(zones[0]), snap, rs)
  {
  }

  lemma ZonePlanSettles(zr: ZoneRouting, eps: seq<Endpoint>, rs: seq<Record>, o: Opts, routing: string, log: seq<Action>)
    requires ZoneOK(zr, routing) && o.ttl != 0 && DistinctIDs(rs) && UniqueKeys(ZoneScope(zr), rs)
    requires IsPlan(PlannedAll(log), ZoneProgress(zr, eps, rs, o)) && Accepted(rs, log)
    ensures Settled(ZoneScope(zr), ZoneWants(zr, eps, o), Execute(rs, log))
  {
    hide Key, Execute, At, IsPlan, DistinctIDs, WantsOK, ZoneWants, Settled, Accepted, Index, UniqueKeys;
    ZoneWantsOK(zr, eps, o, routing);
    PlanSettles(ZoneScope(zr), rs, ZoneWants(zr, eps, o), map[], log);
  }

  /** After the zone phase every zone's set is settled. */
  lemma {:induction false} ZonesSettle(snap: seq<Record>, rs: seq<Record>, zones: seq<ZoneRouting>, eps: seq<Endpoint>,
                                       o: Opts, routing: string, runs: seq<seq<Action>>, n: nat)
    requires ZonesOK(zones, routing) && o.ttl != 0 && DistinctIDs(rs) && SnapshotGood(snap, rs, zones)
    requires StaleRun(snap, rs, zones, eps, o, runs) && n < |zones| && UniqueKeys(ZoneScope(zones[n]), rs)
    ensures Settled(ZoneScope(zones[n]), ZoneWants(zones[n], eps, o), ZonesEnd(rs, runs))
    decreases |zones|
  {
    hide Key, Execute, At, IsPlan, CutPlan, DistinctIDs, Accepted, ZoneProgress, ZoneOK, PlannedAll, SnapshotGood, SameView, ZoneWants,
         Settled, UniqueKeys, ZoneScope, CutRun;
    var next := Execute(rs, runs[0]);
    assert SameView(ZoneScope(zones[0]), snap, rs) by { FirstSnapshot(snap, rs, zones); }
    SameZonePlan(zones[0], eps, snap, rs, o);
    WholeIsCut(runs[0], ZoneProgress(zones[0], eps, rs, o));
    StaleRunIsCutRun(snap, next, zones[1..], eps, o, runs[1..]);
    SnapshotStaysGood(snap, rs, zones, eps, o, routing, runs[0]);
    ExecuteKeepsIDsDistinct(rs, runs[0]);
    var sc := ZoneScope(zones[n]);
    ZoneScopeIs(zones[n]);
    if n == 0 {
      ZonePlanSettles(zones[0], eps, rs, o, routing, runs[0]);
      assert AllForeign(zones[1..], sc) by { OthersForeign(zones, routing); }
      ZonesFrame(snap, next, zones[1..], eps, o, routing, runs[1..], sc);
      SameViewSym(sc, ZonesEnd(next, runs[1..]), next);
      SettledSameView(sc, ZoneWants(zones[0], eps, o), next, ZonesEnd(next, runs[1..]));
    } else {
      assert Foreign(zones[0], sc) && zones[1..][n - 1] == zones[n] by { OneForeign(zones, routing, n); }
      ZonePlanFrame(zones[0], eps, rs, o, runs[0], routing, sc);
      ViewKeepsUnique(sc, next, rs);
      ZonesSettle(snap, next, zones[1..], eps, o, routing, runs[1..], n - 1);
    }
  }

  lemma OneForeign(zones: seq<ZoneRouting>, routing: string, n: nat)
    requires ZonesOK(zones, routing) && 0 < n < |zones|
    ensures Foreign(zones[0], ZoneScope(zones[n]))
  {
    assert ZoneOK(zones[n], routing);
  }

  lemma OthersForeign(zones: seq<ZoneRouting>, routing: string)
    requires ZonesOK(zones, routing) && zones != []
    ensures AllForeign(zones[1..], ZoneScope(zones[0]))
  {
    assert ZoneOK(zones[0], routing);
    forall i | 0 <= i < |zones[1..]| ensures Foreign(zones[1..][i], ZoneScope(zones[0])) {
      assert zones[1..][i] == zones[i + 1];
    }
  }

  // ---------- the orphan sweep ----------

  lemma {:induction false} OrphanTargets(snap: seq<Record>, active: set<int>)
    ensures var acts := OrphanActions(snap, active);
            (forall i :: 0 <= i < |acts| ==> acts[i].kind.Remove?)
            && (forall id :: id in Targets(acts) ==> exists r :: r in snap && r.id == id && Key(Orphans(active), r).Some?)
            && (forall r :: r in snap && Key(Orphans(active), r).Some? ==> r.id in Targets(acts))
            && (At(Orphans(active), "", snap) == [] ==> acts == [])
  {
    hide ZoneIDFromComment;
    if snap == [] {
    } else {
      var front, last := snap[..|snap| - 1], snap[|snap| - 1];
      OrphanTargets(front, active);
      assert snap == front + [last];
      var before, acts := OrphanActions(front, active), OrphanActions(snap, active);
      if Key(Orphans(active), last).Some? {
        assert acts == before + [RemoveAction("", last)];
        assert Targets(acts) == Targets(before) + {last.id} by {
          assert acts[|before|].recordID == last.id;
          forall id | id in Targets(before) ensures id in Targets(acts) {
            var i :| 0 <= i < |before| && before[i].recordID == id;
            assert acts[i].recordID == id;
          }
        }
      } else {
        assert acts == before;
      }
    }
  }

  lemma {:induction false} DropMembers(rs: seq<Record>, ids: set<int>)
    ensures forall r :: r in DropAll(rs, ids) <==> r in rs && r.id !in ids
  {
    if rs == [] {
    } else {
      DropMembers(rs[..|rs| - 1], ids);
      assert rs == rs[..|rs| - 1] + [rs[|rs| - 1]];
    }
  }

  lemma OrphanIDs(snap: seq<Record>, rs: seq<Record>, active: set<int>, id: int)
    requires SameView(Orphans(active), rs, snap) && id in Targets(OrphanActions(snap, active))
    ensures exists r :: r in rs && r.id == id && Key(Orphans(active), r).Some?
  {
    OrphanTargets(snap, active);
    var r :| r in snap && r.id == id && Key(Orphans(active), r).Some?;
    hide Key, At, OrphanActions;
    var k := Key(Orphans(active), r).value;
    AtMembers(Orphans(active), k, snap);
    AtMembers(Orphans(active), k, rs);
    assert r in At(Orphans(active), k, snap);
    assert At(Orphans(active), k, snap) == At(Orphans(active), k, rs);
    assert r in rs;
  }

  lemma {:induction false} AtNone(sc: Scope, k: string, rs: seq<Record>)
    requires forall r :: r in rs ==> Key(sc, r) != Some(k)
    ensures At(sc, k, rs) == []
  {
    hide Key;
    if rs == [] {
    } else {
      AtNone(sc, k, rs[..|rs| - 1]);
    }
  }

  /** The sweep deletes every orphan, and of the rest nothing. */
  lemma SweepExact(snap: seq<Record>, rs: seq<Record>, active: set<int>)
    requires SameView(Orphans(active), rs, snap) && DistinctIDs(rs)
    ensures forall r :: r in Execute(rs, OrphanActions(snap, active)) <==> r in rs && Key(Orphans(active), r).None?
    ensures At(Orphans(active), "", Execute(rs, OrphanActions(snap, active))) == []
  {
    var acts := OrphanActions(snap, active);
    OrphanTargets(snap, active);
    DeletesDrop(rs, acts);
    DropMembers(rs, Targets(acts));
    hide Key, At, OrphanActions, Execute, Targets, DropAll;
    var sc := Orphans(active);
    forall r | r in rs ensures r.id in Targets(acts) <==> Key(sc, r).Some? {
      if Key(sc, r).Some? {
        AtMembers(sc, Key(sc, r).value, rs);
        AtMembers(sc, Key(sc, r).value, snap);
        assert At(sc, Key(sc, r).value, rs) == At(sc, Key(sc, r).value, snap);
        assert r in snap;
      }
      if r.id in Targets(acts) {
        OrphanIDs(snap, rs, active, r.id);
        var x :| x in rs && x.id == r.id && Key(sc, x).Some?;
        SameID(rs, x, r);
      }
    }
    var end := Execute(rs, acts);
    AtNone(sc, "", end);
  }

  lemma SweepFrame(snap: seq<Record>, rs: seq<Record>, active: set<int>, log: seq<Action>, sc: Scope)
    requires SameView(Orphans(active), rs, snap) && DistinctIDs(rs) && log <= OrphanActions(snap, active)
    requires forall r :: Key(Orphans(active), r).Some? ==> Key(sc, r).None?
    ensures SameView(sc, Execute(rs, log), rs)
  {
    var acts := OrphanActions(snap, active);
    OrphanTargets(snap, active);
    hide Key, At, OrphanActions, Execute;
    forall k ensures At(sc, k, Execute(rs, log)) == At(sc, k, rs) {
      forall i, r | 0 <= i < |log| && r in rs && r.id == log[i].recordID ensures Key(sc, r) != Some(k) {
        assert log[i] == acts[i] && acts[i].recordID in Targets(acts);
        OrphanIDs(snap, rs, active, r.id);
        var x :| x in rs && x.id == r.id && Key(Orphans(active), x).Some?;
        SameID(rs, x, r);
      }
      assert forall i :: 0 <= i < |log| ==> log[i] == acts[i];
      ExecuteSeparate(sc, k, rs, log);
    }
  }

  // ---------- one pass ----------

  lemma AfterWildcardOK(inp: Inputs, rs: seq<Record>, pass: Pass)
    requires IsPass(inp, rs, pass) && DistinctIDs(rs)
    ensures var rs1 := AfterWildcard(rs, pass);
            DistinctIDs(rs1) && IsPlan(PlannedAll(pass.apex), ApexProgress(inp.eps, rs1, inp.o))
            && SameView(Apex, rs1, rs) && forall i :: 0 <= i < |inp.zones| ==> SameView(ZoneScope(inp.zones[i]), rs1, rs)
  {
    hide Key, At, IsPlan, DistinctIDs, Accepted, WildcardPlan, Execute, SameView, StaleRun, OrphanActions;
    var rs1 := AfterWildcard(rs, pass);
    ExecuteKeepsIDsDistinct(rs, pass.wild);
    WildcardFrame(inp, rs, pass.wild, Apex);
    WildcardFrame(inp, rs, pass.wild, Relics(inp.o.routing));
    SameViewSameIndex(Apex, rs1, rs);
    SameViewSameIndex(Relics(inp.o.routing), rs1, rs);
    forall i | 0 <= i < |inp.zones| ensures SameView(ZoneScope(inp.zones[i]), rs1, rs) {
      WildcardFrame(inp, rs, pass.wild, ZoneScope(inp.zones[i]));
    }
  }

  lemma AfterApexOK(inp: Inputs, rs: seq<Record>, pass: Pass)
    requires InputsOK(inp) && ListingOK(inp, rs) && IsPass(inp, rs, pass)
    ensures var rs2 := AfterApex(rs, pass);
            DistinctIDs(rs2) && Settled(Apex, ApexWants(inp.eps, inp.o), rs2)
            && forall i :: 0 <= i < |inp.zones| ==> UniqueKeys(ZoneScope(inp.zones[i]), rs2)
  {
    hide Key, At, IsPlan, CutPlan, DistinctIDs, Accepted, Execute, SameView, StaleRun, OrphanActions, UniqueKeys, Settled, WantsOK, ApexWants, Index,
         RelicsOK, ZoneOK, PlannedAll, WildcardPlan, DistinctEdges, ZoneScope;
    var rs1 := AfterWildcard(rs, pass);
    AfterWildcardOK(inp, rs, pass);
    ApexWantsOK(inp.eps, inp.o);
    ApexRelicsOK(rs1, inp.o.routing);
    ViewKeepsUnique(Apex, rs1, rs);
    PlanSettles(Apex, rs1, ApexWants(inp.eps, inp.o), Index(Relics(inp.o.routing), rs1), pass.apex);
    WholeIsCut(pass.apex, ApexProgress(inp.eps, rs1, inp.o));
    forall i | 0 <= i < |inp.zones| ensures UniqueKeys(ZoneScope(inp.zones[i]), AfterApex(rs, pass)) {
      ApexPlanFrame(inp.eps, rs1, inp.o, pass.apex, inp.zones[i]);
      ViewChain(ZoneScope(inp.zones[i]), AfterApex(rs, pass), rs1, rs);
      ViewKeepsUnique(ZoneScope(inp.zones[i]), AfterApex(rs, pass), rs);
    }
  }

  lemma SnapshotOfItself(rs: seq<Record>, zones: seq<ZoneRouting>)
    ensures SnapshotGood(rs, rs, zones)
  {
  }

  lemma AllForeignTo(zones: seq<ZoneRouting>, routing: string)
    requires ZonesOK(zones, routing)
    ensures AllForeign(zones, Apex) && AllForeign(zones, Relics(routing)) && AllForeign(zones, Orphans(ActiveIDs(zones)))
    ensures forall base :: AllForeign(zones, Wildcard(base))
  {
    forall i | 0 <= i < |zones| ensures Foreign(zones[i], Relics(routing)) && Foreign(zones[i], Orphans(ActiveIDs(zones))) {
      assert ZoneOK(zones[i], routing);
    }
  }

  lemma AfterZonesOK(inp: Inputs, rs: seq<Record>, pass: Pass)
    requires InputsOK(inp) && ListingOK(inp, rs) && IsPass(inp, rs, pass)
    ensures var rs3 := AfterZones(rs, pass);
            DistinctIDs(rs3) && Settled(Apex, ApexWants(inp.eps, inp.o), rs3)
            && (forall i :: 0 <= i < |inp.zones| ==> Settled(ZoneScope(inp.zones[i]), ZoneWants(inp.zones[i], inp.eps, ZoneOpts(inp)), rs3))
            && SameView(Orphans(ActiveIDs(inp.zones)), rs3, AfterApex(rs, pass))
            && SameView(WildcardScope(inp.o.routing), rs3, AfterApex(rs, pass))
  {
    hide Key, At, IsPlan, CutRun, DistinctIDs, Accepted, Execute, SameView, StaleRun, OrphanActions, UniqueKeys, Settled, ApexWants, ZoneWants,
         ZoneOK, PlannedAll, WildcardPlan, ZoneScope, SnapshotGood, AllForeign, ActiveIDs, ListingOK, ZonesEnd, ApexProgress;
    var rs2, o := AfterApex(rs, pass), ZoneOpts(inp);
    AfterApexOK(inp, rs, pass);
    SnapshotOfItself(rs2, inp.zones);
    AllForeignTo(inp.zones, inp.o.routing);
    StaleRunIsCutRun(rs2, rs2, inp.zones, inp.eps, o, pass.zones);
    ZonesFrame(rs2, rs2, inp.zones, inp.eps, o, inp.o.routing, pass.zones, Apex);
    ZonesFrame(rs2, rs2, inp.zones, inp.eps, o, inp.o.routing, pass.zones, Orphans(ActiveIDs(inp.zones)));
    ZonesFrame(rs2, rs2, inp.zones, inp.eps, o, inp.o.routing, pass.zones, WildcardScope(inp.o.routing));
    SameViewSym(Apex, AfterZones(rs, pass), rs2);
    SettledSameView(Apex, ApexWants(inp.eps, inp.o), rs2, AfterZones(rs, pass));
    forall i | 0 <= i < |inp.zones| ensures Settled(ZoneScope(inp.zones[i]), ZoneWants(inp.zones[i], inp.eps, o), AfterZones(rs, pass)) {
      ZonesSettle(rs2, rs2, inp.zones, inp.eps, o, inp.o.routing, pass.zones, i);
    }
  }

  lemma OrphansAreOrphans(inp: Inputs, pass: Pass, snap: seq<Record>)
    requires PlannedAll(pass.orphans) == OrphanActions(snap, ActiveIDs(inp.zones))
    ensures pass.orphans == OrphanActions(snap, ActiveIDs(inp.zones))
  {
    OrphanTargets(snap, ActiveIDs(inp.zones));
    hide OrphanActions;
    assert |pass.orphans| == |PlannedAll(pass.orphans)|;
    forall i | 0 <= i < |pass.orphans| ensures pass.orphans[i] == PlannedAll(pass.orphans)[i] {
      assert PlannedAll(pass.orphans)[i] == Planned(pass.orphans[i]);
    }
  }

  /** One error-free pass settles everything: exactly one record per edge in the
      apex set and in each zone's own set, as wanted, no stray tagged record in
      either, and no record of a zone that is gone. */
  lemma OnePassSettles(inp: Inputs, rs: seq<Record>, pass: Pass)
    requires InputsOK(inp) && ListingOK(inp, rs) && IsPass(inp, rs, pass)
    ensures var end := AfterPass(rs, pass);
            DistinctIDs(end)
            && Settled(Apex, ApexWants(inp.eps, inp.o), end)
            && (forall i :: 0 <= i < |inp.zones| ==> Settled(ZoneScope(inp.zones[i]), ZoneWants(inp.zones[i], inp.eps, ZoneOpts(inp)), end))
            && At(Orphans(ActiveIDs(inp.zones)), "", end) == []
  {
    hide Key, At, IsPlan, DistinctIDs, Accepted, Execute, SameView, StaleRun, OrphanActions, UniqueKeys, Settled, ApexWants, ZoneWants,
         PlannedAll, WildcardPlan, ZoneScope, ListingOK, ZonesEnd, ApexProgress, ActiveIDs, AfterZones, AfterApex;
    var rs2, rs3, end := AfterApex(rs, pass), AfterZones(rs, pass), AfterPass(rs, pass);
    var active := ActiveIDs(inp.zones);
    AfterZonesOK(inp, rs, pass);
    OrphansAreOrphans(inp, pass, rs2);
    ExecuteKeepsIDsDistinct(rs3, pass.orphans);
    SweepExact(rs2, rs3, active);
    forall r | Key(Orphans(active), r).Some? ensures Key(Apex, r).None? { OrphanIsNotApex(r, active); }
    SweepFrame(rs2, rs3, active, pass.orphans, Apex);
    SameViewSym(Apex, end, rs3);
    SettledSameView(Apex, ApexWants(inp.eps, inp.o), rs3, end);
    forall i | 0 <= i < |inp.zones| ensures Settled(ZoneScope(inp.zones[i]), ZoneWants(inp.zones[i], inp.eps, ZoneOpts(inp)), end) {
      var zr := inp.zones[i];
      assert ZoneOK(zr, inp.o.routing);
      ActiveHas(inp.zones, i);
      ZoneScopeIs(zr);
      forall r | Key(Orphans(active), r).Some? ensures Key(ZoneScope(zr), r).None? { OrphansApart(r, active, zr.zoneID, zr.name); }
      SweepFrame(rs2, rs3, active, pass.orphans, ZoneScope(zr));
      SameViewSym(ZoneScope(zr), end, rs3);
      SettledSameView(ZoneScope(zr), ZoneWants(zr, inp.eps, ZoneOpts(inp)), rs3, end);
    }
  }

  lemma OrphanIsNotApex(r: Record, active: set<int>)
    requires Key(Orphans(active), r).Some?
    ensures Key(Apex, r).None?
  {
    ZoneTagIsNotServerTag(r.comment);
  }

  lemma ActiveHas(zones: seq<ZoneRouting>, i: nat)
    requires i < |zones|
    ensures zones[i].zoneID in ActiveIDs(zones)
  {
  }

  // ---------- the second pass ----------

  lemma {:induction false} SettledZonesPlanNothing(snap: seq<Record>, rs: seq<Record>, zones: seq<ZoneRouting>, eps: seq<Endpoint>,
                                                   o: Opts, routing: string, runs: seq<seq<Action>>)
    requires ZonesOK(zones, routing) && o.ttl != 0
    requires StaleRun(snap, rs, zones, eps, o, runs)
    requires forall i :: 0 <= i < |zones| ==> Settled(ZoneScope(zones[i]), ZoneWants(zones[i], eps, o), snap)
    ensures forall i :: 0 <= i < |runs| ==> runs[i] == []
    ensures ZonesEnd(rs, runs) == rs
    decreases |zones|
  {
    hide Key, At, IsPlan, Accepted, Execute, Settled, ZoneWants, ZoneScope, Index, ZoneOK, PlannedAll, WantsOK;
    if zones == [] {
    } else {
      ZoneWantsOK(zones[0], eps, o, routing);
      SettledPlansNothing(ZoneScope(zones[0]), snap, ZoneWants(zones[0], eps, o), map[], PlannedAll(runs[0]));
      NothingExecuted(rs, runs[0]);
      assert forall i :: 0 <= i < |zones[1..]| ==> zones[1..][i] == zones[i + 1];
      SettledZonesPlanNothing(snap, rs, zones[1..], eps, o, routing, runs[1..]);
      assert forall i :: 0 < i < |runs| ==> runs[i] == runs[1..][i - 1];
    }
  }

  lemma NothingExecuted(rs: seq<Record>, log: seq<Action>)
    requires PlannedAll(log) == []
    ensures log == [] && Execute(rs, log) == rs
  {
    assert |log| == |PlannedAll(log)|;
  }

  /** Converged: after one error-free pass a second one, with the same inputs and
      clock, changes no server-tagged and no zone-tagged record. */
  lemma SecondPassIsIdle(inp: Inputs, rs: seq<Record>, first: Pass, second: Pass)
    requires InputsOK(inp) && ListingOK(inp, rs) && IsPass(inp, rs, first)
    requires IsPass(inp, AfterPass(rs, first), second)
    ensures second.apex == [] && second.orphans == [] && forall i :: 0 <= i < |second.zones| ==> second.zones[i] == []
    ensures AfterPass(AfterPass(rs, first), second) == Execute(AfterPass(rs, first), second.wild)
  {
    hide Key, At, IsPlan, DistinctIDs, Accepted, Execute, SameView, OrphanActions, UniqueKeys, Settled, ApexWants, ZoneWants,
         PlannedAll, WildcardPlan, ZoneScope, ListingOK, Index, ActiveIDs, ZonesOK, WantsOK, DistinctEdges, StaleRun, ZonesEnd;
    OnePassSettles(inp, rs, first);
    var e := AfterPass(rs, first);
    hide AfterPass;
    var e1, active := AfterWildcard(e, second), ActiveIDs(inp.zones);
    ApexWantsOK(inp.eps, inp.o);
    SettledPlansNothing(Apex, e, ApexWants(inp.eps, inp.o), Index(Relics(inp.o.routing), e), PlannedAll(second.apex));
    NothingExecuted(e1, second.apex);
    forall i | 0 <= i < |inp.zones| ensures Settled(ZoneScope(inp.zones[i]), ZoneWants(inp.zones[i], inp.eps, ZoneOpts(inp)), e1) {
      ZoneScopeIs(inp.zones[i]);
      WildcardFrame(inp, e, second.wild, ZoneScope(inp.zones[i]));
      SameViewSym(ZoneScope(inp.zones[i]), e1, e);
      SettledSameView(ZoneScope(inp.zones[i]), ZoneWants(inp.zones[i], inp.eps, ZoneOpts(inp)), e, e1);
    }
    SettledZonesPlanNothing(e1, e1, inp.zones, inp.eps, ZoneOpts(inp), inp.o.routing, second.zones);
    WildcardFrame(inp, e, second.wild, Orphans(active));
    assert At(Orphans(active), "", e1) == [] by { ViewAt(Orphans(active), e1, e, ""); }
    OrphanTargets(e1, active);
    NothingExecuted(e1, second.orphans);
    assert AfterPass(e, second) == e1 by { hide *; PassParts(e, second); }
  }

  lemma ViewAt(sc: Scope, a: seq<Record>, b: seq<Record>, k: string)
    requires SameView(sc, a, b)
    ensures At(sc, k, a) == At(sc, k, b)
  {
  }

  lemma PassParts(rs: seq<Record>, pass: Pass)
    ensures AfterPass(rs, pass) == Execute(ZonesEnd(Execute(Execute(rs, pass.wild), pass.apex), pass.zones), pass.orphans)
  {
  }

  // ---------- the wildcard ----------

  predicate IsWildcard(routing: string, r: Record) {
    Key(WildcardScope(routing), r).Some?
  }

  /** A wildcard CNAME that the reconcile itself does not take away. */
  predicate KeptWildcard(inp: Inputs, r: Record) {
    IsWildcard(inp.o.routing, r) && Key(Apex, r).None?
    && (ZoneIDFromComment(r.comment).None? || exists i :: 0 <= i < |inp.zones| && inp.zones[i].zoneID == ZoneIDFromComment(r.comment).value)
  }

  /** The wildcard outlives a pass when there was none before, or one that carries
      neither a server tag nor the tag of a zone that is gone. */
  ghost predicate WildcardSafe(inp: Inputs, rs: seq<Record>) {
    WildcardOff(inp.o.routing, inp.domain)
    || (forall r :: r in rs ==> !IsWildcard(inp.o.routing, r))
    || exists r :: r in rs && KeptWildcard(inp, r)
  }

  lemma KeptIsNoOrphan(inp: Inputs, r: Record)
    requires IsWildcard(inp.o.routing, r) && Key(Apex, r).None?
    ensures KeptWildcard(inp, r) <==> Key(Orphans(ActiveIDs(inp.zones)), r).None?
  {
    var z := ZoneIDFromComment(r.comment);
    if z.Some? && z.value in ActiveIDs(inp.zones) {
      var i :| 0 <= i < |inp.zones| && inp.zones[i].zoneID == z.value;
    }
  }

  /** What the apex phase executed, all of the plan or a prefix, is legal. */
  lemma ApexRunIsLegal(eps: seq<Endpoint>, rs: seq<Record>, o: Opts, log: seq<Action>)
    requires DistinctEdges(eps) && o.ttl != 0 && CutPlan(log, ApexProgress(eps, rs, o))
    ensures WantsOK(Apex, ApexWants(eps, o)) && RelicsOK(Apex, rs, Index(Relics(o.routing), rs))
    ensures forall i :: 0 <= i < |log| ==> Legal(log[i], ApexWants(eps, o), Index(Apex, rs), Index(Relics(o.routing), rs))
  {
    hide Key, At, CutPlan, DistinctEdges, ApexWants, RelicsOK, Index, PlanWants, Legal, WantOK;
    var ws := ApexWants(eps, o);
    ApexWantsOK(eps, o);
    ApexRelicsOK(rs, o.routing);
    LogIsLegal(ws, Index(Apex, rs), Index(Relics(o.routing), rs), log);
  }

  /** A kept wildcard is still there after the pass. */
  lemma KeptWildcardStays(inp: Inputs, rs: seq<Record>, pass: Pass, r: Record)
    requires InputsOK(inp) && ListingOK(inp, rs) && IsPass(inp, rs, pass)
    requires r in AfterWildcard(rs, pass) && KeptWildcard(inp, r)
    ensures r in AfterPass(rs, pass)
  {
    assert r.typ == TYPE_CNAME;
    KeptIsNoOrphan(inp, r);
    var sc := WildcardScope(inp.o.routing);
    assert Key(sc, r) == Some("") && Key(Apex, r).None?;
    hide Key, At, IsPlan, DistinctIDs, Accepted, Execute, SameView, StaleRun, OrphanActions, UniqueKeys, ApexWants, Settled,
         ZoneOK, PlannedAll, WildcardPlan, ZoneScope, ListingOK, Index, RelicsOK, WantsOK, ZonesEnd, KeptWildcard, DistinctEdges, ZonesOK,
         ActiveIDs, CutPlan, Legal, ApexProgress;
    var rs1, rs2, rs3 := AfterWildcard(rs, pass), AfterApex(rs, pass), AfterZones(rs, pass);
    AfterWildcardOK(inp, rs, pass);
    var ws, relics := ApexWants(inp.eps, inp.o), Index(Relics(inp.o.routing), rs1);
    WholeIsCut(pass.apex, ApexProgress(inp.eps, rs1, inp.o));
    ApexRunIsLegal(inp.eps, rs1, inp.o, pass.apex);
    forall v | v in relics ensures relics[v] != r { RelicIsTypeA(rs1, inp.o.routing, v); }
    PlanTouchesOnlyItsOwn(Apex, rs1, ws, relics, pass.apex, r);
    AfterZonesOK(inp, rs, pass);
    AtMembers(sc, "", rs2);
    AtMembers(sc, "", rs3);
    ViewAt(sc, rs3, rs2, "");
    assert r in At(sc, "", rs2);
    OrphansAreOrphans(inp, pass, rs2);
    SweepExact(rs2, rs3, ActiveIDs(inp.zones));
  }

  lemma DistinctWants(sc: Scope, ws: seq<Want>)
    requires WantsOK(sc, ws)
    ensures forall i, j :: 0 <= i < j < |ws| ==> ws[i].edgeID != ws[j].edgeID
  {
  }

  lemma RelicIsTypeA(rs: seq<Record>, routing: string, v: string)
    requires v in Index(Relics(routing), rs)
    ensures Index(Relics(routing), rs)[v].typ == TYPE_A
  {
    IndexMembers(Relics(routing), rs);
  }

  lemma WildcardIsNotManaged(inp: Inputs, rs: seq<Record>, pass: Pass, r: Record)
    requires InputsOK(inp) && ListingOK(inp, rs) && IsPass(inp, rs, pass)
    requires r in AfterPass(rs, pass) && IsWildcard(inp.o.routing, r) && TrimSpace(inp.o.routing) != ""
    ensures Key(Apex, r).None?
  {
    hide *;
    OnePassSettles(inp, rs, pass);
    InputsParts(inp);
    if Key(Apex, r).Some? {
      SettledName(inp.eps, inp.o, AfterPass(rs, pass), r);
    }
  }

  lemma InputsParts(inp: Inputs)
    requires InputsOK(inp)
    ensures DistinctEdges(inp.eps) && inp.o.ttl != 0
  {
  }

  lemma SettledName(eps: seq<Endpoint>, o: Opts, rs: seq<Record>, r: Record)
    requires DistinctEdges(eps) && o.ttl != 0 && TrimSpace(o.routing) != ""
    requires Settled(Apex, ApexWants(eps, o), rs) && r in rs && Key(Apex, r).Some?
    ensures !IsWildcard(o.routing, r)
  {
    assert IsWildcard(o.routing, r) ==> EqualFold(r.name, "*." + TrimSpace(o.routing));
    NotItsOwnWildcard(o.routing);
    hide Key, ApexWants, Settled, TrimSpace, EqualFold, IsWildcard, WantsOK, DistinctEdges;
    SettledMember(Apex, ApexWants(eps, o), rs, r);
    ApexWantsOK(eps, o);
  }

  /** Whatever wildcard is there after the pass was a kept one before it. */
  lemma OnlyKeptWildcards(inp: Inputs, rs: seq<Record>, pass: Pass, r: Record)
    requires InputsOK(inp) && ListingOK(inp, rs) && IsPass(inp, rs, pass)
    requires r in AfterPass(rs, pass) && IsWildcard(inp.o.routing, r) && TrimSpace(inp.o.routing) != ""
    ensures r in AfterWildcard(rs, pass) && KeptWildcard(inp, r)
  {
    hide *;
    WildcardIsNotManaged(inp, rs, pass, r);
    WildcardBeforeZones(inp, rs, pass, r);
    InputsParts(inp);
    WildcardBeforeApex(inp, rs, pass, r);
  }

  lemma WildcardBeforeZones(inp: Inputs, rs: seq<Record>, pass: Pass, r: Record)
    requires InputsOK(inp) && ListingOK(inp, rs) && IsPass(inp, rs, pass)
    requires r in AfterPass(rs, pass) && IsWildcard(inp.o.routing, r) && Key(Apex, r).None?
    ensures r in AfterApex(rs, pass) && KeptWildcard(inp, r)
  {
    var sc := WildcardScope(inp.o.routing);
    assert Key(sc, r) == Some("");
    hide Key, At, IsPlan, DistinctIDs, Accepted, Execute, SameView, StaleRun, OrphanActions, UniqueKeys, ApexWants, Settled, InputsOK,
         PlannedAll, WildcardPlan, ListingOK, ZonesEnd, KeptWildcard, ActiveIDs, CutPlan, ApexProgress, IsWildcard;
    var rs2, rs3 := AfterApex(rs, pass), AfterZones(rs, pass);
    AfterZonesOK(inp, rs, pass);
    OrphansAreOrphans(inp, pass, rs2);
    SweepExact(rs2, rs3, ActiveIDs(inp.zones));
    KeptIsNoOrphan(inp, r);
    AtMembers(sc, "", rs2);
    AtMembers(sc, "", rs3);
    ViewAt(sc, rs3, rs2, "");
    assert r in At(sc, "", rs3);
  }

  lemma WildcardBeforeApex(inp: Inputs, rs: seq<Record>, pass: Pass, r: Record)
    requires DistinctEdges(inp.eps) && inp.o.ttl != 0 && ListingOK(inp, rs) && IsPass(inp, rs, pass)
    requires r in AfterApex(rs, pass) && Key(Apex, r).None?
    ensures r in AfterWildcard(rs, pass)
  {
    hide Key, At, IsPlan, DistinctIDs, Execute, SameView, UniqueKeys, ApexWants, PlannedAll, Index, RelicsOK, WantsOK,
         DistinctEdges, CutPlan, Legal, ApexProgress, IsPass;
    var rs1 := AfterWildcard(rs, pass);
    AfterWildcardOK(inp, rs, pass);
    var ws, relics := ApexWants(inp.eps, inp.o), Index(Relics(inp.o.routing), rs1);
    WholeIsCut(pass.apex, ApexProgress(inp.eps, rs1, inp.o));
    ApexRunIsLegal(inp.eps, rs1, inp.o, pass.apex);
    PlanWritesOnlyItsOwn(Apex, rs1, ws, Index(Apex, rs1), relics, pass.apex);
  }

  /** In a settled class every record is the one some want asked for. */
  lemma SettledMember(sc: Scope, ws: seq<Want>, rs: seq<Record>, r: Record)
    requires Settled(sc, ws, rs) && r in rs && Key(sc, r).Some?
    ensures exists i :: 0 <= i < |ws| && Key(sc, r) == Some(ws[i].edgeID) && Converged(r, ws[i].record)
  {
    hide Key, At, Converged;
    var k := Key(sc, r).value;
    AtMembers(sc, k, rs);
    assert r in At(sc, k, rs);
    var i :| 0 <= i < |ws| && ws[i].edgeID == k;
    assert At(sc, k, rs)[0] == r;
  }

  ghost predicate SomeWildcard(routing: string, rs: seq<Record>) {
    exists r :: r in rs && IsWildcard(routing, r)
  }

  /** A wildcard is there after the pass exactly when it was safe before. */
  lemma WildcardLeftIff(inp: Inputs, rs: seq<Record>, pass: Pass)
    requires InputsOK(inp) && ListingOK(inp, rs) && IsPass(inp, rs, pass)
    requires !WildcardOff(inp.o.routing, inp.domain)
    ensures SomeWildcard(inp.o.routing, AfterPass(rs, pass)) <==> WildcardSafe(inp, rs)
  {
    var e := AfterPass(rs, pass);
    hide AfterPass, IsPlan, StaleRun, ApexProgress, OrphanActions, InputsOK, ListingOK, Execute, IsWildcard, KeptWildcard, PlannedAll;
    WildcardPlanIs(inp, rs, pass.wild);
    if pass.wild == [] {
      assert AfterWildcard(rs, pass) == rs by { NothingExecuted(rs, pass.wild); }
    } else {
      FreshWildcardKept(inp, rs, pass);
    }
    if WildcardSafe(inp, rs) {
      var r :| r in AfterWildcard(rs, pass) && KeptWildcard(inp, r);
      KeptWildcardStays(inp, rs, pass, r);
      KeptIsWildcard(inp, r);
    }
    if SomeWildcard(inp.o.routing, e) {
      var r :| r in e && IsWildcard(inp.o.routing, r);
      OnlyKeptWildcards(inp, rs, pass, r);
      if pass.wild != [] { WildcardSafeIfNone(inp, rs); }
    }
  }

  lemma KeptIsWildcard(inp: Inputs, r: Record)
    requires KeptWildcard(inp, r)
    ensures IsWildcard(inp.o.routing, r)
  {
  }

  lemma WildcardPlanIs(inp: Inputs, rs: seq<Record>, wild: seq<Action>)
    requires PlannedAll(wild) == WildcardPlan(rs, inp.o.routing, inp.domain, inp.o.ttl)
    ensures PlannedAll([]) == [] && (wild == [] <==> WildcardOff(inp.o.routing, inp.domain) || SomeWildcard(inp.o.routing, rs))
  {
    hide Key;
    assert |wild| == |PlannedAll(wild)|;
    if SomeWildcard(inp.o.routing, rs) {
      var r :| r in rs && IsWildcard(inp.o.routing, r);
      var i :| 0 <= i < |rs| && rs[i] == r;
      assert Key(WildcardScope(inp.o.routing), rs[i]).Some?;
    }
    if i :| 0 <= i < |rs| && Key(WildcardScope(inp.o.routing), rs[i]).Some? {
      assert rs[i] in rs && IsWildcard(inp.o.routing, rs[i]);
    }
  }

  /** A second pass writes nothing at all, the wildcard included, exactly when the
      wildcard was safe: a wildcard CNAME that carries a server tag or the tag of a
      zone that is gone is taken away by the first pass, after it was counted as
      present, and only the second pass creates the missing one. */
  lemma SecondPassWritesNothingIff(inp: Inputs, rs: seq<Record>, first: Pass, second: Pass)
    requires InputsOK(inp) && ListingOK(inp, rs) && IsPass(inp, rs, first)
    requires IsPass(inp, AfterPass(rs, first), second)
    ensures second.wild == [] <==> WildcardSafe(inp, rs)
  {
    hide Key, AfterPass, IsPlan, StaleRun, ApexProgress, OrphanActions, InputsOK, ListingOK, Execute, SomeWildcard, WildcardPlan, PlannedAll;
    WildcardPlanIs(inp, AfterPass(rs, first), second.wild);
    if !WildcardOff(inp.o.routing, inp.domain) {
      WildcardLeftIff(inp, rs, first);
    }
  }

  lemma WildcardSafeIfNone(inp: Inputs, rs: seq<Record>)
    requires forall r :: r in rs ==> !IsWildcard(inp.o.routing, r)
    ensures WildcardSafe(inp, rs)
  {
  }

  /** The wildcard the pass creates is a kept one. */
  lemma FreshWildcardKept(inp: Inputs, rs: seq<Record>, pass: Pass)
    requires PlannedAll(pass.wild) == WildcardPlan(rs, inp.o.routing, inp.domain, inp.o.ttl) && pass.wild != []
    ensures exists r :: r in AfterWildcard(rs, pass) && KeptWildcard(inp, r)
  {
    assert |pass.wild| == |PlannedAll(pass.wild)|;
    var body := WildcardRecord(inp.o.routing, inp.domain, inp.o.ttl);
    var a := pass.wild[0];
    assert pass.wild == [a] && pass.wild[1..] == [];
    assert Planned(a) == PlannedAll(pass.wild)[0];
    assert Execute(rs, pass.wild) == Added(rs, a.recordID, body);
    WildcardTagIsNeither(TrimSpace(inp.o.routing));
    var r := body.(id := a.recordID);
    assert Added(rs, a.recordID, body)[|rs|] == r;
    assert KeptWildcard(inp, r);
  }

  // ---------- a wildcard that is not safe ----------

  /** A wildcard CNAME that carries the server tag of an edge that is gone. */
  const TAGGED_WILDCARD := NO_RECORD.(id := 1, typ := TYPE_CNAME, name := "*.cdn", value := "cdn.example.com", comment := ServerTag("gone"))

  lemma TaggedWildcardListing(o: Opts)
    requires o.routing == "cdn" && o.ttl != 0
    ensures var inp := Inputs([], [], o, o.now, "example.com");
            InputsOK(inp) && ListingOK(inp, [TAGGED_WILDCARD]) && !WildcardOff(o.routing, inp.domain)
  {
    hide Key;
    forall k ensures |At(Apex, k, [TAGGED_WILDCARD])| <= 1 {
      assert [TAGGED_WILDCARD][..0] == [] && At(Apex, k, []) == [];
    }
  }

  lemma TaggedWildcardUnsafe(o: Opts)
    requires o.routing == "cdn"
    ensures !WildcardSafe(Inputs([], [], o, o.now, "example.com"), [TAGGED_WILDCARD])
  {
    ServerTagRoundTrip("gone");
    hide ServerTag, EdgeIDFromComment;
    assert TrimSpace("cdn") == "cdn" && "*." + "cdn" == "*.cdn";
    assert Key(Apex, TAGGED_WILDCARD).Some? && IsWildcard(o.routing, TAGGED_WILDCARD);
    hide Key;
    assert TAGGED_WILDCARD in [TAGGED_WILDCARD];
  }

  /** Without edges and zones, and with that wildcard alone, two error-free passes are
      not enough: the second one still writes. */
  lemma TaggedWildcardNeedsSecondPass(o: Opts, first: Pass, second: Pass)
    requires o.routing == "cdn" && o.ttl != 0
    requires var inp := Inputs([], [], o, o.now, "example.com");
             IsPass(inp, [TAGGED_WILDCARD], first) && IsPass(inp, AfterPass([TAGGED_WILDCARD], first), second)
    ensures second.wild != []
  {
    hide *;
    TaggedWildcardListing(o);
    TaggedWildcardUnsafe(o);
    SecondPassWritesNothingIff(Inputs([], [], o, o.now, "example.com"), [TAGGED_WILDCARD], first, second);
  }
}

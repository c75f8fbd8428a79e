/** What DNS serves once a reconcile went through: every field of every edge's record,
    stated from the server table and the settings alone. */
module Served {
  import opened Text
  import opened Tags
  import opened Records
  import opened Regions
  import opened Rotation
  import opened Reconcile
  import opened Converge
  import opened ReconcilePass
  import opened ReconcileTheorems
  import opened Frames
  import opened Recovery
  import opened Faults
  import opened ReconcileLaws
  import opened Commute
  import opened Twins
  import opened Audit

  // ---------- the location fields ----------

  ghost predicate Near(x: real, y: real) {
    x - 0.000001 <= y <= x + 0.000001
  }

  /** A server's own mode wins if it is one of the two; otherwise the network's. */
  predicate ByLatency(mode: string, routingOverride: string) {
    var own := Lower(TrimSpace(routingOverride));
    own == "latency" || (own != "geographic" && mode == "latency")
  }

  /** p is the longest mapped dash prefix of the region. */
  ghost predicate MostSpecific(p: string, region: string, regions: map<string, RegionLoc>) {
    var key := Upper(TrimSpace(region));
    key != "" && DashPrefix(p, key) && p in regions && forall q :: DashPrefix(q, key) && q in regions ==> |q| <= |p|
  }

  /** r carries the location of the edge's region, as a latency zone or as coordinates
      and never as both; none where no prefix of the region is mapped. */
  ghost predicate Located(r: Record, ep: Endpoint, o: Opts) {
    (forall p :: MostSpecific(p, ep.region, o.regions) ==>
       if ByLatency(o.mode, ep.routingOverride)
       then r.smart == 1 && r.latencyZone == o.regions[p].latencyZone && Near(r.lat, 0.0) && Near(r.long, 0.0)
       else r.smart == 2 && r.latencyZone == "" && Near(r.lat, o.regions[p].lat) && Near(r.long, o.regions[p].long))
    && ((forall p :: !MostSpecific(p, ep.region, o.regions)) ==>
          r.smart == 0 && r.latencyZone == "" && Near(r.lat, 0.0) && Near(r.long, 0.0))
  }

  lemma PrefixesDiffer(p: string, q: string, key: string)
    requires DashPrefix(p, key) && DashPrefix(q, key) && |p| == |q|
    ensures p == q
  {
  }

  lemma ModeResolved(mode: string, routingOverride: string)
    ensures ResolveMode(mode, routingOverride) == "latency" <==> ByLatency(mode, routingOverride)
  {
    hide TrimSpace, Lower;
  }

  /** The answer of the lookup is that of the longest mapped prefix, if there is one. */
  lemma LookedUp(region: string, regions: map<string, RegionLoc>)
    ensures forall p :: MostSpecific(p, region, regions) ==> LookupRegion(region, regions) == Some(regions[p])
    ensures (forall p :: !MostSpecific(p, region, regions)) ==> LookupRegion(region, regions).None?
  {
    var key := Upper(TrimSpace(region));
    LookupIsMostSpecific(key, regions);
    hide LookupKey, DashPrefix, TrimSpace, Upper;
    if key != "" && LookupKey(key, regions).Some? {
      var best :| DashPrefix(best, key) && best in regions && LookupKey(key, regions).value == regions[best]
                  && forall q :: DashPrefix(q, key) && q in regions ==> |q| <= |best|;
      assert MostSpecific(best, region, regions);
      forall p | MostSpecific(p, region, regions) ensures p == best { PrefixesDiffer(p, best, key); }
    }
  }

  /** The fields the planners write for a location found, or for none. */
  lemma FieldsOf(ep: Endpoint, mode: string, regions: map<string, RegionLoc>)
    ensures var s := SmartFieldsFor(ep, mode, regions);
            match LookupRegion(ep.region, regions)
            case None => s == SmartFields(0, 0.0, 0.0, "")
            case Some(loc) =>
              s == if ByLatency(mode, ep.routingOverride) then SmartFields(1, 0.0, 0.0, loc.latencyZone) else SmartFields(2, loc.lat, loc.long, "")
  {
    ModeResolved(mode, ep.routingOverride);
    hide LookupRegion, ResolveMode, ByLatency;
  }

  lemma FieldsLocated(r: Record, ep: Endpoint, o: Opts)
    requires var s := SmartFieldsFor(ep, o.mode, o.regions);
             r.smart == s.smart && r.latencyZone == s.latencyZone && FloatEq(r.lat, s.lat) && FloatEq(r.long, s.long)
    ensures Located(r, ep, o)
  {
    hide LookupRegion, MostSpecific, SmartFieldsFor, ByLatency;
    LookedUp(ep.region, o.regions);
    FieldsOf(ep, o.mode, o.regions);
  }

  // ---------- all fields ----------

  /** r is the record of edge ep as the tables want it, under name and tag comment. */
  ghost predicate Serves(r: Record, ep: Endpoint, eps: seq<Endpoint>, name: string, comment: string, o: Opts) {
    r.value == ep.ip && r.name == name && r.ttl == o.ttl && r.comment == comment && r.monitorType == o.monitorType
    && (r.disabled <==> !Verdict(ep, eps, o.now, o.staleAfter).inRotation)
    && r.weight == EffectiveWeight(ep, MaxCapacity(eps))
    && Located(r, ep, o)
  }

  lemma ConvergedServes(r: Record, ep: Endpoint, eps: seq<Endpoint>, name: string, comment: string, o: Opts)
    requires DistinctEdges(eps) && ep in eps
    requires Converged(r, DesiredRecord(ep, name, comment, DecisionMap(eps, eps, o.now, o.staleAfter), MaxCapacity(eps), o))
    ensures Serves(r, ep, eps, name, comment, o)
  {
    hide Located, DecisionMap, Verdict, MaxCapacity, EffectiveWeight;
    DecisionMapKeys(eps, eps, o.now, o.staleAfter);
    hide SmartFieldsFor;
    FieldsLocated(r, ep, o);
  }

  // ---------- after a reconcile ----------

  /** After an error-free reconcile every edge with an id and an address has exactly
      one record with its tag, and that one is as the tables want it, field by field. */
  lemma ApexServed(inp: Inputs, rs: seq<Record>, pass: Pass, ep: Endpoint)
    requires InputsOK(inp) && ListingOK(inp, rs) && IsPass(inp, rs, pass)
    requires ep in inp.eps && ep.edgeID != "" && ep.ip != ""
    ensures var own := At(Apex, ep.edgeID, AfterPass(rs, pass));
            |own| == 1 && Serves(own[0], ep, inp.eps, inp.o.routing, ServerTag(ep.edgeID), inp.o)
  {
    hide At, IsPass, AfterPass, ListingOK, ApexWantsFrom, DesiredRecord, Serves, Converged, ZonesOK, DistinctEdges, ServerTag, DecisionMap,
        MaxCapacity;
    OnePassSettles(inp, rs, pass);
    var rot, maxCap := DecisionMap(inp.eps, inp.eps, inp.o.now, inp.o.staleAfter), MaxCapacity(inp.eps);
    var ws := ApexWants(inp.eps, inp.o);
    ApexWantsMembers(inp.eps, rot, maxCap, inp.o);
    var w := ApexWantOf(ep, rot, maxCap, inp.o);
    assert w in ws;
    var i :| 0 <= i < |ws| && ws[i] == w;
    ConvergedServes(At(Apex, ep.edgeID, AfterPass(rs, pass))[0], ep, inp.eps, inp.o.routing, ServerTag(ep.edgeID), inp.o);
  }

  lemma {:induction false} ZoneWantOfEdge(zr: ZoneRouting, ids: seq<string>, byID: map<string, Endpoint>, rot: map<string, Decision>, maxCap: int, o: Opts, id: string)
    requires id in ids && id in byID && byID[id].ip != ""
    ensures ZoneWantOf(zr, byID[id], id, rot, maxCap, o) in ZoneWantsFrom(zr, ids, byID, rot, maxCap, o)
    decreases |ids|
  {
    hide ZoneWantOf;
    if ids[0] == id {
    } else {
      assert ids == [ids[0]] + ids[1..];
      ZoneWantOfEdge(zr, ids[1..], byID, rot, maxCap, o, id);
    }
  }

  lemma KnownEdge(eps: seq<Endpoint>, ep: Endpoint)
    requires DistinctEdges(eps) && ep in eps && ep.edgeID != ""
    ensures ep.edgeID in ByID(eps) && ByID(eps)[ep.edgeID] == ep
  {
    ByIDKeys(eps);
    hide ByID;
    var i :| 0 <= i < |eps| && eps[i] == ep;
    var j :| 0 <= j < |eps| && eps[j] == ByID(eps)[ep.edgeID];
    assert i == j;
  }

  lemma ZoneSetIsTypeA(zr: ZoneRouting, k: string, rs: seq<Record>)
    ensures forall r :: r in At(Zone(zr.zoneID, zr.name), k, rs) ==> r.typ == 0
    ensures |At(Zone(zr.zoneID, zr.name), k, rs)| == 1 ==> At(Zone(zr.zoneID, zr.name), k, rs)[0].typ == 0
  {
    AtMembers(Zone(zr.zoneID, zr.name), k, rs);
    hide At, EdgeIDFromZoneComment;
    var own := At(Zone(zr.zoneID, zr.name), k, rs);
    assert |own| == 1 ==> own[0] in own;
  }

  /** The same for every edge assigned to an active zone, in the zone's own set. */
  lemma ZoneServed(inp: Inputs, rs: seq<Record>, pass: Pass, n: nat, ep: Endpoint)
    requires InputsOK(inp) && ListingOK(inp, rs) && IsPass(inp, rs, pass)
    requires n < |inp.zones| && ep in inp.eps && ep.edgeID in inp.zones[n].edges && ep.edgeID != "" && ep.ip != ""
    ensures var zr := inp.zones[n];
            var own := At(Zone(zr.zoneID, zr.name), ep.edgeID, AfterPass(rs, pass));
            |own| == 1 && own[0].typ == 0 && Serves(own[0], ep, inp.eps, zr.name, ZoneEdgeTag(zr.zoneID, ep.edgeID), ZoneOpts(inp))
  {
    ZoneSetIsTypeA(inp.zones[n], ep.edgeID, AfterPass(rs, pass));
    hide At, IsPass, AfterPass, ListingOK, ZoneWantsFrom, DesiredRecord, Serves, Converged, ZonesOK, DistinctEdges, ZoneEdgeTag, DecisionMap,
        MaxCapacity, ByID;
    OnePassSettles(inp, rs, pass);
    var zr, o := inp.zones[n], ZoneOpts(inp);
    var rot, maxCap := DecisionMap(inp.eps, inp.eps, o.now, o.staleAfter), MaxCapacity(inp.eps);
    var ws := ZoneWants(zr, inp.eps, o);
    KnownEdge(inp.eps, ep);
    ZoneWantOfEdge(zr, zr.edges, ByID(inp.eps), rot, maxCap, o, ep.edgeID);
    var w := ZoneWantOf(zr, ep, ep.edgeID, rot, maxCap, o);
    var i :| 0 <= i < |ws| && ws[i] == w;
    ConvergedServes(At(ZoneScope(zr), ep.edgeID, AfterPass(rs, pass))[0], ep, inp.eps, zr.name, ZoneEdgeTag(zr.zoneID, ep.edgeID), o);
  }

  // ---------- what a write leaves alone ----------

  /** The same ids, priorities and monitor verdicts in the same places. */
  ghost predicate SameRest(a: seq<Record>, b: seq<Record>) {
    |a| == |b| && forall i :: 0 <= i < |a| ==>
      b[i].id == a[i].id && b[i].priority == a[i].priority && b[i].monitorStatus == a[i].monitorStatus
  }

  /** Bodies as the planners build them leave these two fields out. */
  ghost predicate Plain(log: seq<Action>) {
    forall i :: 0 <= i < |log| && IsWrite(log[i]) ==> log[i].record.priority == 0 && log[i].record.monitorStatus == 0
  }

  lemma StepKeepsRest(sc: Scope, k: string, id: int, rs: seq<Record>, a: Action)
    requires OnlyWrites(sc, k, id, rs, [a]) && Plain([a]) && (a.kind.Add? ==> a.recordID != id)
    requires forall r :: r in rs && r.id == id ==> Key(sc, r) == Some(k)
    ensures SameRest(At(sc, k, rs), At(sc, k, Step(rs, a)))
  {
    hide Key, At;
    assert [a][0] == a;
    if a.recordID != id {
      hide Step;
      StepElsewhere(sc, k, id, rs, a);
    } else {
      forall r ensures Key(sc, Merge(r, a.record)) == Some(k) {
        KeyOfBody(sc, r, a.record, a.record.id);
        assert a.record.(id := a.record.id) == a.record;
      }
      AtMergedInPlace(sc, k, rs, id, a.record);
    }
  }

  lemma {:induction false} RunKeepsRest(sc: Scope, k: string, id: int, rs: seq<Record>, log: seq<Action>)
    requires OnlyWrites(sc, k, id, rs, log) && Accepted(rs, log) && HasID(rs, id) && Plain(log)
    requires forall r :: r in rs && r.id == id ==> Key(sc, r) == Some(k)
    ensures SameRest(At(sc, k, rs), At(sc, k, Execute(rs, log)))
    decreases |log|
  {
    hide Key, At, Step, HasID;
    if log == [] {
    } else {
      var rest := log[1..];
      assert [log[0]][0] == log[0];
      StepWrites(sc, k, id, rs, log[0]);
      StepKeepsRest(sc, k, id, rs, log[0]);
      forall i | 0 <= i < |rest| ensures rest[i] == log[i + 1] { }
      RunKeepsRest(sc, k, id, Step(rs, log[0]), rest);
    }
  }

  lemma ApexBodiesPlain(eps: seq<Endpoint>, rs: seq<Record>, o: Opts, log: seq<Action>)
    requires DistinctEdges(eps) && o.ttl != 0 && CutPlan(log, ApexProgress(eps, rs, o))
    ensures Plain(log)
  {
    var rot, maxCap := DecisionMap(eps, eps, o.now, o.staleAfter), MaxCapacity(eps);
    var ws := ApexWants(eps, o);
    ApexWantsMembers(eps, rot, maxCap, o);
    hide Key, At, Index, CutPlan, ApexProgress, ApexWantsFrom, DecisionMap, MaxCapacity, Wanted, DistinctEdges, Converged;
    ApexRunIsLegal(eps, rs, o, log);
    forall i | 0 <= i < |log| && IsWrite(log[i]) ensures log[i].record.priority == 0 && log[i].record.monitorStatus == 0 {
      assert Legal(log[i], ws, Index(Apex, rs), Index(Relics(o.routing), rs));
      var j :| 0 <= j < |ws| && ActsFor(Planned(log[i]), ws[j], Index(Apex, rs), Index(Relics(o.routing), rs));
      assert ws[j] in ws;
    }
  }

  /** A record that was there before stays the same record: its id, its priority and the
      monitor's verdict on it are as they were, whatever fails. */
  lemma ReconcileKeepsRest(inp: Inputs, rs: seq<Record>, pass: Pass, ep: Endpoint)
    requires InputsOK(inp) && DistinctIDs(rs) && CutPass(inp, rs, pass)
    requires ep in inp.eps && ep.edgeID != "" && ep.ip != "" && At(Apex, ep.edgeID, rs) != []
    ensures SameRest(At(Apex, ep.edgeID, rs), At(Apex, ep.edgeID, AfterPass(rs, pass)))
  {
    hide Key, At, CutPlan, DistinctIDs, Accepted, Execute, SameView, OrphanActions, DistinctEdges, ZonesOK, ApexWants, Index, WantsOK, RelicsOK,
         CutRun, WildcardPlan, Carries, UniqueKeys, AfterZones, AfterPass, SameRest, Wanted, PlanWants, OnlyWrites, HasID, Plain;
    var k, rs1 := ep.edgeID, AfterWildcard(rs, pass);
    LaterPhasesSpare(inp, rs, pass);
    CutWildcardFrame(inp, rs, pass);
    ApexWantedExactly(inp.eps, inp.o, k);
    ApexWantsOK(inp.eps, inp.o);
    ApexRelicsOK(rs1, inp.o.routing);
    ViewAt(Apex, rs1, rs, k);
    ApexBodiesPlain(inp.eps, rs1, inp.o, pass.apex);
    IndexIsLast(Apex, k, rs1);
    IndexMembers(Apex, rs1);
    var y := Index(Apex, rs1)[k];
    WantedWrites(Apex, rs1, ApexWants(inp.eps, inp.o), Index(Relics(inp.o.routing), rs1), pass.apex, k);
    MemberHasID(rs1, y);
    forall r | r in rs1 && r.id == y.id ensures Key(Apex, r) == Some(k) { SameID(rs1, r, y); }
    RunKeepsRest(Apex, k, y.id, rs1, pass.apex);
    ViewAt(Apex, AfterPass(rs, pass), AfterApex(rs, pass), k);
  }

  // ---------- lost tags and dead zones ----------

  /** After an error-free reconcile no record carries the tag of a zone that is gone. */
  lemma NoDeadZoneLeft(inp: Inputs, rs: seq<Record>, pass: Pass, r: Record)
    requires InputsOK(inp) && ListingOK(inp, rs) && IsPass(inp, rs, pass) && r in AfterPass(rs, pass)
    ensures ZoneIDFromComment(r.comment).Some? ==> exists i :: 0 <= i < |inp.zones| && inp.zones[i].zoneID == ZoneIDFromComment(r.comment).value
  {
    hide At, AfterPass, IsPass, ListingOK, InputsOK, ZoneIDFromComment, Settled, ApexWants, ZoneWants;
    OnePassSettles(inp, rs, pass);
    AtMembers(Orphans(ActiveIDs(inp.zones)), "", AfterPass(rs, pass));
    assert Key(Orphans(ActiveIDs(inp.zones)), r) != Some("");
  }

  /** x is the last listed A record under the routing name, in any case, that points at
      the edge's address and carries no server tag. */
  ghost predicate LostTag(rs: seq<Record>, ep: Endpoint, o: Opts, n: nat) {
    n < |rs| && rs[n].typ == 0 && Lower(rs[n].name) == Lower(o.routing) && rs[n].value == ep.ip && EdgeIDFromComment(rs[n].comment) == ""
    && forall m :: n < m < |rs| && rs[m].typ == 0 && Lower(rs[m].name) == Lower(o.routing) && rs[m].value == ep.ip ==>
         EdgeIDFromComment(rs[m].comment) != ""
  }

  lemma {:induction false} LostTagIndexed(rs: seq<Record>, ep: Endpoint, o: Opts, n: nat)
    requires LostTag(rs, ep, o, n) && ep.ip != ""
    ensures ep.ip in Index(Relics(o.routing), rs) && Index(Relics(o.routing), rs)[ep.ip] == rs[n] && n < |rs| && rs[n] in rs
  {
    hide EdgeIDFromComment, Lower;
    var front, last := rs[..|rs| - 1], rs[|rs| - 1];
    if n == |rs| - 1 {
    } else {
      assert forall m :: 0 <= m < |front| ==> front[m] == rs[m];
      LostTagIndexed(front, ep, o, n);
      assert Key(Relics(o.routing), last) != Some(ep.ip);
    }
  }

  /** The action that adopts the relic of a wanted address writes that edge's tag. */
  lemma AdoptingAction(eps: seq<Endpoint>, rs: seq<Record>, o: Opts, log: seq<Action>, ep: Endpoint) returns (n: nat)
    requires DistinctEdges(eps) && DistinctAddresses(eps) && o.ttl != 0 && DistinctIDs(rs) && IsPlan(PlannedAll(log), ApexProgress(eps, rs, o))
    requires ep in eps && ep.edgeID != "" && ep.ip != "" && At(Apex, ep.edgeID, rs) == [] && ep.ip in Index(Relics(o.routing), rs)
    ensures n < |log| && IsWrite(log[n]) && log[n].recordID == Index(Relics(o.routing), rs)[ep.ip].id
    ensures log[n].record.comment != "" && Key(Apex, log[n].record) == Some(ep.edgeID)
  {
    var rot, maxCap := DecisionMap(eps, eps, o.now, o.staleAfter), MaxCapacity(eps);
    var ws, m, relics := ApexWants(eps, o), Index(Apex, rs), Index(Relics(o.routing), rs);
    ApexWantsMembers(eps, rot, maxCap, o);
    hide Key, At, Index, ApexWantsFrom, DecisionMap, MaxCapacity, DistinctEdges, DistinctAddresses, IsPlan, PlanWants, Wanted, Converged,
        DesiredRecord, WantOK, RelicsOK, DistinctIDs;
    ApexWantsOK(eps, o);
    ApexRelicsOK(rs, o.routing);
    IndexMembers(Apex, rs);
    IndexMembers(Relics(o.routing), rs);
    assert ApexWantOf(ep, rot, maxCap, o) in ws;
    var i :| 0 <= i < |ws| && ws[i] == ApexWantOf(ep, rot, maxCap, o);
    AdoptionIsPlanned(ws, m, relics, i);
    var a :| a in PlanWants(ws, m, relics).acts && IsWrite(a) && a.recordID == relics[ep.ip].id;
    n := PlannedAt(log, PlanWants(ws, m, relics), a);
    DistinctWants(Apex, ws);
    PlanTargets(ws, m, relics);
    var j :| 0 <= j < |ws| && ActsFor(a, ws[j], m, relics);
    RelicTarget(rs, o.routing, m, relics, ws[j], a, ep.ip);
    assert ws[j] in ws;
    var x :| x in eps && x.edgeID != "" && x.ip != "" && ws[j] == ApexWantOf(x, rot, maxCap, o);
    assert x.edgeID == ep.edgeID by { SameAddress(eps, x, ep); }
    assert WantOK(Apex, ws[j]);
    WantedTag(ws[j], a.recordID);
  }

  lemma SameAddress(eps: seq<Endpoint>, x: Endpoint, y: Endpoint)
    requires DistinctAddresses(eps) && x in eps && y in eps && x.ip == y.ip != ""
    ensures x.edgeID == y.edgeID
  {
  }

  lemma WantedTag(w: Want, id: int)
    requires WantOK(Apex, w)
    ensures w.record.(id := id).comment != "" && Key(Apex, w.record.(id := id)) == Some(w.edgeID)
  {
    KeyOfBody(Apex, w.record, w.record, id);
  }

  lemma RelicTarget(rs: seq<Record>, routing: string, m: map<string, Record>, relics: map<string, Record>, w: Want, a: Action, ip: string)
    requires DistinctIDs(rs) && RelicsOK(Apex, rs, relics) && ip in relics && !a.kind.Add?
    requires forall k :: k in m ==> m[k] in rs && Key(Apex, m[k]).Some?
    requires ActsFor(a, w, m, relics) && a.recordID == relics[ip].id
    ensures w.record.value == ip
  {
    hide Key, Converged;
    SameID(rs, relics[ip], if w.edgeID in m then m[w.edgeID] else relics[w.record.value]);
  }

  /** A record that lost its tag is taken back, not doubled: the edge's one record after
      an error-free reconcile is the one that already pointed at its address. */
  lemma LostTagRecovered(inp: Inputs, rs: seq<Record>, pass: Pass, ep: Endpoint, n: nat)
    requires InputsOK(inp) && ListingOK(inp, rs) && IsPass(inp, rs, pass) && DistinctAddresses(inp.eps)
    requires ep in inp.eps && ep.edgeID != "" && ep.ip != "" && At(Apex, ep.edgeID, rs) == [] && LostTag(rs, ep, inp.o, n)
    ensures var own := At(Apex, ep.edgeID, AfterPass(rs, pass)); |own| == 1 && own[0].id == rs[n].id
  {
    hide *;
    var k, rs1, rs2 := ep.edgeID, AfterWildcard(rs, pass), AfterApex(rs, pass);
    InputsParts(inp);
    ListingParts(inp, rs);
    ApexServed(inp, rs, pass, ep);
    LostTagIndexed(rs, ep, inp.o, n);
    WholePassIsCut(inp, rs, pass);
    LaterPhasesSpare(inp, rs, pass);
    CutWildcardFrame(inp, rs, pass);
    RelicsSurviveWildcard(inp, rs, pass);
    ViewAt(Apex, rs1, rs, k);
    var i := AdoptingAction(inp.eps, rs1, inp.o, pass.apex, ep);
    AfterApexIs(rs, pass);
    AdoptedHolds(inp.eps, rs1, inp.o, pass.apex, i, rs[n], k);
    ViewAt(Apex, AfterPass(rs, pass), rs2, k);
    TheOneUnder(rs2, k, rs[n].id);
  }

  lemma RelicsSurviveWildcard(inp: Inputs, rs: seq<Record>, pass: Pass)
    requires IsPass(inp, rs, pass) && DistinctIDs(rs)
    ensures Index(Relics(inp.o.routing), AfterWildcard(rs, pass)) == Index(Relics(inp.o.routing), rs)
    ensures IsPlan(PlannedAll(pass.apex), ApexProgress(inp.eps, AfterWildcard(rs, pass), inp.o))
    ensures Accepted(AfterWildcard(rs, pass), pass.apex) && forall r :: r in rs ==> r in AfterWildcard(rs, pass)
  {
    hide Key, At, IsPlan, DistinctIDs, Accepted, WildcardPlan, Execute, SameView, StaleRun, OrphanActions, PlannedAll, Index;
    AfterWildcardOK(inp, rs, pass);
    WildcardFrame(inp, rs, pass.wild, Relics(inp.o.routing));
    SameViewSameIndex(Relics(inp.o.routing), AfterWildcard(rs, pass), rs);
  }

  lemma ListingParts(inp: Inputs, rs: seq<Record>)
    requires ListingOK(inp, rs)
    ensures DistinctIDs(rs)
  {
  }

  lemma AfterApexIs(rs: seq<Record>, pass: Pass)
    ensures AfterApex(rs, pass) == Execute(AfterWildcard(rs, pass), pass.apex)
  {
  }

  lemma TheOneUnder(rs: seq<Record>, k: string, id: int)
    requires |At(Apex, k, rs)| == 1 && exists r :: r in rs && r.id == id && Key(Apex, r) == Some(k)
    ensures At(Apex, k, rs)[0].id == id
  {
    hide Key, At;
    AtMembers(Apex, k, rs);
    var r :| r in rs && r.id == id && Key(Apex, r) == Some(k);
    assert r in At(Apex, k, rs);
  }

  /** The adopted record is there at the end, under the edge's tag. */
  lemma AdoptedHolds(eps: seq<Endpoint>, rs: seq<Record>, o: Opts, log: seq<Action>, i: nat, x: Record, k: string)
    requires DistinctEdges(eps) && o.ttl != 0 && DistinctIDs(rs) && IsPlan(PlannedAll(log), ApexProgress(eps, rs, o)) && Accepted(rs, log)
    requires i < |log| && IsWrite(log[i]) && log[i].recordID == x.id && x in rs && log[i].record.comment != "" && Key(Apex, log[i].record) == Some(k)
    ensures exists r :: r in Execute(rs, log) && r.id == x.id && Key(Apex, r) == Some(k)
  {
    hide Key, At, Index, ApexWants, WantsOK, RelicsOK, DistinctEdges, DistinctIDs, IsPlan, PlanWants, Accepted, Names, NewIDs, Under, Step,
        NamesDiffer, Execute;
    ApexWantsOK(eps, o);
    ApexRelicsOK(rs, o.routing);
    WholeIsCut(log, ApexProgress(eps, rs, o));
    LogNamesDiffer(Apex, rs, ApexWants(eps, o), Index(Relics(o.routing), rs), log);
    UnderTouched(rs, log, i);
    UnderStep(rs, log[i], x.id);
    UnderMembers(rs, x.id);
    UnderMembers(Execute(rs, log), x.id);
    var was := Under(rs, x.id);
    assert x in was;
    WrittenTag(was, log[i], x, k);
  }

  lemma WrittenTag(was: seq<Record>, a: Action, x: Record, k: string)
    requires x in was && a.record.comment != "" && Key(Apex, a.record) == Some(k)
    ensures exists r :: r in Merged(was, x.id, a.record) && r.id == x.id && Key(Apex, r) == Some(k)
  {
    KeyOfBody(Apex, x, a.record, a.record.id);
    assert a.record.(id := a.record.id) == a.record;
    hide Key;
    var n :| 0 <= n < |was| && was[n] == x;
    assert Merged(was, x.id, a.record)[n] == Merge(x, a.record);
  }

  // ---------- the wildcard ----------

  /** The tenant wildcard is created exactly when there is a routing label and a domain
      and no CNAME has its name, in any case; it then points every tenant name at the
      routing record, and it is there after the reconcile. */
  lemma WildcardServed(inp: Inputs, rs: seq<Record>, pass: Pass)
    requires InputsOK(inp) && ListingOK(inp, rs) && IsPass(inp, rs, pass)
    ensures var base := TrimSpace(inp.o.routing);
            var made := base != "" && base != "@" && inp.domain != ""
                        && forall r :: r in rs ==> !(r.typ == 2 && Lower(r.name) == Lower("*." + base));
            (pass.wild != [] <==> made)
            && (made ==> exists r :: r in AfterPass(rs, pass) && r.typ == 2 && r.name == "*." + base && r.value == base + "." + inp.domain
                                     && r.ttl == inp.o.ttl && !r.disabled && r.comment == "brisk:wildcard:" + base)
  {
    hide *;
    WildcardPlanned(inp, rs, pass);
    if pass.wild != [] {
      var r := CreatedWildcard(inp, rs, pass);
      KeptWildcardStays(inp, rs, pass, r);
    }
  }

  lemma WildcardPlanned(inp: Inputs, rs: seq<Record>, pass: Pass)
    requires IsPass(inp, rs, pass)
    ensures var base := TrimSpace(inp.o.routing);
            pass.wild != [] <==> base != "" && base != "@" && inp.domain != ""
                                 && forall r :: r in rs ==> !(r.typ == 2 && Lower(r.name) == Lower("*." + base))
    ensures PlannedAll(pass.wild) == WildcardPlan(rs, inp.o.routing, inp.domain, inp.o.ttl)
  {
    hide IsPlan, Accepted, StaleRun, OrphanActions, ApexProgress, Lower, TrimSpace, PlannedAll;
    WildcardPlanIs(inp, rs, pass.wild);
    assert forall r :: IsWildcard(inp.o.routing, r) <==> r.typ == 2 && Lower(r.name) == Lower("*." + TrimSpace(inp.o.routing));
  }

  lemma CreatedWildcard(inp: Inputs, rs: seq<Record>, pass: Pass) returns (r: Record)
    requires PlannedAll(pass.wild) == WildcardPlan(rs, inp.o.routing, inp.domain, inp.o.ttl) && pass.wild != []
    ensures r in AfterWildcard(rs, pass) && KeptWildcard(inp, r)
    ensures var base := TrimSpace(inp.o.routing);
            r.typ == 2 && r.name == "*." + base && r.value == base + "." + inp.domain && r.ttl == inp.o.ttl && !r.disabled
            && r.comment == "brisk:wildcard:" + base
  {
    hide TrimSpace;
    assert |pass.wild| == |PlannedAll(pass.wild)|;
    var body := WildcardRecord(inp.o.routing, inp.domain, inp.o.ttl);
    var a := pass.wild[0];
    assert pass.wild == [a] && pass.wild[1..] == [];
    assert Planned(a) == PlannedAll(pass.wild)[0];
    WildcardTagIsNeither(TrimSpace(inp.o.routing));
    TagsAsWritten(TrimSpace(inp.o.routing));
    r := body.(id := a.recordID);
    assert Execute(rs, pass.wild) == Added(rs, a.recordID, body);
    assert Added(rs, a.recordID, body)[|rs|] == r;
    assert Key(Apex, r).None? && ZoneIDFromComment(r.comment).None? && Key(WildcardScope(inp.o.routing), r).Some?;
  }
}

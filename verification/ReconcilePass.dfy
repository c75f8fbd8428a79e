/** One reconcile from listing to last write (syncer.go): wildcard, apex plan,
    every zone plan from one snapshot, orphan sweep; and the theorems about it. */
module ReconcilePass {
  import opened Text
  import opened Tags
  import opened Records
  import opened Regions
  import opened Rotation
  import opened Reconcile
  import opened Converge
  import opened Frames

  // ---------- inputs ----------

  /** What one reconcile reads besides the listing. The zone pass takes its own
      clock reading after the apex plan was applied. */
  datatype Inputs = Inputs(eps: seq<Endpoint>, zones: seq<ZoneRouting>, o: Opts, zoneNow: int, domain: string)

  function ZoneOpts(inp: Inputs): Opts {
    inp.o.(now := inp.zoneNow)
  }

  /** What the tables and the configuration guarantee: unique edge ids, unique
      zones, unique (server, zone) pairs, tenant names apart from the routing name,
      a nonzero TTL. */
  ghost predicate ZoneOK(zr: ZoneRouting, routing: string) {
    IsInt64(zr.zoneID) && !EqualFold(zr.name, routing)
    && forall i, j :: 0 <= i < j < |zr.edges| ==> zr.edges[i] != zr.edges[j]
  }

  ghost predicate ZonesOK(zones: seq<ZoneRouting>, routing: string) {
    (forall i :: 0 <= i < |zones| ==> ZoneOK(zones[i], routing))
    && (forall i, j :: 0 <= i < j < |zones| ==> zones[i].zoneID != zones[j].zoneID)
  }

  ghost predicate InputsOK(inp: Inputs) {
    DistinctEdges(inp.eps) && inp.o.ttl != 0 && ZonesOK(inp.zones, inp.o.routing)
  }

  /** Record ids are unique, and no server tag and no tag of an active zone's own
      set is on two records. */
  ghost predicate ListingOK(inp: Inputs, rs: seq<Record>) {
    DistinctIDs(rs) && UniqueKeys(Apex, rs)
    && forall i :: 0 <= i < |inp.zones| ==> UniqueKeys(ZoneScope(inp.zones[i]), rs)
  }

  // ---------- the wanted records are well formed ----------

  lemma ServerTagNonEmpty(edgeID: string)
    requires edgeID != ""
    ensures ServerTag(edgeID) != "" && EdgeIDFromComment(ServerTag(edgeID)) == edgeID
  {
    ServerTagRoundTrip(edgeID);
  }

  lemma {:induction false} ApexWantsMembers(eps: seq<Endpoint>, rot: map<string, Decision>, maxCap: int, o: Opts)
    ensures forall w :: w in ApexWantsFrom(eps, rot, maxCap, o) ==>
              exists ep :: ep in eps && ep.edgeID != "" && ep.ip != "" && w == ApexWantOf(ep, rot, maxCap, o)
    ensures forall ep :: ep in eps && ep.edgeID != "" && ep.ip != "" ==> ApexWantOf(ep, rot, maxCap, o) in ApexWantsFrom(eps, rot, maxCap, o)
    decreases |eps|
  {
    hide ApexWantOf;
    if eps == [] {
    } else {
      var ep, rest := eps[0], eps[1..];
      ApexWantsMembers(rest, rot, maxCap, o);
      assert eps == [ep] + rest;
      forall w | w in ApexWantsFrom(eps, rot, maxCap, o)
        ensures exists x :: x in eps && x.edgeID != "" && x.ip != "" && w == ApexWantOf(x, rot, maxCap, o)
      {
        if w in ApexWantsFrom(rest, rot, maxCap, o) {
          var x :| x in rest && x.edgeID != "" && x.ip != "" && w == ApexWantOf(x, rot, maxCap, o);
          assert x in eps;
        } else {
          assert ep in eps && w == ApexWantOf(ep, rot, maxCap, o);
        }
      }
    }
  }

  lemma {:induction false} ApexWantsFromOK(eps: seq<Endpoint>, rot: map<string, Decision>, maxCap: int, o: Opts)
    requires DistinctEdges(eps) && o.ttl != 0
    ensures var ws := ApexWantsFrom(eps, rot, maxCap, o);
            WantsOK(Apex, ws)
            && forall i :: 0 <= i < |ws| ==> ws[i].record.name == o.routing && ws[i].record.typ == TYPE_A
    decreases |eps|
  {
    hide Key, ApexWantOf, WantOK;
    if eps == [] {
    } else {
      var ep, rest := eps[0], eps[1..];
      ApexWantsFromOK(rest, rot, maxCap, o);
      ApexWantsMembers(rest, rot, maxCap, o);
      var later := ApexWantsFrom(rest, rot, maxCap, o);
      if ep.edgeID == "" || ep.ip == "" {
        assert ApexWantsFrom(eps, rot, maxCap, o) == later;
      } else {
        ApexWantIsOK(ep, rot, maxCap, o);
        assert ApexWantsFrom(eps, rot, maxCap, o) == [ApexWantOf(ep, rot, maxCap, o)] + later;
        forall i | 0 <= i < |later| ensures later[i].edgeID != ep.edgeID {
          assert later[i] in later;
          var x :| x in rest && x.edgeID != "" && x.ip != "" && later[i] == ApexWantOf(x, rot, maxCap, o);
        }
      }
    }
  }

  lemma ApexWantIsOK(ep: Endpoint, rot: map<string, Decision>, maxCap: int, o: Opts)
    requires ep.edgeID != "" && o.ttl != 0
    ensures var w := ApexWantOf(ep, rot, maxCap, o);
            WantOK(Apex, w) && w.record.typ == TYPE_A && w.record.name == o.routing
  {
    hide EffectiveWeight, SmartFieldsFor, EdgeIDFromComment, ServerTag;
    ServerTagNonEmpty(ep.edgeID);
  }

  lemma ApexWantsOK(eps: seq<Endpoint>, o: Opts)
    requires DistinctEdges(eps) && o.ttl != 0
    ensures WantsOK(Apex, ApexWants(eps, o))
    ensures forall i :: 0 <= i < |ApexWants(eps, o)| ==>
              ApexWants(eps, o)[i].record.name == o.routing && ApexWants(eps, o)[i].record.typ == TYPE_A
  {
    hide ApexWantsFrom, WantsOK;
    ApexWantsFromOK(eps, DecisionMap(eps, eps, o.now, o.staleAfter), MaxCapacity(eps), o);
  }

  /** The apex set is wanted for exactly the edges that have an id and an address. */
  lemma ApexWantedExactly(eps: seq<Endpoint>, o: Opts, edgeID: string)
    requires DistinctEdges(eps) && o.ttl != 0
    ensures Wanted(ApexWants(eps, o), edgeID) <==> edgeID != "" && exists ep :: ep in eps && ep.edgeID == edgeID && ep.ip != ""
  {
    var rot, maxCap := DecisionMap(eps, eps, o.now, o.staleAfter), MaxCapacity(eps);
    var ws := ApexWants(eps, o);
    ApexWantsMembers(eps, rot, maxCap, o);
    hide ApexWantsFrom, WantsOK, DesiredRecord;
    if Wanted(ws, edgeID) {
      var i :| 0 <= i < |ws| && ws[i].edgeID == edgeID;
      assert ws[i] in ws;
    }
    if edgeID != "" && exists ep :: ep in eps && ep.edgeID == edgeID && ep.ip != "" {
      var ep :| ep in eps && ep.edgeID == edgeID && ep.ip != "";
      assert ApexWantOf(ep, rot, maxCap, o) in ws;
    }
  }

  lemma ZoneTagKey(zr: ZoneRouting, edgeID: string)
    requires IsInt64(zr.zoneID)
    ensures ZoneEdgeTag(zr.zoneID, edgeID) != ""
    ensures EdgeIDFromZoneComment(ZoneEdgeTag(zr.zoneID, edgeID), zr.zoneID) == Some(edgeID)
  {
    ZoneEdgeTagRead(zr.zoneID, zr.zoneID, edgeID);
  }

  lemma {:induction false} ByIDKeys(eps: seq<Endpoint>)
    ensures forall id :: id in ByID(eps) <==> id != "" && exists ep :: ep in eps && ep.edgeID == id
    ensures forall id :: id in ByID(eps) ==> ByID(eps)[id] in eps && ByID(eps)[id].edgeID == id
  {
    if eps == [] {
    } else {
      var front, last := eps[..|eps| - 1], eps[|eps| - 1];
      ByIDKeys(front);
      assert eps == front + [last];
      assert last in eps;
    }
  }

  /** Want w is for an assigned edge that is known and has an address. */
  ghost predicate ZoneWantFits(w: Want, ids: seq<string>, byID: map<string, Endpoint>) {
    w.edgeID in ids && w.edgeID in byID && byID[w.edgeID].ip != "" && w.record.typ == TYPE_A
  }

  lemma {:induction false} ZoneWantsFit(zr: ZoneRouting, ids: seq<string>, byID: map<string, Endpoint>,
                                        rot: map<string, Decision>, maxCap: int, o: Opts)
    ensures forall w :: w in ZoneWantsFrom(zr, ids, byID, rot, maxCap, o) ==> ZoneWantFits(w, ids, byID)
    ensures forall id :: id in ids && id in byID && byID[id].ip != "" ==> Wanted(ZoneWantsFrom(zr, ids, byID, rot, maxCap, o), id)
    decreases |ids|
  {
    hide EffectiveWeight, SmartFieldsFor, ZoneEdgeTag, Wanted;
    if ids == [] {
    } else {
      var id, rest := ids[0], ids[1..];
      ZoneWantsFit(zr, rest, byID, rot, maxCap, o);
      assert ids == [id] + rest;
      var ws, later := ZoneWantsFrom(zr, ids, byID, rot, maxCap, o), ZoneWantsFrom(zr, rest, byID, rot, maxCap, o);
      if id !in byID || byID[id].ip == "" {
        assert ws == later;
      } else {
        assert ws == [ZoneWantOf(zr, byID[id], id, rot, maxCap, o)] + later && ws[1..] == later;
        forall k ensures Wanted(ws, k) <==> k == id || Wanted(later, k) { WantedCons(ws, k); }
      }
    }
  }

  lemma {:induction false} ZoneWantsFromOK(zr: ZoneRouting, ids: seq<string>, byID: map<string, Endpoint>,
                                           rot: map<string, Decision>, maxCap: int, o: Opts)
    requires IsInt64(zr.zoneID) && o.ttl != 0
    requires forall i, j :: 0 <= i < j < |ids| ==> ids[i] != ids[j]
    ensures WantsOK(ZoneScope(zr), ZoneWantsFrom(zr, ids, byID, rot, maxCap, o))
    decreases |ids|
  {
    hide DesiredRecord, Key, WantOK, ZoneWantOf, ZoneScope, ByID;
    if ids == [] {
    } else {
      var id, rest := ids[0], ids[1..];
      ZoneWantsFromOK(zr, rest, byID, rot, maxCap, o);
      var ws, later := ZoneWantsFrom(zr, ids, byID, rot, maxCap, o), ZoneWantsFrom(zr, rest, byID, rot, maxCap, o);
      if id !in byID || byID[id].ip == "" {
        assert ws == later;
      } else {
        ZoneWantIsOK(zr, byID[id], id, rot, maxCap, o);
        ZoneWantsFit(zr, rest, byID, rot, maxCap, o);
        assert ws == [ZoneWantOf(zr, byID[id], id, rot, maxCap, o)] + later;
        forall i | 0 <= i < |later| ensures later[i].edgeID != id {
          assert later[i] in later && ZoneWantFits(later[i], rest, byID);
          var k :| 0 <= k < |rest| && rest[k] == later[i].edgeID;
          assert ids[k + 1] == rest[k];
        }
      }
    }
  }

  lemma ZoneWantIsOK(zr: ZoneRouting, ep: Endpoint, edgeID: string, rot: map<string, Decision>, maxCap: int, o: Opts)
    requires IsInt64(zr.zoneID) && o.ttl != 0
    ensures var w := ZoneWantOf(zr, ep, edgeID, rot, maxCap, o);
            WantOK(ZoneScope(zr), w) && w.record.typ == TYPE_A && w.record.name == zr.name
  {
    hide EffectiveWeight, SmartFieldsFor, EdgeIDFromZoneComment, ZoneEdgeTag;
    ZoneTagKey(zr, edgeID);
  }

  lemma ZoneWantsOK(zr: ZoneRouting, eps: seq<Endpoint>, o: Opts, routing: string)
    requires ZoneOK(zr, routing) && o.ttl != 0
    ensures WantsOK(ZoneScope(zr), ZoneWants(zr, eps, o))
    ensures forall i :: 0 <= i < |ZoneWants(zr, eps, o)| ==> ZoneWants(zr, eps, o)[i].record.typ == TYPE_A
  {
    hide ZoneWantsFrom, WantsOK;
    var rot, maxCap := DecisionMap(eps, eps, o.now, o.staleAfter), MaxCapacity(eps);
    ZoneWantsFromOK(zr, zr.edges, ByID(eps), rot, maxCap, o);
    ZoneWantsFit(zr, zr.edges, ByID(eps), rot, maxCap, o);
    var ws := ZoneWants(zr, eps, o);
    assert forall i :: 0 <= i < |ws| ==> ws[i] in ws;
  }

  /** A zone's set is wanted for exactly its assigned edges that are known and have
      an address. */
  lemma ZoneWantedExactly(zr: ZoneRouting, eps: seq<Endpoint>, o: Opts, routing: string, edgeID: string)
    requires ZoneOK(zr, routing) && o.ttl != 0 && DistinctEdges(eps)
    ensures Wanted(ZoneWants(zr, eps, o), edgeID)
       <==> edgeID in zr.edges && edgeID != "" && exists ep :: ep in eps && ep.edgeID == edgeID && ep.ip != ""
  {
    ByIDKeys(eps);
    ZoneWantsFit(zr, zr.edges, ByID(eps), DecisionMap(eps, eps, o.now, o.staleAfter), MaxCapacity(eps), o);
    var ws := ZoneWants(zr, eps, o);
    hide ZoneWantsFrom, ByID;
    if Wanted(ws, edgeID) {
      var i :| 0 <= i < |ws| && ws[i].edgeID == edgeID;
      assert ws[i] in ws;
    }
    forall a, b | a in eps && b in eps && a.edgeID == b.edgeID ensures a == b {
      var i :| 0 <= i < |eps| && eps[i] == a;
      var j :| 0 <= j < |eps| && eps[j] == b;
      assert i == j;
    }
  }

  lemma ApexRelicsOK(rs: seq<Record>, routing: string)
    ensures RelicsOK(Apex, rs, Index(Relics(routing), rs))
  {
    IndexMembers(Relics(routing), rs);
    hide Index, EdgeIDFromComment;
  }

  // ---------- one reconcile ----------

  /** Create-if-missing for the tenant wildcard: nothing without a routing label or
      a zone domain, nothing when any CNAME has the name. */
  function WildcardRecord(routing: string, domain: string, ttl: int): Record {
    var base := TrimSpace(routing);
    NO_RECORD.(typ := TYPE_CNAME, name := "*." + base, value := base + "." + domain, ttl := ttl,
               comment := WILDCARD_PREFIX + base)
  }

  predicate WildcardOff(routing: string, domain: string) {
    TrimSpace(routing) == "" || TrimSpace(routing) == "@" || domain == ""
  }

  function WildcardScope(routing: string): Scope {
    Wildcard(TrimSpace(routing))
  }

  function WildcardPlan(rs: seq<Record>, routing: string, domain: string, ttl: int): seq<Action> {
    if WildcardOff(routing, domain) || exists i :: 0 <= i < |rs| && Key(WildcardScope(routing), rs[i]).Some? then []
    else
      var r := WildcardRecord(routing, domain, ttl);
      [Action(Add, "", 0, r, r.name, r.value)]
  }

  /** The executed actions of one reconcile, by phase. */
  datatype Pass = Pass(wild: seq<Action>, apex: seq<Action>, zones: seq<seq<Action>>, orphans: seq<Action>)

  function ZonesEnd(rs: seq<Record>, runs: seq<seq<Action>>): seq<Record>
    decreases |runs|
  {
    if runs == [] then rs else ZonesEnd(Execute(rs, runs[0]), runs[1..])
  }

  /** Zone plans computed from snapshot snap and executed one after the other. */
  ghost predicate StaleRun(snap: seq<Record>, rs: seq<Record>, zones: seq<ZoneRouting>, eps: seq<Endpoint>, o: Opts,
                           runs: seq<seq<Action>>)
    decreases |zones|
  {
    |runs| == |zones|
    && (zones == [] ||
        (IsPlan(PlannedAll(runs[0]), ZoneProgress(zones[0], eps, snap, o)) && Accepted(rs, runs[0])
         && StaleRun(snap, Execute(rs, runs[0]), zones[1..], eps, o, runs[1..])))
  }

  /** The same, when any call may fail: every plan is executed up to its first
      failing call, and the next zone is taken up regardless. */
  ghost predicate CutRun(snap: seq<Record>, rs: seq<Record>, zones: seq<ZoneRouting>, eps: seq<Endpoint>, o: Opts,
                         runs: seq<seq<Action>>)
    decreases |zones|
  {
    |runs| == |zones|
    && (zones == [] ||
        (CutPlan(runs[0], ZoneProgress(zones[0], eps, snap, o)) && Accepted(rs, runs[0])
         && CutRun(snap, Execute(rs, runs[0]), zones[1..], eps, o, runs[1..])))
  }

  lemma {:induction false} StaleRunIsCutRun(snap: seq<Record>, rs: seq<Record>, zones: seq<ZoneRouting>, eps: seq<Endpoint>,
                                            o: Opts, runs: seq<seq<Action>>)
    requires StaleRun(snap, rs, zones, eps, o, runs)
    ensures CutRun(snap, rs, zones, eps, o, runs)
    decreases |zones|
  {
    hide Execute, IsPlan, CutPlan, Accepted, ZoneProgress, PlannedAll;
    if zones == [] {
    } else {
      WholeIsCut(runs[0], ZoneProgress(zones[0], eps, snap, o));
      StaleRunIsCutRun(snap, Execute(rs, runs[0]), zones[1..], eps, o, runs[1..]);
    }
  }

  /** The same, listing the records again before each zone plan. */
  ghost predicate RelistingRun(rs: seq<Record>, zones: seq<ZoneRouting>, eps: seq<Endpoint>, o: Opts, runs: seq<seq<Action>>)
    decreases |zones|
  {
    |runs| == |zones|
    && (zones == [] ||
        (IsPlan(PlannedAll(runs[0]), ZoneProgress(zones[0], eps, rs, o)) && Accepted(rs, runs[0])
         && RelistingRun(Execute(rs, runs[0]), zones[1..], eps, o, runs[1..])))
  }

  ghost function ActiveIDs(zones: seq<ZoneRouting>): set<int> {
    set i | 0 <= i < |zones| :: zones[i].zoneID
  }

  function AfterWildcard(rs: seq<Record>, pass: Pass): seq<Record> {
    Execute(rs, pass.wild)
  }

  function AfterApex(rs: seq<Record>, pass: Pass): seq<Record> {
    Execute(AfterWildcard(rs, pass), pass.apex)
  }

  function AfterZones(rs: seq<Record>, pass: Pass): seq<Record> {
    ZonesEnd(AfterApex(rs, pass), pass.zones)
  }

  function AfterPass(rs: seq<Record>, pass: Pass): seq<Record> {
    Execute(AfterZones(rs, pass), pass.orphans)
  }

  /** pass is a reconcile without a failing call: the apex plan comes from the
      listing taken before the wildcard was ensured, the zone plans and the sweep
      from one listing taken after the apex plan was applied. */
  ghost predicate IsPass(inp: Inputs, rs: seq<Record>, pass: Pass) {
    PlannedAll(pass.wild) == WildcardPlan(rs, inp.o.routing, inp.domain, inp.o.ttl)
    && Accepted(rs, pass.wild)
    && IsPlan(PlannedAll(pass.apex), ApexProgress(inp.eps, rs, inp.o))
    && Accepted(AfterWildcard(rs, pass), pass.apex)
    && StaleRun(AfterApex(rs, pass), AfterApex(rs, pass), inp.zones, inp.eps, ZoneOpts(inp), pass.zones)
    && PlannedAll(pass.orphans) == OrphanActions(AfterApex(rs, pass), ActiveIDs(inp.zones))
    && Accepted(AfterZones(rs, pass), pass.orphans)
  }
}

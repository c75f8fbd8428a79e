/** The plans that converge DNS to the servers and zones tables (reconcile.go,
    zonesync.go): the three planners as loops over maps, and what they plan as a
    function of the listing. */
module Reconcile {
  import opened Text
  import opened Tags
  import opened Records
  import opened Regions
  import opened Rotation

  datatype Opts = Opts(routing: string, ttl: int, staleAfter: int, mode: string,
                       monitorType: int, now: int, regions: map<string, RegionLoc>)

  datatype ZoneRouting = ZoneRouting(zoneID: int, name: string, edges: seq<string>)

  // ---------- is a record already what we want? ----------

  const COORD_EPS := 0.000001

  predicate FloatEq(a: real, b: real) {
    (if a - b < 0.0 then b - a else a - b) <= COORD_EPS
  }

  predicate SmartChanged(r: Record, want: Record) {
    r.smart != want.smart || r.latencyZone != want.latencyZone || r.weight != want.weight
    || r.monitorType != want.monitorType || !FloatEq(r.lat, want.lat) || !FloatEq(r.long, want.long)
  }

  predicate ContentChanged(r: Record, want: Record) {
    r.value != want.value || r.name != want.name || r.ttl != want.ttl || r.comment != want.comment
    || SmartChanged(r, want)
  }

  /** What the planners take for "nothing to do". The record type is not compared. */
  predicate Converged(r: Record, want: Record) {
    !ContentChanged(r, want) && r.disabled == want.disabled
  }

  // ---------- wanted records ----------

  /** One wanted record, for one edge. */
  datatype Want = Want(edgeID: string, record: Record)

  function DesiredRecord(ep: Endpoint, name: string, comment: string, rot: map<string, Decision>,
                         maxCap: int, o: Opts): Record
  {
    var s := SmartFieldsFor(ep, o.mode, o.regions);
    NO_RECORD.(typ := TYPE_A, name := name, value := ep.ip, ttl := o.ttl,
               disabled := !(ep.edgeID in rot && rot[ep.edgeID].inRotation),
               comment := comment, weight := EffectiveWeight(ep, maxCap),
               smart := s.smart, latencyZone := s.latencyZone, lat := s.lat, long := s.long,
               monitorType := o.monitorType)
  }

  function ApexWantOf(ep: Endpoint, rot: map<string, Decision>, maxCap: int, o: Opts): (w: Want)
    ensures w.edgeID == ep.edgeID && w.record.value == ep.ip
  {
    Want(ep.edgeID, DesiredRecord(ep, o.routing, ServerTag(ep.edgeID), rot, maxCap, o))
  }

  function ApexWantsFrom(eps: seq<Endpoint>, rot: map<string, Decision>, maxCap: int, o: Opts): seq<Want> {
    if eps == [] then []
    else (if eps[0].edgeID == "" || eps[0].ip == "" then [] else [ApexWantOf(eps[0], rot, maxCap, o)])
         + ApexWantsFrom(eps[1..], rot, maxCap, o)
  }

  ghost function ApexWants(eps: seq<Endpoint>, o: Opts): seq<Want> {
    ApexWantsFrom(eps, DecisionMap(eps, eps, o.now, o.staleAfter), MaxCapacity(eps), o)
  }

  function ByID(eps: seq<Endpoint>): map<string, Endpoint> {
    if eps == [] then map[]
    else
      var ep, m := eps[|eps| - 1], ByID(eps[..|eps| - 1]);
      if ep.edgeID != "" then m[ep.edgeID := ep] else m
  }

  function ZoneWantOf(zr: ZoneRouting, ep: Endpoint, edgeID: string, rot: map<string, Decision>, maxCap: int, o: Opts): (w: Want)
    ensures w.edgeID == edgeID && w.record.value == ep.ip
  {
    Want(edgeID, DesiredRecord(ep, zr.name, ZoneEdgeTag(zr.zoneID, edgeID), rot, maxCap, o))
  }

  function ZoneWantsFrom(zr: ZoneRouting, ids: seq<string>, byID: map<string, Endpoint>,
                         rot: map<string, Decision>, maxCap: int, o: Opts): seq<Want>
  {
    if ids == [] then []
    else (if ids[0] !in byID || byID[ids[0]].ip == "" then [] else [ZoneWantOf(zr, byID[ids[0]], ids[0], rot, maxCap, o)])
         + ZoneWantsFrom(zr, ids[1..], byID, rot, maxCap, o)
  }

  ghost function ZoneWants(zr: ZoneRouting, eps: seq<Endpoint>, o: Opts): seq<Want> {
    ZoneWantsFrom(zr, zr.edges, ByID(eps), DecisionMap(eps, eps, o.now, o.staleAfter), MaxCapacity(eps), o)
  }

  // ---------- planned actions ----------

  function AddAction(w: Want): Action {
    Action(Add, w.edgeID, 0, w.record, w.record.name, w.record.value)
  }

  function WriteKind(r: Record, want: Record, adopted: bool): Kind {
    if !adopted && !ContentChanged(r, want) && r.disabled != want.disabled
    then if want.disabled then Disable else Enable
    else Update
  }

  /** What a write's kind tells: an enable or a disable changes the disabled flag of
      the edge's own record and nothing that the planners compare; all other writes,
      adoptions among them, are updates. */
  lemma KindsTell(r: Record, want: Record, adopted: bool)
    requires !Converged(r, want) || adopted
    ensures WriteKind(r, want, adopted) == Update
       <==> adopted || r.disabled == want.disabled || !Converged(r.(disabled := want.disabled), want)
    ensures WriteKind(r, want, adopted) == Disable ==> want.disabled && !r.disabled
    ensures WriteKind(r, want, adopted) == Enable ==> !want.disabled && r.disabled
  {
  }

  function WriteAction(w: Want, r: Record, adopted: bool): Action {
    Action(WriteKind(r, w.record, adopted), w.edgeID, r.id, w.record.(id := r.id), w.record.name, w.record.value)
  }

  function RemoveAction(edgeID: string, r: Record): (a: Action)
    ensures a.edgeID == edgeID
  {
    Action(Remove, edgeID, r.id, NO_RECORD, r.name, r.value)
  }

  /** Where a planner stands: the actions so far, the managed records no want has
      claimed yet, and the untagged records still free for adoption. */
  datatype Progress = Progress(acts: seq<Action>, managed: map<string, Record>, relics: map<string, Record>)

  /** What one want asks for: nothing, a write over its own record, the adoption
      of an untagged record at its address, or a new record. */
  function Turn(w: Want, managed: map<string, Record>, relics: map<string, Record>): (acts: seq<Action>)
    ensures |acts| <= 1
  {
    if w.edgeID in managed then
      if Converged(managed[w.edgeID], w.record) then [] else [WriteAction(w, managed[w.edgeID], false)]
    else if w.record.value in relics then [WriteAction(w, relics[w.record.value], true)]
    else [AddAction(w)]
  }

  function RelicsLeft(w: Want, managed: map<string, Record>, relics: map<string, Record>): map<string, Record> {
    if w.edgeID in managed then relics else relics - {w.record.value}
  }

  function PlanWants(ws: seq<Want>, managed: map<string, Record>, relics: map<string, Record>): Progress {
    if ws == [] then Progress([], managed, relics)
    else
      var rest := PlanWants(ws[1..], managed - {ws[0].edgeID}, RelicsLeft(ws[0], managed, relics));
      rest.(acts := Turn(ws[0], managed, relics) + rest.acts)
  }

  /** rm deletes each record of m whose key is in keys, once, in some order. */
  ghost predicate Removes(rm: seq<Action>, m: map<string, Record>, keys: set<string>)
    requires keys <= m.Keys
  {
    (forall i :: 0 <= i < |rm| ==> rm[i].edgeID in keys && rm[i] == RemoveAction(rm[i].edgeID, m[rm[i].edgeID]))
    && (forall i, j :: 0 <= i < j < |rm| ==> rm[i].edgeID != rm[j].edgeID)
    && (forall k :: k in keys ==> exists i :: 0 <= i < |rm| && rm[i].edgeID == k)
  }

  /** A complete plan: the writes in order, then a delete for every managed record
      left over; the deletes come out of a map, in any order. */
  ghost predicate IsPlan(plan: seq<Action>, p: Progress) {
    |p.acts| <= |plan| && plan[..|p.acts|] == p.acts && Removes(plan[|p.acts|..], p.managed, p.managed.Keys)
  }

  lemma RemovesNone(m: map<string, Record>)
    ensures Removes([], m, {})
  {
  }

  lemma RemovesOneMore(rm: seq<Action>, m: map<string, Record>, keys: set<string>, k: string)
    requires keys <= m.Keys && Removes(rm, m, keys) && k in m && k !in keys
    ensures Removes(rm + [RemoveAction(k, m[k])], m, keys + {k})
  {
    hide RemoveAction;
    var rm' := rm + [RemoveAction(k, m[k])];
    assert rm'[|rm|].edgeID == k;
    forall j | j in keys + {k} ensures exists i :: 0 <= i < |rm'| && rm'[i].edgeID == j {
      if j != k {
        var i :| 0 <= i < |rm| && rm[i].edgeID == j;
        assert rm'[i].edgeID == j;
      }
    }
  }

  method RemoveLeftovers(managed: map<string, Record>) returns (rm: seq<Action>)
    ensures Removes(rm, managed, managed.Keys)
  {
    hide Removes, RemoveAction;
    rm := [];
    var left := managed;
    ghost var done: set<string> := {};
    assert Removes(rm, managed, done) by { RemovesNone(managed); }
    while left != map[]
      invariant left.Keys <= managed.Keys && forall k :: k in left ==> left[k] == managed[k]
      invariant done == managed.Keys - left.Keys && Removes(rm, managed, done)
      decreases |left.Keys|
    {
      var edgeID :| edgeID in left;
      RemovesOneMore(rm, managed, done, edgeID);
      rm := rm + [RemoveAction(edgeID, left[edgeID])];
      assert (left - {edgeID}).Keys == left.Keys - {edgeID};
      left := left - {edgeID};
      done := done + {edgeID};
    }
    assert done == managed.Keys;
  }

  ghost function ApexProgress(eps: seq<Endpoint>, records: seq<Record>, o: Opts): Progress {
    PlanWants(ApexWants(eps, o), Index(Apex, records), Index(Relics(o.routing), records))
  }

  /** A planner that has emitted plan and still faces the wants ws will end in whole. */
  ghost predicate Resumes(whole: Progress, plan: seq<Action>, ws: seq<Want>,
                          managed: map<string, Record>, relics: map<string, Record>)
  {
    whole == PlanWants(ws, managed, relics).(acts := plan + PlanWants(ws, managed, relics).acts)
  }

  lemma ResumeStep(whole: Progress, plan: seq<Action>, w: Want, later: seq<Want>,
                   managed: map<string, Record>, relics: map<string, Record>)
    requires Resumes(whole, plan, [w] + later, managed, relics)
    ensures Resumes(whole, plan + Turn(w, managed, relics), later, managed - {w.edgeID}, RelicsLeft(w, managed, relics))
  {
    hide Turn, RelicsLeft;
    assert ([w] + later)[0] == w && ([w] + later)[1..] == later;
    var rest := PlanWants(later, managed - {w.edgeID}, RelicsLeft(w, managed, relics)).acts;
    assert plan + (Turn(w, managed, relics) + rest) == (plan + Turn(w, managed, relics)) + rest;
  }

  lemma ResumeStart(ws: seq<Want>, managed: map<string, Record>, relics: map<string, Record>)
    ensures Resumes(PlanWants(ws, managed, relics), [], ws, managed, relics)
  {
  }

  lemma ResumeEnd(whole: Progress, plan: seq<Action>, managed: map<string, Record>, relics: map<string, Record>)
    requires Resumes(whole, plan, [], managed, relics)
    ensures whole == Progress(plan, managed, relics)
  {
  }

  method IndexApex(records: seq<Record>, routing: string)
    returns (managed: map<string, Record>, untaggedByValue: map<string, Record>)
    ensures managed == Index(Apex, records)
    ensures untaggedByValue == Index(Relics(routing), records)
  {
    managed, untaggedByValue := map[], map[];
    for i := 0 to |records|
      invariant managed == Index(Apex, records[..i])
      invariant untaggedByValue == Index(Relics(routing), records[..i])
    {
      var r := records[i];
      assert records[..i + 1][..i] == records[..i];
      var id := EdgeIDFromComment(r.comment);
      if id != "" {
        managed := managed[id := r];
      } else if r.typ == TYPE_A && EqualFold(r.name, routing) && r.value != "" {
        untaggedByValue := untaggedByValue[r.value := r];
      }
    }
    assert records[..|records|] == records;
  }

  method Diff(eps: seq<Endpoint>, records: seq<Record>, o: Opts) returns (plan: seq<Action>)
    ensures IsPlan(plan, ApexProgress(eps, records, o))
  {
    hide DesiredRecord, ContentChanged, WriteAction, AddAction, Index, DecisionMap, MaxCapacity, Resumes, PlanWants, FloatEq;
    var managed, untaggedByValue := IndexApex(records, o.routing);
    var inRotation := RotationDecision(eps, o.now, o.staleAfter);
    var maxCap := ComputeMaxCapacity(eps);
    ghost var whole := ApexProgress(eps, records, o);
    plan := [];
    assert eps[0..] == eps;
    ResumeStart(ApexWantsFrom(eps, inRotation, maxCap, o), managed, untaggedByValue);
    for i := 0 to |eps|
      invariant Resumes(whole, plan, ApexWantsFrom(eps[i..], inRotation, maxCap, o), managed, untaggedByValue)
    {
      var ep := eps[i];
      assert eps[i..][0] == ep && eps[i..][1..] == eps[i + 1..];
      ghost var later := ApexWantsFrom(eps[i + 1..], inRotation, maxCap, o);
      if ep.edgeID == "" || ep.ip == "" {
        assert ApexWantsFrom(eps[i..], inRotation, maxCap, o) == later;
        continue;
      }
      var w := ApexWantOf(ep, inRotation, maxCap, o);
      assert ApexWantsFrom(eps[i..], inRotation, maxCap, o) == [w] + later;
      ResumeStep(whole, plan, w, later, managed, untaggedByValue);
      assert ep.edgeID !in managed ==> managed - {ep.edgeID} == managed;
      assert ep.ip !in untaggedByValue ==> untaggedByValue - {ep.ip} == untaggedByValue;
      assert plan + [] == plan;
      if ep.edgeID in managed {
        var existing := managed[ep.edgeID];
        managed := managed - {ep.edgeID};
        if !Converged(existing, w.record) {
          plan := plan + [WriteAction(w, existing, false)];
        }
      } else if ep.ip in untaggedByValue {
        var relic := untaggedByValue[ep.ip];
        untaggedByValue := untaggedByValue - {ep.ip};
        plan := plan + [WriteAction(w, relic, true)];
      } else {
        plan := plan + [AddAction(w)];
      }
    }
    ResumeEnd(whole, plan, managed, untaggedByValue);
    ghost var writes := plan;
    var rm := RemoveLeftovers(managed);
    plan := plan + rm;
    assert plan[..|writes|] == writes && plan[|writes|..] == rm;
  }

  ghost function ZoneScope(zr: ZoneRouting): Scope {
    Zone(zr.zoneID, zr.name)
  }

  ghost function ZoneProgress(zr: ZoneRouting, eps: seq<Endpoint>, records: seq<Record>, o: Opts): Progress {
    PlanWants(ZoneWants(zr, eps, o), Index(ZoneScope(zr), records), map[])
  }

  method IndexZone(records: seq<Record>, zr: ZoneRouting) returns (managed: map<string, Record>)
    ensures managed == Index(Zone(zr.zoneID, zr.name), records)
  {
    managed := map[];
    for i := 0 to |records|
      invariant managed == Index(Zone(zr.zoneID, zr.name), records[..i])
    {
      var r := records[i];
      assert records[..i + 1][..i] == records[..i];
      if r.typ != TYPE_A || !EqualFold(r.name, zr.name) {
        continue;
      }
      var edge := EdgeIDFromZoneComment(r.comment, zr.zoneID);
      if edge.Some? {
        managed := managed[edge.value := r];
      }
    }
    assert records[..|records|] == records;
  }

  method IndexEndpoints(eps: seq<Endpoint>) returns (epByID: map<string, Endpoint>)
    ensures epByID == ByID(eps)
  {
    epByID := map[];
    for i := 0 to |eps|
      invariant epByID == ByID(eps[..i])
    {
      assert eps[..i + 1][..i] == eps[..i];
      if eps[i].edgeID != "" {
        epByID := epByID[eps[i].edgeID := eps[i]];
      }
    }
    assert eps[..|eps|] == eps;
  }

  method DiffZone(zr: ZoneRouting, eps: seq<Endpoint>, records: seq<Record>, o: Opts) returns (plan: seq<Action>)
    ensures IsPlan(plan, ZoneProgress(zr, eps, records, o))
  {
    hide DesiredRecord, ContentChanged, WriteAction, AddAction, Index, DecisionMap, MaxCapacity, ByID, Resumes, PlanWants, FloatEq;
    var epByID := IndexEndpoints(eps);
    var inRotation := RotationDecision(eps, o.now, o.staleAfter);
    var maxCap := ComputeMaxCapacity(eps);
    var managed := IndexZone(records, zr);
    ghost var whole := ZoneProgress(zr, eps, records, o);
    ghost var none: map<string, Record> := map[];
    var ids := zr.edges;
    plan := [];
    assert ids[0..] == ids;
    ResumeStart(ZoneWantsFrom(zr, ids, epByID, inRotation, maxCap, o), managed, none);
    for i := 0 to |ids|
      invariant Resumes(whole, plan, ZoneWantsFrom(zr, ids[i..], epByID, inRotation, maxCap, o), managed, none)
    {
      var edgeID := ids[i];
      assert ids[i..][0] == edgeID && ids[i..][1..] == ids[i + 1..];
      ghost var later := ZoneWantsFrom(zr, ids[i + 1..], epByID, inRotation, maxCap, o);
      if edgeID !in epByID || epByID[edgeID].ip == "" {
        assert ZoneWantsFrom(zr, ids[i..], epByID, inRotation, maxCap, o) == later;
        continue;
      }
      var w := ZoneWantOf(zr, epByID[edgeID], edgeID, inRotation, maxCap, o);
      assert ZoneWantsFrom(zr, ids[i..], epByID, inRotation, maxCap, o) == [w] + later;
      ResumeStep(whole, plan, w, later, managed, none);
      assert edgeID !in managed ==> managed - {edgeID} == managed;
      assert none - {w.record.value} == none && plan + [] == plan;
      if edgeID !in managed {
        plan := plan + [AddAction(w)];
        continue;
      }
      var existing := managed[edgeID];
      managed := managed - {edgeID};
      if !Converged(existing, w.record) {
        plan := plan + [WriteAction(w, existing, false)];
      }
    }
    ResumeEnd(whole, plan, managed, none);
    ghost var writes := plan;
    var rm := RemoveLeftovers(managed);
    plan := plan + rm;
    assert plan[..|writes|] == writes && plan[|writes|..] == rm;
  }

  function OrphanActions(records: seq<Record>, active: set<int>): seq<Action> {
    if records == [] then []
    else
      var r := records[|records| - 1];
      OrphanActions(records[..|records| - 1], active)
      + if Key(Orphans(active), r).Some? then [RemoveAction("", r)] else []
  }

  method OrphanZonePlan(records: seq<Record>, active: set<int>) returns (plan: seq<Action>)
    ensures plan == OrphanActions(records, active)
  {
    plan := [];
    for i := 0 to |records|
      invariant plan == OrphanActions(records[..i], active)
    {
      assert records[..i + 1][..i] == records[..i];
      var zid := ZoneIDFromComment(records[i].comment);
      if zid.None? || zid.value in active {
        continue;
      }
      plan := plan + [RemoveAction("", records[i])];
    }
    assert records[..|records|] == records;
  }
}

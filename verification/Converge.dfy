/** Why one executed plan is enough: what the writes and deletes of a plan do to
    every key of the class it manages, and to the classes it does not. */
module Converge {
  import opened Text
  import opened Tags
  import opened Records
  import opened Regions
  import opened Rotation
  import opened Reconcile

  // ---------- keys of written records ----------

  lemma KeyOfBody(sc: Scope, x: Record, body: Record, id: int)
    requires body.comment != ""
    ensures Key(sc, Merge(x, body.(id := id))) == Key(sc, body)
    ensures Key(sc, body.(id := id)) == Key(sc, body)
  {
    hide EdgeIDFromComment, EdgeIDFromZoneComment, ZoneIDFromComment, EqualFold;
  }

  lemma WrittenConverges(x: Record, want: Record, id: int)
    requires want.ttl != 0 && want.comment != ""
    ensures Converged(Merge(x, want.(id := id)), want)
    ensures Converged(want.(id := id), want)
  {
  }

  /** Switching an edge's routing mode clears the stale fields of the other mode,
      although updates are partial: whatever the record held, it then has either
      coordinates or a latency zone, and neither where the region is not mapped. */
  lemma ModeSwitchClears(x: Record, ep: Endpoint, name: string, comment: string, rot: map<string, Decision>, maxCap: int, o: Opts)
    ensures var r := Merge(x, DesiredRecord(ep, name, comment, rot, maxCap, o));
            (r.smart == SMART_LATENCY ==> r.lat == 0.0 && r.long == 0.0)
            && (r.smart == SMART_GEOLOCATION ==> r.latencyZone == "")
            && (LookupRegion(ep.region, o.regions).None? <==> r.smart == SMART_NONE)
            && (r.smart == SMART_NONE ==> r.lat == 0.0 && r.long == 0.0 && r.latencyZone == "")
  {
    hide LookupRegion, EffectiveWeight, ResolveMode;
  }

  /** What a planner may want of class sc: one record per edge, each complete
      enough to overwrite what a merge would otherwise keep. */
  ghost predicate WantOK(sc: Scope, w: Want) {
    w.record.ttl != 0 && w.record.comment != "" && Key(sc, w.record) == Some(w.edgeID)
  }

  ghost predicate WantsOK(sc: Scope, ws: seq<Want>) {
    (forall i :: 0 <= i < |ws| ==> WantOK(sc, ws[i]))
    && (forall i, j :: 0 <= i < j < |ws| ==> ws[i].edgeID != ws[j].edgeID)
  }

  ghost predicate Wanted(ws: seq<Want>, k: string) {
    exists i :: 0 <= i < |ws| && ws[i].edgeID == k
  }

  /** One record per want, already as wanted, and no other record in the class. */
  ghost predicate Settled(sc: Scope, ws: seq<Want>, rs: seq<Record>) {
    (forall i :: 0 <= i < |ws| ==>
       |At(sc, ws[i].edgeID, rs)| == 1 && Converged(At(sc, ws[i].edgeID, rs)[0], ws[i].record))
    && (forall k :: !Wanted(ws, k) ==> At(sc, k, rs) == [])
  }

  // ---------- single steps ----------

  /** Writing want w over record x leaves exactly the written record under w's
      key, whether x was there before or was adopted from outside the class. */
  lemma StepWrite(sc: Scope, rs: seq<Record>, w: Want, x: Record, a: Action)
    requires DistinctIDs(rs) && x in rs && WantOK(sc, w)
    requires IsWrite(a) && a.recordID == x.id && a.record == w.record.(id := x.id)
    requires (Key(sc, x) == Some(w.edgeID) && At(sc, w.edgeID, rs) == [x])
          || (Key(sc, x) == None && At(sc, w.edgeID, rs) == [])
    ensures At(sc, w.edgeID, Step(rs, a)) == [Merge(x, a.record)] && Converged(Merge(x, a.record), w.record)
    ensures forall k :: k != w.edgeID ==> At(sc, k, Step(rs, a)) == At(sc, k, rs)
    ensures forall r :: r in rs && r.id != x.id ==> r in Step(rs, a)
    ensures DistinctIDs(Step(rs, a))
  {
    KeyOfBody(sc, x, w.record, x.id);
    WrittenConverges(x, w.record, x.id);
    hide Key, Merge, At, Converged;
    forall r | r in rs && r.id == x.id ensures r == x { SameID(rs, r, x); }
    if Key(sc, x) == None {
      AtMergedInto(sc, w.edgeID, rs, x, a.record);
    } else {
      AtMergedInPlace(sc, w.edgeID, rs, x.id, a.record);
    }
    forall k | k != w.edgeID ensures At(sc, k, Step(rs, a)) == At(sc, k, rs) {
      AtMergedElsewhere(sc, k, rs, x.id, a.record);
    }
    forall r | r in rs && r.id != x.id ensures r in Step(rs, a) {
      var i :| 0 <= i < |rs| && rs[i] == r;
      assert Step(rs, a)[i] == r;
    }
    assert DistinctIDs(Step(rs, a)) by { StepKeepsIDsDistinct(rs, a); }
  }

  lemma StepAdd(sc: Scope, rs: seq<Record>, w: Want, a: Action)
    requires DistinctIDs(rs) && WantOK(sc, w)
    requires a.kind.Add? && a.record == w.record && !HasID(rs, a.recordID)
    requires At(sc, w.edgeID, rs) == []
    ensures At(sc, w.edgeID, Step(rs, a)) == [w.record.(id := a.recordID)]
    ensures Converged(w.record.(id := a.recordID), w.record)
    ensures forall k :: k != w.edgeID ==> At(sc, k, Step(rs, a)) == At(sc, k, rs)
    ensures forall r :: r in rs ==> r in Step(rs, a)
    ensures DistinctIDs(Step(rs, a))
  {
    KeyOfBody(sc, w.record, w.record, a.recordID);
    WrittenConverges(w.record, w.record, a.recordID);
    hide Key, At, Converged;
    forall k ensures At(sc, k, Step(rs, a)) == At(sc, k, rs) + if k == w.edgeID then [w.record.(id := a.recordID)] else [] {
      AtAdded(sc, k, rs, a.recordID, a.record);
    }
    StepKeepsIDsDistinct(rs, a);
  }

  // ---------- running the writes ----------

  /** The maps a planner carries describe the listing: what it still manages is
      alone under its key, a want it cannot match has nothing under its key, and
      the records it may adopt exist outside the class, one per value. */
  ghost predicate Coherent(sc: Scope, rs: seq<Record>, ws: seq<Want>,
                           managed: map<string, Record>, relics: map<string, Record>)
  {
    DistinctIDs(rs)
    && (forall k :: k in managed ==> managed[k] in rs && Key(sc, managed[k]) == Some(k) && At(sc, k, rs) == [managed[k]])
    && (forall i :: 0 <= i < |ws| && ws[i].edgeID !in managed ==> At(sc, ws[i].edgeID, rs) == [])
    && (forall v :: v in relics ==> relics[v] in rs && Key(sc, relics[v]) == None && relics[v].value == v)
  }

  lemma LogSplit(log: seq<Action>, a: seq<Action>, b: seq<Action>)
    requires PlannedAll(log) == a + b
    ensures |log| == |a| + |b| && PlannedAll(log[..|a|]) == a && PlannedAll(log[|a|..]) == b
    ensures log == log[..|a|] + log[|a|..]
  {
    hide Planned;
    assert |log| == |PlannedAll(log)|;
    assert (a + b)[..|a|] == a && (a + b)[|a|..] == b;
    assert PlannedAll(log[..|a|]) == PlannedAll(log)[..|a|];
    assert PlannedAll(log[|a|..]) == PlannedAll(log)[|a|..];
  }

  /** One turn: the record under w's key becomes as wanted, no other key moves, and
      the records other wants may still match or adopt stay as they are. */
  lemma TakeTurn(sc: Scope, rs: seq<Record>, w: Want, managed: map<string, Record>, relics: map<string, Record>, log: seq<Action>)
    requires WantOK(sc, w) && Coherent(sc, rs, [w], managed, relics)
    requires PlannedAll(log) == Turn(w, managed, relics) && Accepted(rs, log)
    ensures DistinctIDs(Execute(rs, log))
    ensures |At(sc, w.edgeID, Execute(rs, log))| == 1 && Converged(At(sc, w.edgeID, Execute(rs, log))[0], w.record)
    ensures forall k :: k != w.edgeID ==> At(sc, k, Execute(rs, log)) == At(sc, k, rs)
    ensures forall k :: k in managed - {w.edgeID} ==> managed[k] in Execute(rs, log)
    ensures forall v :: v in RelicsLeft(w, managed, relics) ==> relics[v] in Execute(rs, log)
  {
    hide Key, At, Converged, ContentChanged, Merge;
    assert |log| == |PlannedAll(log)|;
    assert [w][0] == w;
    if log == [] {
      return;
    }
    var a := log[0];
    assert log == [a] && log[1..] == [] && Execute(rs, log) == Step(rs, a);
    assert Planned(a) == Turn(w, managed, relics)[0] by { assert PlannedAll(log)[0] == Planned(a); }
    if w.edgeID in managed || w.record.value in relics {
      var x := if w.edgeID in managed then managed[w.edgeID] else relics[w.record.value];
      forall r | r in rs && r.id == x.id ensures r == x { SameID(rs, r, x); }
      StepWrite(sc, rs, w, x, a);
    } else {
      StepAdd(sc, rs, w, a);
    }
  }

  lemma CoherentHead(sc: Scope, rs: seq<Record>, ws: seq<Want>, managed: map<string, Record>, relics: map<string, Record>)
    requires ws != [] && Coherent(sc, rs, ws, managed, relics) && WantsOK(sc, ws)
    ensures Coherent(sc, rs, [ws[0]], managed, relics) && WantOK(sc, ws[0])
  {
    hide Key, At;
  }

  lemma CoherentTail(sc: Scope, rs: seq<Record>, rs': seq<Record>, ws: seq<Want>, managed: map<string, Record>, relics: map<string, Record>)
    requires ws != [] && Coherent(sc, rs, ws, managed, relics) && WantsOK(sc, ws)
    requires DistinctIDs(rs')
    requires forall k :: k != ws[0].edgeID ==> At(sc, k, rs') == At(sc, k, rs)
    requires forall k :: k in managed - {ws[0].edgeID} ==> managed[k] in rs'
    requires forall v :: v in RelicsLeft(ws[0], managed, relics) ==> relics[v] in rs'
    ensures Coherent(sc, rs', ws[1..], managed - {ws[0].edgeID}, RelicsLeft(ws[0], managed, relics))
    ensures WantsOK(sc, ws[1..])
  {
    hide Key, At, WantOK;
    var rest := ws[1..];
    forall i | 0 <= i < |rest| && rest[i].edgeID !in managed - {ws[0].edgeID} ensures At(sc, rest[i].edgeID, rs') == [] {
      assert rest[i] == ws[i + 1];
    }
  }

  /** The turn of the first want: it takes no action or the first of the log,
      leaves exactly one record, as wanted, under its key, and moves no other key. */
  lemma FirstWant(sc: Scope, rs: seq<Record>, ws: seq<Want>, managed: map<string, Record>,
                  relics: map<string, Record>, log: seq<Action>)
    returns (rs': seq<Record>, managed': map<string, Record>, relics': map<string, Record>, rest: seq<Action>)
    requires ws != [] && WantsOK(sc, ws) && Coherent(sc, rs, ws, managed, relics)
    requires PlannedAll(log) == PlanWants(ws, managed, relics).acts && Accepted(rs, log)
    ensures PlannedAll(rest) == PlanWants(ws[1..], managed', relics').acts && Accepted(rs', rest)
    ensures Execute(rs, log) == Execute(rs', rest)
    ensures Coherent(sc, rs', ws[1..], managed', relics')
    ensures |At(sc, ws[0].edgeID, rs')| == 1 && Converged(At(sc, ws[0].edgeID, rs')[0], ws[0].record)
    ensures forall k :: k != ws[0].edgeID ==> At(sc, k, rs') == At(sc, k, rs)
    ensures WantsOK(sc, ws[1..])
  {
    hide Key, At, Converged, Turn, RelicsLeft, Coherent, WantsOK, WantOK, Execute, Accepted, DistinctIDs, PlannedAll;
    var w := ws[0];
    managed', relics' := managed - {w.edgeID}, RelicsLeft(w, managed, relics);
    var n := |Turn(w, managed, relics)|;
    LogSplit(log, Turn(w, managed, relics), PlanWants(ws[1..], managed', relics').acts);
    rs', rest := Execute(rs, log[..n]), log[n..];
    ExecuteConcat(rs, log[..n], log[n..]);
    CoherentHead(sc, rs, ws, managed, relics);
    TakeTurn(sc, rs, w, managed, relics, log[..n]);
    CoherentTail(sc, rs, rs', ws, managed, relics);
  }

  /** Executing the writes of a plan, whatever ids the added records get: every
      want ends with exactly one record, as wanted, and no other key moves. */
  lemma {:induction false} RunWants(sc: Scope, rs: seq<Record>, ws: seq<Want>, managed: map<string, Record>,
                                    relics: map<string, Record>, log: seq<Action>)
    requires WantsOK(sc, ws) && Coherent(sc, rs, ws, managed, relics)
    requires PlannedAll(log) == PlanWants(ws, managed, relics).acts && Accepted(rs, log)
    ensures DistinctIDs(Execute(rs, log))
    ensures forall i :: 0 <= i < |ws| ==>
              |At(sc, ws[i].edgeID, Execute(rs, log))| == 1
              && Converged(At(sc, ws[i].edgeID, Execute(rs, log))[0], ws[i].record)
    ensures forall k :: !Wanted(ws, k) ==> At(sc, k, Execute(rs, log)) == At(sc, k, rs)
    decreases |ws|
  {
    hide Key, At, Converged, Merge;
    if ws == [] {
      assert |log| == |PlannedAll(log)|;
      return;
    }
    var rs', managed', relics', rest := FirstWant(sc, rs, ws, managed, relics, log);
    hide PlanWants, Coherent, Accepted, Execute, WantOK;
    RunWants(sc, rs', ws[1..], managed', relics', rest);
    forall k ensures Wanted(ws, k) <==> k == ws[0].edgeID || Wanted(ws[1..], k) { WantedCons(ws, k); }
    assert !Wanted(ws[1..], ws[0].edgeID);
    forall i | 0 <= i < |ws| ensures
      |At(sc, ws[i].edgeID, Execute(rs, log))| == 1 && Converged(At(sc, ws[i].edgeID, Execute(rs, log))[0], ws[i].record)
    {
      if i > 0 { assert ws[i] == ws[1..][i - 1]; }
    }
  }

  lemma WantedCons(ws: seq<Want>, k: string)
    requires ws != []
    ensures Wanted(ws, k) <==> k == ws[0].edgeID || Wanted(ws[1..], k)
  {
    if Wanted(ws[1..], k) {
      var i :| 0 <= i < |ws[1..]| && ws[1..][i].edgeID == k;
      assert ws[i + 1].edgeID == k;
    }
    if Wanted(ws, k) && k != ws[0].edgeID {
      var i :| 0 <= i < |ws| && ws[i].edgeID == k;
      assert ws[1..][i - 1].edgeID == k;
    }
  }

  // ---------- running the deletes ----------

  lemma {:induction false} LeftoverKeys(ws: seq<Want>, managed: map<string, Record>, relics: map<string, Record>)
    ensures forall k :: k in PlanWants(ws, managed, relics).managed <==> k in managed && !Wanted(ws, k)
    ensures forall k :: k in PlanWants(ws, managed, relics).managed ==> PlanWants(ws, managed, relics).managed[k] == managed[k]
    decreases |ws|
  {
    hide Turn, RelicsLeft;
    if ws == [] {
    } else {
      LeftoverKeys(ws[1..], managed - {ws[0].edgeID}, RelicsLeft(ws[0], managed, relics));
      forall k ensures Wanted(ws, k) <==> k == ws[0].edgeID || Wanted(ws[1..], k) { WantedCons(ws, k); }
      hide Wanted;
    }
  }

  lemma RemovesTail(rm: seq<Action>, m: map<string, Record>, keys: set<string>)
    requires keys <= m.Keys && Removes(rm, m, keys) && rm != []
    ensures rm[0].edgeID in keys && rm[0] == RemoveAction(rm[0].edgeID, m[rm[0].edgeID])
    ensures Removes(rm[1..], m, keys - {rm[0].edgeID})
  {
    hide RemoveAction;
    forall k | k in keys - {rm[0].edgeID} ensures exists i :: 0 <= i < |rm[1..]| && rm[1..][i].edgeID == k {
      var i :| 0 <= i < |rm| && rm[i].edgeID == k;
      assert rm[1..][i - 1].edgeID == k;
    }
  }

  /** The records of m under keys are in the listing, each alone under its key. */
  ghost predicate Holds(sc: Scope, rs: seq<Record>, m: map<string, Record>, keys: set<string>)
    requires keys <= m.Keys
  {
    DistinctIDs(rs)
    && forall k :: k in keys ==> m[k] in rs && Key(sc, m[k]) == Some(k) && At(sc, k, rs) == [m[k]]
  }

  lemma RemoveOne(sc: Scope, rs: seq<Record>, x: Record, k: string)
    requires DistinctIDs(rs) && x in rs && Key(sc, x) == Some(k) && At(sc, k, rs) == [x]
    ensures DistinctIDs(Without(rs, x.id))
    ensures At(sc, k, Without(rs, x.id)) == []
    ensures forall j :: j != k ==> At(sc, j, Without(rs, x.id)) == At(sc, j, rs)
  {
    hide Key, At;
    forall r | r in rs && r.id == x.id ensures r == x { SameID(rs, r, x); }
    WithoutMembers(rs, x.id);
    AtWithout(sc, k, rs, x.id);
    forall j | j != k ensures At(sc, j, Without(rs, x.id)) == At(sc, j, rs) {
      AtWithoutElsewhere(sc, j, rs, x.id);
    }
  }

  lemma {:induction false} RunRemovals(sc: Scope, rs: seq<Record>, rm: seq<Action>, m: map<string, Record>, keys: set<string>)
    requires keys <= m.Keys && Removes(rm, m, keys) && Holds(sc, rs, m, keys)
    ensures DistinctIDs(Execute(rs, rm))
    ensures forall k :: k in keys ==> At(sc, k, Execute(rs, rm)) == []
    ensures forall k :: k !in keys ==> At(sc, k, Execute(rs, rm)) == At(sc, k, rs)
    decreases |rm|
  {
    hide Key, At;
    if rm == [] {
    } else {
      RemovesTail(rm, m, keys);
      var k := rm[0].edgeID;
      var rest := Without(rs, m[k].id);
      hide Removes;
      RemoveOne(sc, rs, m[k], k);
      assert Step(rs, rm[0]) == rest;
      WithoutMembers(rs, m[k].id);
      forall r | r in rs && r.id == m[k].id ensures r == m[k] { SameID(rs, r, m[k]); }
      RunRemovals(sc, rest, rm[1..], m, keys - {k});
    }
  }

  lemma RemovalsArePlanned(log: seq<Action>, m: map<string, Record>, keys: set<string>)
    requires keys <= m.Keys && Removes(PlannedAll(log), m, keys)
    ensures PlannedAll(log) == log
  {
    assert |log| == |PlannedAll(log)|;
    forall i | 0 <= i < |log| ensures Planned(log[i]) == log[i] {
      assert PlannedAll(log)[i] == Planned(log[i]);
    }
  }

  // ---------- a whole plan ----------

  ghost predicate RelicsOK(sc: Scope, rs: seq<Record>, relics: map<string, Record>) {
    forall v :: v in relics ==> relics[v] in rs && Key(sc, relics[v]) == None && relics[v].value == v
  }

  lemma IndexCoherent(sc: Scope, rs: seq<Record>, ws: seq<Want>, relics: map<string, Record>)
    requires DistinctIDs(rs) && UniqueKeys(sc, rs) && RelicsOK(sc, rs, relics)
    ensures Coherent(sc, rs, ws, Index(sc, rs), relics)
  {
    hide Key, At, Index;
    var m := Index(sc, rs);
    forall k ensures k in m <==> At(sc, k, rs) != []
      ensures k in m ==> At(sc, k, rs) == [m[k]] && m[k] in rs && Key(sc, m[k]) == Some(k)
    {
      IndexIsLast(sc, k, rs);
      AtMembers(sc, k, rs);
      if k in m {
        assert |At(sc, k, rs)| <= 1;
        assert m[k] in At(sc, k, rs);
      }
    }
  }

  /** What was executed for a complete plan: its writes, then its deletes. */
  lemma SplitLog(log: seq<Action>, p: Progress) returns (writes: seq<Action>, rm: seq<Action>)
    requires IsPlan(PlannedAll(log), p)
    ensures log == writes + rm && PlannedAll(writes) == p.acts && Removes(rm, p.managed, p.managed.Keys)
  {
    var n := |p.acts|;
    var plan := PlannedAll(log);
    assert plan == p.acts + plan[n..];
    LogSplit(log, p.acts, plan[n..]);
    writes, rm := log[..n], log[n..];
    RemovalsArePlanned(rm, p.managed, p.managed.Keys);
  }

  /** After the writes of a plan the leftovers are still there, each alone under
      its key, and every other unwanted key is empty. */
  lemma AfterWrites(sc: Scope, rs: seq<Record>, ws: seq<Want>, relics: map<string, Record>, writes: seq<Action>)
    requires DistinctIDs(rs) && UniqueKeys(sc, rs) && RelicsOK(sc, rs, relics) && WantsOK(sc, ws)
    requires PlannedAll(writes) == PlanWants(ws, Index(sc, rs), relics).acts && Accepted(rs, writes)
    ensures var left := PlanWants(ws, Index(sc, rs), relics).managed;
            Holds(sc, Execute(rs, writes), left, left.Keys)
            && (forall k :: k in left ==> !Wanted(ws, k))
            && forall k :: !Wanted(ws, k) && k !in left ==> At(sc, k, Execute(rs, writes)) == []
  {
    hide Key, Execute, Accepted, PlanWants, WantsOK, PlannedAll, Wanted, At, Index, RelicsOK, Converged, DistinctIDs;
    var m := Index(sc, rs);
    IndexCoherent(sc, rs, ws, relics);
    RunWants(sc, rs, ws, m, relics, writes);
    LeftoverKeys(ws, m, relics);
    var left, mid := PlanWants(ws, m, relics).managed, Execute(rs, writes);
    forall k | k in left ensures left[k] in mid && At(sc, k, mid) == [left[k]] && Key(sc, left[k]) == Some(k) {
      AtMembers(sc, k, mid);
      assert left[k] in At(sc, k, mid);
    }
    forall k | !Wanted(ws, k) && k !in left ensures At(sc, k, mid) == [] {
      IndexIsLast(sc, k, rs);
    }
  }

  /** One complete plan settles its class, whatever the removal order and whatever
      ids the added records get. */
  lemma PlanSettles(sc: Scope, rs: seq<Record>, ws: seq<Want>, relics: map<string, Record>, log: seq<Action>)
    requires DistinctIDs(rs) && UniqueKeys(sc, rs) && RelicsOK(sc, rs, relics) && WantsOK(sc, ws)
    requires IsPlan(PlannedAll(log), PlanWants(ws, Index(sc, rs), relics)) && Accepted(rs, log)
    ensures Settled(sc, ws, Execute(rs, log)) && DistinctIDs(Execute(rs, log))
  {
    hide Key, Execute, Accepted, PlanWants, IsPlan, WantsOK, At, Index, Converged, PlannedAll, Removes, Holds, Coherent, RelicsOK, DistinctIDs;
    var m := Index(sc, rs);
    var left := PlanWants(ws, m, relics).managed;
    var writes, rm := SplitLog(log, PlanWants(ws, m, relics));
    ExecuteConcat(rs, writes, rm);
    IndexCoherent(sc, rs, ws, relics);
    RunWants(sc, rs, ws, m, relics, writes);
    AfterWrites(sc, rs, ws, relics, writes);
    var mid := Execute(rs, writes);
    RunRemovals(sc, mid, rm, left, left.Keys);
    forall i | 0 <= i < |ws| ensures At(sc, ws[i].edgeID, Execute(rs, log)) == At(sc, ws[i].edgeID, mid) {
      assert Wanted(ws, ws[i].edgeID);
    }
  }

  /** In a settled class there is nothing left to plan, adoptable records or not. */
  lemma {:induction false} PlanFromConverged(ws: seq<Want>, m: map<string, Record>, relics: map<string, Record>)
    requires forall i :: 0 <= i < |ws| ==> ws[i].edgeID in m && Converged(m[ws[i].edgeID], ws[i].record)
    requires forall i, j :: 0 <= i < j < |ws| ==> ws[i].edgeID != ws[j].edgeID
    ensures PlanWants(ws, m, relics).acts == [] && PlanWants(ws, m, relics).relics == relics
    decreases |ws|
  {
    hide Converged, WriteAction;
    if ws == [] {
    } else {
      var rest := ws[1..];
      forall i | 0 <= i < |rest| ensures
        rest[i].edgeID in m - {ws[0].edgeID} && Converged((m - {ws[0].edgeID})[rest[i].edgeID], rest[i].record)
      {
        assert rest[i] == ws[i + 1];
      }
      assert ws[0].edgeID in m && Converged(m[ws[0].edgeID], ws[0].record);
      PlanFromConverged(rest, m - {ws[0].edgeID}, relics);
    }
  }

  lemma RemovesNothing(rm: seq<Action>, m: map<string, Record>)
    requires m.Keys == {} && Removes(rm, m, m.Keys)
    ensures rm == []
  {
    hide Removes;
    if rm != [] {
      RemovesTail(rm, m, m.Keys);
    }
  }

  lemma SettledPlansNothing(sc: Scope, rs: seq<Record>, ws: seq<Want>, relics: map<string, Record>, plan: seq<Action>)
    requires Settled(sc, ws, rs) && WantsOK(sc, ws)
    requires IsPlan(plan, PlanWants(ws, Index(sc, rs), relics))
    ensures plan == []
  {
    hide Key, At, Converged, WantOK;
    var m := Index(sc, rs);
    forall i | 0 <= i < |ws| ensures ws[i].edgeID in m && Converged(m[ws[i].edgeID], ws[i].record) {
      IndexIsLast(sc, ws[i].edgeID, rs);
    }
    PlanFromConverged(ws, m, relics);
    LeftoverKeys(ws, m, relics);
    forall k ensures k !in PlanWants(ws, m, relics).managed {
      IndexIsLast(sc, k, rs);
    }
    assert plan[0..] == plan;
    RemovesNothing(plan, PlanWants(ws, m, relics).managed);
  }

  lemma SettledSameView(sc: Scope, ws: seq<Want>, a: seq<Record>, b: seq<Record>)
    requires Settled(sc, ws, a) && SameView(sc, a, b)
    ensures Settled(sc, ws, b)
  {
    hide Key, Converged;
  }
}

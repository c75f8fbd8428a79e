/** Two records with one tag. The planners index the last one, so an earlier one is
    never named while its edge is wanted. Such a twin comes from an add that was sent
    again because its reply was lost. */
module Twins {
  import opened Text
  import opened Records
  import opened Regions
  import opened Rotation
  import opened Reconcile
  import opened Converge
  import opened Frames
  import opened Recovery
  import opened ReconcilePass
  import opened ReconcileTheorems
  import opened Faults
  import opened Live
  import opened Commute

  // ---------- a class that may hold twins ----------

  /** A record under a key that is not the last one of its key is never touched by a
      plan or any part of it. */
  lemma TwinUntouched(sc: Scope, rs: seq<Record>, ws: seq<Want>, relics: map<string, Record>, log: seq<Action>, k: string, x: Record)
    requires DistinctIDs(rs) && RelicsOK(sc, rs, relics) && WantsOK(sc, ws)
    requires CutPlan(log, PlanWants(ws, Index(sc, rs), relics))
    requires x in rs && Key(sc, x) == Some(k) && k in Index(sc, rs) && Index(sc, rs)[k] != x
    ensures x in Execute(rs, log)
  {
    hide Key, At, Index, Execute, CutPlan, PlanWants, RelicsOK, WantsOK, DistinctIDs, Legal;
    DistinctWants(sc, ws);
    LogIsLegal(ws, Index(sc, rs), relics, log);
    forall i | 0 <= i < |log| && !log[i].kind.Add? ensures log[i].recordID != x.id {
      LegalNames(sc, rs, ws, relics, log[i], x);
    }
    UntouchedSurvives(rs, log, x);
  }

  lemma LegalNames(sc: Scope, rs: seq<Record>, ws: seq<Want>, relics: map<string, Record>, a: Action, x: Record)
    requires DistinctIDs(rs) && RelicsOK(sc, rs, relics) && Legal(a, ws, Index(sc, rs), relics) && !a.kind.Add?
    requires x in rs && Key(sc, x).Some? && Key(sc, x).value in Index(sc, rs) && Index(sc, rs)[Key(sc, x).value] != x
    ensures a.recordID != x.id
  {
    hide Key, Index, Wanted;
    IndexMembers(sc, rs);
    var m := Index(sc, rs);
    if a.recordID == x.id {
      var y := if a.kind.Remove? then m[a.edgeID]
               else var j :| 0 <= j < |ws| && ActsFor(Planned(a), ws[j], m, relics);
                    if ws[j].edgeID in m then m[ws[j].edgeID] else relics[ws[j].record.value];
      SameID(rs, x, y);
    }
  }

  /** Actions that touch key k only by writing over the record id. */
  ghost predicate OnlyWrites(sc: Scope, k: string, id: int, rs: seq<Record>, log: seq<Action>) {
    forall i :: 0 <= i < |log| ==>
      if log[i].kind.Add? then log[i].record.comment != "" && Key(sc, log[i].record) != Some(k)
      else if log[i].recordID == id then IsWrite(log[i]) && log[i].record.comment != "" && Key(sc, log[i].record) == Some(k)
      else (log[i].kind.Remove? || (log[i].record.comment != "" && Key(sc, log[i].record) != Some(k)))
           && forall r :: r in rs && r.id == log[i].recordID ==> Key(sc, r) != Some(k)
  }

  /** The same records in the same places, but for the one with that id. */
  ghost predicate SameBut(id: int, a: seq<Record>, b: seq<Record>) {
    |a| == |b| && forall i :: 0 <= i < |a| ==> b[i].id == a[i].id && (a[i].id != id ==> b[i] == a[i])
  }

  lemma StepElsewhere(sc: Scope, k: string, id: int, rs: seq<Record>, a: Action)
    requires OnlyWrites(sc, k, id, rs, [a]) && a.recordID != id
    ensures At(sc, k, Step(rs, a)) == At(sc, k, rs)
    ensures forall r :: r in Step(rs, a) && r.id == id ==> r in rs
    ensures forall r :: r in Step(rs, a) && r !in rs ==> Key(sc, r) != Some(k)
  {
    hide Key, At, Step;
    assert [a][0] == a;
    assert SeparateAt(sc, k, rs, [a]);
    hide SeparateAt, OnlyWrites;
    StepSeparate(sc, k, rs, a);
    OtherIDStays(rs, a, id);
  }

  lemma StepOver(sc: Scope, k: string, id: int, rs: seq<Record>, a: Action)
    requires OnlyWrites(sc, k, id, rs, [a]) && a.recordID == id && !a.kind.Add?
    requires forall r :: r in rs && r.id == id ==> Key(sc, r) == Some(k)
    ensures SameBut(id, At(sc, k, rs), At(sc, k, Step(rs, a)))
    ensures forall r :: r in Step(rs, a) && r.id == id ==> Key(sc, r) == Some(k)
    ensures forall r :: r in Step(rs, a) && r !in rs ==> r.id == id
  {
    assert [a][0] == a;
    forall r ensures Key(sc, Merge(r, a.record)) == Some(k) {
      KeyOfBody(sc, r, a.record, a.record.id);
      assert a.record.(id := a.record.id) == a.record;
    }
    hide Key, At;
    AtMergedInPlace(sc, k, rs, id, a.record);
  }

  lemma StepWrites(sc: Scope, k: string, id: int, rs: seq<Record>, a: Action)
    requires OnlyWrites(sc, k, id, rs, [a]) && HasID(rs, a.recordID) == !a.kind.Add? && HasID(rs, id)
    requires forall r :: r in rs && r.id == id ==> Key(sc, r) == Some(k)
    ensures SameBut(id, At(sc, k, rs), At(sc, k, Step(rs, a))) && HasID(Step(rs, a), id)
    ensures forall r :: r in Step(rs, a) && r.id == id ==> Key(sc, r) == Some(k)
    ensures forall r :: r in Step(rs, a) && r !in rs && Key(sc, r) == Some(k) ==> r.id == id
  {
    hide Key, At, Step, HasID;
    assert [a][0] == a;
    StepKeepsLive(rs, a, id);
    if a.recordID != id {
      StepElsewhere(sc, k, id, rs, a);
    } else {
      StepOver(sc, k, id, rs, a);
    }
  }

  lemma OtherIDStays(rs: seq<Record>, a: Action, id: int)
    requires a.recordID != id
    ensures forall r :: r in Step(rs, a) && r.id == id ==> r in rs
  {
    WithoutMembers(rs, a.recordID);
  }

  lemma {:induction false} RunWrites(sc: Scope, k: string, id: int, rs: seq<Record>, log: seq<Action>)
    requires OnlyWrites(sc, k, id, rs, log) && Accepted(rs, log) && HasID(rs, id)
    requires forall r :: r in rs && r.id == id ==> Key(sc, r) == Some(k)
    ensures SameBut(id, At(sc, k, rs), At(sc, k, Execute(rs, log)))
    decreases |log|
  {
    hide Key, At, Step, HasID;
    if log == [] {
    } else {
      var rest := log[1..];
      assert [log[0]][0] == log[0];
      StepWrites(sc, k, id, rs, log[0]);
      forall i | 0 <= i < |rest| ensures rest[i] == log[i + 1] { }
      RunWrites(sc, k, id, Step(rs, log[0]), rest);
    }
  }

  lemma WantedWrites(sc: Scope, rs: seq<Record>, ws: seq<Want>, relics: map<string, Record>, log: seq<Action>, k: string)
    requires DistinctIDs(rs) && RelicsOK(sc, rs, relics) && WantsOK(sc, ws)
    requires CutPlan(log, PlanWants(ws, Index(sc, rs), relics)) && Wanted(ws, k) && k in Index(sc, rs)
    ensures OnlyWrites(sc, k, Index(sc, rs)[k].id, rs, log)
  {
    hide Key, At, Index, CutPlan, PlanWants, RelicsOK, DistinctIDs, Legal, OnlyWrites;
    DistinctWants(sc, ws);
    LogIsLegal(ws, Index(sc, rs), relics, log);
    forall i | 0 <= i < |log| ensures OnlyWrites(sc, k, Index(sc, rs)[k].id, rs, [log[i]]) {
      LegalWrites(sc, rs, ws, relics, log[i], k);
    }
    OnlyWritesAll(sc, k, Index(sc, rs)[k].id, rs, log);
  }

  lemma OnlyWritesAll(sc: Scope, k: string, id: int, rs: seq<Record>, log: seq<Action>)
    requires forall i :: 0 <= i < |log| ==> OnlyWrites(sc, k, id, rs, [log[i]])
    ensures OnlyWrites(sc, k, id, rs, log)
  {
    hide Key;
    forall i | 0 <= i < |log| ensures [log[i]][0] == log[i] && OnlyWrites(sc, k, id, rs, [log[i]]) { }
  }

  lemma LegalWrites(sc: Scope, rs: seq<Record>, ws: seq<Want>, relics: map<string, Record>, a: Action, k: string)
    requires DistinctIDs(rs) && RelicsOK(sc, rs, relics) && WantsOK(sc, ws)
    requires Legal(a, ws, Index(sc, rs), relics) && Wanted(ws, k) && k in Index(sc, rs)
    ensures OnlyWrites(sc, k, Index(sc, rs)[k].id, rs, [a])
  {
    hide Key, At, Index, Converged, DistinctIDs;
    var m := Index(sc, rs);
    IndexMembers(sc, rs);
    if a.kind.Remove? {
      NamesOnly(rs, m[a.edgeID], a.recordID);
    } else {
      var j :| 0 <= j < |ws| && ActsFor(Planned(a), ws[j], m, relics);
      KeyOfBody(sc, ws[j].record, ws[j].record, a.recordID);
      if !a.kind.Add? {
        NamesOnly(rs, if ws[j].edgeID in m then m[ws[j].edgeID] else relics[ws[j].record.value], a.recordID);
      }
    }
  }

  lemma {:induction false} AtDistinct(sc: Scope, k: string, rs: seq<Record>)
    requires DistinctIDs(rs)
    ensures DistinctIDs(At(sc, k, rs))
  {
    hide Key;
    if rs == [] {
    } else {
      var front, last := rs[..|rs| - 1], rs[|rs| - 1];
      AtDistinct(sc, k, front);
      AtMembers(sc, k, front);
      assert rs == front + [last];
      AtSnoc(sc, k, front, last);
      var a := At(sc, k, front);
      forall i | 0 <= i < |a| ensures a[i].id != last.id {
        assert a[i] in front;
        var n :| 0 <= n < |front| && front[n] == a[i];
      }
    }
  }

  /** Under the key of a wanted edge, a plan or any part of it writes over the last
      record at most: it neither adds one nor touches the ones before. */
  lemma WantedKeepsTwins(sc: Scope, rs: seq<Record>, ws: seq<Want>, relics: map<string, Record>, log: seq<Action>, k: string)
    requires DistinctIDs(rs) && RelicsOK(sc, rs, relics) && WantsOK(sc, ws)
    requires CutPlan(log, PlanWants(ws, Index(sc, rs), relics)) && Accepted(rs, log)
    requires Wanted(ws, k) && At(sc, k, rs) != []
    ensures KeepsTwins(At(sc, k, rs), At(sc, k, Execute(rs, log)))
  {
    hide Key, At, Index, CutPlan, PlanWants, RelicsOK, WantsOK, Execute, OnlyWrites, HasID, Wanted;
    var was, end := At(sc, k, rs), At(sc, k, Execute(rs, log));
    IndexIsLast(sc, k, rs);
    IndexMembers(sc, rs);
    var y := Index(sc, rs)[k];
    WantedWrites(sc, rs, ws, relics, log, k);
    MemberHasID(rs, y);
    forall r | r in rs && r.id == y.id ensures Key(sc, r) == Some(k) { SameID(rs, r, y); }
    RunWrites(sc, k, y.id, rs, log);
    AtDistinct(sc, k, rs);
    assert end[..|was| - 1] == was[..|was| - 1];
  }

  /** All but the last are the same, and none is gained or lost. */
  ghost predicate KeepsTwins(was: seq<Record>, end: seq<Record>) {
    0 < |was| == |end| && end[..|was| - 1] == was[..|was| - 1] && end[|was| - 1].id == was[|was| - 1].id
  }

  lemma {:induction false} AtDropAll(sc: Scope, k: string, rs: seq<Record>, ids: set<int>)
    ensures At(sc, k, DropAll(rs, ids)) == DropAll(At(sc, k, rs), ids)
  {
    hide Key;
    if rs == [] {
    } else {
      var front, last := rs[..|rs| - 1], rs[|rs| - 1];
      AtDropAll(sc, k, front, ids);
      AtSnoc(sc, k, DropAll(front, ids), last);
      assert DropAll(front, ids) + [] == DropAll(front, ids);
      var a := At(sc, k, front);
      assert (a + [last])[..|a|] == a && a + [] == a;
    }
  }

  lemma {:induction false} DropAbsent(rs: seq<Record>, ids: set<int>)
    requires forall i :: 0 <= i < |rs| ==> rs[i].id !in ids
    ensures DropAll(rs, ids) == rs
  {
    if rs == [] {
    } else {
      DropAbsent(rs[..|rs| - 1], ids);
      assert rs == rs[..|rs| - 1] + [rs[|rs| - 1]];
    }
  }

  lemma UnwantedWrites(sc: Scope, rs: seq<Record>, ws: seq<Want>, relics: map<string, Record>, writes: seq<Action>, k: string)
    requires DistinctIDs(rs) && RelicsOK(sc, rs, relics) && WantsOK(sc, ws) && !Wanted(ws, k)
    requires PlannedAll(writes) == PlanWants(ws, Index(sc, rs), relics).acts
    ensures SeparateAt(sc, k, rs, writes)
  {
    hide Key, At, Index, PlanWants, Converged, DistinctIDs;
    var m := Index(sc, rs);
    IndexMembers(sc, rs);
    PlanTargets(ws, m, relics);
    forall i | 0 <= i < |writes| ensures SeparateAt(sc, k, rs, [writes[i]]) {
      var a := writes[i];
      assert PlannedAll(writes)[i] == Planned(a);
      assert Planned(a) in PlanWants(ws, m, relics).acts;
      var j :| 0 <= j < |ws| && ActsFor(Planned(a), ws[j], m, relics);
      KeyOfBody(sc, ws[j].record, ws[j].record, a.recordID);
      if !a.kind.Add? {
        NamesOnly(rs, if ws[j].edgeID in m then m[ws[j].edgeID] else relics[ws[j].record.value], a.recordID);
      }
    }
    SeparateAll(sc, k, rs, writes);
  }

  lemma SeparateAll(sc: Scope, k: string, rs: seq<Record>, log: seq<Action>)
    requires forall i :: 0 <= i < |log| ==> SeparateAt(sc, k, rs, [log[i]])
    ensures SeparateAt(sc, k, rs, log)
  {
    hide Key;
    forall i | 0 <= i < |log| ensures [log[i]][0] == log[i] && SeparateAt(sc, k, rs, [log[i]]) { }
  }

  lemma LeftoverTargets(sc: Scope, rs: seq<Record>, ws: seq<Want>, relics: map<string, Record>, rm: seq<Action>, k: string)
    requires DistinctIDs(rs) && !Wanted(ws, k) && k in Index(sc, rs)
    requires var left := PlanWants(ws, Index(sc, rs), relics).managed; Removes(rm, left, left.Keys)
    ensures Index(sc, rs)[k].id in Targets(rm)
    ensures forall x :: x in rs && Key(sc, x) == Some(k) && x != Index(sc, rs)[k] ==> x.id !in Targets(rm)
  {
    hide Key, At, Index, PlanWants, DistinctIDs;
    var m, left := Index(sc, rs), PlanWants(ws, Index(sc, rs), relics).managed;
    IndexMembers(sc, rs);
    LeftoverKeys(ws, m, relics);
    hide Wanted;
    SameTargets(rm, rm, left);
    var i :| 0 <= i < |rm| && rm[i].edgeID == k;
    assert rm[i].recordID == m[k].id;
    forall x | x in rs && Key(sc, x) == Some(k) && x.id in Targets(rm) ensures x == m[k] {
      var n :| 0 <= n < |rm| && rm[n].recordID == x.id;
      SameID(rs, x, m[rm[n].edgeID]);
    }
  }

  /** Under the key of an edge that is not wanted a complete plan deletes the last
      record and no other. */
  lemma UnwantedLosesLast(sc: Scope, rs: seq<Record>, ws: seq<Want>, relics: map<string, Record>, log: seq<Action>, k: string)
    requires DistinctIDs(rs) && RelicsOK(sc, rs, relics) && WantsOK(sc, ws)
    requires IsPlan(PlannedAll(log), PlanWants(ws, Index(sc, rs), relics)) && !Wanted(ws, k) && At(sc, k, rs) != []
    ensures At(sc, k, Execute(rs, log)) == At(sc, k, rs)[..|At(sc, k, rs)| - 1]
  {
    hide Key, At, Index, PlanWants, RelicsOK, WantsOK, Execute, Wanted, Targets, DropAll, PlannedAll, IsPlan;
    var p := PlanWants(ws, Index(sc, rs), relics);
    var writes, rm := SplitLog(log, p);
    var was, mid := At(sc, k, rs), Execute(rs, writes);
    ExecuteConcat(rs, writes, rm);
    UnwantedWrites(sc, rs, ws, relics, writes, k);
    ExecuteSeparate(sc, k, rs, writes);
    SameTargets(rm, rm, p.managed);
    DeletesDrop(mid, rm);
    AtDropAll(sc, k, mid, Targets(rm));
    IndexIsLast(sc, k, rs);
    LeftoverTargets(sc, rs, ws, relics, rm, k);
    AtMembers(sc, k, rs);
    AtDistinct(sc, k, rs);
    hide Removes;
    var front, last := was[..|was| - 1], was[|was| - 1];
    assert was == front + [last];
    forall i | 0 <= i < |front| ensures front[i].id !in Targets(rm) {
      assert was[i] == front[i] && was[i] in was && was[i].id != last.id;
    }
    DropAbsent(front, Targets(rm));
    DropSnoc(front, last, Targets(rm));
  }

  lemma DropSnoc(rs: seq<Record>, r: Record, ids: set<int>)
    ensures DropAll(rs + [r], ids) == if r.id in ids then DropAll(rs, ids) else DropAll(rs, ids) + [r]
  {
    assert (rs + [r])[..|rs|] == rs;
  }

  /** A complete plan settles its class exactly when no tag was on two records. */
  lemma OnePlanSettlesIff(sc: Scope, rs: seq<Record>, ws: seq<Want>, relics: map<string, Record>, log: seq<Action>)
    requires DistinctIDs(rs) && RelicsOK(sc, rs, relics) && WantsOK(sc, ws)
    requires IsPlan(PlannedAll(log), PlanWants(ws, Index(sc, rs), relics)) && Accepted(rs, log)
    ensures Settled(sc, ws, Execute(rs, log)) <==> UniqueKeys(sc, rs)
  {
    hide Key, At, Index, PlanWants, RelicsOK, Execute, IsPlan, PlannedAll, Converged, WantsOK, Accepted, DistinctIDs, CutPlan;
    if UniqueKeys(sc, rs) {
      PlanSettles(sc, rs, ws, relics, log);
    } else {
      var k :| |At(sc, k, rs)| > 1;
      if Wanted(ws, k) {
        WholeIsCut(log, PlanWants(ws, Index(sc, rs), relics));
        WantedKeepsTwins(sc, rs, ws, relics, log, k);
      } else {
        UnwantedLosesLast(sc, rs, ws, relics, log, k);
      }
    }
  }

  // ---------- an add made twice ----------

  lemma TwoUnderKey(sc: Scope, k: string, rs: seq<Record>, a: Record, b: Record)
    requires a in rs && b in rs && a != b && Key(sc, a) == Some(k) == Key(sc, b)
    ensures |At(sc, k, rs)| > 1
  {
    hide Key, At;
    AtMembers(sc, k, rs);
    var at := At(sc, k, rs);
    var i :| 0 <= i < |at| && at[i] == a;
    var j :| 0 <= j < |at| && at[j] == b;
  }

  lemma {:induction false} NewsHolds(log: seq<Action>, i: nat)
    requires i < |log| && log[i].kind.Add?
    ensures log[i].record.(id := log[i].recordID) in News(log)
    decreases i
  {
    if i == 0 {
    } else {
      NewsHolds(log[1..], i - 1);
    }
  }

  lemma {:induction false} AddsDiffer(rs: seq<Record>, log: seq<Action>, i: nat, j: nat)
    requires Accepted(rs, log) && WritesFirst(log) && i < j < |log| && log[i].kind.Add? && log[j].kind.Add?
    ensures log[i].recordID != log[j].recordID
    decreases i
  {
    hide Step, HasID;
    var rest := log[1..];
    assert rest[j - 1] == log[j];
    assert forall n :: 0 <= n < |rest| ==> rest[n] == log[n + 1];
    if i > 0 {
      AddsDiffer(Step(rs, log[0]), rest, i - 1, j - 1);
    } else {
      var now := Step(rs, log[0]);
      SameAsItself(now);
      AddsAreNew(now, now, rest);
      AddedHasID(rs, log[0]);
    }
  }

  lemma AddedHasID(rs: seq<Record>, a: Action)
    requires a.kind.Add?
    ensures HasID(Step(rs, a), a.recordID)
  {
    assert Step(rs, a)[|rs|].id == a.recordID;
  }

  /** An add of the plan made twice leaves two records with its tag. */
  lemma TwiceDoubles(sc: Scope, rs: seq<Record>, ws: seq<Want>, relics: map<string, Record>, log: seq<Action>)
    requires DistinctIDs(rs) && RelicsOK(sc, rs, relics) && WantsOK(sc, ws)
    requires CutPlan(log, PlanWants(ws, Index(sc, rs), relics)) && Accepted(rs, log) && !Once(log)
    ensures !UniqueKeys(sc, Execute(rs, log))
  {
    hide Key, At, Index, PlanWants, RelicsOK, Execute, CutPlan, WantOK, Accepted, DistinctIDs, Names, NewIDs, Avoids, News, NoAdds,
         Converged, HasID, WritesFirst;
    LogNames(sc, rs, ws, relics, log);
    LogNewIDs(sc, rs, ws, relics, log);
    RunAvoids(sc, relics, rs, rs, log, []);
    assert rs + [] == rs && [] + News(log) == News(log);
    ExecuteSplits(rs, [], log);
    OnlyAdds([], log);
    var i, j :| 0 <= i < j < |log| && log[i].kind.Add? && log[j].kind.Add? && Planned(log[i]) == Planned(log[j]);
    CutWritesFirst(sc, rs, ws, relics, log);
    AddsDiffer(rs, log, i, j);
    NewsHolds(log, i);
    NewsHolds(log, j);
    var a, b := log[i].record.(id := log[i].recordID), log[j].record.(id := log[j].recordID);
    var n := AddedFor(sc, rs, ws, relics, log, i);
    assert log[j].record == ws[n].record;
    AddedKey(sc, ws[n], log[i].recordID);
    AddedKey(sc, ws[n], log[j].recordID);
    hide Planned, Once;
    TwoUnderKey(sc, ws[n].edgeID, Execute(rs, log), a, b);
  }

  /** The want an add of the log was made for. */
  lemma AddedFor(sc: Scope, rs: seq<Record>, ws: seq<Want>, relics: map<string, Record>, log: seq<Action>, i: nat) returns (n: nat)
    requires WantsOK(sc, ws) && CutPlan(log, PlanWants(ws, Index(sc, rs), relics)) && i < |log| && log[i].kind.Add?
    ensures n < |ws| && WantOK(sc, ws[n]) && log[i].record == ws[n].record
  {
    hide Key, At, Index, PlanWants, CutPlan, WantOK;
    DistinctWants(sc, ws);
    LogIsLegal(ws, Index(sc, rs), relics, log);
    assert Legal(log[i], ws, Index(sc, rs), relics);
    n :| 0 <= n < |ws| && ActsFor(Planned(log[i]), ws[n], Index(sc, rs), relics);
  }

  lemma AddedKey(sc: Scope, w: Want, id: int)
    requires WantOK(sc, w)
    ensures Key(sc, w.record.(id := id)) == Some(w.edgeID)
  {
    KeyOfBody(sc, w.record, w.record, id);
  }

  // ---------- whole reconciles ----------

  /** What the zone phase and the sweep leave of the apex set, and the sweep of the
      zones' sets, whatever fails. */
  lemma LaterPhasesSpare(inp: Inputs, rs: seq<Record>, pass: Pass)
    requires InputsOK(inp) && DistinctIDs(rs) && CutPass(inp, rs, pass)
    ensures DistinctIDs(AfterWildcard(rs, pass)) && DistinctIDs(AfterApex(rs, pass))
    ensures SameView(Apex, AfterPass(rs, pass), AfterApex(rs, pass))
    ensures forall i :: 0 <= i < |inp.zones| ==> SameView(ZoneScope(inp.zones[i]), AfterPass(rs, pass), AfterZones(rs, pass))
  {
    hide Key, At, CutPlan, DistinctIDs, Accepted, Execute, SameView, OrphanActions, ZonesEnd, DistinctEdges, ZoneOK, ActiveIDs,
         CutRun, ApexProgress, SnapshotGood, AllForeign, ZoneScope, WildcardPlan, Carries;
    var rs1, rs2, rs3, end, active := AfterWildcard(rs, pass), AfterApex(rs, pass), AfterZones(rs, pass), AfterPass(rs, pass), ActiveIDs(inp.zones);
    ExecuteKeepsIDsDistinct(rs, pass.wild);
    ExecuteKeepsIDsDistinct(rs1, pass.apex);
    SnapshotOfItself(rs2, inp.zones);
    AllForeignTo(inp.zones, inp.o.routing);
    ZonesFrame(rs2, rs2, inp.zones, inp.eps, ZoneOpts(inp), inp.o.routing, pass.zones, Apex);
    ZonesFrame(rs2, rs2, inp.zones, inp.eps, ZoneOpts(inp), inp.o.routing, pass.zones, Orphans(active));
    forall r | Key(Orphans(active), r).Some? ensures Key(Apex, r).None? { OrphanIsNotApex(r, active); }
    SweepFrame(rs2, rs3, active, pass.orphans, Apex);
    ViewChain(Apex, end, rs3, rs2);
    forall i | 0 <= i < |inp.zones| ensures SameView(ZoneScope(inp.zones[i]), end, rs3) {
      SweepSparesZone(inp, i, rs2, rs3, pass.orphans);
    }
  }

  lemma SweepSparesZone(inp: Inputs, i: nat, snap: seq<Record>, rs: seq<Record>, log: seq<Action>)
    requires ZonesOK(inp.zones, inp.o.routing) && i < |inp.zones| && DistinctIDs(rs)
    requires SameView(Orphans(ActiveIDs(inp.zones)), rs, snap) && log <= OrphanActions(snap, ActiveIDs(inp.zones))
    ensures SameView(ZoneScope(inp.zones[i]), Execute(rs, log), rs)
  {
    hide Key, Execute, SameView, OrphanActions, ActiveIDs, DistinctIDs;
    var zr, active := inp.zones[i], ActiveIDs(inp.zones);
    assert ZoneOK(zr, inp.o.routing);
    ActiveHas(inp.zones, i);
    forall r | Key(Orphans(active), r).Some? ensures Key(ZoneScope(zr), r).None? { OrphansApart(r, active, zr.zoneID, zr.name); }
    SweepFrame(snap, rs, active, log, ZoneScope(zr));
  }

  lemma {:induction false} ZonesTwiceDouble(snap: seq<Record>, rs: seq<Record>, zones: seq<ZoneRouting>, eps: seq<Endpoint>,
                                            o: Opts, routing: string, runs: seq<seq<Action>>, n: nat)
    requires ZonesOK(zones, routing) && o.ttl != 0 && DistinctIDs(rs) && SnapshotGood(snap, rs, zones)
    requires CutRun(snap, rs, zones, eps, o, runs) && n < |zones| && !Once(runs[n])
    ensures !UniqueKeys(ZoneScope(zones[n]), ZonesEnd(rs, runs))
    decreases |zones|
  {
    hide Key, Execute, At, CutPlan, DistinctIDs, Accepted, ZoneProgress, SnapshotGood, SameView, ZoneWants, UniqueKeys, Once, ZoneScope, WantsOK;
    var next := Execute(rs, runs[0]);
    assert SameView(ZoneScope(zones[0]), snap, rs) by { FirstSnapshot(snap, rs, zones); }
    SameZonePlan(zones[0], eps, snap, rs, o);
    SnapshotStaysGood(snap, rs, zones, eps, o, routing, runs[0]);
    ExecuteKeepsIDsDistinct(rs, runs[0]);
    var sc := ZoneScope(zones[n]);
    if n == 0 {
      ZoneScopeIs(zones[0]);
      ZoneTwiceDoubles(zones[0], eps, rs, o, routing, runs[0]);
      assert AllForeign(zones[1..], sc) by { OthersForeign(zones, routing); }
      ZonesFrame(snap, next, zones[1..], eps, o, routing, runs[1..], sc);
      SameViewSym(sc, ZonesEnd(next, runs[1..]), next);
      if UniqueKeys(sc, ZonesEnd(next, runs[1..])) { ViewKeepsUnique(sc, next, ZonesEnd(next, runs[1..])); }
    } else {
      assert zones[1..][n - 1] == zones[n] && runs[1..][n - 1] == runs[n];
      ZonesTwiceDouble(snap, next, zones[1..], eps, o, routing, runs[1..], n - 1);
    }
  }

  lemma ZoneTwiceDoubles(zr: ZoneRouting, eps: seq<Endpoint>, rs: seq<Record>, o: Opts, routing: string, log: seq<Action>)
    requires ZoneOK(zr, routing) && o.ttl != 0 && DistinctIDs(rs)
    requires CutPlan(log, ZoneProgress(zr, eps, rs, o)) && Accepted(rs, log) && !Once(log)
    ensures !UniqueKeys(ZoneScope(zr), Execute(rs, log))
  {
    hide *;
    ZoneProgressIs(zr, eps, rs, o);
    ZoneWantsOK(zr, eps, o, routing);
    NoRelicsOK(ZoneScope(zr), rs);
    TwiceDoubles(ZoneScope(zr), rs, ZoneWants(zr, eps, o), map[], log);
  }

  lemma ApexTwiceDoubles(eps: seq<Endpoint>, rs: seq<Record>, o: Opts, log: seq<Action>)
    requires DistinctEdges(eps) && o.ttl != 0 && DistinctIDs(rs)
    requires CutPlan(log, ApexProgress(eps, rs, o)) && Accepted(rs, log) && !Once(log)
    ensures !UniqueKeys(Apex, Execute(rs, log))
  {
    hide *;
    ApexProgressIs(eps, rs, o);
    ApexWantsOK(eps, o);
    ApexRelicsOK(rs, o.routing);
    TwiceDoubles(Apex, rs, ApexWants(eps, o), Index(Relics(o.routing), rs), log);
  }

  /** The invariant that no tag is on two records of a class survives a reconcile,
      whichever of its calls fail, exactly when no add was made twice. */
  lemma KeepsAllUniqueIff(inp: Inputs, rs: seq<Record>, pass: Pass)
    requires InputsOK(inp) && AllUnique(rs) && CutPass(inp, rs, pass)
    ensures AllUnique(AfterPass(rs, pass)) <==> SentOnce(pass)
  {
    if SentOnce(pass) {
      CutPassKeepsAllUnique(inp, rs, pass);
    } else {
      LaterPhasesSpare(inp, rs, pass);
      CutWildcardFrame(inp, rs, pass);
      if !Once(pass.apex) {
        ApexTwiceStays(inp, rs, pass);
      } else {
        ZoneTwiceStays(inp, rs, pass);
      }
    }
  }

  lemma ApexTwiceStays(inp: Inputs, rs: seq<Record>, pass: Pass)
    requires InputsOK(inp) && DistinctIDs(rs) && CutPass(inp, rs, pass) && !Once(pass.apex)
    ensures !UniqueKeys(Apex, AfterPass(rs, pass))
  {
    hide Key, At, CutPlan, DistinctIDs, Accepted, Execute, SameView, OrphanActions, DistinctEdges, ZonesOK,
         CutRun, ApexProgress, WildcardPlan, Carries, UniqueKeys, Once, AfterZones, AfterPass;
    LaterPhasesSpare(inp, rs, pass);
    CutWildcardFrame(inp, rs, pass);
    ApexTwiceDoubles(inp.eps, AfterWildcard(rs, pass), inp.o, pass.apex);
    SameViewSym(Apex, AfterPass(rs, pass), AfterApex(rs, pass));
    if UniqueKeys(Apex, AfterPass(rs, pass)) { ViewKeepsUnique(Apex, AfterApex(rs, pass), AfterPass(rs, pass)); }
  }

  lemma ZoneTwiceStays(inp: Inputs, rs: seq<Record>, pass: Pass)
    requires InputsOK(inp) && DistinctIDs(rs) && CutPass(inp, rs, pass)
    requires exists i :: 0 <= i < |pass.zones| && !Once(pass.zones[i])
    ensures !AllUnique(AfterPass(rs, pass))
  {
    hide Key, At, CutPlan, DistinctIDs, Accepted, Execute, SameView, OrphanActions, DistinctEdges, ZonesEnd,
         ApexProgress, WildcardPlan, Carries, UniqueKeys, Once, SnapshotGood, AfterApex;
    var n :| 0 <= n < |pass.zones| && !Once(pass.zones[n]);
    var rs2, rs3, end := AfterApex(rs, pass), AfterZones(rs, pass), AfterPass(rs, pass);
    LaterPhasesSpare(inp, rs, pass);
    SnapshotOfItself(rs2, inp.zones);
    RunsMatch(rs2, rs2, inp.zones, inp.eps, ZoneOpts(inp), pass.zones);
    ZonesTwiceDouble(rs2, rs2, inp.zones, inp.eps, ZoneOpts(inp), inp.o.routing, pass.zones, n);
    hide AfterZones, AfterPass, CutRun;
    var sc := ZoneScope(inp.zones[n]);
    ZoneScopeIs(inp.zones[n]);
    assert ZoneOK(inp.zones[n], inp.o.routing);
    SameViewSym(sc, end, rs3);
    if UniqueKeys(sc, end) { ViewKeepsUnique(sc, rs3, end); }
  }

  lemma RunsMatch(snap: seq<Record>, rs: seq<Record>, zones: seq<ZoneRouting>, eps: seq<Endpoint>, o: Opts, runs: seq<seq<Action>>)
    requires CutRun(snap, rs, zones, eps, o, runs)
    ensures |runs| == |zones|
  {
    hide CutPlan, Accepted, Execute;
  }

  // ---------- one error-free reconcile on any listing ----------

  ghost predicate AllSettled(inp: Inputs, rs: seq<Record>) {
    Settled(Apex, ApexWants(inp.eps, inp.o), rs)
    && forall i :: 0 <= i < |inp.zones| ==> Settled(ZoneScope(inp.zones[i]), ZoneWants(inp.zones[i], inp.eps, ZoneOpts(inp)), rs)
  }

  lemma {:induction false} SettledZoneWasUnique(snap: seq<Record>, rs: seq<Record>, zones: seq<ZoneRouting>, eps: seq<Endpoint>,
                                                o: Opts, routing: string, runs: seq<seq<Action>>, n: nat)
    requires ZonesOK(zones, routing) && o.ttl != 0 && DistinctIDs(rs) && SnapshotGood(snap, rs, zones)
    requires StaleRun(snap, rs, zones, eps, o, runs) && n < |zones|
    requires Settled(ZoneScope(zones[n]), ZoneWants(zones[n], eps, o), ZonesEnd(rs, runs))
    ensures UniqueKeys(ZoneScope(zones[n]), rs)
    decreases |zones|
  {
    hide Key, Execute, At, IsPlan, CutPlan, DistinctIDs, Accepted, ZoneProgress, ZoneOK, PlannedAll, SnapshotGood, SameView, ZoneWants,
         Settled, UniqueKeys, ZoneScope, CutRun;
    var next := Execute(rs, runs[0]);
    assert SameView(ZoneScope(zones[0]), snap, rs) by { FirstSnapshot(snap, rs, zones); }
    SameZonePlan(zones[0], eps, snap, rs, o);
    WholeIsCut(runs[0], ZoneProgress(zones[0], eps, rs, o));
    StaleRunIsCutRun(snap, next, zones[1..], eps, o, runs[1..]);
    SnapshotStaysGood(snap, rs, zones, eps, o, routing, runs[0]);
    ExecuteKeepsIDsDistinct(rs, runs[0]);
    var sc := ZoneScope(zones[n]);
    ZoneScopeIs(zones[n]);
    if n == 0 {
      assert AllForeign(zones[1..], sc) by { OthersForeign(zones, routing); }
      ZonesFrame(snap, next, zones[1..], eps, o, routing, runs[1..], sc);
      SettledSameView(sc, ZoneWants(zones[0], eps, o), ZonesEnd(next, runs[1..]), next);
      assert ZoneOK(zones[0], routing) by { FirstZoneOK(zones, routing); }
      SettledByZonePlan(zones[0], eps, rs, o, routing, runs[0]);
    } else {
      assert Foreign(zones[0], sc) && zones[1..][n - 1] == zones[n] by { OneForeign(zones, routing, n); }
      ZonePlanFrame(zones[0], eps, rs, o, runs[0], routing, sc);
      SettledZoneWasUnique(snap, next, zones[1..], eps, o, routing, runs[1..], n - 1);
      SameViewSym(sc, next, rs);
      ViewKeepsUnique(sc, rs, next);
    }
  }

  lemma FirstZoneOK(zones: seq<ZoneRouting>, routing: string)
    requires ZonesOK(zones, routing) && zones != []
    ensures ZoneOK(zones[0], routing)
  {
  }

  lemma SettledByZonePlan(zr: ZoneRouting, eps: seq<Endpoint>, rs: seq<Record>, o: Opts, routing: string, log: seq<Action>)
    requires ZoneOK(zr, routing) && o.ttl != 0 && DistinctIDs(rs)
    requires IsPlan(PlannedAll(log), ZoneProgress(zr, eps, rs, o)) && Accepted(rs, log)
    ensures Settled(ZoneScope(zr), ZoneWants(zr, eps, o), Execute(rs, log)) <==> UniqueKeys(ZoneScope(zr), rs)
  {
    hide *;
    ZoneProgressIs(zr, eps, rs, o);
    ZoneWantsOK(zr, eps, o, routing);
    NoRelicsOK(ZoneScope(zr), rs);
    OnePlanSettlesIff(ZoneScope(zr), rs, ZoneWants(zr, eps, o), map[], log);
  }

  lemma SettledByApexPlan(eps: seq<Endpoint>, rs: seq<Record>, o: Opts, log: seq<Action>)
    requires DistinctEdges(eps) && o.ttl != 0 && DistinctIDs(rs)
    requires IsPlan(PlannedAll(log), ApexProgress(eps, rs, o)) && Accepted(rs, log)
    ensures Settled(Apex, ApexWants(eps, o), Execute(rs, log)) <==> UniqueKeys(Apex, rs)
  {
    hide *;
    ApexProgressIs(eps, rs, o);
    ApexWantsOK(eps, o);
    ApexRelicsOK(rs, o.routing);
    OnePlanSettlesIff(Apex, rs, ApexWants(eps, o), Index(Relics(o.routing), rs), log);
  }

  /** On any listing with distinct ids an error-free reconcile settles the apex set and
      every zone's set exactly when no tag of these classes was on two records. */
  lemma OnePassSettlesIff(inp: Inputs, rs: seq<Record>, pass: Pass)
    requires InputsOK(inp) && DistinctIDs(rs) && IsPass(inp, rs, pass)
    ensures AllSettled(inp, AfterPass(rs, pass)) <==> ListingOK(inp, rs)
  {
    hide *;
    if ListingOK(inp, rs) {
      OnePassSettles(inp, rs, pass);
      AllSettledOf(inp, AfterPass(rs, pass));
    }
    if AllSettled(inp, AfterPass(rs, pass)) {
      SettledApexWasUnique(inp, rs, pass);
      forall i | 0 <= i < |inp.zones| ensures UniqueKeys(ZoneScope(inp.zones[i]), rs) { SettledWasUnique(inp, rs, pass, i); }
      ListingOKOf(inp, rs);
    }
  }

  lemma AllSettledOf(inp: Inputs, rs: seq<Record>)
    requires Settled(Apex, ApexWants(inp.eps, inp.o), rs)
    requires forall i :: 0 <= i < |inp.zones| ==> Settled(ZoneScope(inp.zones[i]), ZoneWants(inp.zones[i], inp.eps, ZoneOpts(inp)), rs)
    ensures AllSettled(inp, rs)
  {
  }

  lemma ListingOKOf(inp: Inputs, rs: seq<Record>)
    requires DistinctIDs(rs) && UniqueKeys(Apex, rs)
    requires forall i :: 0 <= i < |inp.zones| ==> UniqueKeys(ZoneScope(inp.zones[i]), rs)
    ensures ListingOK(inp, rs)
  {
  }

  lemma SettledApexWasUnique(inp: Inputs, rs: seq<Record>, pass: Pass)
    requires InputsOK(inp) && DistinctIDs(rs) && IsPass(inp, rs, pass) && AllSettled(inp, AfterPass(rs, pass))
    ensures UniqueKeys(Apex, rs)
  {
    hide Key, At, IsPlan, DistinctIDs, Accepted, Execute, SameView, StaleRun, OrphanActions, DistinctEdges, ZonesOK, Settled, ApexWants, ZoneWants,
         CutPass, WildcardPlan, UniqueKeys, ApexProgress, PlannedAll;
    var rs1, rs2, end := AfterWildcard(rs, pass), AfterApex(rs, pass), AfterPass(rs, pass);
    AfterWildcardOK(inp, rs, pass);
    WholePassIsCut(inp, rs, pass);
    LaterPhasesSpare(inp, rs, pass);
    SettledSameView(Apex, ApexWants(inp.eps, inp.o), end, rs2);
    SettledByApexPlan(inp.eps, rs1, inp.o, pass.apex);
    SameViewSym(Apex, rs1, rs);
    ViewKeepsUnique(Apex, rs, rs1);
  }

  lemma SettledWasUnique(inp: Inputs, rs: seq<Record>, pass: Pass, i: nat)
    requires InputsOK(inp) && DistinctIDs(rs) && IsPass(inp, rs, pass) && AllSettled(inp, AfterPass(rs, pass)) && i < |inp.zones|
    ensures UniqueKeys(ZoneScope(inp.zones[i]), rs)
  {
    hide Key, At, IsPlan, DistinctIDs, Accepted, Execute, SameView, StaleRun, OrphanActions, DistinctEdges, ZoneOK, Settled, ApexWants, ZoneWants,
         CutPass, CutPlan, WildcardPlan, UniqueKeys, ApexProgress, PlannedAll, ZoneScope, SnapshotGood, ZonesEnd;
    var rs1, rs2, rs3, end := AfterWildcard(rs, pass), AfterApex(rs, pass), AfterZones(rs, pass), AfterPass(rs, pass);
    var sc := ZoneScope(inp.zones[i]);
    AfterWildcardOK(inp, rs, pass);
    WholePassIsCut(inp, rs, pass);
    LaterPhasesSpare(inp, rs, pass);
    SettledSameView(sc, ZoneWants(inp.zones[i], inp.eps, ZoneOpts(inp)), end, rs3);
    SnapshotOfItself(rs2, inp.zones);
    SettledZoneWasUnique(rs2, rs2, inp.zones, inp.eps, ZoneOpts(inp), inp.o.routing, pass.zones, i);
    WholeIsCut(pass.apex, ApexProgress(inp.eps, rs1, inp.o));
    ApexPlanFrame(inp.eps, rs1, inp.o, pass.apex, inp.zones[i]);
    ViewChain(sc, rs2, rs1, rs);
    SameViewSym(sc, rs2, rs);
    ViewKeepsUnique(sc, rs, rs2);
  }

  // ---------- how long a twin lasts ----------

  /** While an edge has an address in the server table, no reconcile, whatever fails,
      removes or changes any of its apex records but the last. */
  lemma ReconcileKeepsTwins(inp: Inputs, rs: seq<Record>, pass: Pass, k: string)
    requires InputsOK(inp) && DistinctIDs(rs) && CutPass(inp, rs, pass)
    requires k != "" && (exists ep :: ep in inp.eps && ep.edgeID == k && ep.ip != "") && At(Apex, k, rs) != []
    ensures KeepsTwins(At(Apex, k, rs), At(Apex, k, AfterPass(rs, pass)))
  {
    hide Key, At, CutPlan, DistinctIDs, Accepted, Execute, SameView, OrphanActions, DistinctEdges, ZonesOK, ApexWants, Index, WantsOK, RelicsOK,
         CutRun, WildcardPlan, Carries, UniqueKeys, AfterZones, AfterPass, KeepsTwins, Wanted, PlanWants;
    var rs1 := AfterWildcard(rs, pass);
    LaterPhasesSpare(inp, rs, pass);
    CutWildcardFrame(inp, rs, pass);
    ApexWantedExactly(inp.eps, inp.o, k);
    ApexWantsOK(inp.eps, inp.o);
    ApexRelicsOK(rs1, inp.o.routing);
    ViewAt(Apex, rs1, rs, k);
    WantedKeepsTwins(Apex, rs1, ApexWants(inp.eps, inp.o), Index(Relics(inp.o.routing), rs1), pass.apex, k);
    ViewAt(Apex, AfterPass(rs, pass), AfterApex(rs, pass), k);
  }

  /** Reconciles in a row, any calls failing, in all of which edge k has an address. */
  ghost predicate RunsWith(k: string, rs: seq<Record>, rounds: seq<Round>)
    decreases |rounds|
  {
    rounds == [] ||
    (rounds[0].Reconciled? && InputsOK(rounds[0].inp) && CutPass(rounds[0].inp, rs, rounds[0].pass)
     && (exists ep :: ep in rounds[0].inp.eps && ep.edgeID == k && ep.ip != "")
     && RunsWith(k, AfterPass(rs, rounds[0].pass), rounds[1..]))
  }

  /** A twin never goes: as long as its edge stays in the server table, no number of
      reconciles, failing or not, removes or changes it. */
  lemma {:induction false} TwinsNeverGo(k: string, rs: seq<Record>, rounds: seq<Round>)
    requires DistinctIDs(rs) && k != "" && RunsWith(k, rs, rounds) && At(Apex, k, rs) != []
    ensures KeepsTwins(At(Apex, k, rs), At(Apex, k, EndOf(rs, rounds)))
    decreases |rounds|
  {
    hide DistinctIDs, InputsOK, CutPass, AfterPass, Key, At;
    if rounds == [] {
    } else {
      var inp, pass := rounds[0].inp, rounds[0].pass;
      ReconcileKeepsTwins(inp, rs, pass, k);
      PassKeepsIDsDistinct(inp, rs, pass);
      TwinsNeverGo(k, AfterPass(rs, pass), rounds[1..]);
    }
  }

  lemma PassKeepsIDsDistinct(inp: Inputs, rs: seq<Record>, pass: Pass)
    requires DistinctIDs(rs) && CutPass(inp, rs, pass)
    ensures DistinctIDs(AfterPass(rs, pass))
  {
    hide CutPlan, DistinctIDs, Accepted, Execute, OrphanActions, ApexProgress, WildcardPlan, Carries, CutRun;
    ExecuteKeepsIDsDistinct(rs, pass.wild);
    ExecuteKeepsIDsDistinct(AfterWildcard(rs, pass), pass.apex);
    RunsKeepIDsDistinct(AfterApex(rs, pass), AfterApex(rs, pass), inp.zones, inp.eps, ZoneOpts(inp), pass.zones);
    ExecuteKeepsIDsDistinct(AfterZones(rs, pass), pass.orphans);
  }

  lemma {:induction false} RunsKeepIDsDistinct(snap: seq<Record>, rs: seq<Record>, zones: seq<ZoneRouting>, eps: seq<Endpoint>, o: Opts, runs: seq<seq<Action>>)
    requires CutRun(snap, rs, zones, eps, o, runs) && DistinctIDs(rs)
    ensures DistinctIDs(ZonesEnd(rs, runs))
    decreases |zones|
  {
    hide CutPlan, DistinctIDs, Accepted, Execute;
    if zones == [] {
    } else {
      ExecuteKeepsIDsDistinct(rs, runs[0]);
      RunsKeepIDsDistinct(snap, Execute(rs, runs[0]), zones[1..], eps, o, runs[1..]);
    }
  }

  /** Once its edge is gone, each error-free reconcile deletes one record of the tag,
      the last. */
  lemma GoneEdgeLosesOne(inp: Inputs, rs: seq<Record>, pass: Pass, k: string)
    requires InputsOK(inp) && DistinctIDs(rs) && IsPass(inp, rs, pass)
    requires (forall ep :: ep in inp.eps && ep.edgeID == k ==> ep.ip == "") && At(Apex, k, rs) != []
    ensures At(Apex, k, AfterPass(rs, pass)) == At(Apex, k, rs)[..|At(Apex, k, rs)| - 1]
  {
    hide Key, At, IsPlan, DistinctIDs, Accepted, Execute, SameView, OrphanActions, DistinctEdges, ZonesOK, ApexWants, Index, WantsOK, RelicsOK,
         StaleRun, WildcardPlan, AfterZones, AfterPass, Wanted, PlanWants, CutPass, PlannedAll;
    var rs1 := AfterWildcard(rs, pass);
    WholePassIsCut(inp, rs, pass);
    LaterPhasesSpare(inp, rs, pass);
    AfterWildcardOK(inp, rs, pass);
    ApexWantedExactly(inp.eps, inp.o, k);
    ApexWantsOK(inp.eps, inp.o);
    ApexRelicsOK(rs1, inp.o.routing);
    ViewAt(Apex, rs1, rs, k);
    UnwantedLosesLast(Apex, rs1, ApexWants(inp.eps, inp.o), Index(Relics(inp.o.routing), rs1), pass.apex, k);
    ViewAt(Apex, AfterPass(rs, pass), AfterApex(rs, pass), k);
  }

  // ---------- how a twin comes about ----------

  lemma LonePlan(ep: Endpoint, o: Opts) returns (w: Want)
    requires ep.edgeID != "" && ep.ip != ""
    ensures ApexWants([ep], o) == [w] && w.edgeID == ep.edgeID
    ensures IsPlan([AddAction(w)], ApexProgress([ep], [], o))
  {
    var rot, maxCap := DecisionMap([ep], [ep], o.now, o.staleAfter), MaxCapacity([ep]);
    w := ApexWantOf(ep, rot, maxCap, o);
    hide DecisionMap, MaxCapacity, ApexWantOf, AddAction;
    assert ApexWantsFrom([], rot, maxCap, o) == [] && [ep][1..] == [];
    assert ApexWants([ep], o) == [w] + [];
    assert [w][1..] == [] && [AddAction(w)] + [] == [AddAction(w)];
    assert PlanWants([w], map[], map[]).acts == [AddAction(w)];
    assert [AddAction(w)][..1] == [AddAction(w)];
  }

  /** The add of a lone edge is sent twice because the first reply was lost. The call
      succeeds, and the edge has two records from then on, however often the reconcile
      runs while the edge is there. */
  lemma RetriedAddStays(ep: Endpoint, o: Opts, w: Want, a: int, b: int, rounds: seq<Round>)
    requires ep.edgeID != "" && ep.ip != "" && o.ttl != 0 && a != b && ApexWants([ep], o) == [w]
    requires RunsWith(ep.edgeID, Execute([], [AddAction(w).(recordID := a), AddAction(w).(recordID := b)]), rounds)
    ensures var log := [AddAction(w).(recordID := a), AddAction(w).(recordID := b)];
            CutPlan(log, ApexProgress([ep], [], o)) && Accepted([], log)
            && |At(Apex, ep.edgeID, EndOf(Execute([], log), rounds))| == 2
            && At(Apex, ep.edgeID, EndOf(Execute([], log), rounds))[0] == w.record.(id := a)
  {
    var x, y := AddAction(w).(recordID := a), AddAction(w).(recordID := b);
    var log, twins := [x, y], [w.record.(id := a), w.record.(id := b)];
    hide *;
    var w' := LonePlan(ep, o);
    LoneEdge(ep);
    ApexWantsOK([ep], o);
    TwoAdds(w, a, b);
    LoneTwins(ep, w, a, b, o);
    assert CutPlan(log, ApexProgress([ep], [], o)) by { RepeatedIsCut(w, a, b, ApexProgress([ep], [], o)); }
    TwinsNeverGo(ep.edgeID, twins, rounds);
    TwinsAreTwo(twins, At(Apex, ep.edgeID, EndOf(twins, rounds)));
  }

  lemma LoneEdge(ep: Endpoint)
    ensures DistinctEdges([ep])
  {
  }

  lemma TwinsAreTwo(was: seq<Record>, end: seq<Record>)
    requires KeepsTwins(was, end) && |was| == 2
    ensures |end| == 2 && end[0] == was[0]
  {
    assert was[0] == was[..1][0];
  }

  lemma TwoAdds(w: Want, a: int, b: int)
    requires a != b
    ensures var log := [AddAction(w).(recordID := a), AddAction(w).(recordID := b)];
            Accepted([], log) && Execute([], log) == [w.record.(id := a), w.record.(id := b)]
  {
    var x, y := AddAction(w).(recordID := a), AddAction(w).(recordID := b);
    assert [x, y][1..] == [y] && [y][1..] == [];
    var none: seq<Record> := [];
    assert Step(none, x) == [w.record.(id := a)];
    assert Step([w.record.(id := a)], y) == [w.record.(id := a), w.record.(id := b)];
    assert Execute(none, [x, y]) == Execute([w.record.(id := a)], [y]);
    assert Execute([w.record.(id := a)], [y]) == Execute([w.record.(id := a), w.record.(id := b)], []);
  }

  lemma RepeatedIsCut(w: Want, a: int, b: int, p: Progress)
    requires IsPlan([AddAction(w)], p)
    ensures CutPlan([AddAction(w).(recordID := a), AddAction(w).(recordID := b)], p)
  {
    hide IsPlan;
    var x, y := AddAction(w).(recordID := a), AddAction(w).(recordID := b);
    assert [x, y][1..] == [y] && [y][1..] == [];
    assert Carries([AddAction(w)], [y]) && Carries([AddAction(w)], [x, y]);
  }

  lemma LoneTwins(ep: Endpoint, w: Want, a: int, b: int, o: Opts)
    requires a != b && ApexWants([ep], o) == [w] && WantsOK(Apex, [w]) && w.edgeID == ep.edgeID
    ensures var twins := [w.record.(id := a), w.record.(id := b)];
            DistinctIDs(twins) && At(Apex, ep.edgeID, twins) == twins
  {
    hide Key, ApexWants;
    assert WantOK(Apex, [w][0]);
    AddedKey(Apex, w, a);
    AddedKey(Apex, w, b);
    var r, s := w.record.(id := a), w.record.(id := b);
    assert [r] == [] + [r] && [r, s] == [r] + [s];
    AtSnoc(Apex, ep.edgeID, [], r);
    AtSnoc(Apex, ep.edgeID, [r], s);
  }
}

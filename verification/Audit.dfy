/** The audit trail of one plan: what Apply reported, which leaves out what took effect
    without a reply saying so. */
module Audit {
  import opened Text
  import opened Tags
  import opened Records
  import opened Regions
  import opened Rotation
  import opened Reconcile
  import opened Converge
  import opened Frames
  import opened Recovery
  import opened ReconcileTheorems
  import opened Live
  import opened Commute
  import opened Bunny
  import opened Twins

  // ---------- the records under one id ----------

  function Under(rs: seq<Record>, id: int): seq<Record> {
    if rs == [] then []
    else Under(rs[..|rs| - 1], id) + if rs[|rs| - 1].id == id then [rs[|rs| - 1]] else []
  }

  lemma UnderSnoc(rs: seq<Record>, r: Record, id: int)
    ensures Under(rs + [r], id) == if r.id == id then Under(rs, id) + [r] else Under(rs, id)
  {
    assert (rs + [r])[..|rs|] == rs;
  }

  lemma {:induction false} UnderNone(rs: seq<Record>, id: int)
    requires forall r :: r in rs ==> r.id != id
    ensures Under(rs, id) == []
  {
    if rs == [] {
    } else {
      UnderNone(rs[..|rs| - 1], id);
      assert rs[|rs| - 1] in rs;
    }
  }

  lemma {:induction false} UnderMembers(rs: seq<Record>, id: int)
    ensures forall r :: r in Under(rs, id) <==> r in rs && r.id == id
    ensures DistinctIDs(rs) ==> |Under(rs, id)| <= 1
  {
    if rs == [] {
    } else {
      var front, last := rs[..|rs| - 1], rs[|rs| - 1];
      UnderMembers(front, id);
      assert rs == front + [last];
      if DistinctIDs(rs) && last.id == id {
        forall r | r in front ensures r.id != id {
          var i :| 0 <= i < |front| && front[i] == r;
        }
        UnderNone(front, id);
      }
    }
  }

  lemma {:induction false} UnderMerged(rs: seq<Record>, to: int, body: Record, id: int)
    ensures Under(Merged(rs, to, body), id) == if id == to then Merged(Under(rs, id), to, body) else Under(rs, id)
  {
    hide Merge;
    if rs == [] {
    } else {
      var front, last := rs[..|rs| - 1], rs[|rs| - 1];
      assert rs == front + [last];
      MergedSnoc(front, last, to, body);
      MergeKeepsID(last, body);
      UnderMerged(front, to, body, id);
      UnderSnoc(Merged(front, to, body), if last.id == to then Merge(last, body) else last, id);
      MergedSnoc(Under(front, id), last, to, body);
    }
  }

  lemma {:induction false} UnderWithout(rs: seq<Record>, gone: int, id: int)
    ensures Under(Without(rs, gone), id) == if id == gone then [] else Under(rs, id)
  {
    if rs == [] {
    } else {
      var front, last := rs[..|rs| - 1], rs[|rs| - 1];
      assert rs == front + [last];
      WithoutSnoc(front, last, gone);
      UnderWithout(front, gone, id);
      UnderSnoc(Without(front, gone), last, id);
    }
  }

  lemma UnderStep(rs: seq<Record>, a: Action, id: int)
    ensures a.recordID != id ==> Under(Step(rs, a), id) == Under(rs, id)
    ensures a.recordID == id ==> Under(Step(rs, a), id) == match a.kind
                                   case Add => Under(rs, id) + [a.record.(id := id)]
                                   case Remove => []
                                   case _ => Merged(Under(rs, id), id, a.record)
  {
    hide Merged, Without, Under;
    match a.kind
    case Add => UnderSnoc(rs, a.record.(id := a.recordID), id);
    case Remove => UnderWithout(rs, a.recordID, id);
    case _ => UnderMerged(rs, a.recordID, a.record, id);
  }

  lemma {:induction false} UnderUntouched(rs: seq<Record>, log: seq<Action>, id: int)
    requires forall a :: a in log ==> a.recordID != id
    ensures Under(Execute(rs, log), id) == Under(rs, id)
    decreases |log|
  {
    hide Step, Under;
    if log == [] {
    } else {
      UnderStep(rs, log[0], id);
      UnderUntouched(Step(rs, log[0]), log[1..], id);
    }
  }

  // ---------- a log in which every action counts ----------

  /** Each action names another record. */
  ghost predicate NamesDiffer(log: seq<Action>) {
    forall i, j :: 0 <= i < j < |log| ==> log[i].recordID != log[j].recordID
  }

  /** Each action changes the record it names. */
  ghost predicate Counts(rs: seq<Record>, log: seq<Action>) {
    forall i :: 0 <= i < |log| ==> Under(Step(rs, log[i]), log[i].recordID) != Under(rs, log[i].recordID)
  }

  lemma {:induction false} UnderTouched(rs: seq<Record>, log: seq<Action>, i: nat)
    requires i < |log| && NamesDiffer(log)
    ensures Under(Execute(rs, log), log[i].recordID) == Under(Step(rs, log[i]), log[i].recordID)
    decreases i
  {
    hide Step, Under;
    var id, rest := log[i].recordID, log[1..];
    assert forall n :: 0 <= n < |rest| ==> rest[n] == log[n + 1];
    if i == 0 {
      forall a | a in rest ensures a.recordID != id { var n :| 0 <= n < |rest| && rest[n] == a; }
      UnderUntouched(Step(rs, log[0]), rest, id);
    } else {
      UnderStep(rs, log[0], id);
      UnderTouched(Step(rs, log[0]), rest, i - 1);
      UnderStep(rs, log[i], id);
      UnderStep(Step(rs, log[0]), log[i], id);
    }
  }

  lemma {:induction false} Missed(part: seq<Action>, whole: seq<Action>) returns (i: nat)
    requires Part(part, whole) && part != whole && NamesDiffer(whole)
    ensures i < |whole| && forall a :: a in part ==> a.recordID != whole[i].recordID
    decreases |whole|
  {
    var rest := whole[1..];
    assert forall n :: 0 <= n < |rest| ==> rest[n] == whole[n + 1];
    if part == [] {
      i := 0;
    } else if part[0] == whole[0] && Part(part[1..], rest) {
      assert part == [part[0]] + part[1..] && whole == [whole[0]] + rest;
      i := Missed(part[1..], rest);
      i := i + 1;
    } else {
      PartOf(part, rest);
      i := 0;
      forall a | a in part ensures a.recordID != whole[0].recordID {
        var n :| 0 <= n < |rest| && rest[n] == a;
      }
    }
  }

  /** In such a log nothing can be left out without changing the outcome. */
  lemma EveryActionCounts(rs: seq<Record>, part: seq<Action>, whole: seq<Action>)
    requires Part(part, whole) && NamesDiffer(whole) && Counts(rs, whole)
    ensures Execute(rs, part) == Execute(rs, whole) <==> part == whole
  {
    hide Step, Under, Execute, Part, NamesDiffer;
    if part != whole {
      var i := Missed(part, whole);
      UnderUntouched(rs, part, whole[i].recordID);
      UnderTouched(rs, whole, i);
    }
  }

  // ---------- plans ----------

  /** No two updates or deletes of a log name one record. */
  ghost predicate TargetsDiffer(log: seq<Action>) {
    forall i, j :: 0 <= i < j < |log| && !log[i].kind.Add? && !log[j].kind.Add? ==> log[i].recordID != log[j].recordID
  }

  lemma {:induction false} CarriedTargetsDiffer(plan: seq<Action>, log: seq<Action>)
    requires Carries(plan, log) && TargetsDiffer(plan)
    ensures TargetsDiffer(log)
    decreases |log|
  {
    if log == [] {
    } else {
      var rest, again := log[1..], if Carries(plan[1..], log[1..]) then plan[1..] else plan;
      assert forall n :: 0 <= n < |rest| ==> rest[n] == log[n + 1];
      assert again == plan || forall n :: 0 <= n < |again| ==> again[n] == plan[n + 1];
      CarriedTargetsDiffer(again, rest);
      CarriedAreOfPlan(again, rest);
      if !log[0].kind.Add? {
        forall j | 0 < j < |log| && !log[j].kind.Add? ensures log[j].recordID != log[0].recordID {
          assert Planned(rest[j - 1]) in again;
          var n :| 0 <= n < |again| && again[n] == Planned(log[j]);
        }
      }
    }
  }

  /** The records a planner may still write over: one per key and one per address. */
  ghost predicate OneEach(managed: map<string, Record>, relics: map<string, Record>) {
    (forall k, j :: k in managed && j in managed && k != j ==> managed[k].id != managed[j].id)
    && (forall v, u :: v in relics && u in relics && v != u ==> relics[v].id != relics[u].id)
    && forall k, v :: k in managed && v in relics ==> managed[k].id != relics[v].id
  }

  lemma OneEachOf(sc: Scope, rs: seq<Record>, relics: map<string, Record>)
    requires DistinctIDs(rs) && RelicsOK(sc, rs, relics)
    ensures OneEach(Index(sc, rs), relics)
  {
    hide Key, Index, DistinctIDs;
    IndexMembers(sc, rs);
    var m := Index(sc, rs);
    forall k, j | k in m && j in m && k != j ensures m[k].id != m[j].id { if m[k].id == m[j].id { SameID(rs, m[k], m[j]); } }
    forall v, u | v in relics && u in relics && v != u ensures relics[v].id != relics[u].id {
      if relics[v].id == relics[u].id { SameID(rs, relics[v], relics[u]); }
    }
    forall k, v | k in m && v in relics ensures m[k].id != relics[v].id { if m[k].id == relics[v].id { SameID(rs, m[k], relics[v]); } }
  }

  lemma LaterOneEach(w: Want, managed: map<string, Record>, relics: map<string, Record>)
    requires OneEach(managed, relics)
    ensures OneEach(managed - {w.edgeID}, RelicsLeft(w, managed, relics))
  {
  }

  lemma LaterTarget(a: Action, w: Want, first: Want, managed: map<string, Record>, relics: map<string, Record>)
    requires OneEach(managed, relics) && w.edgeID != first.edgeID && !a.kind.Add?
    requires ActsFor(a, w, managed - {first.edgeID}, RelicsLeft(first, managed, relics))
    ensures forall b :: b in Turn(first, managed, relics) && !b.kind.Add? ==> b.recordID != a.recordID
  {
    hide Converged, WriteKind;
  }

  lemma {:induction false} TurnTargetsDiffer(ws: seq<Want>, managed: map<string, Record>, relics: map<string, Record>)
    requires OneEach(managed, relics) && forall i, j :: 0 <= i < j < |ws| ==> ws[i].edgeID != ws[j].edgeID
    ensures TargetsDiffer(PlanWants(ws, managed, relics).acts)
    decreases |ws|
  {
    hide Converged, WriteKind, Turn, OneEach;
    if ws == [] {
    } else {
      LaterOneEach(ws[0], managed, relics);
      var w, later := ws[0], ws[1..];
      var managed', relics' := managed - {w.edgeID}, RelicsLeft(w, managed, relics);
      var t, rest := Turn(w, managed, relics), PlanWants(later, managed', relics').acts;
      assert forall i :: 0 <= i < |later| ==> later[i] == ws[i + 1];
      PlanWantsHead(ws, managed, relics);
      TurnTargetsDiffer(later, managed', relics');
      PlanTargets(later, managed', relics');
      hide PlanWants, ActsFor;
      forall i | 0 <= i < |rest| && !rest[i].kind.Add? && t != [] && !t[0].kind.Add? ensures t[0].recordID != rest[i].recordID {
        assert rest[i] in rest && t[0] in t;
        var j :| 0 <= j < |later| && ActsFor(rest[i], later[j], managed', relics');
        LaterTarget(rest[i], later[j], w, managed, relics);
      }
    }
  }

  lemma PlanTargetsDiffer(sc: Scope, rs: seq<Record>, ws: seq<Want>, relics: map<string, Record>, plan: seq<Action>)
    requires DistinctIDs(rs) && RelicsOK(sc, rs, relics) && WantsOK(sc, ws)
    requires IsPlan(plan, PlanWants(ws, Index(sc, rs), relics))
    ensures TargetsDiffer(plan)
  {
    hide Key, At, Index, PlanWants, DistinctIDs, OneEach, Converged, Removes, RemoveAction;
    var m := Index(sc, rs);
    var p := PlanWants(ws, m, relics);
    var acts, rm := p.acts, plan[|p.acts|..];
    DistinctWants(sc, ws);
    OneEachOf(sc, rs, relics);
    TurnTargetsDiffer(ws, m, relics);
    PlanTargets(ws, m, relics);
    IndexMembers(sc, rs);
    LeftoverKeys(ws, m, relics);
    RemovesNameLive(sc, rs, p.managed, rm);
    SameTargets(rm, rm, p.managed);
    assert plan == acts + rm;
    forall i, j | 0 <= i < |acts| && 0 <= j < |rm| && !acts[i].kind.Add? ensures acts[i].recordID != rm[j].recordID {
      assert acts[i] in acts;
      var n :| 0 <= n < |ws| && ActsFor(acts[i], ws[n], m, relics);
      var x := if ws[n].edgeID in m then m[ws[n].edgeID] else relics[ws[n].record.value];
      assert Wanted(ws, ws[n].edgeID);
      if x.id == rm[j].recordID { SameID(rs, x, m[rm[j].edgeID]); }
    }
  }

  lemma LogNamesDiffer(sc: Scope, rs: seq<Record>, ws: seq<Want>, relics: map<string, Record>, log: seq<Action>)
    requires DistinctIDs(rs) && RelicsOK(sc, rs, relics) && WantsOK(sc, ws)
    requires CutPlan(log, PlanWants(ws, Index(sc, rs), relics)) && Accepted(rs, log)
    ensures NamesDiffer(log) && Names(sc, relics, rs, log) && NewIDs(rs, log)
  {
    hide Key, At, Index, PlanWants, DistinctIDs, IsPlan, Carries, WantsOK, RelicsOK, Accepted, TargetsDiffer, WritesFirst, Names, NewIDs;
    var plan: seq<Action> :| IsPlan(plan, PlanWants(ws, Index(sc, rs), relics)) && Carries(plan, log);
    PlanTargetsDiffer(sc, rs, ws, relics, plan);
    CarriedTargetsDiffer(plan, log);
    CutWritesFirst(sc, rs, ws, relics, log);
    LogNames(sc, rs, ws, relics, log);
    LogNewIDs(sc, rs, ws, relics, log);
    forall i, j | 0 <= i < j < |log| ensures log[i].recordID != log[j].recordID {
      if log[i].kind.Add? && log[j].kind.Add? {
        AddsDiffer(rs, log, i, j);
      } else {
        NewIsNotNamed(sc, relics, rs, log, i, j);
      }
    }
  }

  lemma NewIsNotNamed(sc: Scope, relics: map<string, Record>, rs: seq<Record>, log: seq<Action>, i: nat, j: nat)
    requires Names(sc, relics, rs, log) && NewIDs(rs, log) && TargetsDiffer(log) && i < j < |log| && !(log[i].kind.Add? && log[j].kind.Add?)
    ensures log[i].recordID != log[j].recordID
  {
    hide Key, HasID;
    if log[i].kind.Add? != log[j].kind.Add? {
      var n := if log[i].kind.Add? then j else i;
      var r :| r in rs && r.id == log[n].recordID && (Key(sc, r).Some? || r in relics.Values);
      MemberHasID(rs, r);
    }
  }

  lemma ActionCounts(sc: Scope, rs: seq<Record>, ws: seq<Want>, relics: map<string, Record>, a: Action)
    requires DistinctIDs(rs) && RelicsOK(sc, rs, relics) && WantsOK(sc, ws)
    requires Legal(a, ws, Index(sc, rs), relics) && (a.kind.Add? ==> !HasID(rs, a.recordID))
    ensures Under(Step(rs, a), a.recordID) != Under(rs, a.recordID)
  {
    hide Key, Index, Step, Under, Merge, Converged, HasID, DistinctIDs;
    UnderStep(rs, a, a.recordID);
    IndexMembers(sc, rs);
    UnderMembers(rs, a.recordID);
    var m := Index(sc, rs);
    if a.kind.Remove? {
      assert m[a.edgeID] in Under(rs, a.recordID);
    } else if !a.kind.Add? {
      var j :| 0 <= j < |ws| && ActsFor(Planned(a), ws[j], m, relics);
      var w := ws[j];
      var x := if w.edgeID in m then m[w.edgeID] else relics[w.record.value];
      assert x in Under(rs, a.recordID);
      assert Under(rs, a.recordID) == [x];
      WrittenConverges(x, w.record, x.id);
      KeyOfBody(sc, x, w.record, x.id);
      assert Merged([x], x.id, a.record) == [Merge(x, a.record)];
    }
  }

  /** What Apply reports of a plan, replayed on the records as they were, gives the
      records as they are exactly when it reports all that was done. */
  lemma AuditReplaysIff(sc: Scope, rs: seq<Record>, ws: seq<Want>, relics: map<string, Record>, applied: seq<Action>, done: seq<Action>)
    requires DistinctIDs(rs) && RelicsOK(sc, rs, relics) && WantsOK(sc, ws)
    requires CutPlan(done, PlanWants(ws, Index(sc, rs), relics)) && Accepted(rs, done) && Part(applied, done)
    ensures Execute(rs, applied) == Execute(rs, done) <==> applied == done
  {
    hide Key, At, Index, PlanWants, DistinctIDs, CutPlan, WantsOK, RelicsOK, Accepted, Part, Legal, Under, Step, NamesDiffer, Execute, HasID, Names;
    LogNamesDiffer(sc, rs, ws, relics, done);
    DistinctWants(sc, ws);
    LogIsLegal(ws, Index(sc, rs), relics, done);
    forall i | 0 <= i < |done| ensures Under(Step(rs, done[i]), done[i].recordID) != Under(rs, done[i].recordID) {
      ActionCounts(sc, rs, ws, relics, done[i]);
    }
    EveryActionCounts(rs, applied, done);
  }

  lemma {:induction false} TurnsSayWhat(sc: Scope, ws: seq<Want>, managed: map<string, Record>, relics: map<string, Record>)
    requires WantsOK(sc, ws)
    ensures forall a :: a in PlanWants(ws, managed, relics).acts ==>
              !a.kind.Remove? && a.name == a.record.name && a.value == a.record.value && Key(sc, a.record) == Some(a.edgeID)
    decreases |ws|
  {
    hide Key, Converged, WantOK, WriteKind;
    if ws == [] {
    } else {
      assert WantOK(sc, ws[0]);
      TurnSaysWhat(sc, ws[0], managed, relics);
      PlanWantsHead(ws, managed, relics);
      hide Turn, PlanWants;
      assert forall i :: 0 <= i < |ws[1..]| ==> ws[1..][i] == ws[i + 1];
      TurnsSayWhat(sc, ws[1..], managed - {ws[0].edgeID}, RelicsLeft(ws[0], managed, relics));
    }
  }

  lemma TurnSaysWhat(sc: Scope, w: Want, managed: map<string, Record>, relics: map<string, Record>)
    requires WantOK(sc, w)
    ensures forall a :: a in Turn(w, managed, relics) ==>
              !a.kind.Remove? && a.name == a.record.name && a.value == a.record.value && Key(sc, a.record) == Some(a.edgeID)
  {
    forall id ensures Key(sc, w.record.(id := id)) == Some(w.edgeID) { KeyOfBody(sc, w.record, w.record, id); }
    hide Key, Converged;
    assert w.record.(id := w.record.id) == w.record;
  }

  /** What the trail says of an action is true: name and value are those of the record
      written or deleted, and the edge is the one in its tag. */
  lemma ReportIsTrue(sc: Scope, rs: seq<Record>, ws: seq<Want>, relics: map<string, Record>, plan: seq<Action>, a: Action)
    requires WantsOK(sc, ws) && IsPlan(plan, PlanWants(ws, Index(sc, rs), relics)) && a in plan
    ensures if a.kind.Remove?
            then exists r :: r in rs && r.id == a.recordID && r.name == a.name && r.value == a.value && Key(sc, r) == Some(a.edgeID)
            else a.name == a.record.name && a.value == a.record.value && Key(sc, a.record) == Some(a.edgeID)
  {
    hide Key, At, Index, PlanWants, WantsOK;
    var m := Index(sc, rs);
    var p := PlanWants(ws, m, relics);
    TurnsSayWhat(sc, ws, m, relics);
    LeftoverKeys(ws, m, relics);
    IndexMembers(sc, rs);
    var i :| 0 <= i < |plan| && plan[i] == a;
    if i < |p.acts| {
      assert plan[..|p.acts|][i] == a && a in p.acts;
    } else {
      assert plan[|p.acts|..][i - |p.acts|] == a;
      var r := p.managed[a.edgeID];
      assert a == RemoveAction(a.edgeID, r);
      assert r in rs && Key(sc, r) == Some(a.edgeID);
    }
  }

  /** The record of an edge that is gone. */
  const GONE := NO_RECORD.(id := 1, typ := TYPE_A, comment := ServerTag("gone"))

  /** Its delete takes effect, but the reply is lost and the next attempt finds no
      record: the call fails, nothing is audited, and replaying nothing leaves the
      record in place. */
  lemma LostDeleteUnaudited(o: Opts)
    ensures var done := [RemoveAction("gone", GONE)];
            IsPlan(done, ApexProgress([], [GONE], o)) && Accepted([GONE], done) && Attempts(done[0], done)
            && Execute([GONE], done) == [] && Execute([GONE], []) == [GONE]
  {
    ServerTagRoundTrip("gone");
    var a := RemoveAction("gone", GONE);
    hide ServerTag, EdgeIDFromComment, DecisionMap, MaxCapacity;
    var none: seq<Record> := [];
    assert [GONE][..0] == none && Key(Apex, GONE) == Some("gone");
    assert Index(Apex, [GONE]) == map["gone" := GONE];
    assert ApexWants([], o) == [];
    hide Key, Index;
    assert [a][..0] == [] && [a][0..] == [a];
    assert Removes([a], map["gone" := GONE], {"gone"}) by {
      RemovesNone(map["gone" := GONE]);
      RemovesOneMore([], map["gone" := GONE], {}, "gone");
      assert [] + [a] == [a] && {} + {"gone"} == {"gone"};
    }
    assert Without([GONE], 1) == none by { assert [GONE][..0] == none && Without(none, 1) == none; }
    assert [a][1..] == [] && [GONE][0].id == 1;
    assert Step([GONE], a) == none;
  }
}

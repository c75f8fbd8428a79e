/** What a plan leaves alone: the record classes are disjoint, a plan's actions
    name only its own class and the records it adopts, and so every other class,
    and every other record, stays as it was. */
module Frames {
  import opened Text
  import opened Tags
  import opened Records
  import opened Reconcile
  import opened Converge

  // ---------- disjoint classes ----------

  lemma ApexApart(r: Record, zoneID: int, zone: string, active: set<int>, routing: string)
    requires IsInt64(zoneID) && Key(Apex, r).Some?
    ensures Key(Zone(zoneID, zone), r).None? && Key(Orphans(active), r).None? && Key(Relics(routing), r).None?
  {
    if EdgeIDFromZoneComment(r.comment, zoneID).Some? {
      ZoneReadersAgree(r.comment, zoneID);
    }
    ServerTagInjective(r.comment, EdgeIDFromComment(r.comment));
    ServerTagIsNotZoneTag(EdgeIDFromComment(r.comment));
  }

  lemma ZonesApart(r: Record, a: int, nameA: string, b: int, nameB: string, active: set<int>)
    requires IsInt64(a) && IsInt64(b) && a != b && a in active
    requires Key(Zone(a, nameA), r).Some?
    ensures Key(Zone(b, nameB), r).None? && Key(Orphans(active), r).None? && Key(Apex, r).None?
  {
    ZoneReadersAgree(r.comment, a);
    if EdgeIDFromZoneComment(r.comment, b).Some? {
      ZoneReadersAgree(r.comment, b);
      assert false;
    }
  }

  lemma ZoneApartFromApex(r: Record, zoneID: int, zone: string, routing: string)
    requires IsInt64(zoneID) && !EqualFold(zone, routing)
    requires Key(Zone(zoneID, zone), r).Some?
    ensures Key(Apex, r).None? && Key(Relics(routing), r).None?
  {
    ZoneReadersAgree(r.comment, zoneID);
  }

  lemma OrphansApart(r: Record, active: set<int>, zoneID: int, zone: string)
    requires IsInt64(zoneID) && zoneID in active && Key(Orphans(active), r).Some?
    ensures Key(Zone(zoneID, zone), r).None? && Key(Apex, r).None?
  {
    if EdgeIDFromZoneComment(r.comment, zoneID).Some? {
      ZoneReadersAgree(r.comment, zoneID);
      assert false;
    }
    ZoneTagIsNotServerTag(r.comment);
  }

  // ---------- logs that stay away from a key ----------

  /** No action of log writes a record of class sc with key k, and none names one. */
  ghost predicate SeparateAt(sc: Scope, k: string, rs: seq<Record>, log: seq<Action>) {
    forall i :: 0 <= i < |log| ==>
      (log[i].kind.Remove? || (log[i].record.comment != "" && Key(sc, log[i].record) != Some(k)))
      && (log[i].kind.Add? || forall r :: r in rs && r.id == log[i].recordID ==> Key(sc, r) != Some(k))
  }

  lemma StepSeparate(sc: Scope, k: string, rs: seq<Record>, a: Action)
    requires SeparateAt(sc, k, rs, [a])
    ensures At(sc, k, Step(rs, a)) == At(sc, k, rs)
    ensures forall r :: r in Step(rs, a) && r !in rs ==> Key(sc, r) != Some(k)
  {
    assert [a][0] == a;
    if !a.kind.Remove? {
      KeyOfBody(sc, a.record, a.record, a.recordID);
      forall r ensures Key(sc, Merge(r, a.record)) == Key(sc, a.record) {
        KeyOfBody(sc, r, a.record, a.record.id);
        assert a.record.(id := a.record.id) == a.record;
      }
    }
    hide Key, At, Merge;
    match a.kind
    case Add => AtAdded(sc, k, rs, a.recordID, a.record);
    case Remove =>
      AtWithoutElsewhere(sc, k, rs, a.recordID);
      WithoutMembers(rs, a.recordID);
    case _ => AtMergedElsewhere(sc, k, rs, a.recordID, a.record);
  }

  lemma {:induction false} ExecuteSeparate(sc: Scope, k: string, rs: seq<Record>, log: seq<Action>)
    requires SeparateAt(sc, k, rs, log)
    ensures At(sc, k, Execute(rs, log)) == At(sc, k, rs)
    decreases |log|
  {
    hide Key, At, Step;
    if log == [] {
    } else {
      assert SeparateAt(sc, k, rs, [log[0]]);
      StepSeparate(sc, k, rs, log[0]);
      var rest := log[1..];
      assert forall i :: 0 <= i < |rest| ==> rest[i] == log[i + 1];
      ExecuteSeparate(sc, k, Step(rs, log[0]), rest);
    }
  }

  // ---------- what a plan names ----------

  /** a is the action want w takes against the records of managed and relics. */
  ghost predicate ActsFor(a: Action, w: Want, managed: map<string, Record>, relics: map<string, Record>) {
    (a.kind.Add? && a.record == w.record && w.edgeID !in managed)
    || (IsWrite(a) && a.record == w.record.(id := a.recordID)
        && if w.edgeID in managed then a.recordID == managed[w.edgeID].id && !Converged(managed[w.edgeID], w.record)
           else w.record.value in relics && a.recordID == relics[w.record.value].id)
  }

  lemma {:induction false} PlanTargets(ws: seq<Want>, managed: map<string, Record>, relics: map<string, Record>)
    requires forall i, j :: 0 <= i < j < |ws| ==> ws[i].edgeID != ws[j].edgeID
    ensures forall a :: a in PlanWants(ws, managed, relics).acts ==>
              exists i :: 0 <= i < |ws| && ActsFor(a, ws[i], managed, relics)
    decreases |ws|
  {
    if ws == [] {
    } else {
      var managed', relics' := managed - {ws[0].edgeID}, RelicsLeft(ws[0], managed, relics);
      PlanTargets(ws[1..], managed', relics');
      hide Converged, WriteKind, PlanWants;
      var rest := PlanWants(ws[1..], managed', relics').acts;
      forall a | a in Turn(ws[0], managed, relics) + rest
        ensures exists i :: 0 <= i < |ws| && ActsFor(a, ws[i], managed, relics)
      {
        if a in Turn(ws[0], managed, relics) {
          WriteKindWrites(ws[0], managed, relics);
          assert ActsFor(a, ws[0], managed, relics);
        } else {
          var i :| 0 <= i < |ws[1..]| && ActsFor(a, ws[1..][i], managed', relics');
          assert ws[1..][i] == ws[i + 1];
          Unclaimed(a, ws[i + 1], ws[0], managed, relics);
        }
      }
      assert PlanWants(ws, managed, relics).acts == Turn(ws[0], managed, relics) + rest by { PlanWantsHead(ws, managed, relics); }
    }
  }

  lemma WriteKindWrites(w: Want, managed: map<string, Record>, relics: map<string, Record>)
    ensures forall a :: a in Turn(w, managed, relics) ==> a.kind.Add? || IsWrite(a)
  {
  }

  lemma PlanWantsHead(ws: seq<Want>, managed: map<string, Record>, relics: map<string, Record>)
    requires ws != []
    ensures PlanWants(ws, managed, relics).acts ==
            Turn(ws[0], managed, relics) + PlanWants(ws[1..], managed - {ws[0].edgeID}, RelicsLeft(ws[0], managed, relics)).acts
  {
  }

  lemma Unclaimed(a: Action, w: Want, first: Want, managed: map<string, Record>, relics: map<string, Record>)
    requires ActsFor(a, w, managed - {first.edgeID}, RelicsLeft(first, managed, relics))
    requires w.edgeID != first.edgeID
    ensures ActsFor(a, w, managed, relics)
  {
  }

  /** a is a write some want takes, or the delete of an unwanted managed record. */
  ghost predicate Legal(a: Action, ws: seq<Want>, managed: map<string, Record>, relics: map<string, Record>) {
    (exists j :: 0 <= j < |ws| && ActsFor(Planned(a), ws[j], managed, relics))
    || (a.kind.Remove? && a.edgeID in managed && a.recordID == managed[a.edgeID].id && !Wanted(ws, a.edgeID))
  }

  /** log carries out a prefix of plan, in order. An add whose reply was lost is sent
      again and then made once more; repeated updates and deletes change nothing. */
  ghost predicate Carries(plan: seq<Action>, log: seq<Action>)
    decreases |log|
  {
    log == [] ||
    (plan != [] && Planned(log[0]) == plan[0]
     && (Carries(plan[1..], log[1..]) || (plan[0].kind.Add? && Carries(plan, log[1..]))))
  }

  /** No add was made more than once. */
  ghost predicate Once(log: seq<Action>) {
    forall i, j :: 0 <= i < j < |log| && log[i].kind.Add? && log[j].kind.Add? ==> Planned(log[i]) != Planned(log[j])
  }

  lemma {:induction false} PrefixCarries(plan: seq<Action>, log: seq<Action>)
    requires |log| <= |plan| && PlannedAll(log) == plan[..|log|]
    ensures Carries(plan, log)
    decreases |log|
  {
    hide Planned;
    if log == [] {
    } else {
      assert PlannedAll(log)[0] == Planned(log[0]);
      assert PlannedAll(log[1..]) == PlannedAll(log)[1..] == plan[1..][..|log| - 1];
      PrefixCarries(plan[1..], log[1..]);
    }
  }

  /** When every add was made once, what was carried out is simply a prefix. */
  lemma {:induction false} OnceIsPrefix(plan: seq<Action>, log: seq<Action>)
    requires Carries(plan, log) && Once(log)
    ensures |log| <= |plan| && PlannedAll(log) == plan[..|log|]
    decreases |log|
  {
    if log == [] {
    } else {
      var rest := log[1..];
      assert forall i :: 0 <= i < |rest| ==> rest[i] == log[i + 1];
      assert rest != [] ==> rest[0] == log[1];
      OnceIsPrefix(plan[1..], rest);
      assert PlannedAll(log) == [Planned(log[0])] + PlannedAll(rest);
    }
  }

  lemma {:induction false} CarriedAreOfPlan(plan: seq<Action>, log: seq<Action>)
    requires Carries(plan, log)
    ensures forall i :: 0 <= i < |log| ==> Planned(log[i]) in plan
    decreases |log|
  {
    hide Planned;
    if log == [] {
    } else {
      var rest, again := log[1..], if Carries(plan[1..], log[1..]) then plan[1..] else plan;
      assert plan == [plan[0]] + plan[1..];
      CarriedAreOfPlan(again, rest);
      forall i | 0 <= i < |log| ensures Planned(log[i]) in plan {
        if i > 0 { assert log[i] == rest[i - 1]; }
      }
    }
  }

  /** log is what was executed of some plan for p before a call failed. */
  ghost predicate CutPlan(log: seq<Action>, p: Progress) {
    exists plan: seq<Action> :: IsPlan(plan, p) && Carries(plan, log)
  }

  lemma PrefixIsCut(plan: seq<Action>, log: seq<Action>, p: Progress)
    requires IsPlan(plan, p) && |log| <= |plan| && PlannedAll(log) == plan[..|log|]
    ensures CutPlan(log, p)
  {
    hide IsPlan;
    PrefixCarries(plan, log);
  }

  lemma WholeCarries(plan: seq<Action>, log: seq<Action>)
    requires PlannedAll(log) == plan
    ensures Carries(plan, log)
  {
    assert |PlannedAll(log)| == |log| && plan[..|log|] == plan;
    PrefixCarries(plan, log);
  }

  lemma WholeIsCut(log: seq<Action>, p: Progress)
    requires IsPlan(PlannedAll(log), p)
    ensures CutPlan(log, p)
  {
    hide IsPlan, Carries;
    WholeCarries(PlannedAll(log), log);
  }

  lemma {:induction false} TurnsDiffer(ws: seq<Want>, managed: map<string, Record>, relics: map<string, Record>)
    requires forall i, j :: 0 <= i < j < |ws| ==> ws[i].edgeID != ws[j].edgeID
    ensures var acts := PlanWants(ws, managed, relics).acts;
            (forall i, j :: 0 <= i < j < |acts| ==> acts[i].edgeID != acts[j].edgeID)
            && forall i :: 0 <= i < |acts| ==> Wanted(ws, acts[i].edgeID)
    decreases |ws|
  {
    if ws == [] {
    } else {
      var t, later := Turn(ws[0], managed, relics), ws[1..];
      var rest := PlanWants(later, managed - {ws[0].edgeID}, RelicsLeft(ws[0], managed, relics)).acts;
      assert forall i :: 0 <= i < |later| ==> later[i] == ws[i + 1];
      assert forall i :: 0 <= i < |t| ==> t[i].edgeID == ws[0].edgeID;
      PlanWantsHead(ws, managed, relics);
      TurnsDiffer(later, managed - {ws[0].edgeID}, RelicsLeft(ws[0], managed, relics));
      hide PlanWants, Turn;
      forall k ensures Wanted(ws, k) <==> k == ws[0].edgeID || Wanted(later, k) { WantedCons(ws, k); }
      assert !Wanted(later, ws[0].edgeID);
      hide Wanted;
      var acts := t + rest;
      forall i | 0 <= i < |acts| ensures Wanted(ws, acts[i].edgeID) && (i >= |t| ==> Wanted(later, acts[i].edgeID)) {
        if i >= |t| { assert acts[i] == rest[i - |t|]; }
      }
    }
  }

  /** A plan executed call by call as far as it goes makes no add twice. */
  lemma PrefixIsOnce(ws: seq<Want>, managed: map<string, Record>, relics: map<string, Record>, plan: seq<Action>, log: seq<Action>)
    requires forall i, j :: 0 <= i < j < |ws| ==> ws[i].edgeID != ws[j].edgeID
    requires IsPlan(plan, PlanWants(ws, managed, relics)) && |log| <= |plan| && PlannedAll(log) == plan[..|log|]
    ensures Once(log)
  {
    hide PlanWants, RemoveAction, Wanted;
    TurnsDiffer(ws, managed, relics);
    var acts := PlanWants(ws, managed, relics).acts;
    forall i | 0 <= i < |log| && log[i].kind.Add? ensures i < |acts| && Planned(log[i]) == acts[i] {
      assert PlannedAll(log)[i] == Planned(log[i]) == plan[i];
      if i >= |acts| {
        assert plan[|acts|..][i - |acts|] == plan[i];
        RemoveFields(plan[i].edgeID, PlanWants(ws, managed, relics).managed[plan[i].edgeID]);
      } else {
        assert plan[..|acts|][i] == plan[i];
      }
    }
  }

  lemma WholeIsOnce(ws: seq<Want>, managed: map<string, Record>, relics: map<string, Record>, log: seq<Action>)
    requires forall i, j :: 0 <= i < j < |ws| ==> ws[i].edgeID != ws[j].edgeID
    requires IsPlan(PlannedAll(log), PlanWants(ws, managed, relics))
    ensures Once(log)
  {
    hide PlanWants, IsPlan;
    assert |PlannedAll(log)| == |log|;
    assert PlannedAll(log)[..|log|] == PlannedAll(log);
    PrefixIsOnce(ws, managed, relics, PlannedAll(log), log);
  }

  lemma LogIsLegal(ws: seq<Want>, managed: map<string, Record>, relics: map<string, Record>, log: seq<Action>)
    requires forall i, j :: 0 <= i < j < |ws| ==> ws[i].edgeID != ws[j].edgeID
    requires CutPlan(log, PlanWants(ws, managed, relics))
    ensures forall i :: 0 <= i < |log| ==> Legal(log[i], ws, managed, relics)
  {
    hide PlanWants, ActsFor, Wanted, RemoveAction, Carries, Planned;
    var p := PlanWants(ws, managed, relics);
    PlanTargets(ws, managed, relics);
    LeftoverKeys(ws, managed, relics);
    var plan: seq<Action> :| IsPlan(plan, p) && Carries(plan, log);
    CarriedAreOfPlan(plan, log);
    var rm := plan[|p.acts|..];
    forall i | 0 <= i < |log| ensures Legal(log[i], ws, managed, relics) {
      var k :| 0 <= k < |plan| && plan[k] == Planned(log[i]);
      if k < |p.acts| {
        assert plan[..|p.acts|][k] == plan[k];
        assert Planned(log[i]) in p.acts;
      } else {
        assert plan[k] == rm[k - |p.acts|];
        RemoveFields(plan[k].edgeID, p.managed[plan[k].edgeID]);
        PlannedFields(log[i]);
      }
    }
  }

  lemma PlannedFields(a: Action)
    ensures Planned(a).kind == a.kind && Planned(a).edgeID == a.edgeID && (!a.kind.Add? ==> Planned(a) == a)
  {
  }

  lemma RemoveFields(k: string, r: Record)
    ensures RemoveAction(k, r).kind.Remove? && RemoveAction(k, r).recordID == r.id
  {
  }

  /** The listing holds what its index says. */
  lemma IndexMembers(sc: Scope, rs: seq<Record>)
    ensures forall k :: k in Index(sc, rs) <==> At(sc, k, rs) != []
    ensures forall k :: k in Index(sc, rs) ==> Index(sc, rs)[k] in rs && Key(sc, Index(sc, rs)[k]) == Some(k)
  {
    hide Key, At, Index;
    forall k ensures k in Index(sc, rs) <==> At(sc, k, rs) != []
      ensures k in Index(sc, rs) ==> Index(sc, rs)[k] in rs && Key(sc, Index(sc, rs)[k]) == Some(k)
    {
      IndexIsLast(sc, k, rs);
      AtMembers(sc, k, rs);
      if k in Index(sc, rs) {
        assert Index(sc, rs)[k] in At(sc, k, rs);
      }
    }
  }

  /** A complete plan, executed on the listing it was computed from, stays away
      from every key of another class that holds neither the managed records nor
      the adopted ones. */
  lemma PlanSeparate(sc: Scope, other: Scope, k: string, rs: seq<Record>, ws: seq<Want>,
                     relics: map<string, Record>, log: seq<Action>)
    requires DistinctIDs(rs) && WantsOK(sc, ws) && RelicsOK(sc, rs, relics)
    requires forall i :: 0 <= i < |log| ==> Legal(log[i], ws, Index(sc, rs), relics)
    requires forall i :: 0 <= i < |ws| ==> Key(other, ws[i].record) != Some(k)
    requires forall r :: r in rs && Key(sc, r).Some? ==> Key(other, r) != Some(k)
    requires forall i :: 0 <= i < |ws| && ws[i].record.value in relics ==> Key(other, relics[ws[i].record.value]) != Some(k)
    ensures SeparateAt(other, k, rs, log)
  {
    hide Key, At, Index, Wanted, RelicsOK, DistinctIDs;
    var m := Index(sc, rs);
    IndexMembers(sc, rs);
    forall i | 0 <= i < |log| ensures SeparateAt(other, k, rs, [log[i]]) {
      if log[i].kind.Remove? {
        assert Legal(log[i], ws, m, relics);
        NamesOnly(rs, m[log[i].edgeID], log[i].recordID);
      } else {
        var j :| 0 <= j < |ws| && ActsFor(Planned(log[i]), ws[j], m, relics);
        WriteSeparate(sc, other, k, rs, ws[j], m, relics, log[i]);
      }
    }
    forall i | 0 <= i < |log| ensures
      (log[i].kind.Remove? || (log[i].record.comment != "" && Key(other, log[i].record) != Some(k)))
      && (log[i].kind.Add? || forall r :: r in rs && r.id == log[i].recordID ==> Key(other, r) != Some(k))
    {
      assert [log[i]][0] == log[i];
    }
  }

  lemma NamesOnly(rs: seq<Record>, x: Record, id: int)
    requires DistinctIDs(rs) && x in rs && x.id == id
    ensures forall r :: r in rs && r.id == id ==> r == x
  {
  }

  lemma WriteSeparate(sc: Scope, other: Scope, k: string, rs: seq<Record>, w: Want, m: map<string, Record>,
                      relics: map<string, Record>, a: Action)
    requires DistinctIDs(rs) && RelicsOK(sc, rs, relics)
    requires forall e :: e in m ==> m[e] in rs && Key(sc, m[e]).Some?
    requires forall r :: r in rs && Key(sc, r).Some? ==> Key(other, r) != Some(k)
    requires w.record.value in relics ==> Key(other, relics[w.record.value]) != Some(k)
    requires ActsFor(Planned(a), w, m, relics) && w.record.comment != "" && Key(other, w.record) != Some(k)
    ensures SeparateAt(other, k, rs, [a])
  {
    KeyOfBody(other, w.record, w.record, a.recordID);
    hide Key;
    if !a.kind.Add? {
      var x := if w.edgeID in m then m[w.edgeID] else relics[w.record.value];
      NamesOnly(rs, x, a.recordID);
    }
  }

  /** Non-interference. A record outside the class that no unmatched want adopts
      is unchanged. */
  lemma PlanTouchesOnlyItsOwn(sc: Scope, rs: seq<Record>, ws: seq<Want>, relics: map<string, Record>, log: seq<Action>, r: Record)
    requires DistinctIDs(rs) && RelicsOK(sc, rs, relics)
    requires forall i :: 0 <= i < |log| ==> Legal(log[i], ws, Index(sc, rs), relics)
    requires r in rs && Key(sc, r).None?
    requires forall i :: 0 <= i < |ws| && At(sc, ws[i].edgeID, rs) == [] && ws[i].record.value in relics ==> relics[ws[i].record.value] != r
    ensures r in Execute(rs, log)
  {
    hide Key, At, Index, Execute, Wanted;
    var m := Index(sc, rs);
    IndexMembers(sc, rs);
    forall i | 0 <= i < |log| && !log[i].kind.Add? ensures log[i].recordID != r.id {
      if log[i].kind.Remove? {
        NamesOnly(rs, m[log[i].edgeID], log[i].recordID);
      } else {
        var j :| 0 <= j < |ws| && ActsFor(Planned(log[i]), ws[j], m, relics);
        NamesOnly(rs, if ws[j].edgeID in m then m[ws[j].edgeID] else relics[ws[j].record.value], log[i].recordID);
      }
    }
    UntouchedSurvives(rs, log, r);
  }

  lemma {:induction false} NewRecordsAreWritten(sc: Scope, rs: seq<Record>, log: seq<Action>)
    requires forall i :: 0 <= i < |log| ==> log[i].kind.Remove? || (log[i].record.comment != "" && Key(sc, log[i].record).Some?)
    ensures forall r :: r in Execute(rs, log) ==> r in rs || Key(sc, r).Some?
    decreases |log|
  {
    if log == [] {
    } else {
      var a := log[0];
      forall r | r in Step(rs, a) && r !in rs ensures Key(sc, r).Some? {
        WithoutMembers(rs, a.recordID);
        if !a.kind.Remove? {
          KeyOfBody(sc, a.record, a.record, a.recordID);
          if !a.kind.Add? {
            var i :| 0 <= i < |rs| && Step(rs, a)[i] == r;
            KeyOfBody(sc, rs[i], a.record, a.record.id);
            assert a.record.(id := a.record.id) == a.record;
          }
        }
      }
      hide Key, Step;
      var rest := log[1..];
      assert forall i :: 0 <= i < |rest| ==> rest[i] == log[i + 1];
      NewRecordsAreWritten(sc, Step(rs, a), rest);
    }
  }

  /** Whatever a plan changed or created belongs to its class afterwards. */
  lemma PlanWritesOnlyItsOwn(sc: Scope, rs: seq<Record>, ws: seq<Want>, m: map<string, Record>, relics: map<string, Record>, log: seq<Action>)
    requires WantsOK(sc, ws)
    requires forall i :: 0 <= i < |log| ==> Legal(log[i], ws, m, relics)
    ensures forall r :: r in Execute(rs, log) ==> r in rs || Key(sc, r).Some?
  {
    hide Key, Execute, Wanted;
    forall i | 0 <= i < |log| ensures log[i].kind.Remove? || (log[i].record.comment != "" && Key(sc, log[i].record).Some?) {
      if !log[i].kind.Remove? {
        var j :| 0 <= j < |ws| && ActsFor(Planned(log[i]), ws[j], m, relics);
        KeyOfBody(sc, ws[j].record, ws[j].record, log[i].recordID);
      }
    }
    NewRecordsAreWritten(sc, rs, log);
  }
}

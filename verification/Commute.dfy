/** The apex plan and a zone's plan in either order: the same records at the end, up
    to the order and the ids of the new ones. */
module Commute {
  import opened Records
  import opened Regions
  import opened Rotation
  import opened Reconcile
  import opened Converge
  import opened Frames
  import opened Recovery
  import opened ReconcilePass
  import opened ReconcileTheorems
  import opened ReconcileLaws
  import opened Live

  // ---------- old records and new ones ----------

  /** What a log does to records that were there before. */
  function NoAdds(log: seq<Action>): seq<Action> {
    if log == [] then [] else (if log[0].kind.Add? then [] else [log[0]]) + NoAdds(log[1..])
  }

  /** The records a log adds, as they are when it adds them. */
  function News(log: seq<Action>): seq<Record> {
    if log == [] then [] else (if log[0].kind.Add? then [log[0].record.(id := log[0].recordID)] else []) + News(log[1..])
  }

  lemma {:induction false} WithoutConcat(a: seq<Record>, b: seq<Record>, id: int)
    ensures Without(a + b, id) == Without(a, id) + Without(b, id)
  {
    if b == [] {
      assert a + b == a;
    } else {
      var front, last := b[..|b| - 1], b[|b| - 1];
      assert a + b == (a + front) + [last] && b == front + [last];
      WithoutConcat(a, front, id);
      WithoutSnoc(a + front, last, id);
      WithoutSnoc(front, last, id);
    }
  }

  /** A step acts on each part of the records by itself; an add goes to the end. */
  lemma StepSplits(a: seq<Record>, b: seq<Record>, x: Action)
    ensures Step(a + b, x) == (if x.kind.Add? then a else Step(a, x)) + Step(b, x)
  {
    hide Merge;
    match x.kind
    case Add =>
    case Remove => WithoutConcat(a, b, x.recordID);
    case _ => assert Merged(a + b, x.recordID, x.record) == Merged(a, x.recordID, x.record) + Merged(b, x.recordID, x.record);
  }

  lemma {:induction false} ExecuteSplits(a: seq<Record>, b: seq<Record>, log: seq<Action>)
    ensures Execute(a + b, log) == Execute(a, NoAdds(log)) + Execute(b, log)
    decreases |log|
  {
    hide Step;
    if log == [] {
    } else {
      var x, rest := log[0], log[1..];
      StepSplits(a, b, x);
      if x.kind.Add? {
        assert NoAdds(log) == [] + NoAdds(rest) == NoAdds(rest);
        ExecuteSplits(a, Step(b, x), rest);
      } else {
        assert NoAdds(log)[0] == x && NoAdds(log)[1..] == NoAdds(rest);
        ExecuteSplits(Step(a, x), Step(b, x), rest);
      }
    }
  }

  /** No update or delete of log names a record of b or one that log adds. */
  ghost predicate Avoids(log: seq<Action>, b: seq<Record>) {
    forall i :: 0 <= i < |log| && !log[i].kind.Add? ==>
      (forall r :: r in b ==> r.id != log[i].recordID)
      && (forall k :: 0 <= k < |log| && log[k].kind.Add? ==> log[k].recordID != log[i].recordID)
  }

  lemma {:induction false} OnlyAdds(b: seq<Record>, log: seq<Action>)
    requires Avoids(log, b)
    ensures Execute(b, log) == b + News(log)
    decreases |log|
  {
    if log == [] {
      assert b + News(log) == b;
    } else {
      var x, rest := log[0], log[1..];
      assert forall i :: 0 <= i < |rest| ==> rest[i] == log[i + 1];
      if x.kind.Add? {
        var r := x.record.(id := x.recordID);
        forall i | 0 <= i < |rest| && !rest[i].kind.Add? ensures rest[i].recordID != r.id {
          assert log[i + 1] == rest[i];
        }
        OnlyAdds(b + [r], rest);
        assert (b + [r]) + News(rest) == b + ([r] + News(rest));
      } else {
        if x.kind.Remove? { WithoutAbsent(b, x.recordID); } else { MergedAbsent(b, x.recordID, x.record); }
        assert Step(b, x) == b;
        OnlyAdds(b, rest);
        assert [] + News(rest) == News(rest);
      }
    }
  }

  /** Two runs, one after the other, that leave each other's new records alone. */
  lemma TwoRuns(rs: seq<Record>, f: seq<Action>, g: seq<Action>)
    requires Avoids(f, []) && Avoids(g, News(f))
    ensures Execute(Execute(rs, f), g) == Execute(Execute(rs, NoAdds(f)), NoAdds(g)) + News(f) + News(g)
  {
    hide Avoids, Execute, News, NoAdds;
    assert rs + [] == rs;
    ExecuteSplits(rs, [], f);
    OnlyAdds([], f);
    assert [] + News(f) == News(f);
    ExecuteSplits(Execute(rs, NoAdds(f)), News(f), g);
    OnlyAdds(News(f), g);
    var kept := Execute(Execute(rs, NoAdds(f)), NoAdds(g));
    assert kept + (News(f) + News(g)) == kept + News(f) + News(g);
  }

  // ---------- writes to different records commute ----------

  lemma StepsCommuteOn(r: Record, x: Action, y: Action)
    requires !x.kind.Add? && !y.kind.Add? && x.recordID != y.recordID
    ensures Step(Step([r], x), y) == Step(Step([r], y), x)
  {
    hide Merge;
    forall z: Action | !z.kind.Add? ensures Step([r], z) == (if r.id != z.recordID then [r] else if z.kind.Remove? then [] else [Merge(r, z.record)]) {
      assert [r][..0] == [] && Without([], z.recordID) == [];
    }
    forall z: Action, b: Record | !z.kind.Add? && z.recordID != r.id && b.id == r.id ensures Step([b], z) == [b] {
      assert [b][..0] == [] && Without([], z.recordID) == [];
    }
    forall z: Action | !z.kind.Add? ensures Step([], z) == [] { }
    MergeKeepsID(r, x.record);
    MergeKeepsID(r, y.record);
  }

  lemma MergeKeepsID(r: Record, body: Record)
    ensures Merge(r, body).id == r.id
  {
  }

  lemma {:induction false} StepsCommute(rs: seq<Record>, x: Action, y: Action)
    requires !x.kind.Add? && !y.kind.Add? && x.recordID != y.recordID
    ensures Step(Step(rs, x), y) == Step(Step(rs, y), x)
  {
    if rs == [] {
      assert Step([], x) == [] && Step([], y) == [];
    } else {
      hide Step;
      var front, last := rs[..|rs| - 1], [rs[|rs| - 1]];
      assert rs == front + last;
      StepsCommute(front, x, y);
      StepsCommuteOn(rs[|rs| - 1], x, y);
      StepSplits(front, last, x);
      StepSplits(front, last, y);
      StepSplits(Step(front, x), Step(last, x), y);
      StepSplits(Step(front, y), Step(last, y), x);
    }
  }

  ghost predicate NoneAdds(log: seq<Action>) {
    forall i :: 0 <= i < |log| ==> !log[i].kind.Add?
  }

  ghost predicate Apart(f: seq<Action>, g: seq<Action>) {
    forall i, k :: 0 <= i < |f| && 0 <= k < |g| ==> f[i].recordID != g[k].recordID
  }

  lemma {:induction false} StepPast(rs: seq<Record>, x: Action, g: seq<Action>)
    requires NoneAdds([x]) && NoneAdds(g) && Apart([x], g)
    ensures Execute(Step(rs, x), g) == Step(Execute(rs, g), x)
    decreases |g|
  {
    if g == [] {
    } else {
      assert [x][0] == x;
      StepsCommute(rs, x, g[0]);
      assert forall i :: 0 <= i < |g[1..]| ==> g[1..][i] == g[i + 1];
      StepPast(Step(rs, g[0]), x, g[1..]);
    }
  }

  lemma {:induction false} LogsCommute(rs: seq<Record>, f: seq<Action>, g: seq<Action>)
    requires NoneAdds(f) && NoneAdds(g) && Apart(f, g)
    ensures Execute(Execute(rs, f), g) == Execute(Execute(rs, g), f)
    decreases |f|
  {
    if f == [] {
    } else {
      assert forall i :: 0 <= i < |f[1..]| ==> f[1..][i] == f[i + 1];
      assert [f[0]][0] == f[0];
      LogsCommute(Step(rs, f[0]), f[1..], g);
      StepPast(rs, f[0], g);
    }
  }

  // ---------- two complete runs of one plan ----------

  ghost predicate SameUpToID(x: seq<Record>, y: seq<Record>) {
    |x| == |y| && forall i :: 0 <= i < |x| ==> y[i] == x[i].(id := y[i].id)
  }

  lemma SplitHead(x: Action, rest: seq<Action>)
    ensures NoAdds([x] + rest) == NoAdds([x]) + NoAdds(rest) && News([x] + rest) == News([x]) + News(rest)
  {
    assert [x][1..] == [] && ([x] + rest)[1..] == rest;
    assert NoAdds([]) == [] && News([]) == [];
  }

  lemma {:induction false} SplitConcat(f: seq<Action>, g: seq<Action>)
    ensures NoAdds(f + g) == NoAdds(f) + NoAdds(g) && News(f + g) == News(f) + News(g)
    decreases |f|
  {
    if f == [] {
      assert f + g == g;
    } else {
      hide *;
      var x, rest := f[0], f[1..];
      assert f == [x] + rest && f + g == [x] + (rest + g);
      SplitConcat(rest, g);
      SplitHead(x, rest);
      SplitHead(x, rest + g);
    }
  }

  lemma {:induction false} RemovesOnly(rm: seq<Action>)
    requires forall i :: 0 <= i < |rm| ==> rm[i].kind.Remove?
    ensures NoAdds(rm) == rm && News(rm) == []
  {
    if rm == [] {
    } else {
      RemovesOnly(rm[1..]);
      assert rm == [rm[0]] + rm[1..];
    }
  }

  lemma {:induction false} SamePlanned(f: seq<Action>, g: seq<Action>)
    requires PlannedAll(f) == PlannedAll(g)
    ensures NoAdds(f) == NoAdds(g) && SameUpToID(News(f), News(g))
    decreases |f|
  {
    PlannedHead(f, g);
    if f == [] {
    } else {
      hide PlannedAll;
      SamePlanned(f[1..], g[1..]);
    }
  }

  /** What a complete run of plan p does: its writes, then its deletes, in any order. */
  lemma RunParts(p: Progress, rs: seq<Record>, f: seq<Action>) returns (w: seq<Action>, rm: seq<Action>)
    requires IsPlan(PlannedAll(f), p)
    ensures PlannedAll(w) == p.acts && Removes(rm, p.managed, p.managed.Keys)
    ensures Execute(rs, NoAdds(f)) == DropAll(Execute(rs, NoAdds(w)), Targets(rm)) && News(f) == News(w)
  {
    hide *;
    w, rm := SplitLog(f, p);
    SameTargets(rm, rm, p.managed);
    SplitConcat(w, rm);
    RemovesOnly(rm);
    assert News(w) + [] == News(w);
    ExecuteConcat(rs, NoAdds(w), rm);
    DeletesDrop(Execute(rs, NoAdds(w)), rm);
  }

  lemma SameRuns(p: Progress, rs: seq<Record>, f: seq<Action>, g: seq<Action>)
    requires IsPlan(PlannedAll(f), p) && IsPlan(PlannedAll(g), p)
    ensures Execute(rs, NoAdds(f)) == Execute(rs, NoAdds(g)) && SameUpToID(News(f), News(g))
  {
    hide *;
    var fw, fr := RunParts(p, rs, f);
    var gw, gr := RunParts(p, rs, g);
    SamePlanned(fw, gw);
    SameTargets(fr, gr, p.managed);
    SameTargets(gr, fr, p.managed);
    assert Targets(fr) == Targets(gr);
  }

  // ---------- what a complete run names ----------

  /** Once deletes begin, nothing is added or written any more. */
  ghost predicate WritesFirst(log: seq<Action>) {
    forall i, j :: 0 <= i < j < |log| && log[i].kind.Remove? ==> log[j].kind.Remove?
  }

  lemma {:induction false} AddsAreNew(rs: seq<Record>, a: seq<Record>, log: seq<Action>)
    requires KeepsIDs(rs, a) && Accepted(a, log) && WritesFirst(log)
    ensures forall i :: 0 <= i < |log| && log[i].kind.Add? ==> !HasID(rs, log[i].recordID)
    decreases |log|
  {
    hide Step;
    if log == [] {
    } else {
      var rest := log[1..];
      assert forall i :: 0 <= i < |rest| ==> rest[i] == log[i + 1];
      if !log[0].kind.Remove? {
        StepKeepsIDs(rs, a, log[0]);
        AddsAreNew(rs, Step(a, log[0]), rest);
      }
    }
  }

  /** Updates and deletes name records of rs that are of class sc or among relics. */
  ghost predicate Names(sc: Scope, relics: map<string, Record>, rs: seq<Record>, log: seq<Action>) {
    forall i :: 0 <= i < |log| && !log[i].kind.Add? ==>
      exists r :: r in rs && r.id == log[i].recordID && (Key(sc, r).Some? || r in relics.Values)
  }

  /** Every add gets an id that no record of rs has. */
  ghost predicate NewIDs(rs: seq<Record>, log: seq<Action>) {
    forall i :: 0 <= i < |log| && log[i].kind.Add? ==> !HasID(rs, log[i].recordID)
  }

  lemma LogNames(sc: Scope, rs: seq<Record>, ws: seq<Want>, relics: map<string, Record>, log: seq<Action>)
    requires DistinctIDs(rs) && RelicsOK(sc, rs, relics) && WantsOK(sc, ws)
    requires CutPlan(log, PlanWants(ws, Index(sc, rs), relics))
    ensures Names(sc, relics, rs, log)
  {
    hide Key, At, PlanWants, Index, WantOK, CutPlan, Legal, RelicsOK, DistinctIDs;
    var m := Index(sc, rs);
    LogIsLegal(ws, m, relics, log);
    IndexMembers(sc, rs);
    forall i | 0 <= i < |log| && !log[i].kind.Add?
      ensures exists r :: r in rs && r.id == log[i].recordID && (Key(sc, r).Some? || r in relics.Values)
    {
      var r := NamedRecord(sc, rs, ws, m, relics, log[i]);
    }
  }

  lemma NamedRecord(sc: Scope, rs: seq<Record>, ws: seq<Want>, m: map<string, Record>, relics: map<string, Record>, a: Action)
    returns (r: Record)
    requires Legal(a, ws, m, relics) && !a.kind.Add? && RelicsOK(sc, rs, relics)
    requires forall k :: k in m ==> m[k] in rs && Key(sc, m[k]).Some?
    ensures r in rs && r.id == a.recordID && (Key(sc, r).Some? || r in relics.Values)
  {
    hide Key, Wanted, Converged;
    if a.kind.Remove? {
      r := m[a.edgeID];
    } else {
      var j :| 0 <= j < |ws| && ActsFor(Planned(a), ws[j], m, relics);
      r := if ws[j].edgeID in m then m[ws[j].edgeID] else relics[ws[j].record.value];
    }
  }

  lemma {:induction false} CarriedWritesFirst(plan: seq<Action>, log: seq<Action>)
    requires Carries(plan, log) && WritesFirst(plan)
    ensures WritesFirst(log)
    decreases |log|
  {
    if log == [] {
    } else if plan[0].kind.Remove? {
      CarriedAreOfPlan(plan, log);
      assert forall a :: a in plan ==> a.kind.Remove?;
    } else {
      var rest, again := log[1..], if Carries(plan[1..], log[1..]) then plan[1..] else plan;
      assert again == plan || forall i :: 0 <= i < |again| ==> again[i] == plan[i + 1];
      CarriedWritesFirst(again, rest);
      assert forall i :: 0 < i < |log| ==> log[i] == rest[i - 1];
    }
  }

  lemma PlanWritesFirst(plan: seq<Action>, p: Progress)
    requires IsPlan(plan, p) && forall a :: a in p.acts ==> !a.kind.Remove?
    ensures WritesFirst(plan)
  {
    hide RemoveAction;
    var n := |p.acts|;
    forall i | 0 <= i < |plan| ensures plan[i].kind.Remove? <==> i >= n {
      if i < n {
        assert plan[i] == plan[..n][i];
        assert plan[i] in p.acts;
      } else {
        assert plan[i] == plan[n..][i - n];
        RemoveFields(plan[i].edgeID, p.managed[plan[i].edgeID]);
      }
    }
  }

  lemma CutWritesFirst(sc: Scope, rs: seq<Record>, ws: seq<Want>, relics: map<string, Record>, log: seq<Action>)
    requires RelicsOK(sc, rs, relics) && WantsOK(sc, ws) && CutPlan(log, PlanWants(ws, Index(sc, rs), relics))
    ensures WritesFirst(log)
  {
    hide Key, At, PlanWants, Index, WantOK, IsPlan, Carries, RelicsOK, HasID, WritesFirst;
    var p := PlanWants(ws, Index(sc, rs), relics);
    var plan: seq<Action> :| IsPlan(plan, p) && Carries(plan, log);
    WritesNameLive(sc, rs, ws, relics);
    PlanWritesFirst(plan, p);
    CarriedWritesFirst(plan, log);
  }

  lemma LogNewIDs(sc: Scope, rs: seq<Record>, ws: seq<Want>, relics: map<string, Record>, log: seq<Action>)
    requires RelicsOK(sc, rs, relics) && WantsOK(sc, ws)
    requires CutPlan(log, PlanWants(ws, Index(sc, rs), relics)) && Accepted(rs, log)
    ensures NewIDs(rs, log)
  {
    hide Key, At, PlanWants, Index, WantsOK, CutPlan, RelicsOK, Accepted, HasID, WritesFirst, KeepsIDs;
    CutWritesFirst(sc, rs, ws, relics, log);
    SameAsItself(rs);
    AddsAreNew(rs, rs, log);
  }

  /** A run of log from state start, planned from listing rs, leaves alone the
      records of b, all new since rs, and its own. */
  lemma RunAvoids(sc: Scope, relics: map<string, Record>, rs: seq<Record>, start: seq<Record>, log: seq<Action>, b: seq<Record>)
    requires Names(sc, relics, rs, log) && Names(sc, relics, start, log) && NewIDs(start, log)
    requires forall r :: r in b ==> !HasID(rs, r.id)
    ensures Avoids(log, b)
  {
    hide Key;
    forall i | 0 <= i < |log| && !log[i].kind.Add? ensures HasID(rs, log[i].recordID) && HasID(start, log[i].recordID) {
      var r :| r in rs && r.id == log[i].recordID && (Key(sc, r).Some? || r in relics.Values);
      MemberHasID(rs, r);
      var s :| s in start && s.id == log[i].recordID && (Key(sc, s).Some? || s in relics.Values);
      MemberHasID(start, s);
    }
    hide HasID;
  }

  lemma {:induction false} NewsIDs(rs: seq<Record>, log: seq<Action>)
    requires NewIDs(rs, log)
    ensures forall r :: r in News(log) ==> !HasID(rs, r.id)
    decreases |log|
  {
    hide HasID;
    if log == [] {
    } else {
      assert forall i :: 0 <= i < |log[1..]| ==> log[1..][i] == log[i + 1];
      NewsIDs(rs, log[1..]);
    }
  }

  lemma {:induction false} NoAddsMembers(log: seq<Action>)
    ensures NoneAdds(NoAdds(log)) && forall a :: a in NoAdds(log) ==> a in log && !a.kind.Add?
  {
    if log == [] {
    } else {
      NoAddsMembers(log[1..]);
      assert log == [log[0]] + log[1..];
    }
  }

  lemma ClassesApart(rs: seq<Record>, a: Scope, relics: map<string, Record>, f: seq<Action>, b: Scope, g: seq<Action>)
    requires DistinctIDs(rs) && Names(a, relics, rs, f) && Names(b, map[], rs, g)
    requires forall r :: r in rs && (Key(a, r).Some? || r in relics.Values) ==> Key(b, r).None?
    ensures Apart(NoAdds(f), NoAdds(g))
  {
    hide Key, DistinctIDs;
    NoAddsMembers(f);
    NoAddsMembers(g);
    var f', g' := NoAdds(f), NoAdds(g);
    hide NoAdds;
    forall i, k | 0 <= i < |f'| && 0 <= k < |g'| ensures f'[i].recordID != g'[k].recordID {
      assert f'[i] in f' && g'[k] in g';
      var i' :| 0 <= i' < |f| && f[i'] == f'[i];
      var k' :| 0 <= k' < |g| && g[k'] == g'[k];
      var r :| r in rs && r.id == f[i'].recordID && (Key(a, r).Some? || r in relics.Values);
      var s :| s in rs && s.id == g[k'].recordID && Key(b, s).Some?;
      if r.id == s.id { NamesOnly(rs, s, s.id); }
    }
  }

  // ---------- the two orders ----------

  /** A view that did not change: what a log names in one listing it names in the other. */
  lemma NamesInView(sc: Scope, relics: map<string, Record>, a: seq<Record>, b: seq<Record>, log: seq<Action>)
    requires Names(sc, relics, a, log) && SameView(sc, a, b) && forall v :: v in relics ==> relics[v] in b
    ensures Names(sc, relics, b, log)
  {
    hide Key, At;
    forall r | r in a && Key(sc, r).Some? ensures r in b {
      AtMembers(sc, Key(sc, r).value, a);
      AtMembers(sc, Key(sc, r).value, b);
    }
  }

  lemma ApexNames(eps: seq<Endpoint>, o: Opts, rs: seq<Record>, start: seq<Record>, log: seq<Action>)
    requires DistinctEdges(eps) && o.ttl != 0 && DistinctIDs(start)
    requires SameView(Apex, start, rs) && SameView(Relics(o.routing), start, rs)
    requires IsPlan(PlannedAll(log), ApexProgress(eps, start, o)) && Accepted(start, log)
    ensures var relics := Index(Relics(o.routing), rs);
            Names(Apex, relics, rs, log) && Names(Apex, relics, start, log) && NewIDs(start, log)
  {
    hide *;
    var relics := Index(Relics(o.routing), start);
    ApexProgressIs(eps, start, o);
    ApexWantsOK(eps, o);
    ApexRelicsOK(start, o.routing);
    ApexRelicsOK(rs, o.routing);
    SameViewSameIndex(Relics(o.routing), start, rs);
    WholeIsCut(log, ApexProgress(eps, start, o));
    LogNames(Apex, start, ApexWants(eps, o), relics, log);
    LogNewIDs(Apex, start, ApexWants(eps, o), relics, log);
    RelicMembers(Apex, rs, relics);
    NamesInView(Apex, relics, start, rs, log);
  }

  lemma ApexProgressIs(eps: seq<Endpoint>, rs: seq<Record>, o: Opts)
    ensures ApexProgress(eps, rs, o) == PlanWants(ApexWants(eps, o), Index(Apex, rs), Index(Relics(o.routing), rs))
  {
  }

  lemma RelicMembers(sc: Scope, rs: seq<Record>, relics: map<string, Record>)
    requires RelicsOK(sc, rs, relics)
    ensures forall v :: v in relics ==> relics[v] in rs && Key(sc, relics[v]).None?
  {
  }

  lemma ZoneNames(zr: ZoneRouting, eps: seq<Endpoint>, o: Opts, routing: string, rs: seq<Record>, start: seq<Record>, log: seq<Action>)
    requires ZoneOK(zr, routing) && o.ttl != 0 && DistinctIDs(start) && SameView(ZoneScope(zr), start, rs)
    requires IsPlan(PlannedAll(log), ZoneProgress(zr, eps, start, o)) && Accepted(start, log)
    ensures Names(ZoneScope(zr), map[], rs, log) && Names(ZoneScope(zr), map[], start, log) && NewIDs(start, log)
  {
    hide *;
    ZoneProgressIs(zr, eps, start, o);
    ZoneWantsOK(zr, eps, o, routing);
    NoRelicsOK(ZoneScope(zr), start);
    WholeIsCut(log, ZoneProgress(zr, eps, start, o));
    LogNames(ZoneScope(zr), start, ZoneWants(zr, eps, o), map[], log);
    LogNewIDs(ZoneScope(zr), start, ZoneWants(zr, eps, o), map[], log);
    NamesInView(ZoneScope(zr), map[], start, rs, log);
  }

  lemma ZoneProgressIs(zr: ZoneRouting, eps: seq<Endpoint>, rs: seq<Record>, o: Opts)
    ensures ZoneProgress(zr, eps, rs, o) == PlanWants(ZoneWants(zr, eps, o), Index(ZoneScope(zr), rs), map[])
  {
  }

  lemma ApexZoneApart(rs: seq<Record>, zr: ZoneRouting, routing: string)
    requires ZoneOK(zr, routing)
    ensures forall r :: Key(Apex, r).Some? || r in Index(Relics(routing), rs).Values ==> Key(ZoneScope(zr), r).None?
  {
    hide Key, At, Index;
    IndexMembers(Relics(routing), rs);
    forall r | Key(Apex, r).Some? || r in Index(Relics(routing), rs).Values ensures Key(ZoneScope(zr), r).None? {
      if Key(ZoneScope(zr), r).Some? { ZoneApartFromApex(r, zr.zoneID, zr.name, routing); }
    }
  }

  lemma RelicsForeign(zr: ZoneRouting, routing: string)
    requires ZoneOK(zr, routing)
    ensures Foreign(zr, Relics(routing))
  {
  }

  /** The order of the apex plan and a zone's plan does not matter: apex first or
      zone first, every record that was there ends the same and the same records are
      added, up to their ids and their place in the list. */
  lemma EitherOrder(eps: seq<Endpoint>, rs: seq<Record>, o: Opts, zr: ZoneRouting, zo: Opts,
                    a: seq<Action>, z: seq<Action>, z2: seq<Action>, a2: seq<Action>)
    returns (kept: seq<Record>)
    requires DistinctEdges(eps) && o.ttl != 0 && zo.ttl != 0 && ZoneOK(zr, o.routing) && DistinctIDs(rs)
    requires IsPlan(PlannedAll(a), ApexProgress(eps, rs, o)) && Accepted(rs, a)
    requires IsPlan(PlannedAll(z), ZoneProgress(zr, eps, Execute(rs, a), zo)) && Accepted(Execute(rs, a), z)
    requires IsPlan(PlannedAll(z2), ZoneProgress(zr, eps, rs, zo)) && Accepted(rs, z2)
    requires IsPlan(PlannedAll(a2), ApexProgress(eps, Execute(rs, z2), o)) && Accepted(Execute(rs, z2), a2)
    ensures Execute(Execute(rs, a), z) == kept + News(a) + News(z)
    ensures Execute(Execute(rs, z2), a2) == kept + News(z2) + News(a2)
    ensures SameUpToID(News(a), News(a2)) && SameUpToID(News(z), News(z2))
  {
    hide *;
    var relics := Index(Relics(o.routing), rs);
    WholeIsCut(a, ApexProgress(eps, rs, o));
    WholeIsCut(z2, ZoneProgress(zr, eps, rs, zo));
    ApexAndZonePlansCommute(eps, rs, o, zr, zo, a, z2);
    assert Foreign(zr, Relics(o.routing)) by { RelicsForeign(zr, o.routing); }
    ZonePlanFrame(zr, eps, rs, zo, z2, o.routing, Relics(o.routing));
    ExecuteKeepsIDsDistinct(rs, a);
    ExecuteKeepsIDsDistinct(rs, z2);
    SameViewRefl(Apex, rs);
    SameViewRefl(Relics(o.routing), rs);
    SameViewRefl(ZoneScope(zr), rs);
    ApexNames(eps, o, rs, rs, a);
    ApexNames(eps, o, rs, Execute(rs, z2), a2);
    ZoneNames(zr, eps, zo, o.routing, rs, rs, z2);
    ZoneNames(zr, eps, zo, o.routing, rs, Execute(rs, a), z);
    NewsIDs(rs, a);
    NewsIDs(rs, z2);
    RunAvoids(Apex, relics, rs, rs, a, []);
    RunAvoids(ZoneScope(zr), map[], rs, Execute(rs, a), z, News(a));
    RunAvoids(ZoneScope(zr), map[], rs, rs, z2, []);
    RunAvoids(Apex, relics, rs, Execute(rs, z2), a2, News(z2));
    TwoRuns(rs, a, z);
    TwoRuns(rs, z2, a2);
    kept := Execute(Execute(rs, NoAdds(a)), NoAdds(z));
    SameRuns(ApexProgress(eps, rs, o), Execute(rs, NoAdds(z2)), a, a2);
    SameRuns(ZoneProgress(zr, eps, rs, zo), rs, z, z2);
    ApexZoneApart(rs, zr, o.routing);
    ClassesApart(rs, Apex, relics, a, ZoneScope(zr), z);
    NoAddsMembers(a);
    NoAddsMembers(z);
    LogsCommute(rs, NoAdds(a), NoAdds(z));
  }
}

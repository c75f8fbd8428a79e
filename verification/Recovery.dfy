/** Interrupted runs. Apply stops at the first failing call; the next reconcile
    plans afresh from what it finds. Together the two runs are one complete run of
    the first plan, and all complete runs of a plan end in the same record set. */
module Recovery {
  import opened Records
  import opened Reconcile
  import opened Converge
  import opened Frames

  // ---------- cutting a plan between two wants ----------

  lemma {:induction false} PlanSplit(ws: seq<Want>, j: nat, m: map<string, Record>, relics: map<string, Record>)
    requires j <= |ws|
    ensures var a := PlanWants(ws[..j], m, relics);
            var b := PlanWants(ws[j..], a.managed, a.relics);
            PlanWants(ws, m, relics) == Progress(a.acts + b.acts, b.managed, b.relics)
    decreases |ws|
  {
    hide Turn, RelicsLeft;
    if j == 0 {
      assert ws[0..] == ws;
    } else {
      var t, m', relics' := Turn(ws[0], m, relics), m - {ws[0].edgeID}, RelicsLeft(ws[0], m, relics);
      PlanSplit(ws[1..], j - 1, m', relics');
      assert ws[..j][1..] == ws[1..][..j - 1] && ws[1..][j - 1..] == ws[j..] && ws[..j][0] == ws[0];
      var a := PlanWants(ws[1..][..j - 1], m', relics');
      var b := PlanWants(ws[j..], a.managed, a.relics);
      assert t + (a.acts + b.acts) == (t + a.acts) + b.acts;
    }
  }

  /** Every want takes at most one action, so a prefix of the writes ends between
      two wants. */
  lemma {:induction false} CutBetweenWants(ws: seq<Want>, m: map<string, Record>, relics: map<string, Record>, n: nat) returns (j: nat)
    requires n <= |PlanWants(ws, m, relics).acts|
    ensures j <= |ws| && PlanWants(ws[..j], m, relics).acts == PlanWants(ws, m, relics).acts[..n]
    ensures n < |PlanWants(ws, m, relics).acts| ==> j < |ws|
    decreases |ws|
  {
    hide Turn, RelicsLeft;
    if n == 0 {
      j := 0;
    } else {
      var m', relics' := m - {ws[0].edgeID}, RelicsLeft(ws[0], m, relics);
      var t := Turn(ws[0], m, relics);
      var rest := PlanWants(ws[1..], m', relics').acts;
      var i := CutBetweenWants(ws[1..], m', relics', n - |t|);
      j := i + 1;
      assert ws[..j][0] == ws[0] && ws[..j][1..] == ws[1..][..i];
      assert (t + rest)[..n] == t + rest[..n - |t|];
    }
  }

  ghost predicate AgreeAt(a: map<string, Record>, b: map<string, Record>, v: string) {
    (v in a <==> v in b) && (v in a ==> a[v] == b[v])
  }

  lemma {:induction false} PlanCongruent(ws: seq<Want>, m: map<string, Record>, a: map<string, Record>, b: map<string, Record>)
    requires forall i :: 0 <= i < |ws| ==> AgreeAt(a, b, ws[i].record.value)
    ensures PlanWants(ws, m, a).acts == PlanWants(ws, m, b).acts
    ensures PlanWants(ws, m, a).managed == PlanWants(ws, m, b).managed
    decreases |ws|
  {
    hide Converged, WriteAction, AddAction;
    if ws == [] {
    } else {
      var rest := ws[1..];
      var a', b' := RelicsLeft(ws[0], m, a), RelicsLeft(ws[0], m, b);
      assert AgreeAt(a, b, ws[0].record.value);
      forall i | 0 <= i < |rest| ensures AgreeAt(a', b', rest[i].record.value) {
        assert rest[i] == ws[i + 1];
        assert AgreeAt(a, b, ws[i + 1].record.value);
      }
      PlanCongruent(rest, m - {ws[0].edgeID}, a', b');
    }
  }

  lemma {:induction false} RelicsUnclaimed(ws: seq<Want>, m: map<string, Record>, relics: map<string, Record>, v: string)
    requires forall i :: 0 <= i < |ws| ==> ws[i].record.value != v
    ensures AgreeAt(PlanWants(ws, m, relics).relics, relics, v)
    decreases |ws|
  {
    if ws == [] {
    } else {
      hide Turn;
      var rest := ws[1..];
      assert forall i :: 0 <= i < |rest| ==> rest[i] == ws[i + 1];
      RelicsUnclaimed(rest, m - {ws[0].edgeID}, RelicsLeft(ws[0], m, relics), v);
    }
  }

  lemma PrefixOK(sc: Scope, ws: seq<Want>, j: nat)
    requires WantsOK(sc, ws) && j <= |ws|
    ensures WantsOK(sc, ws[..j])
    ensures forall i :: j <= i < |ws| ==> !Wanted(ws[..j], ws[i].edgeID)
  {
    hide WantOK;
  }

  // ---------- planning afresh after a prefix of the writes ----------

  /** After the writes of the first j wants, a new index sees those wants settled
      and everything else as the interrupted planner still had it. */
  lemma IndexAfterPrefix(sc: Scope, rs: seq<Record>, ws: seq<Want>, relics: map<string, Record>, j: nat, log: seq<Action>)
    requires DistinctIDs(rs) && UniqueKeys(sc, rs) && RelicsOK(sc, rs, relics) && WantsOK(sc, ws) && j <= |ws|
    requires PlannedAll(log) == PlanWants(ws[..j], Index(sc, rs), relics).acts && Accepted(rs, log)
    ensures var m := Index(sc, Execute(rs, log));
            (forall i :: 0 <= i < j ==> ws[i].edgeID in m && Converged(m[ws[i].edgeID], ws[i].record))
            && (forall k :: !Wanted(ws[..j], k) ==> AgreeAt(m, PlanWants(ws[..j], Index(sc, rs), relics).managed, k))
  {
    hide Key, At, Execute, Accepted, PlannedAll, PlanWants, Converged, RelicsOK, Index, WantOK, DistinctIDs;
    var head := ws[..j];
    var m0 := Index(sc, rs);
    PrefixOK(sc, ws, j);
    IndexCoherent(sc, rs, head, relics);
    hide Coherent;
    RunWants(sc, rs, head, m0, relics, log);
    LeftoverKeys(head, m0, relics);
    var m := Index(sc, Execute(rs, log));
    forall i | 0 <= i < j ensures ws[i].edgeID in m && Converged(m[ws[i].edgeID], ws[i].record) {
      assert head[i] == ws[i];
      IndexIsLast(sc, ws[i].edgeID, Execute(rs, log));
    }
    forall k | !Wanted(head, k) ensures AgreeAt(m, PlanWants(head, m0, relics).managed, k) {
      IndexIsLast(sc, k, Execute(rs, log));
      IndexIsLast(sc, k, rs);
    }
  }

  /** The new plan is the unexecuted rest of the interrupted one. */
  lemma FreshPlanIsRest(sc: Scope, rs: seq<Record>, ws: seq<Want>, relics: map<string, Record>, j: nat, log: seq<Action>,
                        relisted: map<string, Record>)
    requires DistinctIDs(rs) && UniqueKeys(sc, rs) && RelicsOK(sc, rs, relics) && WantsOK(sc, ws) && j <= |ws|
    requires PlannedAll(log) == PlanWants(ws[..j], Index(sc, rs), relics).acts && Accepted(rs, log)
    requires forall i :: j <= i < |ws| ==> AgreeAt(relisted, PlanWants(ws[..j], Index(sc, rs), relics).relics, ws[i].record.value)
    ensures var mid := PlanWants(ws[..j], Index(sc, rs), relics);
            var rest := PlanWants(ws[j..], mid.managed, mid.relics);
            var p := PlanWants(ws, Index(sc, Execute(rs, log)), relisted);
            p.acts == rest.acts && p.managed == rest.managed
  {
    hide Key, At, Execute, Accepted, PlannedAll, PlanWants, Converged, RelicsOK, Index, WantOK, DistinctIDs;
    var m := Index(sc, Execute(rs, log));
    var mid := PlanWants(ws[..j], Index(sc, rs), relics);
    IndexAfterPrefix(sc, rs, ws, relics, j, log);
    PlanSplit(ws, j, m, relisted);
    var head := ws[..j];
    assert forall i :: 0 <= i < j ==> head[i] == ws[i];
    PlanFromConverged(head, m, relisted);
    LeftoverKeys(head, m, relisted);
    LeftoverKeys(head, Index(sc, rs), relics);
    assert PlanWants(head, m, relisted).managed == mid.managed by {
      forall k ensures AgreeAt(PlanWants(head, m, relisted).managed, mid.managed, k) {
        if !Wanted(head, k) { assert AgreeAt(m, mid.managed, k); }
      }
    }
    var tail := ws[j..];
    forall i | 0 <= i < |tail| ensures AgreeAt(relisted, mid.relics, tail[i].record.value) {
      assert tail[i] == ws[i + j];
    }
    PlanCongruent(tail, mid.managed, relisted, mid.relics);
  }

  // ---------- planning afresh after some of the deletes ----------

  ghost function Edges(rm: seq<Action>): set<string> {
    set i | 0 <= i < |rm| :: rm[i].edgeID
  }

  lemma RemovesPrefix(rm: seq<Action>, n: nat, m: map<string, Record>)
    requires Removes(rm, m, m.Keys) && n <= |rm|
    ensures Edges(rm[..n]) <= m.Keys && Removes(rm[..n], m, Edges(rm[..n]))
  {
    hide RemoveAction;
    forall k | k in Edges(rm[..n]) ensures k in m && exists i :: 0 <= i < n && rm[..n][i].edgeID == k {
      var i :| 0 <= i < |rm[..n]| && rm[..n][i].edgeID == k;
      assert rm[i].edgeID == k;
    }
  }

  lemma RemovesJoin(a: seq<Action>, b: seq<Action>, m: map<string, Record>, keys: set<string>, rest: map<string, Record>)
    requires keys <= m.Keys && Removes(a, m, keys) && Removes(b, rest, rest.Keys)
    requires rest.Keys == m.Keys - keys && forall k :: k in rest ==> rest[k] == m[k]
    ensures Removes(a + b, m, m.Keys)
  {
    hide RemoveAction;
    var c := a + b;
    forall k | k in m.Keys ensures exists i :: 0 <= i < |c| && c[i].edgeID == k {
      if k in keys {
        var i :| 0 <= i < |a| && a[i].edgeID == k;
        assert c[i].edgeID == k;
      } else {
        assert k in rest.Keys;
        var i :| 0 <= i < |b| && b[i].edgeID == k;
        assert c[|a| + i].edgeID == k;
      }
    }
  }

  lemma RestIsDeletes(sc: Scope, rs: seq<Record>, ws: seq<Want>, relics: map<string, Record>,
                      writes: seq<Action>, rm: seq<Action>, keys: set<string>, relisted: map<string, Record>)
    requires DistinctIDs(rs) && UniqueKeys(sc, rs) && RelicsOK(sc, rs, relics) && WantsOK(sc, ws)
    requires PlannedAll(writes) == PlanWants(ws, Index(sc, rs), relics).acts && Accepted(rs, writes)
    requires var left := PlanWants(ws, Index(sc, rs), relics).managed;
             keys <= left.Keys && Removes(rm, left, keys)
    ensures var p := PlanWants(ws, Index(sc, Execute(Execute(rs, writes), rm)), relisted);
            p.acts == [] && p.managed == PlanWants(ws, Index(sc, rs), relics).managed - keys
  {
    hide Key, At, Execute, Accepted, PlannedAll, PlanWants, Converged, RelicsOK, Index, WantOK, DistinctIDs, Removes, UniqueKeys;
    var left := PlanWants(ws, Index(sc, rs), relics).managed;
    var mid := Execute(rs, writes);
    var m := Index(sc, Execute(mid, rm));
    AfterWrites(sc, rs, ws, relics, writes);
    IndexCoherent(sc, rs, ws, relics);
    hide Coherent;
    RunWants(sc, rs, ws, Index(sc, rs), relics, writes);
    RunRemovals(sc, mid, rm, left, keys);
    forall i | 0 <= i < |ws| ensures ws[i].edgeID in m && Converged(m[ws[i].edgeID], ws[i].record) {
      assert Wanted(ws, ws[i].edgeID);
      IndexIsLast(sc, ws[i].edgeID, Execute(mid, rm));
    }
    PlanFromConverged(ws, m, relisted);
    LeftoverKeys(ws, m, relisted);
    var again := PlanWants(ws, m, relisted).managed;
    forall k ensures k in again <==> k in left - keys
      ensures k in again ==> again[k] == left[k]
    {
      IndexIsLast(sc, k, Execute(mid, rm));
    }
    assert again == left - keys;
  }

  // ---------- the resumed run is one run ----------

  /** The relics a new listing shows where the interrupted planner would still look. */
  ghost predicate RelicsStill(sc: Scope, rs: seq<Record>, ws: seq<Want>, relics: map<string, Record>, log: seq<Action>,
                              relisted: map<string, Record>)
  {
    forall j, i :: 0 <= j <= i < |ws| && PlannedAll(log) == PlanWants(ws[..j], Index(sc, rs), relics).acts ==>
      AgreeAt(relisted, PlanWants(ws[..j], Index(sc, rs), relics).relics, ws[i].record.value)
  }

  lemma ResumedInWrites(sc: Scope, rs: seq<Record>, ws: seq<Want>, relics: map<string, Record>, plan: seq<Action>,
                        log: seq<Action>, relisted: map<string, Record>, p: seq<Action>)
    requires DistinctIDs(rs) && UniqueKeys(sc, rs) && RelicsOK(sc, rs, relics) && WantsOK(sc, ws)
    requires IsPlan(plan, PlanWants(ws, Index(sc, rs), relics))
    requires |log| <= |PlanWants(ws, Index(sc, rs), relics).acts|
    requires PlannedAll(log) == plan[..|log|] && Accepted(rs, log)
    requires RelicsStill(sc, rs, ws, relics, log, relisted)
    requires IsPlan(p, PlanWants(ws, Index(sc, Execute(rs, log)), relisted))
    ensures IsPlan(plan[..|log|] + p, PlanWants(ws, Index(sc, rs), relics))
  {
    hide Key, At, Execute, Accepted, PlannedAll, PlanWants, Converged, RelicsOK, Index, WantsOK, DistinctIDs, Removes, UniqueKeys;
    var whole := PlanWants(ws, Index(sc, rs), relics);
    var again := PlanWants(ws, Index(sc, Execute(rs, log)), relisted);
    var n := |whole.acts|;
    var j := CutBetweenWants(ws, Index(sc, rs), relics, |log|);
    assert plan[..|log|] == plan[..n][..|log|];
    FreshPlanIsRest(sc, rs, ws, relics, j, log, relisted);
    PlanSplit(ws, j, Index(sc, rs), relics);
    assert whole.acts == plan[..|log|] + again.acts && whole.managed == again.managed;
    Glue(plan[..|log|], again.acts, p);
  }

  lemma Glue(a: seq<Action>, b: seq<Action>, p: seq<Action>)
    requires |b| <= |p| && p[..|b|] == b
    ensures |a + b| <= |a + p| && (a + p)[..|a + b|] == a + b && (a + p)[|a + b|..] == p[|b|..]
  {
    assert p == b + p[|b|..];
  }

  lemma ResumedInDeletes(sc: Scope, rs: seq<Record>, ws: seq<Want>, relics: map<string, Record>, plan: seq<Action>,
                         log: seq<Action>, relisted: map<string, Record>, p: seq<Action>)
    requires DistinctIDs(rs) && UniqueKeys(sc, rs) && RelicsOK(sc, rs, relics) && WantsOK(sc, ws)
    requires IsPlan(plan, PlanWants(ws, Index(sc, rs), relics))
    requires |PlanWants(ws, Index(sc, rs), relics).acts| <= |log| <= |plan|
    requires PlannedAll(log) == plan[..|log|] && Accepted(rs, log)
    requires IsPlan(p, PlanWants(ws, Index(sc, Execute(rs, log)), relisted))
    ensures IsPlan(plan[..|log|] + p, PlanWants(ws, Index(sc, rs), relics))
  {
    hide Key, At, Execute, Accepted, PlannedAll, PlanWants, Converged, RelicsOK, Index, WantsOK, DistinctIDs, Removes, UniqueKeys, Edges;
    var whole := PlanWants(ws, Index(sc, rs), relics);
    var again := PlanWants(ws, Index(sc, Execute(rs, log)), relisted);
    var n, c := |whole.acts|, plan[..|log|] + p;
    assert plan[..|log|] == whole.acts + plan[n..|log|];
    LogSplit(log, whole.acts, plan[n..|log|]);
    var writes, rm := log[..n], log[n..];
    assert plan[n..][..|plan[n..|log|]|] == plan[n..|log|];
    RemovesPrefix(plan[n..], |plan[n..|log|]|, whole.managed);
    RemovalsArePlanned(rm, whole.managed, Edges(PlannedAll(rm)));
    ExecuteConcat(rs, writes, rm);
    RestIsDeletes(sc, rs, ws, relics, writes, rm, Edges(rm), relisted);
    assert p[0..] == p;
    RemovesJoin(rm, p, whole.managed, Edges(rm), again.managed);
    assert c[..n] == whole.acts && c[n..] == rm + p;
  }

  /** Stop a plan anywhere, plan again on what is there, and the two runs together
      carry out one complete plan for the original listing. */
  lemma ResumedRunIsOnePlan(sc: Scope, rs: seq<Record>, ws: seq<Want>, relics: map<string, Record>, plan: seq<Action>,
                            log: seq<Action>, relisted: map<string, Record>, p: seq<Action>)
    requires DistinctIDs(rs) && UniqueKeys(sc, rs) && RelicsOK(sc, rs, relics) && WantsOK(sc, ws)
    requires IsPlan(plan, PlanWants(ws, Index(sc, rs), relics))
    requires |log| <= |plan| && PlannedAll(log) == plan[..|log|] && Accepted(rs, log)
    requires RelicsStill(sc, rs, ws, relics, log, relisted)
    requires IsPlan(p, PlanWants(ws, Index(sc, Execute(rs, log)), relisted))
    ensures IsPlan(plan[..|log|] + p, PlanWants(ws, Index(sc, rs), relics))
  {
    hide *;
    if |log| <= |PlanWants(ws, Index(sc, rs), relics).acts| {
      ResumedInWrites(sc, rs, ws, relics, plan, log, relisted, p);
    } else {
      ResumedInDeletes(sc, rs, ws, relics, plan, log, relisted, p);
    }
  }

  // ---------- all complete runs of a plan agree ----------

  /** Two records are the same, or were both created since listing rs and differ
      only in the id Bunny chose. */
  ghost predicate SameButID(rs: seq<Record>, a: Record, b: Record) {
    if HasID(rs, a.id) || HasID(rs, b.id) then a == b else a.(id := 0) == b.(id := 0)
  }

  ghost predicate SameButNewIDs(rs: seq<Record>, a: seq<Record>, b: seq<Record>) {
    |a| == |b| && forall i :: 0 <= i < |a| ==> SameButID(rs, a[i], b[i])
  }

  ghost predicate KeepsIDs(rs: seq<Record>, a: seq<Record>) {
    forall i :: 0 <= i < |rs| ==> HasID(a, rs[i].id)
  }

  lemma StepsAgree(rs: seq<Record>, a: seq<Record>, b: seq<Record>, x: Action, y: Action)
    requires SameButNewIDs(rs, a, b) && KeepsIDs(rs, a) && KeepsIDs(rs, b)
    requires Planned(x) == Planned(y) && !x.kind.Remove?
    requires x.kind.Add? ==> !HasID(a, x.recordID) && !HasID(b, y.recordID)
    requires !x.kind.Add? ==> HasID(rs, x.recordID)
    ensures SameButNewIDs(rs, Step(a, x), Step(b, y)) && KeepsIDs(rs, Step(a, x)) && KeepsIDs(rs, Step(b, y))
  {
    hide Merge;
    StepKeepsIDs(rs, a, x);
    StepKeepsIDs(rs, b, y);
    if x.kind.Add? {
      assert forall i :: 0 <= i < |rs| ==> rs[i].id != x.recordID && rs[i].id != y.recordID;
      assert SameButID(rs, x.record.(id := x.recordID), y.record.(id := y.recordID));
    } else {
      forall i | 0 <= i < |a| ensures SameButID(rs, Step(a, x)[i], Step(b, y)[i]) {
        assert SameButID(rs, a[i], b[i]);
      }
    }
  }

  lemma StepKeepsIDs(rs: seq<Record>, a: seq<Record>, x: Action)
    requires KeepsIDs(rs, a) && !x.kind.Remove?
    ensures KeepsIDs(rs, Step(a, x))
  {
    forall i | 0 <= i < |rs| ensures HasID(Step(a, x), rs[i].id) {
      var j :| 0 <= j < |a| && a[j].id == rs[i].id;
      assert Step(a, x)[j].id == rs[i].id;
    }
  }

  lemma PlannedHead(f: seq<Action>, g: seq<Action>)
    requires PlannedAll(f) == PlannedAll(g)
    ensures |f| == |g|
    ensures f != [] ==> Planned(f[0]) == Planned(g[0]) && f[0].kind == g[0].kind && PlannedAll(f[1..]) == PlannedAll(g[1..])
  {
    assert |f| == |PlannedAll(f)| == |PlannedAll(g)| == |g|;
    if f != [] {
      assert Planned(f[0]) == PlannedAll(f)[0] == PlannedAll(g)[0] == Planned(g[0]);
      assert PlannedAll(f[1..]) == PlannedAll(f)[1..] && PlannedAll(g[1..]) == PlannedAll(g)[1..];
    }
  }

  lemma {:induction false} WritesAgree(rs: seq<Record>, a: seq<Record>, b: seq<Record>, f: seq<Action>, g: seq<Action>)
    requires SameButNewIDs(rs, a, b) && KeepsIDs(rs, a) && KeepsIDs(rs, b)
    requires PlannedAll(f) == PlannedAll(g) && Accepted(a, f) && Accepted(b, g)
    requires forall i :: 0 <= i < |f| ==> !f[i].kind.Remove? && (f[i].kind.Add? || HasID(rs, f[i].recordID))
    ensures SameButNewIDs(rs, Execute(a, f), Execute(b, g))
    decreases |f|
  {
    hide SameButNewIDs, KeepsIDs, Step, HasID, PlannedAll, Planned;
    PlannedHead(f, g);
    if f == [] {
    } else {
      StepsAgree(rs, a, b, f[0], g[0]);
      WritesAgree(rs, Step(a, f[0]), Step(b, g[0]), f[1..], g[1..]);
    }
  }

  function DropAll(rs: seq<Record>, ids: set<int>): seq<Record> {
    if rs == [] then []
    else DropAll(rs[..|rs| - 1], ids) + if rs[|rs| - 1].id in ids then [] else [rs[|rs| - 1]]
  }

  ghost function Targets(rm: seq<Action>): set<int> {
    set i | 0 <= i < |rm| :: rm[i].recordID
  }

  lemma {:induction false} DropMore(rs: seq<Record>, id: int, ids: set<int>)
    ensures DropAll(Without(rs, id), ids) == DropAll(rs, ids + {id})
  {
    if rs == [] {
    } else {
      var front, last := rs[..|rs| - 1], rs[|rs| - 1];
      DropMore(front, id, ids);
      var w := Without(front, id);
      assert (w + [last])[..|w|] == w && w + [] == w;
    }
  }

  lemma {:induction false} DropNone(rs: seq<Record>)
    ensures DropAll(rs, {}) == rs
  {
    if rs == [] {
    } else {
      DropNone(rs[..|rs| - 1]);
      assert rs == rs[..|rs| - 1] + [rs[|rs| - 1]];
    }
  }

  lemma {:induction false} DeletesDrop(rs: seq<Record>, rm: seq<Action>)
    requires forall i :: 0 <= i < |rm| ==> rm[i].kind.Remove?
    ensures Execute(rs, rm) == DropAll(rs, Targets(rm))
    decreases |rm|
  {
    if rm == [] {
      DropNone(rs);
      assert Targets(rm) == {};
    } else {
      var rest := rm[1..];
      assert forall i :: 0 <= i < |rest| ==> rest[i] == rm[i + 1];
      assert rm[0].kind.Remove?;
      DeletesDrop(Without(rs, rm[0].recordID), rest);
      DropMore(rs, rm[0].recordID, Targets(rest));
      assert Targets(rm) == Targets(rest) + {rm[0].recordID};
    }
  }

  lemma {:induction false} DropsAgree(rs: seq<Record>, a: seq<Record>, b: seq<Record>, ids: set<int>)
    requires SameButNewIDs(rs, a, b) && forall id :: id in ids ==> HasID(rs, id)
    ensures SameButNewIDs(rs, DropAll(a, ids), DropAll(b, ids))
  {
    if a == [] {
    } else {
      assert SameButID(rs, a[|a| - 1], b[|b| - 1]);
      DropsAgree(rs, a[..|a| - 1], b[..|b| - 1], ids);
    }
  }

  lemma SameTargets(a: seq<Action>, b: seq<Action>, m: map<string, Record>)
    requires Removes(a, m, m.Keys) && Removes(b, m, m.Keys)
    ensures Targets(a) <= Targets(b)
    ensures forall i :: 0 <= i < |a| ==> a[i].kind.Remove? && a[i].edgeID in m && a[i].recordID == m[a[i].edgeID].id
  {
    forall id | id in Targets(a) ensures id in Targets(b) {
      var i :| 0 <= i < |a| && a[i].recordID == id;
      var j :| 0 <= j < |b| && b[j].edgeID == a[i].edgeID;
      assert b[j].recordID == id;
    }
  }

  /** Removal order and the ids of new records are all that can differ. */
  lemma CompleteRunsAgree(sc: Scope, rs: seq<Record>, ws: seq<Want>, relics: map<string, Record>, f: seq<Action>, g: seq<Action>)
    requires WantsOK(sc, ws) && RelicsOK(sc, rs, relics)
    requires IsPlan(PlannedAll(f), PlanWants(ws, Index(sc, rs), relics)) && Accepted(rs, f)
    requires IsPlan(PlannedAll(g), PlanWants(ws, Index(sc, rs), relics)) && Accepted(rs, g)
    ensures SameButNewIDs(rs, Execute(rs, f), Execute(rs, g))
  {
    hide Key, At, PlanWants, Index, Execute, Accepted, SameButNewIDs, ContentChanged, WantOK;
    var m := Index(sc, rs);
    var p := PlanWants(ws, m, relics);
    var fw, fr := SplitLog(f, p);
    var gw, gr := SplitLog(g, p);
    ExecuteConcat(rs, fw, fr);
    ExecuteConcat(rs, gw, gr);
    PlanTargets(ws, m, relics);
    IndexMembers(sc, rs);
    forall i | 0 <= i < |fw| ensures !fw[i].kind.Remove? && (fw[i].kind.Add? || HasID(rs, fw[i].recordID)) {
      assert Planned(fw[i]) == PlannedAll(fw)[i];
      assert Planned(fw[i]) in p.acts;
      var j :| 0 <= j < |ws| && ActsFor(Planned(fw[i]), ws[j], m, relics);
      if !fw[i].kind.Add? {
        MemberHasID(rs, if ws[j].edgeID in m then m[ws[j].edgeID] else relics[ws[j].record.value]);
      }
    }
    SameAsItself(rs);
    WritesAgree(rs, rs, rs, fw, gw);
    LeftoverKeys(ws, m, relics);
    SameTargets(fr, gr, p.managed);
    SameTargets(gr, fr, p.managed);
    DeletesDrop(Execute(rs, fw), fr);
    DeletesDrop(Execute(rs, gw), gr);
    forall id | id in Targets(fr) ensures HasID(rs, id) {
      var i :| 0 <= i < |fr| && fr[i].recordID == id;
      MemberHasID(rs, p.managed[fr[i].edgeID]);
    }
    DropsAgree(rs, Execute(rs, fw), Execute(rs, gw), Targets(fr));
    assert Targets(fr) == Targets(gr);
  }

  lemma MemberHasID(rs: seq<Record>, r: Record)
    requires r in rs
    ensures HasID(rs, r.id)
  {
    var i :| 0 <= i < |rs| && rs[i] == r;
  }

  lemma SameAsItself(rs: seq<Record>)
    ensures SameButNewIDs(rs, rs, rs) && KeepsIDs(rs, rs)
  {
    forall i | 0 <= i < |rs| ensures HasID(rs, rs[i].id) { MemberHasID(rs, rs[i]); }
  }
}

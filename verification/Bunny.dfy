/** The client of one Bunny zone (bunny.go, Apply of reconcile.go). A request may be
    lost on its way, and so may its reply; a lost one is sent again, up to four times.
    So a call can take effect although it fails, and an add can take effect twice. */
module Bunny {
  import opened Text
  import opened Records
  import opened Frames
  import opened ReconcilePass
  import opened Commute

  const MAX_ATTEMPTS := 4

  /** What the client sees of one attempt: a 2xx reply, one that is worth another
      attempt (429, 5xx, network), or one that is not. */
  datatype Reply = Success | Retryable | Refused

  /** What becomes of one attempt: whether the request arrives, which id Bunny would give
      a new record, and the reply. */
  datatype Try = Try(arrives: bool, newID: int, reply: Reply)

  // ---------- one request over a lossy network ----------

  function TargetOf(a: Action, t: Try): int {
    if a.kind.Add? then t.newID else a.recordID
  }

  /** An attempt that arrives is carried out if its record exists, or, for an add, if
      the id is unused. */
  ghost predicate Works(rs: seq<Record>, a: Action, t: Try) {
    t.arrives && HasID(rs, TargetOf(a, t)) == !a.kind.Add?
  }

  ghost function Tried(rs: seq<Record>, a: Action, t: Try): seq<Record> {
    if Works(rs, a, t) then Step(rs, a.(recordID := TargetOf(a, t))) else rs
  }

  /** What a request comes to, given what becomes of its attempts: the records, and the
      id if it was acknowledged. */
  ghost function Sent(rs: seq<Record>, a: Action, net: seq<Try>): (seq<Record>, Option<int>)
    decreases |net|
  {
    if net == [] then (rs, None)
    else if Works(rs, a, net[0]) && net[0].reply.Success? then (Tried(rs, a, net[0]), Some(TargetOf(a, net[0])))
    else if net[0].reply.Refused? then (Tried(rs, a, net[0]), None)
    else Sent(Tried(rs, a, net[0]), a, net[1..])
  }

  /** A request is acknowledged exactly when some attempt is carried out and answered
      so, and none before it was turned down. */
  lemma {:induction false} AcknowledgedIff(rs: seq<Record>, a: Action, net: seq<Try>)
    requires a.kind.Add? ==> forall i :: 0 <= i < |net| ==> !HasID(rs, net[i].newID)
    requires a.kind.Add? ==> forall i, j :: 0 <= i < j < |net| ==> net[i].newID != net[j].newID
    requires !a.kind.Remove?
    ensures Sent(rs, a, net).1.Some? <==>
            (a.kind.Add? || HasID(rs, a.recordID))
            && exists i :: 0 <= i < |net| && net[i].arrives && net[i].reply.Success? && forall k :: 0 <= k < i ==> !net[k].reply.Refused?
    decreases |net|
  {
    hide Step, HasID;
    if net == [] {
    } else {
      var rest := net[1..];
      assert forall i :: 0 <= i < |rest| ==> rest[i] == net[i + 1];
      TriedIDs(rs, a, net[0]);
      AcknowledgedIff(Tried(rs, a, net[0]), a, rest);
      hide Sent;
      if i :| 0 <= i < |rest| && rest[i].arrives && rest[i].reply.Success? && forall k :: 0 <= k < i ==> !rest[k].reply.Refused? {
        if !net[0].reply.Refused? {
          assert forall k :: 0 < k < i + 1 ==> net[k] == rest[k - 1];
          assert net[i + 1] == rest[i];
        }
      }
      if i :| 0 < i < |net| && net[i].arrives && net[i].reply.Success? && forall k :: 0 <= k < i ==> !net[k].reply.Refused? {
        assert rest[i - 1] == net[i];
      }
    }
  }

  /** An attempt changes no ids but, for an add, the new one. */
  lemma TriedIDs(rs: seq<Record>, a: Action, t: Try)
    requires !a.kind.Remove?
    ensures forall id :: HasID(rs, id) ==> HasID(Tried(rs, a, t), id)
    ensures forall id :: HasID(Tried(rs, a, t), id) && !(a.kind.Add? && id == t.newID) ==> HasID(rs, id)
  {
    var rs' := Tried(rs, a, t);
    forall id | HasID(rs, id) ensures HasID(rs', id) {
      var i :| 0 <= i < |rs| && rs[i].id == id;
      assert rs'[i].id == id;
    }
    forall id | HasID(rs', id) && !(a.kind.Add? && id == t.newID) ensures HasID(rs, id) {
      var i :| 0 <= i < |rs'| && rs'[i].id == id;
      if i < |rs| { assert rs[i].id == id; }
    }
  }

  /** A delete whose first carried-out attempt is not answered fails in the end, although
      it took effect. */
  lemma LostDeleteFails(rs: seq<Record>, a: Action, t: Try, net: seq<Try>)
    requires a.kind.Remove? && Works(rs, a, t) && t.reply.Retryable?
    ensures Sent(rs, a, [t] + net) == (Without(rs, a.recordID), None)
  {
    var rs' := Tried(rs, a, t);
    assert a.(recordID := a.recordID) == a;
    GoneAfterRemove(rs, a.recordID);
    assert ([t] + net)[1..] == net;
    GoneStays(rs', a, net);
  }

  lemma {:induction false} GoneStays(rs: seq<Record>, a: Action, net: seq<Try>)
    requires a.kind.Remove? && !HasID(rs, a.recordID)
    ensures Sent(rs, a, net) == (rs, None)
    decreases |net|
  {
    hide HasID;
    if net == [] {
    } else {
      GoneStays(rs, a, net[1..]);
    }
  }

  // ---------- logs of calls ----------

  /** log carries out all of plan. */
  ghost predicate Full(plan: seq<Action>, log: seq<Action>)
    decreases |log|
  {
    if log == [] then plan == []
    else
      plan != [] && Planned(log[0]) == plan[0]
      && (Full(plan[1..], log[1..]) || (plan[0].kind.Add? && Full(plan, log[1..])))
  }

  lemma {:induction false} FullThen(p: seq<Action>, f: seq<Action>, q: seq<Action>, g: seq<Action>)
    requires Full(p, f)
    ensures Carries(q, g) ==> Carries(p + q, f + g)
    ensures Full(q, g) ==> Full(p + q, f + g)
    decreases |f|
  {
    if f == [] {
      assert p + q == q && f + g == g;
    } else {
      assert (f + g)[0] == f[0] && (f + g)[1..] == f[1..] + g;
      assert (p + q)[0] == p[0] && (p + q)[1..] == p[1..] + q;
      if Full(p[1..], f[1..]) { FullThen(p[1..], f[1..], q, g); } else { FullThen(p, f[1..], q, g); }
    }
  }

  lemma FullCarries(p: seq<Action>, f: seq<Action>)
    requires Full(p, f)
    ensures Carries(p, f)
  {
    var none: seq<Action> := [];
    FullThen(p, f, none, none);
    assert p + none == p && f + none == f;
  }

  /** The calls that one planned action came to. */
  ghost predicate Attempts(a: Action, done: seq<Action>) {
    |done| <= MAX_ATTEMPTS && (forall i :: 0 <= i < |done| ==> Planned(done[i]) == Planned(a)) && (!a.kind.Add? ==> |done| <= 1)
  }

  lemma {:induction false} AttemptsCarry(a: Action, done: seq<Action>, later: seq<Action>)
    requires Attempts(a, done)
    ensures Carries([Planned(a)] + later, done)
    ensures done != [] ==> Full([Planned(a)], done)
    decreases |done|
  {
    hide Planned;
    if done == [] {
    } else {
      var plan, rest := [Planned(a)] + later, done[1..];
      assert plan[1..] == later && [Planned(a)][1..] == [] && plan[0] == Planned(done[0]);
      assert forall i :: 0 <= i < |rest| ==> rest[i] == done[i + 1];
      PlannedFields(a);
      AttemptsCarry(a, rest, later);
      assert rest == [] ==> Carries(later, rest) && Full([], rest);
    }
  }

  /** part leaves out some actions of whole. */
  ghost predicate Part(part: seq<Action>, whole: seq<Action>)
    decreases |whole|
  {
    part == [] ||
    (whole != [] && ((part[0] == whole[0] && Part(part[1..], whole[1..])) || Part(part, whole[1..])))
  }

  lemma {:induction false} PartOf(part: seq<Action>, whole: seq<Action>)
    requires Part(part, whole)
    ensures |part| <= |whole| && forall a :: a in part ==> a in whole
    ensures |part| == |whole| ==> part == whole
    decreases |whole|
  {
    if part == [] {
    } else if part[0] == whole[0] && Part(part[1..], whole[1..]) {
      PartOf(part[1..], whole[1..]);
      assert part == [part[0]] + part[1..] && whole == [whole[0]] + whole[1..];
    } else {
      PartOf(part, whole[1..]);
    }
  }

  lemma {:induction false} PartAppend(part: seq<Action>, whole: seq<Action>, more: seq<Action>)
    requires Part(part, whole)
    ensures Part(part, whole + more)
    ensures more != [] ==> Part(part + [more[|more| - 1]], whole + more)
    decreases |whole|
  {
    if whole == [] {
      assert whole + more == more && part == [];
      if more != [] { LastIsPart(more); }
      assert part + [] == part;
    } else {
      assert (whole + more)[0] == whole[0] && (whole + more)[1..] == whole[1..] + more;
      if part == [] {
        PartAppend(part, whole[1..], more);
      } else if part[0] == whole[0] && Part(part[1..], whole[1..]) {
        PartAppend(part[1..], whole[1..], more);
        if more != [] {
          var longer := part + [more[|more| - 1]];
          assert longer[0] == part[0] && longer[1..] == part[1..] + [more[|more| - 1]];
        }
      } else {
        PartAppend(part, whole[1..], more);
      }
    }
  }

  lemma {:induction false} LastIsPart(more: seq<Action>)
    requires more != []
    ensures Part([] + [more[|more| - 1]], more)
    decreases |more|
  {
    var last := [more[|more| - 1]];
    assert [] + last == last && last[1..] == [];
    if |more| == 1 {
    } else {
      LastIsPart(more[1..]);
    }
  }

  // ---------- one call ----------

  lemma MergeTwice(p: Record, body: Record)
    ensures Merge(Merge(p, body), body) == Merge(p, body)
  {
  }

  lemma AgainChangesNothing(rs: seq<Record>, a: Action)
    requires IsWrite(a)
    ensures Step(Step(rs, a), a) == Step(rs, a)
  {
    hide Merge;
    forall i | 0 <= i < |rs| ensures Step(Step(rs, a), a)[i] == Step(rs, a)[i] {
      MergeTwice(rs[i], a.record);
      MergeKeepsID(rs[i], a.record);
    }
  }

  lemma GoneAfterRemove(rs: seq<Record>, id: int)
    ensures !HasID(Without(rs, id), id)
  {
    WithoutMembers(rs, id);
    var left := Without(rs, id);
    forall i | 0 <= i < |left| ensures left[i].id != id { assert left[i] in left; }
  }

  lemma NothingYet(rs: seq<Record>)
    ensures Execute(rs, []) == rs && Accepted(rs, [])
  {
  }

  lemma OneMore(was: seq<Record>, log: seq<Action>, a: Action, now: seq<Record>)
    requires Accepted(was, log)
    requires HasID(Execute(was, log), a.recordID) == !a.kind.Add? && now == Step(Execute(was, log), a)
    ensures Accepted(was, log + [a]) && now == Execute(was, log + [a])
  {
    ExecuteConcat(was, log, [a]);
    assert [a][1..] == [];
  }

  /** done happened to the records was, and led to now. */
  ghost predicate Happened(was: seq<Record>, done: seq<Action>, now: seq<Record>) {
    Accepted(was, done) && now == Execute(was, done)
  }

  lemma NoneHappened(rs: seq<Record>)
    ensures Happened(rs, [], rs)
  {
  }

  lemma OneMoreHappened(was: seq<Record>, done: seq<Action>, mid: seq<Record>, a: Action)
    requires Happened(was, done, mid) && HasID(mid, a.recordID) == !a.kind.Add?
    ensures Happened(was, done + [a], Step(mid, a))
  {
    hide HasID, Step;
    OneMore(was, done, a, Step(mid, a));
  }

  lemma HappenedThen(was: seq<Record>, f: seq<Action>, mid: seq<Record>, g: seq<Action>, now: seq<Record>)
    requires Happened(was, f, mid) && Happened(mid, g, now)
    ensures Happened(was, f + g, now)
  {
    ExecuteConcat(was, f, g);
  }

  lemma OneAttempt(a: Action, done: seq<Action>)
    requires Attempts(a, done)
    ensures |done| == 1 ==> PlannedAll(done) == [Planned(a)]
  {
  }

  lemma NoAttempts(a: Action)
    ensures Attempts(a, [])
  {
  }

  lemma AttemptsMore(a: Action, done: seq<Action>, id: int)
    requires Attempts(a, done) && |done| < MAX_ATTEMPTS && (done == [] || a.kind.Add?) && (!a.kind.Add? ==> id == a.recordID)
    ensures Attempts(a, done + [a.(recordID := id)])
  {
  }

  /** rs is as an update or a delete leaves it. */
  ghost predicate Settles(a: Action, rs: seq<Record>) {
    (IsWrite(a) ==> Step(rs, a) == rs) && (a.kind.Remove? ==> !HasID(rs, a.recordID))
  }

  /** Once done, an update changes nothing when it is sent again, and a delete finds
      no record. */
  lemma SettledOnce(rs: seq<Record>, a: Action, id: int, done: seq<Action>)
    requires HasID(rs, id) == !a.kind.Add? && (!a.kind.Add? ==> id == a.recordID)
    requires !a.kind.Add? && done != [] ==> Settles(a, rs)
    ensures a.(recordID := a.recordID) == a
    ensures !a.kind.Add? ==> Settles(a, Step(rs, a))
    ensures !a.kind.Add? && done != [] ==> Step(rs, a) == rs
  {
    hide Step, HasID;
    if IsWrite(a) { AgainChangesNothing(rs, a); }
    if a.kind.Remove? { GoneAfterRemove(rs, a.recordID); assert Step(rs, a) == Without(rs, a.recordID) by { RemoveStep(rs, a); } }
  }

  lemma RemoveStep(rs: seq<Record>, a: Action)
    requires a.kind.Remove?
    ensures Step(rs, a) == Without(rs, a.recordID)
  {
  }

  lemma OneIs(was: seq<Record>, a: Action, done: seq<Action>, now: seq<Record>)
    requires Happened(was, done, now) && Attempts(a, done) && !a.kind.Add?
    ensures (done == [] && now == was) || (done == [a] && HasID(was, a.recordID) && now == Step(was, a))
    ensures a.(recordID := a.recordID) == a
  {
    if done != [] {
      PlannedFields(a);
      PlannedFields(done[0]);
      assert done[0] == a && done == [a] && done[1..] == [];
      hide Step, HasID;
      assert Execute(was, done) == Execute(Step(was, a), []);
    }
  }

  lemma {:induction false} AddsAre(was: seq<Record>, a: Action, done: seq<Action>, now: seq<Record>)
    requires Happened(was, done, now) && a.kind.Add? && forall i :: 0 <= i < |done| ==> Planned(done[i]) == Planned(a)
    ensures now == was + News(done) && |News(done)| == |done|
    ensures forall r :: r in News(done) ==> r == a.record.(id := r.id) && !HasID(was, r.id)
    ensures done != [] ==> done[|done| - 1].record.(id := done[|done| - 1].recordID) in News(done)
    ensures forall i :: 0 <= i < |done| ==> done[i].record == a.record
    decreases |done|
  {
    if done == [] {
    } else {
      var d, rest := done[0], done[1..];
      PlannedFields(d);
      hide Planned, HasID;
      var r := a.record.(id := d.recordID);
      assert forall i :: 0 <= i < |rest| ==> rest[i] == done[i + 1];
      assert d.record == a.record && Step(was, d) == was + [r];
      AddsAre(was + [r], a, rest, now);
      assert (was + [r]) + News(rest) == was + ([r] + News(rest));
      forall id | HasID(was, id) ensures HasID(was + [r], id) { MoreIDs(was, r, id); }
    }
  }

  lemma MoreIDs(rs: seq<Record>, r: Record, id: int)
    requires HasID(rs, id)
    ensures HasID(rs + [r], id)
  {
    var i :| 0 <= i < |rs| && rs[i].id == id;
    assert (rs + [r])[i].id == id;
  }

  lemma PlannedSnoc(log: seq<Action>, a: Action, plan: seq<Action>, i: nat)
    requires i < |plan| && |log| == i && PlannedAll(log) == PlannedAll(plan[..i]) && Planned(a) == Planned(plan[i])
    ensures PlannedAll(log + [a]) == PlannedAll(plan[..i + 1])
  {
    forall j | 0 <= j < i + 1 ensures PlannedAll(log + [a])[j] == PlannedAll(plan[..i + 1])[j] {
      if j < i {
        assert PlannedAll(log)[j] == PlannedAll(plan[..i])[j];
      }
    }
  }

  lemma {:induction false} FullLength(p: seq<Action>, f: seq<Action>)
    requires Full(p, f)
    ensures |f| >= |p| && (|f| == |p| ==> PlannedAll(f) == p)
    decreases |f|
  {
    if f == [] {
    } else {
      if Full(p[1..], f[1..]) { FullLength(p[1..], f[1..]); } else { FullLength(p, f[1..]); }
      assert PlannedAll(f) == [Planned(f[0])] + PlannedAll(f[1..]);
    }
  }

  /** applied is what Apply reports after i planned actions, and done what happened. */
  ghost predicate Applied(plan: seq<Action>, i: nat, applied: seq<Action>, done: seq<Action>) {
    i == |applied| <= |plan| && PlannedAll(applied) == PlannedAll(plan[..i]) && Part(applied, done) && Full(PlannedAll(plan[..i]), done)
  }

  lemma NothingApplied(plan: seq<Action>)
    ensures Applied(plan, 0, [], [])
  {
  }

  lemma OneMoreApplied(plan: seq<Action>, i: nat, applied: seq<Action>, done: seq<Action>, block: seq<Action>)
    requires Applied(plan, i, applied, done) && i < |plan| && Attempts(plan[i], block) && block != []
    ensures Applied(plan, i + 1, applied + [block[|block| - 1]], done + block)
  {
    var last, p := block[|block| - 1], PlannedAll(plan[..i]);
    assert Planned(last) == Planned(plan[i]);
    PlannedSnoc(applied, last, plan, i);
    PartAppend(applied, done, block);
    AttemptsCarry(plan[i], block, []);
    FullThen(p, done, [Planned(plan[i])], block);
    hide Full, Part, Attempts, Planned;
    assert PlannedAll(plan[..i + 1]) == p + [Planned(plan[i])];
  }

  /** The failing call, as far as it took effect, ends what was done of the plan. */
  lemma FailedApplied(plan: seq<Action>, i: nat, applied: seq<Action>, done: seq<Action>, block: seq<Action>)
    requires Applied(plan, i, applied, done) && i < |plan| && Attempts(plan[i], block)
    ensures i == |applied| && PlannedAll(applied) == PlannedAll(plan[..i]) && |applied| <= |done|
    ensures Part(applied, done + block) && Carries(PlannedAll(plan), done + block)
    ensures |done| == i && |block| <= 1 ==> |done + block| <= |plan| && PlannedAll(done + block) == PlannedAll(plan)[..|done + block|]
  {
    var p, q := PlannedAll(plan[..i]), PlannedAll(plan[i..]);
    assert q == [Planned(plan[i])] + PlannedAll(plan[i + 1..]);
    assert p + q == PlannedAll(plan);
    PartOf(applied, done);
    PartAppend(applied, done, block);
    AttemptsCarry(plan[i], block, PlannedAll(plan[i + 1..]));
    FullThen(p, done, q, block);
    FullLength(p, done);
    hide Full, Part;
    if |done| == i && |block| == 1 {
      assert PlannedAll(done + block) == PlannedAll(done) + [Planned(block[0])];
    }
    if block == [] { assert done + block == done && PlannedAll(plan)[..i] == p; }
  }

  lemma AllApplied(plan: seq<Action>, applied: seq<Action>, done: seq<Action>)
    requires Applied(plan, |plan|, applied, done)
    ensures |applied| == |plan| <= |done| && PlannedAll(applied) == PlannedAll(plan[..|plan|])
    ensures Part(applied, done) && Carries(PlannedAll(plan), done)
    ensures |done| == |plan| ==> PlannedAll(done) == PlannedAll(plan)[..|done|]
  {
    assert plan[..|plan|] == plan && PlannedAll(plan)[..|plan|] == PlannedAll(plan);
    FullCarries(PlannedAll(plan), done);
    FullLength(PlannedAll(plan), done);
  }

  class Client {
    const domain: string
    var records: seq<Record>
    /** Calls that failed. */
    ghost var faults: nat
    /** Changes to the records that no reply acknowledged. */
    ghost var lost: nat
    /** Records created by an add beyond the first. */
    ghost var twins: nat

    constructor (domain: string, records: seq<Record>)
      ensures this.domain == domain && this.records == records && faults == lost == twins == 0
    {
      this.domain, this.records, faults, lost, twins := domain, records, 0, 0, 0;
    }

    method ListRecords() returns (listing: Option<seq<Record>>)
      modifies this`faults
      ensures listing.Some? ==> listing.value == records && faults == old(faults)
      ensures listing.None? ==> faults == old(faults) + 1
    {
      if * {
        faults := faults + 1;
        return None;
      }
      return Some(records);
    }

    /** One attempt as Bunny carries it out, or not. */
    method Arrive(a: Action, t: Try) returns (id: Option<int>)
      modifies this`records
      ensures records == Tried(old(records), a, t)
      ensures id == if Works(old(records), a, t) then Some(TargetOf(a, t)) else None
    {
      hide Step;
      var target := TargetOf(a, t);
      var found := exists i :: 0 <= i < |records| && records[i].id == target;
      if !t.arrives || found == a.kind.Add? {
        return None;
      }
      records := Step(records, a.(recordID := target));
      return Some(target);
    }

    /** What becomes of the attempts is not up to the client. */
    method Network() returns (net: seq<Try>)
      ensures |net| == MAX_ATTEMPTS
    {
      net := *;
      if |net| != MAX_ATTEMPTS {
        net := seq(MAX_ATTEMPTS, i => Try(false, 0, Retryable));
      }
    }

    /** The request a was carried out as done says, and the last of it acknowledged if
        there is a reply. */
    twostate predicate Answered(a: Action, new id: Option<int>, new done: seq<Action>)
      reads this
    {
      Happened(old(records), done, records) && Attempts(a, done)
      && (id.Some? ==> done != [] && done[|done| - 1] == a.(recordID := id.value))
      && faults == old(faults) + (if id.Some? then 0 else 1)
      && lost == old(lost) + |done| - (if id.Some? then 1 else 0)
      && twins == old(twins) + if |done| > 1 then |done| - 1 else 0
    }

    /** Sends one request until a reply settles it. What was done on the other side is
        known to the model only; the caller learns whether a reply said so. */
    method Do(a: Action, net: seq<Try>) returns (id: Option<int>, ghost done: seq<Action>)
      requires |net| == MAX_ATTEMPTS
      modifies this
      ensures Answered(a, id, done)
      ensures (records, id) == Sent(old(records), a, net)
    {
      hide Step, Execute, Accepted, Merge, HasID, Happened, Attempts, Settles;
      assert net[0..] == net;
      done := [];
      ghost var was := records;
      NoneHappened(was);
      NoAttempts(a);
      for attempt := 0 to MAX_ATTEMPTS
        invariant Happened(was, done, records) && Attempts(a, done) && |done| <= attempt
        invariant Sent(was, a, net) == Sent(records, a, net[attempt..])
        invariant !a.kind.Add? && done != [] ==> done[|done| - 1] == a && Settles(a, records)
        invariant faults == old(faults) && lost == old(lost) + |done|
        invariant twins == old(twins) + if |done| > 1 then |done| - 1 else 0
      {
        ghost var mid := records;
        assert net[attempt..][0] == net[attempt] && net[attempt..][1..] == net[attempt + 1..];
        var arrived := Arrive(a, net[attempt]);
        if arrived.Some? {
          SettledOnce(mid, a, arrived.value, done);
          if a.kind.Add? || done == [] {
            OneMoreHappened(was, done, mid, a.(recordID := arrived.value));
            AttemptsMore(a, done, arrived.value);
            if done != [] { twins := twins + 1; }
            done := done + [a.(recordID := arrived.value)];
            lost := lost + 1;
          }
        }
        if arrived.Some? && net[attempt].reply.Success? {
          lost := lost - 1;
          return arrived, done;
        }
        if net[attempt].reply.Refused? {
          faults := faults + 1;
          return None, done;
        }
      }
      assert net[MAX_ATTEMPTS..] == [];
      faults := faults + 1;
      id := None;
    }

    /** Creates the record, under an id that Bunny picks; an add that was sent again may
        have created it several times. */
    method AddRecord(a: Action) returns (id: Option<int>, ghost done: seq<Action>)
      requires a.kind.Add?
      modifies this
      ensures Answered(a, id, done)
      ensures records == old(records) + News(done) && |News(done)| == |done| <= MAX_ATTEMPTS
      ensures forall r :: r in News(done) ==> r == a.record.(id := r.id) && !HasID(old(records), r.id)
      ensures id.Some? ==> a.record.(id := id.value) in News(done)
    {
      var net := Network();
      id, done := Do(a, net);
      AddsAre(old(records), a, done, records);
    }

    /** Writes over the record with that id, once; also when no reply says so. */
    method UpdateRecord(a: Action) returns (ok: bool, ghost done: seq<Action>)
      requires IsWrite(a)
      modifies this
      ensures Answered(a, if ok then Some(a.recordID) else None, done)
      ensures ok ==> done == [a]
      ensures (done == [] && records == old(records))
              || (done == [a] && HasID(old(records), a.recordID) && records == Merged(old(records), a.recordID, a.record))
    {
      var id: Option<int>;
      var net := Network();
      id, done := Do(a, net);
      OneIs(old(records), a, done, records);
      ok := id.Some?;
    }

    /** Deletes the record with that id, once; also when no reply says so, or a second
        attempt finds it gone. */
    method DeleteRecord(a: Action) returns (ok: bool, ghost done: seq<Action>)
      requires a.kind.Remove?
      modifies this
      ensures Answered(a, if ok then Some(a.recordID) else None, done)
      ensures ok ==> done == [a]
      ensures (done == [] && records == old(records))
              || (done == [a] && HasID(old(records), a.recordID) && records == Without(old(records), a.recordID))
    {
      var id: Option<int>;
      var net := Network();
      id, done := Do(a, net);
      OneIs(old(records), a, done, records);
      ok := id.Some?;
    }

    /** Stops at the first failing call and returns what was acknowledged, each new
        record with the id Bunny gave it. What was done carries out the plan as far,
        and the failing call too if it took effect. */
    method Apply(plan: seq<Action>) returns (applied: seq<Action>, ok: bool, ghost done: seq<Action>)
      modifies this
      ensures |applied| <= |plan| && PlannedAll(applied) == PlannedAll(plan[..|applied|])
      ensures Happened(old(records), done, records) && Carries(PlannedAll(plan), done) && Part(applied, done)
      ensures ok <==> |applied| == |plan|
      ensures faults == old(faults) + if ok then 0 else 1
      ensures lost == old(lost) + |done| - |applied| >= old(lost) && twins >= old(twins)
      ensures twins == old(twins) ==> |done| <= |plan| && PlannedAll(done) == PlannedAll(plan)[..|done|]
    {
      hide *;
      applied, done := [], [];
      ghost var was := records;
      NoneHappened(was);
      NothingApplied(plan);
      for i := 0 to |plan|
        invariant Applied(plan, i, applied, done) && |applied| == i && Happened(was, done, records) && faults == old(faults)
        invariant twins >= old(twins) && |done| == i + twins - old(twins) && lost == old(lost) + |done| - i
      {
        var a := plan[i];
        ghost var block;
        ghost var mid := records;
        var ok': bool;
        match a.kind {
          case Add =>
            var id;
            id, block := AddRecord(a);
            ok' := id.Some?;
            if ok' { a := a.(recordID := id.value); }
          case Remove =>
            ok', block := DeleteRecord(a);
          case _ =>
            ok', block := UpdateRecord(a);
        }
        HappenedThen(was, done, mid, block, records);
        if !ok' {
          FailedApplied(plan, i, applied, done, block);
          done := done + block;
          return applied, false, done;
        }
        OneMoreApplied(plan, i, applied, done, block);
        applied, done := applied + [a], done + block;
      }
      AllApplied(plan, applied, done);
      ok := true;
    }

    /** Creates the tenant wildcard if no CNAME has its name. */
    method EnsureWildcardCNAME(routing: string, ttl: int) returns (created: bool, ok: bool, ghost wild: seq<Action>)
      modifies this
      ensures Happened(old(records), wild, records) && Carries(WildcardPlan(old(records), routing, domain, ttl), wild)
      ensures created ==> wild != []
      ensures faults >= old(faults) && lost >= old(lost) && twins >= old(twins)
      ensures faults == old(faults) && lost == old(lost) ==> PlannedAll(wild) == WildcardPlan(old(records), routing, domain, ttl)
    {
      hide Execute, Accepted, Happened, Attempts, WildcardRecord, NewIDs, HasID;
      wild := [];
      NoneHappened(records);
      var base := TrimSpace(routing);
      if base == "" || base == "@" { return false, true, wild; }
      if domain == "" { return false, false, wild; }
      var recs := ListRecords();
      if recs.None? { return false, false, wild; }
      for i := 0 to |recs.value|
        invariant forall j :: 0 <= j < i ==> Key(WildcardScope(routing), recs.value[j]).None?
      {
        var r := recs.value[i];
        if r.typ == TYPE_CNAME && EqualFold(r.name, "*." + base) {
          assert Key(WildcardScope(routing), records[i]).Some?;
          return false, true, wild;
        }
      }
      var body := WildcardRecord(routing, domain, ttl);
      var a := Action(Add, "", 0, body, body.name, body.value);
      assert WildcardPlan(records, routing, domain, ttl) == [a];
      var id;
      id, wild := AddRecord(a);
      assert [a] + [] == [a] && Planned(a) == a;
      AttemptsCarry(a, wild, []);
      if wild != [] { OneAttempt(a, wild); }
      return id.Some?, id.Some?, wild;
    }
  }
}

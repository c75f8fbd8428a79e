/** Bunny's record set (bunny.go): what one write does to it, what a list of
    executed actions does to it, and the algebra of looking records up by key. */
module Records {
  import opened Text
  import opened Tags

  const TYPE_A := 0
  const TYPE_CNAME := 2

  datatype Record = Record(
    id: int, typ: int, ttl: int, value: string, name: string, weight: int,
    priority: int, disabled: bool, comment: string, smart: int, latencyZone: string,
    monitorType: int, monitorStatus: int, lat: real, long: real)

  const NO_RECORD := Record(0, 0, 0, "", "", 0, 0, false, "", 0, "", 0, 0, 0.0, 0.0)

  /** An update is a partial merge: the fields that are left out of the body when
      they hold their zero value (Ttl, Priority, Comment, MonitorStatus) keep the
      old value, all others are overwritten. The id is the one in the path. */
  function Merge(prev: Record, body: Record): Record {
    body.(id := prev.id,
          ttl := if body.ttl == 0 then prev.ttl else body.ttl,
          priority := if body.priority == 0 then prev.priority else body.priority,
          comment := if body.comment == "" then prev.comment else body.comment,
          monitorStatus := if body.monitorStatus == 0 then prev.monitorStatus else body.monitorStatus)
  }

  datatype Kind = Add | Enable | Disable | Update | Remove

  /** One planned change; in the log of executed changes an Add carries the id
      that Bunny gave the new record. */
  datatype Action = Action(kind: Kind, edgeID: string, recordID: int, record: Record,
                           name: string, value: string)

  predicate IsWrite(a: Action) {
    a.kind.Enable? || a.kind.Disable? || a.kind.Update?
  }

  // ---------- what the writes do ----------

  function Added(rs: seq<Record>, id: int, body: Record): seq<Record> {
    rs + [body.(id := id)]
  }

  function Merged(rs: seq<Record>, id: int, body: Record): seq<Record> {
    seq(|rs|, i requires 0 <= i < |rs| => if rs[i].id == id then Merge(rs[i], body) else rs[i])
  }

  function Without(rs: seq<Record>, id: int): seq<Record> {
    if rs == [] then []
    else Without(rs[..|rs| - 1], id) + if rs[|rs| - 1].id == id then [] else [rs[|rs| - 1]]
  }

  function Step(rs: seq<Record>, a: Action): seq<Record> {
    match a.kind
    case Add => Added(rs, a.recordID, a.record)
    case Remove => Without(rs, a.recordID)
    case _ => Merged(rs, a.recordID, a.record)
  }

  function Execute(rs: seq<Record>, log: seq<Action>): seq<Record>
    decreases |log|
  {
    if log == [] then rs else Execute(Step(rs, log[0]), log[1..])
  }

  ghost predicate HasID(rs: seq<Record>, id: int) {
    exists i :: 0 <= i < |rs| && rs[i].id == id
  }

  ghost predicate DistinctIDs(rs: seq<Record>) {
    forall i, j :: 0 <= i < j < |rs| ==> rs[i].id != rs[j].id
  }

  /** The planned form of an executed action: an Add does not know its id yet. */
  function Planned(a: Action): Action {
    if a.kind.Add? then a.(recordID := 0) else a
  }

  function PlannedAll(log: seq<Action>): seq<Action> {
    seq(|log|, i requires 0 <= i < |log| => Planned(log[i]))
  }

  /** log can be what Bunny accepted from state rs on: new ids are unused, updates
      and deletes name a record that exists. */
  ghost predicate Accepted(rs: seq<Record>, log: seq<Action>)
    decreases |log|
  {
    log == [] ||
    (HasID(rs, log[0].recordID) == !log[0].kind.Add? && Accepted(Step(rs, log[0]), log[1..]))
  }

  lemma {:induction false} ExecuteConcat(rs: seq<Record>, a: seq<Action>, b: seq<Action>)
    ensures Execute(rs, a + b) == Execute(Execute(rs, a), b)
    ensures Accepted(rs, a + b) <==> Accepted(rs, a) && Accepted(Execute(rs, a), b)
    decreases |a|
  {
    if a == [] {
      assert a + b == b;
    } else {
      assert (a + b)[0] == a[0] && (a + b)[1..] == a[1..] + b;
      ExecuteConcat(Step(rs, a[0]), a[1..], b);
    }
  }

  lemma WithoutMembers(rs: seq<Record>, id: int)
    ensures forall r :: r in Without(rs, id) <==> r in rs && r.id != id
    ensures DistinctIDs(rs) ==> DistinctIDs(Without(rs, id))
  {
    hide Without;
    WithoutHolds(rs, id);
    if DistinctIDs(rs) { WithoutKeepsDistinct(rs, id); }
  }

  lemma {:induction false} WithoutHolds(rs: seq<Record>, id: int)
    ensures forall r :: r in Without(rs, id) <==> r in rs && r.id != id
  {
    if rs == [] {
    } else {
      WithoutHolds(rs[..|rs| - 1], id);
      assert rs == rs[..|rs| - 1] + [rs[|rs| - 1]];
    }
  }

  lemma {:induction false} WithoutKeepsDistinct(rs: seq<Record>, id: int)
    requires DistinctIDs(rs)
    ensures DistinctIDs(Without(rs, id))
  {
    if rs == [] {
    } else {
      var front, last := rs[..|rs| - 1], rs[|rs| - 1];
      WithoutKeepsDistinct(front, id);
      WithoutHolds(front, id);
      var kept := Without(front, id);
      assert Without(rs, id) == kept + if last.id == id then [] else [last];
      hide Without;
      forall i | 0 <= i < |kept| ensures kept[i].id != last.id {
        assert kept[i] in kept;
        var k :| 0 <= k < |front| && front[k] == kept[i];
        assert rs[k] == front[k];
      }
    }
  }

  lemma StepKeepsIDsDistinct(rs: seq<Record>, a: Action)
    requires DistinctIDs(rs)
    requires HasID(rs, a.recordID) == !a.kind.Add?
    ensures DistinctIDs(Step(rs, a))
  {
    match a.kind
    case Remove => WithoutMembers(rs, a.recordID);
    case Add =>
    case _ =>
  }

  lemma {:induction false} ExecuteKeepsIDsDistinct(rs: seq<Record>, log: seq<Action>)
    requires DistinctIDs(rs) && Accepted(rs, log)
    ensures DistinctIDs(Execute(rs, log))
    decreases |log|
  {
    if log == [] {
    } else {
      StepKeepsIDsDistinct(rs, log[0]);
      ExecuteKeepsIDsDistinct(Step(rs, log[0]), log[1..]);
    }
  }

  /** A record no action names is left exactly as it was. */
  lemma {:induction false} UntouchedSurvives(rs: seq<Record>, log: seq<Action>, r: Record)
    requires r in rs
    requires forall i :: 0 <= i < |log| && !log[i].kind.Add? ==> log[i].recordID != r.id
    ensures r in Execute(rs, log)
    decreases |log|
  {
    if log == [] {
    } else {
      var a := log[0];
      var i :| 0 <= i < |rs| && rs[i] == r;
      WithoutMembers(rs, a.recordID);
      assert r in Step(rs, a) by {
        match a.kind
        case Add => assert Step(rs, a)[i] == r;
        case Remove =>
        case _ => assert Step(rs, a)[i] == r;
      }
      UntouchedSurvives(Step(rs, a), log[1..], r);
    }
  }

  // ---------- record classes ----------

  /** The classes of records that the reconciler reads: the apex set's own, the
      untagged A records at the routing name it may adopt, one tenant zone's own
      set, the zone-tagged records of zones that are gone, and the tenant
      wildcard. */
  datatype Scope =
    | Apex
    | Relics(routing: string)
    | Zone(zoneID: int, zone: string)
    | Orphans(active: set<int>)
    | Wildcard(base: string)

  /** The key under which a class holds a record, None when it does not. */
  function Key(sc: Scope, r: Record): Option<string> {
    match sc
    case Apex =>
      var id := EdgeIDFromComment(r.comment);
      if id != "" then Some(id) else None
    case Relics(routing) =>
      if EdgeIDFromComment(r.comment) == "" && r.typ == TYPE_A && EqualFold(r.name, routing) && r.value != ""
      then Some(r.value) else None
    case Zone(zoneID, zone) =>
      if r.typ != TYPE_A || !EqualFold(r.name, zone) then None
      else EdgeIDFromZoneComment(r.comment, zoneID)
    case Orphans(active) =>
      var z := ZoneIDFromComment(r.comment);
      if z.Some? && z.value !in active then Some("") else None
    case Wildcard(base) =>
      if r.typ == TYPE_CNAME && EqualFold(r.name, "*." + base) then Some("") else None
  }

  /** The records a class holds under key k, in listing order. */
  function At(sc: Scope, k: string, rs: seq<Record>): seq<Record> {
    if rs == [] then []
    else At(sc, k, rs[..|rs| - 1]) + if Key(sc, rs[|rs| - 1]) == Some(k) then [rs[|rs| - 1]] else []
  }

  /** The map a loop over the listing builds: the last record under each key. */
  function Index(sc: Scope, rs: seq<Record>): map<string, Record> {
    if rs == [] then map[]
    else
      var r := rs[|rs| - 1];
      var m := Index(sc, rs[..|rs| - 1]);
      if Key(sc, r).Some? then m[Key(sc, r).value := r] else m
  }

  ghost predicate UniqueKeys(sc: Scope, rs: seq<Record>) {
    forall k :: |At(sc, k, rs)| <= 1
  }

  /** Two listings look the same to a class. */
  ghost predicate SameView(sc: Scope, a: seq<Record>, b: seq<Record>) {
    forall k :: At(sc, k, a) == At(sc, k, b)
  }

  lemma {:induction false} IndexIsLast(sc: Scope, k: string, rs: seq<Record>)
    ensures k in Index(sc, rs) <==> At(sc, k, rs) != []
    ensures k in Index(sc, rs) ==> Index(sc, rs)[k] == At(sc, k, rs)[|At(sc, k, rs)| - 1]
  {
    hide Key;
    if rs == [] {
    } else {
      IndexIsLast(sc, k, rs[..|rs| - 1]);
    }
  }

  lemma SameViewSameIndex(sc: Scope, a: seq<Record>, b: seq<Record>)
    requires SameView(sc, a, b)
    ensures Index(sc, a) == Index(sc, b)
  {
    forall k ensures k in Index(sc, a) <==> k in Index(sc, b)
      ensures k in Index(sc, a) ==> Index(sc, a)[k] == Index(sc, b)[k]
    {
      IndexIsLast(sc, k, a);
      IndexIsLast(sc, k, b);
    }
  }

  lemma {:induction false} AtMembers(sc: Scope, k: string, rs: seq<Record>)
    ensures forall r :: r in At(sc, k, rs) <==> r in rs && Key(sc, r) == Some(k)
  {
    if rs == [] {
    } else {
      AtMembers(sc, k, rs[..|rs| - 1]);
      assert rs == rs[..|rs| - 1] + [rs[|rs| - 1]];
    }
  }

  lemma AtSnoc(sc: Scope, k: string, rs: seq<Record>, r: Record)
    ensures At(sc, k, rs + [r]) == if Key(sc, r) == Some(k) then At(sc, k, rs) + [r] else At(sc, k, rs)
  {
    assert (rs + [r])[..|rs|] == rs;
  }

  lemma WithoutSnoc(rs: seq<Record>, r: Record, id: int)
    ensures Without(rs + [r], id) == if r.id == id then Without(rs, id) else Without(rs, id) + [r]
  {
    assert (rs + [r])[..|rs|] == rs;
  }

  lemma MergedSnoc(rs: seq<Record>, r: Record, id: int, body: Record)
    ensures Merged(rs + [r], id, body) == Merged(rs, id, body) + [if r.id == id then Merge(r, body) else r]
  {
  }

  lemma MergedAbsent(rs: seq<Record>, id: int, body: Record)
    requires forall r :: r in rs ==> r.id != id
    ensures Merged(rs, id, body) == rs
  {
  }

  // ---------- how a write moves one key ----------

  lemma AtAdded(sc: Scope, k: string, rs: seq<Record>, id: int, body: Record)
    ensures At(sc, k, Added(rs, id, body))
         == At(sc, k, rs) + if Key(sc, body.(id := id)) == Some(k) then [body.(id := id)] else []
  {
    assert Added(rs, id, body)[..|rs|] == rs;
  }

  /** A merge into a record that is outside key k and stays outside moves nothing. */
  lemma {:induction false} AtMergedElsewhere(sc: Scope, k: string, rs: seq<Record>, id: int, body: Record)
    requires forall r :: r in rs && r.id == id ==> Key(sc, r) != Some(k) && Key(sc, Merge(r, body)) != Some(k)
    ensures At(sc, k, Merged(rs, id, body)) == At(sc, k, rs)
  {
    if rs == [] {
    } else {
      var front, last := rs[..|rs| - 1], rs[|rs| - 1];
      assert rs == front + [last];
      MergedSnoc(front, last, id, body);
      AtMergedElsewhere(sc, k, front, id, body);
      AtSnoc(sc, k, Merged(front, id, body), if last.id == id then Merge(last, body) else last);
    }
  }

  /** A merge that keeps a record under its key rewrites it in place. */
  lemma {:induction false} AtMergedInPlace(sc: Scope, k: string, rs: seq<Record>, id: int, body: Record)
    requires forall r :: r in rs && r.id == id ==> Key(sc, r) == Some(k) && Key(sc, Merge(r, body)) == Some(k)
    ensures At(sc, k, Merged(rs, id, body)) == Merged(At(sc, k, rs), id, body)
  {
    if rs == [] {
    } else {
      var front, last := rs[..|rs| - 1], rs[|rs| - 1];
      assert rs == front + [last];
      MergedSnoc(front, last, id, body);
      AtMergedInPlace(sc, k, front, id, body);
      AtSnoc(sc, k, Merged(front, id, body), if last.id == id then Merge(last, body) else last);
      MergedSnoc(At(sc, k, front), last, id, body);
    }
  }

  /** A merge that brings the one record with that id under an empty key k
      leaves exactly the merged record there. */
  lemma {:induction false} AtMergedInto(sc: Scope, k: string, rs: seq<Record>, x: Record, body: Record)
    requires DistinctIDs(rs) && x in rs && At(sc, k, rs) == [] && Key(sc, Merge(x, body)) == Some(k)
    ensures At(sc, k, Merged(rs, x.id, body)) == [Merge(x, body)]
  {
    hide Key, Merge, At, Merged;
    var front := rs[..|rs| - 1];
    var last := rs[|rs| - 1];
    assert rs == front + [last];
    AtSnoc(sc, k, front, last);
    MergedSnoc(front, last, x.id, body);
    if last.id == x.id {
      MergedAbsent(front, x.id, body);
      AtSnoc(sc, k, front, Merge(x, body));
    } else {
      AtMergedInto(sc, k, front, x, body);
      AtSnoc(sc, k, Merged(front, x.id, body), last);
    }
  }

  lemma {:induction false} AtWithout(sc: Scope, k: string, rs: seq<Record>, id: int)
    ensures At(sc, k, Without(rs, id)) == Without(At(sc, k, rs), id)
  {
    if rs == [] {
    } else {
      var front := rs[..|rs| - 1];
      var last := rs[|rs| - 1];
      assert rs == front + [last];
      AtWithout(sc, k, front, id);
      AtSnoc(sc, k, front, last);
      AtSnoc(sc, k, Without(front, id), last);
      WithoutSnoc(front, last, id);
      WithoutSnoc(At(sc, k, front), last, id);
    }
  }

  lemma {:induction false} WithoutAbsent(rs: seq<Record>, id: int)
    requires forall r :: r in rs ==> r.id != id
    ensures Without(rs, id) == rs
  {
    if rs == [] {
    } else {
      var front, last := rs[..|rs| - 1], rs[|rs| - 1];
      WithoutSnoc(front, last, id);
      hide Without;
      assert rs == front + [last] && last in rs;
      WithoutAbsent(front, id);
    }
  }

  lemma AtWithoutElsewhere(sc: Scope, k: string, rs: seq<Record>, id: int)
    requires forall r :: r in rs && r.id == id ==> Key(sc, r) != Some(k)
    ensures At(sc, k, Without(rs, id)) == At(sc, k, rs)
  {
    AtWithout(sc, k, rs, id);
    AtMembers(sc, k, rs);
    WithoutAbsent(At(sc, k, rs), id);
  }

  lemma SameID(rs: seq<Record>, a: Record, b: Record)
    requires DistinctIDs(rs) && a in rs && b in rs && a.id == b.id
    ensures a == b
  {
  }
}

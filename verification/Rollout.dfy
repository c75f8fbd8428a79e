/** The rollout engine (engine.go), its rows (rollouts.go of the store) and the
    admin and agent calls (rollouts.go of the API). Time is one clock in seconds. */
module Rollout {
  import opened Text

  datatype Status = Scheduled | Running | Paused | Done | Failed | Cancelled

  datatype TargetState = Queued | InProgress | Soaking | Finished | Broken | Skipped

  datatype Target = Target(edgeID: string, from: string, to: string, state: TargetState, reason: string,
                           soakUntil: Option<int>, updatedAt: int)

  /** A rollout row with its target rows, in the order they are listed in. Rows are
      numbered by their position. */
  datatype Rollout = Rollout(version: string, pops: seq<string>, soak: int, status: Status, reason: string,
                             scheduledAt: Option<int>, startedAt: Option<int>, finishedAt: Option<int>, targets: seq<Target>)

  datatype EdgeState = EdgeState(online: bool, version: string, healthy: bool)

  const DEFAULT_SOAK := 90

  predicate IsActive(st: Status) {
    st.Scheduled? || st.Running? || st.Paused?
  }

  predicate InFlight(t: Target) {
    t.state.InProgress? || t.state.Soaking?
  }

  predicate HealthyOnNew(t: Target, es: EdgeState) {
    es.online && es.version == t.to && es.healthy
  }

  // ---------- row updates ----------

  function Opened(t: Target, from: string, now: int): Target {
    t.(state := InProgress, from := from, soakUntil := None, updatedAt := now)
  }

  function SoakStarted(t: Target, until: int, now: int): Target {
    t.(state := Soaking, soakUntil := Some(until), updatedAt := now)
  }

  function Ended(t: Target, state: TargetState, reason: string, now: int): Target {
    t.(state := state, reason := reason, updatedAt := now)
  }

  /** The first run stamps the start and every end stamps the finish; a reason is
      kept until another one is given. */
  function WithStatus(r: Rollout, st: Status, reason: string, now: int): Rollout {
    r.(status := st,
       reason := if reason == "" then r.reason else reason,
       startedAt := if r.startedAt.None? && st.Running? then Some(now) else r.startedAt,
       finishedAt := if IsActive(st) then r.finishedAt else Some(now))
  }

  /** The first target satisfying one of the two tests of a tick, None when none does. */
  function FirstInFlight(ts: seq<Target>): (j: Option<nat>)
    ensures j.Some? ==> j.value < |ts| && InFlight(ts[j.value]) && forall k :: 0 <= k < j.value ==> !InFlight(ts[k])
    ensures j.None? ==> forall k :: 0 <= k < |ts| ==> !InFlight(ts[k])
  {
    if ts == [] then None
    else if InFlight(ts[0]) then Some(0)
    else
      var j := FirstInFlight(ts[1..]);
      assert forall k :: 0 < k < |ts| ==> ts[k] == ts[1..][k - 1];
      if j.Some? then Some(j.value + 1) else None
  }

  function FirstQueued(ts: seq<Target>): (j: Option<nat>)
    ensures j.Some? ==> j.value < |ts| && ts[j.value].state.Queued? && forall k :: 0 <= k < j.value ==> !ts[k].state.Queued?
    ensures j.None? ==> forall k :: 0 <= k < |ts| ==> !ts[k].state.Queued?
  {
    if ts == [] then None
    else if ts[0].state.Queued? then Some(0)
    else
      var j := FirstQueued(ts[1..]);
      assert forall k :: 0 < k < |ts| ==> ts[k] == ts[1..][k - 1];
      if j.Some? then Some(j.value + 1) else None
  }

  function ActiveID(rs: seq<Rollout>): (id: Option<nat>)
    ensures id.Some? ==> id.value < |rs| && IsActive(rs[id.value].status)
    ensures id.None? ==> forall i :: 0 <= i < |rs| ==> !IsActive(rs[i].status)
  {
    if rs == [] then None
    else if IsActive(rs[|rs| - 1].status) then Some(|rs| - 1)
    else ActiveID(rs[..|rs| - 1])
  }

  // ---------- what one tick does ----------

  const STUCK := "edge did not report a healthy new version within the soak window"

  function Put(r: Rollout, j: nat, t: Target): Rollout
    requires j < |r.targets|
  {
    r.(targets := r.targets[j := t])
  }

  /** The in-flight target j, one step on. */
  function Advanced(r: Rollout, j: nat, es: EdgeState, now: int, grace: int): Rollout
    requires j < |r.targets|
  {
    var t := r.targets[j];
    if HealthyOnNew(t, es) then
      if t.state.InProgress? || t.soakUntil.None? then Put(r, j, SoakStarted(t, now + r.soak, now))
      else if now >= t.soakUntil.value then Put(r, j, Ended(t, Finished, "", now))
      else r
    else if now > t.updatedAt + r.soak + grace then
      WithStatus(Put(r, j, Ended(t, Broken, STUCK, now)), Failed, STUCK, now)
    else r
  }

  function TickedRunning(r: Rollout, edges: string -> EdgeState, now: int, grace: int): Rollout {
    var j, q := FirstInFlight(r.targets), FirstQueued(r.targets);
    if j.Some? then Advanced(r, j.value, edges(r.targets[j.value].edgeID), now, grace)
    else if q.Some? then
      var t := r.targets[q.value];
      var es := edges(t.edgeID);
      if !es.online then Put(r, q.value, Ended(t, Skipped, "edge offline at its turn", now))
      else Put(r, q.value, Opened(t, es.version, now))
    else WithStatus(r, Done, "", now)
  }

  function TickedOne(r: Rollout, edges: string -> EdgeState, now: int, grace: int): Rollout {
    match r.status
    case Paused => r
    case Scheduled => if r.scheduledAt.Some? && now >= r.scheduledAt.value then WithStatus(r, Running, "", now) else r
    case _ => TickedRunning(r, edges, now, grace)
  }

  function Ticked(rs: seq<Rollout>, edges: string -> EdgeState, now: int, grace: int): seq<Rollout> {
    var id := ActiveID(rs);
    if id.None? then rs else rs[id.value := TickedOne(rs[id.value], edges, now, grace)]
  }

  // ---------- admin and agent calls ----------

  /** Target rows are listed by edge id. */
  function Listed(ts: seq<Target>, t: Target): seq<Target> {
    if ts == [] || Before(t.edgeID, ts[0].edgeID) then [t] + ts else [ts[0]] + Listed(ts[1..], t)
  }

  function Fresh(edge: string, version: string, from: map<string, string>, now: int): Target {
    Target(edge, if edge in from then from[edge] else "", version, Queued, "", None, now)
  }

  function NewTargets(pops: seq<string>, version: string, from: map<string, string>, now: int): seq<Target> {
    if pops == [] then []
    else
      var edge := pops[|pops| - 1];
      Listed(NewTargets(pops[..|pops| - 1], version, from, now),
             Fresh(edge, version, from, now))
  }

  ghost predicate Distinct(pops: seq<string>) {
    forall i, j :: 0 <= i < j < |pops| ==> pops[i] != pops[j]
  }

  /** A new rollout with a queued target per edge; refused when one is active or an
      edge is named twice. */
  ghost function Created(rs: seq<Rollout>, version: string, pops: seq<string>, soak: int, scheduledAt: Option<int>,
                         from: map<string, string>, now: int): seq<Rollout>
  {
    if ActiveID(rs).Some? || !Distinct(pops) then rs
    else
      rs + [Rollout(version, pops, if soak <= 0 then DEFAULT_SOAK else soak, if scheduledAt.Some? then Scheduled else Running, "",
                    scheduledAt, if scheduledAt.Some? then None else Some(now), None, NewTargets(pops, version, from, now))]
  }

  /** What the admin asks for; releases are the versions that can be offered. */
  datatype Call =
    | Start(version: string, pops: seq<string>, soak: int, scheduledAt: Option<int>)
    | Pause(id: int)
    | Resume(id: int)
    | Cancel(id: int)
    | Rollback(id: int, version: string)

  function StatusSet(rs: seq<Rollout>, id: int, to: Status, requireFrom: Option<Status>, now: int): seq<Rollout> {
    if 0 <= id < |rs| && (requireFrom.None? || rs[id].status == requireFrom.value)
    then rs[id := WithStatus(rs[id], to, "", now)] else rs
  }

  /** The version the first listed target that has one came from. */
  function FirstFrom(ts: seq<Target>): (v: string)
    ensures v == "" ==> forall j :: 0 <= j < |ts| ==> ts[j].from == ""
    ensures v != "" ==> exists j :: 0 <= j < |ts| && ts[j].from == v && forall k :: 0 <= k < j ==> ts[k].from == ""
  {
    if ts == [] then ""
    else if ts[0].from != "" then ts[0].from
    else
      var v := FirstFrom(ts[1..]);
      assert forall j :: 0 <= j < |ts[1..]| ==> ts[1..][j] == ts[j + 1];
      assert v == "" ==> forall j :: 0 < j < |ts| ==> ts[j] == ts[1..][j - 1];
      assert v != "" ==> exists j :: 0 <= j < |ts| && ts[j].from == v && forall k :: 0 <= k < j ==> ts[k].from == "" by { FoundLater(ts, v); }
      v
  }

  lemma FoundLater(ts: seq<Target>, v: string)
    requires ts != [] && ts[0].from == ""
    ensures (exists j :: 0 <= j < |ts[1..]| && ts[1..][j].from == v && forall k :: 0 <= k < j ==> ts[1..][k].from == "")
            ==> exists j :: 0 <= j < |ts| && ts[j].from == v && forall k :: 0 <= k < j ==> ts[k].from == ""
  {
    if j :| 0 <= j < |ts[1..]| && ts[1..][j].from == v && forall k :: 0 <= k < j ==> ts[1..][k].from == "" {
      forall k | 0 <= k < j + 1 ensures ts[k].from == "" {
        if k > 0 { assert ts[1..][k - 1] == ts[k]; }
      }
      assert ts[j + 1].from == v;
    }
  }

  function RollbackTo(r: Rollout, version: string): string {
    if version == "" then FirstFrom(r.targets) else version
  }

  ghost function RolledBack(rs: seq<Rollout>, id: int, version: string, releases: set<string>, from: map<string, string>, now: int): seq<Rollout> {
    if !(0 <= id < |rs|) || RollbackTo(rs[id], version) == "" || RollbackTo(rs[id], version) !in releases then rs
    else
      var stopped := if IsActive(rs[id].status) then rs[id := WithStatus(rs[id], Cancelled, "rolled back", now)] else rs;
      Created(stopped, RollbackTo(rs[id], version), rs[id].pops, rs[id].soak, None, from, now)
  }

  ghost function Called(rs: seq<Rollout>, c: Call, releases: set<string>, from: map<string, string>, now: int): seq<Rollout> {
    match c
    case Start(version, pops, soak, scheduledAt) =>
      if version == "" || pops == [] || version !in releases then rs
      else Created(rs, version, pops, soak, scheduledAt, from, now)
    case Pause(id) => StatusSet(rs, id, Paused, Some(Running), now)
    case Resume(id) => StatusSet(rs, id, Running, Some(Paused), now)
    case Cancel(id) => StatusSet(rs, id, Cancelled, None, now)
    case Rollback(id, version) => RolledBack(rs, id, version, releases, from, now)
  }

  /** The version an edge is told to run: its own, unless it has a target in flight
      in the running rollout and that release exists. */
  function Offer(rs: seq<Rollout>, edgeID: string, current: string, releases: set<string>): string {
    var id := ActiveID(rs);
    if id.None? || !rs[id.value].status.Running? then current
    else OfferFrom(rs[id.value].targets, edgeID, current, releases)
  }

  function OfferFrom(ts: seq<Target>, edgeID: string, current: string, releases: set<string>): string {
    if ts == [] then current
    else if ts[0].edgeID == edgeID && InFlight(ts[0]) then if ts[0].to in releases then ts[0].to else current
    else OfferFrom(ts[1..], edgeID, current, releases)
  }

  // ---------- the store, the engine and the API ----------

  class Store {
    var rollouts: seq<Rollout>

    constructor ()
      ensures rollouts == []
    {
      rollouts := [];
    }

    method ActiveRollout() returns (id: Option<nat>)
      ensures id == ActiveID(rollouts)
    {
      var i := |rollouts|;
      assert rollouts[..i] == rollouts;
      while i > 0
        invariant i <= |rollouts| && ActiveID(rollouts) == ActiveID(rollouts[..i])
      {
        i := i - 1;
        assert rollouts[..i + 1][..i] == rollouts[..i];
        if IsActive(rollouts[i].status) {
          return Some(i);
        }
      }
      return None;
    }

    method PutTarget(id: nat, j: nat, t: Target)
      requires id < |rollouts| && j < |rollouts[id].targets|
      modifies this
      ensures rollouts == old(rollouts)[id := Put(old(rollouts)[id], j, t)]
    {
      rollouts := rollouts[id := Put(rollouts[id], j, t)];
    }

    method SetRolloutStatus(id: nat, st: Status, reason: string, now: int)
      requires id < |rollouts|
      modifies this
      ensures rollouts == old(rollouts)[id := WithStatus(old(rollouts)[id], st, reason, now)]
    {
      rollouts := rollouts[id := WithStatus(rollouts[id], st, reason, now)];
    }

    /** All or nothing: the transaction is rolled back on an index violation. */
    method CreateRollout(version: string, pops: seq<string>, soak: int, scheduledAt: Option<int>, from: map<string, string>, now: int)
      returns (ok: bool)
      modifies this
      ensures rollouts == Created(old(rollouts), version, pops, soak, scheduledAt, from, now)
      ensures ok <==> ActiveID(old(rollouts)).None? && Distinct(pops)
    {
      var active := ActiveRollout();
      if active.Some? {
        return false;
      }
      var targets: seq<Target> := [];
      var seen: set<string> := {};
      for i := 0 to |pops|
        invariant targets == NewTargets(pops[..i], version, from, now)
        invariant forall e :: e in seen <==> exists k :: 0 <= k < i && pops[k] == e
        invariant Distinct(pops[..i])
      {
        var edge := pops[i];
        assert pops[..i + 1][..i] == pops[..i];
        if edge in seen {
          return false;
        }
        seen := seen + {edge};
        targets := Listed(targets, Fresh(edge, version, from, now));
      }
      assert pops[..|pops|] == pops;
      rollouts := rollouts + [Rollout(version, pops, if soak <= 0 then DEFAULT_SOAK else soak,
                                      if scheduledAt.Some? then Scheduled else Running, "", scheduledAt,
                                      if scheduledAt.Some? then None else Some(now), None, targets)];
      return true;
    }
  }

  class Engine {
    const st: Store
    const grace: int

    constructor (st: Store, grace: int)
      ensures this.st == st && this.grace == grace
    {
      this.st, this.grace := st, grace;
    }

    method Tick(edges: string -> EdgeState, now: int)
      modifies st
      ensures st.rollouts == Ticked(old(st.rollouts), edges, now, grace)
    {
      var active := st.ActiveRollout();
      if active.None? {
        return;
      }
      var id := active.value;
      var r := st.rollouts[id];
      if r.status.Paused? {
        return;
      }
      if r.status.Scheduled? {
        if r.scheduledAt.Some? && now >= r.scheduledAt.value {
          st.SetRolloutStatus(id, Running, "", now);
        }
        return;
      }
      for j := 0 to |r.targets|
        invariant st.rollouts == old(st.rollouts)
        invariant forall k :: 0 <= k < j ==> !InFlight(r.targets[k])
      {
        if InFlight(r.targets[j]) {
          assert FirstInFlight(r.targets) == Some(j);
          Advance(id, j, edges(r.targets[j].edgeID), now);
          return;
        }
      }
      for j := 0 to |r.targets|
        invariant st.rollouts == old(st.rollouts)
        invariant forall k :: 0 <= k < j ==> !r.targets[k].state.Queued?
      {
        var t := r.targets[j];
        if t.state.Queued? {
          assert FirstQueued(r.targets) == Some(j);
          var es := edges(t.edgeID);
          if !es.online {
            st.PutTarget(id, j, Ended(t, Skipped, "edge offline at its turn", now));
          } else {
            st.PutTarget(id, j, Opened(t, es.version, now));
          }
          return;
        }
      }
      st.SetRolloutStatus(id, Done, "", now);
    }

    method Advance(id: nat, j: nat, es: EdgeState, now: int)
      requires id < |st.rollouts| && j < |st.rollouts[id].targets|
      modifies st
      ensures st.rollouts == old(st.rollouts)[id := Advanced(old(st.rollouts)[id], j, es, now, grace)]
    {
      var r := st.rollouts[id];
      var t := r.targets[j];
      if HealthyOnNew(t, es) {
        if t.state.InProgress? || t.soakUntil.None? {
          st.PutTarget(id, j, SoakStarted(t, now + r.soak, now));
        } else if now >= t.soakUntil.value {
          st.PutTarget(id, j, Ended(t, Finished, "", now));
        }
        return;
      }
      if now > t.updatedAt + r.soak + grace {
        st.PutTarget(id, j, Ended(t, Broken, STUCK, now));
        st.SetRolloutStatus(id, Failed, STUCK, now);
      }
    }
  }

  class API {
    const st: Store

    constructor (st: Store)
      ensures this.st == st
    {
      this.st := st;
    }

    method StartRollout(version: string, pops: seq<string>, soak: int, scheduledAt: Option<int>,
                        releases: set<string>, from: map<string, string>, now: int) returns (ok: bool)
      modifies st
      ensures st.rollouts == Called(old(st.rollouts), Start(version, pops, soak, scheduledAt), releases, from, now)
      ensures !ok ==> st.rollouts == old(st.rollouts)
    {
      if version == "" || pops == [] || version !in releases {
        return false;
      }
      var active := st.ActiveRollout();
      if active.Some? {
        return false;
      }
      ok := st.CreateRollout(version, pops, soak, scheduledAt, from, now);
    }

    method SetRolloutStatus(id: int, to: Status, requireFrom: Option<Status>, now: int) returns (ok: bool)
      modifies st
      ensures st.rollouts == StatusSet(old(st.rollouts), id, to, requireFrom, now)
      ensures !ok ==> st.rollouts == old(st.rollouts)
    {
      if !(0 <= id < |st.rollouts|) {
        return false;
      }
      if requireFrom.Some? && st.rollouts[id].status != requireFrom.value {
        return false;
      }
      st.SetRolloutStatus(id, to, "", now);
      return true;
    }

    method RollbackRollout(id: int, version: string, releases: set<string>, from: map<string, string>, now: int) returns (ok: bool)
      modifies st
      ensures st.rollouts == Called(old(st.rollouts), Rollback(id, version), releases, from, now)
    {
      if !(0 <= id < |st.rollouts|) {
        return false;
      }
      var r := st.rollouts[id];
      var to := version;
      if to == "" {
        for j := 0 to |r.targets|
          invariant to == "" && FirstFrom(r.targets) == FirstFrom(r.targets[j..])
        {
          assert r.targets[j..][1..] == r.targets[j + 1..];
          if r.targets[j].from != "" {
            to := r.targets[j].from;
            break;
          }
        }
      }
      if to == "" || to !in releases {
        return false;
      }
      if IsActive(r.status) {
        st.SetRolloutStatus(id, Cancelled, "rolled back", now);
      }
      ok := st.CreateRollout(to, r.pops, r.soak, None, from, now);
    }

    method AgentRelease(edgeID: string, current: string, releases: set<string>) returns (version: string)
      ensures version == Offer(st.rollouts, edgeID, current, releases)
    {
      var active := st.ActiveRollout();
      if active.None? || !st.rollouts[active.value].status.Running? {
        return current;
      }
      var ts := st.rollouts[active.value].targets;
      for j := 0 to |ts|
        invariant Offer(st.rollouts, edgeID, current, releases) == OfferFrom(ts[j..], edgeID, current, releases)
      {
        assert ts[j..][1..] == ts[j + 1..];
        if ts[j].edgeID == edgeID && InFlight(ts[j]) {
          if ts[j].to !in releases {
            break;
          }
          return ts[j].to;
        }
      }
      return current;
    }
  }
}

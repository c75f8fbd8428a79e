/** What every run of the rollout engine keeps: ticks, heartbeats and admin calls
    in any interleaving. */
module RolloutRuns {
  import opened Arith
  import opened Text
  import opened Rollout

  // ---------- runs ----------

  /** A tick reads the live state of every edge, so heartbeats and health verdicts
      between ticks are whatever edges says. */
  datatype Event =
    | Tick(edges: string -> EdgeState, now: int)
    | Admin(call: Call, releases: set<string>, from: map<string, string>, now: int)

  ghost function Step(rs: seq<Rollout>, e: Event, grace: int): seq<Rollout> {
    match e
    case Tick(edges, now) => Ticked(rs, edges, now, grace)
    case Admin(call, releases, from, now) => Called(rs, call, releases, from, now)
  }

  ghost function After(rs: seq<Rollout>, evs: seq<Event>, grace: int): seq<Rollout> {
    if evs == [] then rs else Step(After(rs, evs[..|evs| - 1], grace), evs[|evs| - 1], grace)
  }

  // ---------- the order of targets ----------

  ghost predicate InOrder(ts: seq<Target>) {
    forall i, j :: 0 <= i < j < |ts| ==> Before(ts[i].edgeID, ts[j].edgeID)
  }

  lemma {:induction false} ListedInOrder(ts: seq<Target>, t: Target)
    requires InOrder(ts) && forall x :: x in ts ==> x.edgeID != t.edgeID
    ensures InOrder(Listed(ts, t))
    ensures forall x :: x in Listed(ts, t) <==> x in ts || x == t
  {
    hide Before;
    if ts == [] {
    } else {
      var rest := Listed(ts[1..], t);
      assert ts == [ts[0]] + ts[1..];
      ListedInOrder(ts[1..], t);
      BeforeIsStrict(t.edgeID, ts[0].edgeID);
      var all := Listed(ts, t);
      if Before(t.edgeID, ts[0].edgeID) {
        assert all == [t] + ts;
        forall j | 0 <= j < |ts| ensures Before(t.edgeID, ts[j].edgeID) {
          if j > 0 { BeforeIsTransitive(t.edgeID, ts[0].edgeID, ts[j].edgeID); }
        }
      } else {
        assert all == [ts[0]] + rest;
        forall j | 0 <= j < |rest| ensures Before(ts[0].edgeID, rest[j].edgeID) {
          assert rest[j] in rest;
          if rest[j] != t {
            var k :| 0 <= k < |ts[1..]| && ts[1..][k] == rest[j];
            assert ts[k + 1] == rest[j];
          }
        }
      }
    }
  }

  lemma {:induction false} NewTargetsAre(pops: seq<string>, version: string, from: map<string, string>, now: int)
    requires Distinct(pops)
    ensures InOrder(NewTargets(pops, version, from, now))
    ensures forall t :: t in NewTargets(pops, version, from, now) <==> t.edgeID in pops && t == Fresh(t.edgeID, version, from, now)
  {
    if pops == [] {
    } else {
      var front, edge := pops[..|pops| - 1], pops[|pops| - 1];
      NewTargetsAre(front, version, from, now);
      assert pops == front + [edge];
      ListedInOrder(NewTargets(front, version, from, now), Fresh(edge, version, from, now));
    }
  }

  lemma TailLacksHead(a: seq<Target>)
    requires InOrder(a) && a != []
    ensures a[0] !in a[1..]
  {
    forall k | 0 <= k < |a[1..]| ensures a[1..][k] != a[0] {
      assert a[1..][k] == a[k + 1];
      BeforeIsStrict(a[0].edgeID, a[k + 1].edgeID);
    }
  }

  lemma {:induction false} OneOrderOnly(a: seq<Target>, b: seq<Target>)
    requires InOrder(a) && InOrder(b) && forall t :: t in a <==> t in b
    ensures a == b
    decreases |a|
  {
    assert a != [] ==> a[0] in b;
    assert b != [] ==> b[0] in a;
    if a == [] {
    } else {
      BeforeIsStrict(a[0].edgeID, b[0].edgeID);
      assert a[0] == b[0];
      var ra, rb := a[1..], b[1..];
      assert a == [a[0]] + ra && b == [b[0]] + rb;
      TailLacksHead(a);
      TailLacksHead(b);
      forall t ensures t in ra <==> t in rb {
        assert t in ra <==> t in a && t != a[0];
        assert t in rb <==> t in b && t != b[0];
      }
      OneOrderOnly(ra, rb);
      assert a == [a[0]] + ra == [b[0]] + rb == b;
    }
  }

  /** Two requests for the same edges create the same targets in the same order:
      waves open in edge id order. */
  lemma RequestOrderIsLost(p: seq<string>, q: seq<string>, version: string, from: map<string, string>, now: int)
    requires Distinct(p) && Distinct(q) && forall e :: e in p <==> e in q
    ensures NewTargets(p, version, from, now) == NewTargets(q, version, from, now)
  {
    NewTargetsAre(p, version, from, now);
    NewTargetsAre(q, version, from, now);
    OneOrderOnly(NewTargets(p, version, from, now), NewTargets(q, version, from, now));
  }

  predicate Ascending(pops: seq<string>) {
    forall i, j :: 0 <= i < j < |pops| ==> Before(pops[i], pops[j])
  }

  function Requested(pops: seq<string>, version: string, from: map<string, string>, now: int): seq<Target> {
    seq(|pops|, i requires 0 <= i < |pops| => Fresh(pops[i], version, from, now))
  }

  /** Targets run "in order", as the request and the schema say, exactly when the
      request names its edges in ascending order. */
  lemma RequestOrderKeptIff(pops: seq<string>, version: string, from: map<string, string>, now: int)
    requires Distinct(pops)
    ensures NewTargets(pops, version, from, now) == Requested(pops, version, from, now) <==> Ascending(pops)
  {
    hide Before;
    NewTargetsAre(pops, version, from, now);
    var ts, asked := NewTargets(pops, version, from, now), Requested(pops, version, from, now);
    if Ascending(pops) {
      forall t ensures t in ts <==> t in asked {
        if t in ts {
          var i :| 0 <= i < |pops| && pops[i] == t.edgeID;
          assert asked[i] == t;
        }
      }
      OneOrderOnly(ts, asked);
    }
    if ts == asked {
      forall i, j | 0 <= i < j < |pops| ensures Before(pops[i], pops[j]) {
        assert ts[i].edgeID == pops[i] && ts[j].edgeID == pops[j];
      }
    }
  }

  /** "b" before "a" is turned around. */
  lemma DescendingRequestIsReversed(version: string, now: int)
    ensures var ts := NewTargets(["b", "a"], version, map[], now);
            |ts| == 2 && ts[0].edgeID == "a" && ts[1].edgeID == "b"
  {
    assert ["b", "a"][..1] == ["b"] && ["b"][..0] == [];
    assert Before("a", "b") && !Before("b", "a");
    var b, a := Fresh("b", version, map[], now), Fresh("a", version, map[], now);
    assert NewTargets(["b"], version, map[], now) == [b];
    assert NewTargets(["b", "a"], version, map[], now) == Listed([b], a);
  }

  // ---------- the invariant ----------

  predicate Terminal(t: Target) {
    t.state.Finished? || t.state.Broken? || t.state.Skipped?
  }

  /** One rollout: its targets are over, then at most one is in flight, and all
      after it are queued; a broken target means the rollout is over; a done one
      has only finished and skipped targets; the finish is stamped exactly when it is
      over, the start from its first run on. */
  ghost predicate Sound(r: Rollout) {
    InOrder(r.targets) && r.soak > 0
    && (forall k, j :: 0 <= k < j < |r.targets| && !Terminal(r.targets[k]) ==> r.targets[j].state.Queued?)
    && (forall k :: 0 <= k < |r.targets| ==> r.targets[k].to == r.version)
    && (forall k :: 0 <= k < |r.targets| && r.targets[k].state.Soaking? ==> r.targets[k].soakUntil == Some(r.targets[k].updatedAt + r.soak))
    && (forall k :: 0 <= k < |r.targets| && r.targets[k].state.Broken? ==> !IsActive(r.status))
    && (r.finishedAt.Some? <==> !IsActive(r.status))
    && (r.status.Scheduled? ==> r.startedAt.None?) && (!r.status.Scheduled? && !r.status.Cancelled? ==> r.startedAt.Some?)
    && (r.status.Scheduled? ==> forall k :: 0 <= k < |r.targets| ==> r.targets[k].state.Queued?)
    && (r.status.Done? ==> forall k :: 0 <= k < |r.targets| ==> r.targets[k].state.Finished? || r.targets[k].state.Skipped?)
  }

  ghost predicate World(rs: seq<Rollout>) {
    (forall i :: 0 <= i < |rs| ==> Sound(rs[i]))
    && (forall i, j :: 0 <= i < j < |rs| ==> !(IsActive(rs[i].status) && IsActive(rs[j].status)))
  }

  /** Replacing the first target that is not over, by one that is not queued. */
  lemma PutKeepsSound(r: Rollout, j: nat, t: Target, st: Status, reason: string, now: int)
    requires Sound(r) && r.status.Running? && j < |r.targets| && (st.Running? || st.Failed?)
    requires t.edgeID == r.targets[j].edgeID && t.to == r.targets[j].to && !t.state.Queued?
    requires forall k :: 0 <= k < j ==> Terminal(r.targets[k])
    requires forall k :: j < k < |r.targets| ==> r.targets[k].state.Queued?
    requires t.state.Soaking? ==> t.soakUntil == Some(t.updatedAt + r.soak)
    requires st.Running? ==> !t.state.Broken?
    ensures Sound(WithStatus(Put(r, j, t), st, reason, now))
  {
    hide Before;
  }

  lemma Shape(r: Rollout, j: nat)
    requires Sound(r) && j < |r.targets|
    requires InFlight(r.targets[j]) || (r.targets[j].state.Queued? && forall k :: 0 <= k < j ==> !InFlight(r.targets[k]) && !r.targets[k].state.Queued?)
    ensures forall k :: 0 <= k < j ==> Terminal(r.targets[k])
    ensures forall k :: j < k < |r.targets| ==> r.targets[k].state.Queued?
  {
    hide InOrder;
  }

  lemma TickKeepsSound(r: Rollout, edges: string -> EdgeState, now: int, grace: int)
    requires Sound(r) && IsActive(r.status)
    ensures Sound(TickedOne(r, edges, now, grace))
  {
    var f, q := FirstInFlight(r.targets), FirstQueued(r.targets);
    if r.status.Running? && (f.Some? || q.Some?) {
      var j := if f.Some? then f.value else q.value;
      Shape(r, j);
      var t := TickedOne(r, edges, now, grace).targets[j];
      hide InOrder, FirstInFlight, FirstQueued;
      if TickedOne(r, edges, now, grace) != r {
        assert t.edgeID == r.targets[j].edgeID && t.to == r.targets[j].to;
        hide Sound;
        PutKeepsSound(r, j, t, if t.state.Broken? then Failed else Running, if t.state.Broken? then STUCK else "", now);
      }
    }
  }

  lemma CreatedKeepsWorld(rs: seq<Rollout>, version: string, pops: seq<string>, soak: int, scheduledAt: Option<int>,
                          from: map<string, string>, now: int)
    requires World(rs)
    ensures World(Created(rs, version, pops, soak, scheduledAt, from, now))
  {
    if ActiveID(rs).None? && Distinct(pops) {
      NewTargetsAre(pops, version, from, now);
      var rs' := Created(rs, version, pops, soak, scheduledAt, from, now);
      hide InOrder, NewTargets, Distinct, ActiveID;
      assert rs' == rs + [rs'[|rs|]];
      forall k | 0 <= k < |rs'[|rs|].targets| ensures rs'[|rs|].targets[k].state.Queued? && rs'[|rs|].targets[k].to == version {
        assert rs'[|rs|].targets[k] in rs'[|rs|].targets;
      }
      assert Sound(rs'[|rs|]);
    }
  }

  lemma PutStatus(rs: seq<Rollout>, id: nat, st: Status, reason: string, now: int)
    requires World(rs) && id < |rs|
    requires (st.Running? && rs[id].status.Paused?) || (st.Paused? && rs[id].status.Running?) || st.Cancelled?
    ensures World(rs[id := WithStatus(rs[id], st, reason, now)])
  {
    hide InOrder;
  }

  lemma StepKeepsWorld(rs: seq<Rollout>, e: Event, grace: int)
    requires World(rs)
    ensures World(Step(rs, e, grace))
  {
    hide Sound, Created, TickedOne;
    match e
    case Tick(edges, now) =>
      var id := ActiveID(rs);
      if id.Some? {
        TickKeepsSound(rs[id.value], edges, now, grace);
      }
    case Admin(call, releases, from, now) =>
      match call
      case Start(version, pops, soak, scheduledAt) => CreatedKeepsWorld(rs, version, pops, soak, scheduledAt, from, now);
      case Pause(id) => if 0 <= id < |rs| && rs[id].status.Running? { PutStatus(rs, id, Paused, "", now); }
      case Resume(id) => if 0 <= id < |rs| && rs[id].status.Paused? { PutStatus(rs, id, Running, "", now); }
      case Cancel(id) => if 0 <= id < |rs| { PutStatus(rs, id, Cancelled, "", now); }
      case Rollback(id, version) =>
        if 0 <= id < |rs| {
          var to := RollbackTo(rs[id], version);
          var stopped := if IsActive(rs[id].status) then rs[id := WithStatus(rs[id], Cancelled, "rolled back", now)] else rs;
          if IsActive(rs[id].status) { PutStatus(rs, id, Cancelled, "rolled back", now); }
          CreatedKeepsWorld(stopped, to, rs[id].pops, rs[id].soak, None, from, now);
        }
  }

  /** The invariant holds in every state that any run reaches. */
  lemma {:induction false} EveryRunKeepsWorld(rs: seq<Rollout>, evs: seq<Event>, grace: int)
    requires World(rs)
    ensures World(After(rs, evs, grace))
  {
    hide World, Step;
    if evs == [] {
    } else {
      EveryRunKeepsWorld(rs, evs[..|evs| - 1], grace);
      StepKeepsWorld(After(rs, evs[..|evs| - 1], grace), evs[|evs| - 1], grace);
    }
  }

  // ---------- one offer at a time ----------

  lemma {:induction false} OfferExactly(ts: seq<Target>, edgeID: string, current: string, releases: set<string>)
    requires InOrder(ts)
    ensures OfferFrom(ts, edgeID, current, releases) != current <==>
            exists j :: 0 <= j < |ts| && ts[j].edgeID == edgeID && InFlight(ts[j]) && ts[j].to in releases && ts[j].to != current
  {
    hide Before;
    if ts == [] {
    } else {
      var rest := ts[1..];
      assert forall j :: 0 <= j < |rest| ==> rest[j] == ts[j + 1];
      OfferExactly(rest, edgeID, current, releases);
      forall j | 0 < j < |ts| ensures ts[j].edgeID != ts[0].edgeID { BeforeIsStrict(ts[0].edgeID, ts[j].edgeID); }
      if exists j :: 0 <= j < |ts| && ts[j].edgeID == edgeID && InFlight(ts[j]) && ts[j].to in releases && ts[j].to != current {
        var j :| 0 <= j < |ts| && ts[j].edgeID == edgeID && InFlight(ts[j]) && ts[j].to in releases && ts[j].to != current;
        if j > 0 { assert rest[j - 1] == ts[j]; }
      }
    }
  }

  /** In every reachable state at most one edge is offered a version other than the
      one it runs, and only while the rollout is running and that edge's own target
      is the one in flight. */
  lemma OneOfferAtATime(rs: seq<Rollout>, a: string, b: string, currentA: string, currentB: string, releases: set<string>)
    requires World(rs)
    ensures Offer(rs, a, currentA, releases) != currentA && Offer(rs, b, currentB, releases) != currentB ==> a == b
    ensures Offer(rs, a, currentA, releases) != currentA ==>
            exists i, j :: 0 <= i < |rs| && rs[i].status.Running? && 0 <= j < |rs[i].targets|
                           && rs[i].targets[j].edgeID == a && InFlight(rs[i].targets[j])
                           && Offer(rs, a, currentA, releases) == rs[i].version
  {
    var id := ActiveID(rs);
    if id.Some? && rs[id.value].status.Running? {
      var r := rs[id.value];
      OfferExactly(r.targets, a, currentA, releases);
      OfferExactly(r.targets, b, currentB, releases);
      OfferIsVersion(r, a, currentA, releases);
      hide InOrder, OfferFrom, ActiveID;
    }
  }

  lemma OfferIsVersion(r: Rollout, edgeID: string, current: string, releases: set<string>)
    requires Sound(r)
    ensures OfferFrom(r.targets, edgeID, current, releases) in {current, r.version}
  {
    OfferIsCurrentOr(r.targets, edgeID, current, releases, r.version);
  }

  lemma {:induction false} OfferIsCurrentOr(ts: seq<Target>, edgeID: string, current: string, releases: set<string>, version: string)
    requires forall j :: 0 <= j < |ts| ==> ts[j].to == version
    ensures OfferFrom(ts, edgeID, current, releases) == current || OfferFrom(ts, edgeID, current, releases) == version
  {
    if ts == [] {
    } else {
      OfferIsCurrentOr(ts[1..], edgeID, current, releases, version);
    }
  }

  /** The offer, in full. The edge whose target is in flight in the running rollout is
      told that rollout's version if the release exists, whatever it runs now; every
      other edge is told its own. */
  lemma OfferIff(rs: seq<Rollout>, edge: string, current: string, releases: set<string>)
    requires World(rs)
    ensures forall i, j :: 0 <= i < |rs| && rs[i].status.Running? && 0 <= j < |rs[i].targets|
                           && rs[i].targets[j].edgeID == edge && InFlight(rs[i].targets[j]) && rs[i].version in releases ==>
              Offer(rs, edge, current, releases) == rs[i].version
    ensures Offer(rs, edge, current, releases) != current <==>
              exists i, j :: 0 <= i < |rs| && rs[i].status.Running? && 0 <= j < |rs[i].targets|
                             && rs[i].targets[j].edgeID == edge && InFlight(rs[i].targets[j]) && rs[i].version in releases
                             && rs[i].version != current
  {
    hide Sound, InFlight;
    forall i, j | 0 <= i < |rs| && rs[i].status.Running? && 0 <= j < |rs[i].targets|
                  && rs[i].targets[j].edgeID == edge && InFlight(rs[i].targets[j]) && rs[i].version in releases
      ensures Offer(rs, edge, current, releases) == rs[i].version
    {
      OfferedVersion(rs, i, j, current, releases);
    }
    OneOfferAtATime(rs, edge, edge, current, current, releases);
    if Offer(rs, edge, current, releases) != current {
      OfferIsReleased(rs, edge, current, releases);
    }
  }

  lemma {:induction false} TargetOffered(ts: seq<Target>, j: nat, current: string, releases: set<string>)
    requires InOrder(ts) && j < |ts| && InFlight(ts[j]) && ts[j].to in releases
    ensures OfferFrom(ts, ts[j].edgeID, current, releases) == ts[j].to
    decreases j
  {
    hide Before;
    if j == 0 {
    } else {
      BeforeIsStrict(ts[0].edgeID, ts[j].edgeID);
      assert forall k :: 0 <= k < |ts[1..]| ==> ts[1..][k] == ts[k + 1];
      TargetOffered(ts[1..], j - 1, current, releases);
    }
  }

  lemma OfferedVersion(rs: seq<Rollout>, i: nat, j: nat, current: string, releases: set<string>)
    requires World(rs) && i < |rs| && rs[i].status.Running? && j < |rs[i].targets| && InFlight(rs[i].targets[j]) && rs[i].version in releases
    ensures Offer(rs, rs[i].targets[j].edgeID, current, releases) == rs[i].version
  {
    assert Sound(rs[i]) && IsActive(rs[i].status);
    assert rs[i].targets[j].to == rs[i].version;
    TargetOffered(rs[i].targets, j, current, releases);
    hide Sound, InOrder, OfferFrom, InFlight;
    OnlyActive(rs, i);
  }

  lemma {:induction false} OfferedIsReleased(ts: seq<Target>, edge: string, current: string, releases: set<string>)
    ensures OfferFrom(ts, edge, current, releases) != current ==> OfferFrom(ts, edge, current, releases) in releases
  {
    if ts == [] {
    } else {
      OfferedIsReleased(ts[1..], edge, current, releases);
    }
  }

  lemma OfferIsReleased(rs: seq<Rollout>, edge: string, current: string, releases: set<string>)
    requires Offer(rs, edge, current, releases) != current
    ensures Offer(rs, edge, current, releases) in releases
  {
    OfferedIsReleased(rs[ActiveID(rs).value].targets, edge, current, releases);
  }

  // ---------- what is over stays over ----------

  lemma StepFreezes(rs: seq<Rollout>, e: Event, grace: int, i: nat)
    requires i < |rs| && !IsActive(rs[i].status)
    ensures i < |Step(rs, e, grace)| && !IsActive(Step(rs, e, grace)[i].status)
    ensures Step(rs, e, grace)[i].targets == rs[i].targets
  {
    hide TickedOne, NewTargets, Distinct;
  }

  /** A rollout that is done, failed or cancelled never becomes active again and
      its targets never change again, whatever happens. */
  lemma {:induction false} OverIsOver(rs: seq<Rollout>, evs: seq<Event>, grace: int, i: nat)
    requires i < |rs| && !IsActive(rs[i].status)
    ensures i < |After(rs, evs, grace)| && !IsActive(After(rs, evs, grace)[i].status)
    ensures After(rs, evs, grace)[i].targets == rs[i].targets
  {
    hide Step;
    if evs == [] {
    } else {
      OverIsOver(rs, evs[..|evs| - 1], grace, i);
      StepFreezes(After(rs, evs[..|evs| - 1], grace), evs[|evs| - 1], grace, i);
    }
  }

  /** Halt on failure: once a target is broken, no target of that rollout ever
      changes again; in particular no queued one opens. */
  lemma BrokenHalts(rs: seq<Rollout>, evs: seq<Event>, grace: int, i: nat, j: nat)
    requires World(rs) && i < |rs| && j < |rs[i].targets| && rs[i].targets[j].state.Broken?
    ensures i < |After(rs, evs, grace)| && After(rs, evs, grace)[i].targets == rs[i].targets
  {
    assert Sound(rs[i]);
    OverIsOver(rs, evs, grace, i);
  }

  // ---------- a torn failure ----------

  /** The rollout when only the first of the two writes of a failing tick is made. */
  function Torn(r: Rollout, j: nat, now: int): Rollout
    requires j < |r.targets|
  {
    Put(r, j, Ended(r.targets[j], Broken, STUCK, now))
  }

  /** Where a torn rollout stands before its n-th further tick: the targets up to j
      are over, the next n were skipped, the rest are as they were. */
  ghost predicate TornAfter(r: Rollout, j: nat, n: nat, x: Rollout) {
    j < |r.targets| == |x.targets|
    && x.targets[j].state.Broken?
    && (forall k :: 0 <= k < |r.targets| ==> x.targets[k].edgeID == r.targets[k].edgeID)
    && (forall k :: 0 <= k <= j + n && k < |r.targets| ==> Terminal(x.targets[k]))
    && (forall k :: j + n < k < |r.targets| ==> x.targets[k].state.Queued?)
    && (if j + n < |r.targets| then x.status.Running? else x.status.Done?)
  }

  lemma TornStart(r: Rollout, j: nat, now: int)
    requires Sound(r) && r.status.Running? && j < |r.targets| && InFlight(r.targets[j])
    ensures TornAfter(r, j, 0, Torn(r, j, now))
  {
    hide InOrder;
    Shape(r, j);
  }

  lemma TornTick(r: Rollout, j: nat, n: nat, x: Rollout, edges: string -> EdgeState, now: int, grace: int)
    requires TornAfter(r, j, n, x) && x.status.Running?
    ensures var y := TickedOne(x, edges, now, grace);
            if j + n + 1 < |r.targets| && edges(r.targets[j + n + 1].edgeID).online then y.targets[j + n + 1].state.InProgress?
            else TornAfter(r, j, n + 1, y) && forall k :: 0 <= k < |y.targets| ==> !y.targets[k].state.InProgress?
  {
    assert FirstInFlight(x.targets).None?;
    if j + n + 1 < |r.targets| {
      assert x.targets[j + n + 1].state.Queued?;
      assert FirstQueued(x.targets) == Some(j + n + 1);
    } else {
      assert FirstQueued(x.targets).None?;
    }
    hide FirstInFlight, FirstQueued;
  }

  /** Halting needs the tick to be atomic. When only the first of the two writes of
      a failing tick is made, the next tick opens a target exactly when the target
      after the broken one exists and is online; when there is none, the rollout is
      declared done over its broken target. */
  lemma TornFailureOpensNextIff(r: Rollout, j: nat, now: int, edges: string -> EdgeState, later: int, grace: int)
    requires Sound(r) && r.status.Running? && j < |r.targets| && InFlight(r.targets[j])
    ensures var y := TickedOne(Torn(r, j, now), edges, later, grace);
            ((exists k :: 0 <= k < |y.targets| && y.targets[k].state.InProgress?)
             <==> j + 1 < |r.targets| && edges(r.targets[j + 1].edgeID).online)
            && (j + 1 == |r.targets| ==> y.status.Done? && y.targets[j].state.Broken?)
  {
    hide Sound, Torn, TickedOne;
    TornStart(r, j, now);
    TornTick(r, j, 0, Torn(r, j, now), edges, later, grace);
    TickKeepsRest(Torn(r, j, now), edges, later, grace);
    var y := TickedOne(Torn(r, j, now), edges, later, grace);
    assert j + 1 < |r.targets| && edges(r.targets[j + 1].edgeID).online ==> y.targets[j + 1].state.InProgress?;
  }

  /** A rollout of version 2 to "a" and "b" whose first edge never takes the version:
      the tick at 1000 fails it and halts, but its first write alone lets the tick
      after it open "b". */
  lemma TornTickOpensSecond()
    ensures var r := Rollout("2", ["a", "b"], 90, Running, "", None, Some(0), None,
                             [Target("a", "1", "2", InProgress, "", None, 0), Target("b", "", "2", Queued, "", None, 0)]);
            var edges := (id: string) => EdgeState(true, "1", true);
            Sound(r) && TickedOne(r, edges, 1000, 600).status.Failed?
            && TickedOne(Torn(r, 0, 1000), edges, 1001, 600).targets[1].state.InProgress?
  {
    var r := Rollout("2", ["a", "b"], 90, Running, "", None, Some(0), None,
                     [Target("a", "1", "2", InProgress, "", None, 0), Target("b", "", "2", Queued, "", None, 0)]);
    var edges := (id: string) => EdgeState(true, "1", true);
    assert Before("a", "b");
    var x := Torn(r, 0, 1000);
    assert FirstInFlight(r.targets) == Some(0);
    assert FirstInFlight(x.targets) == None && x.targets[1].state.Queued?;
    assert FirstQueued(x.targets) == Some(1);
  }

  /** Some target is online when its turn comes, at the tick of its rank after j. */
  ghost predicate OnlineAtTurn(r: Rollout, j: nat, evs: seq<Event>) {
    exists k :: 0 <= k < |evs| && j + 1 + k < |r.targets| && evs[k].Tick? && evs[k].edges(r.targets[j + 1 + k].edgeID).online
  }

  /** Rollout i is the only active one in rs, torn at target j. */
  ghost predicate TornIn(rs: seq<Rollout>, i: nat, r: Rollout, j: nat, now: int) {
    i < |rs| && Sound(r) && r.status.Running? && j < |r.targets| && InFlight(r.targets[j]) && rs[i] == Torn(r, j, now)
    && forall k :: 0 <= k < |rs| && k != i ==> !IsActive(rs[k].status)
  }

  lemma {:induction false} TornQuietly(rs: seq<Rollout>, i: nat, r: Rollout, j: nat, now: int, evs: seq<Event>, grace: int)
    requires TornIn(rs, i, r, j, now) && !OnlineAtTurn(r, j, evs)
    requires forall k :: 0 <= k < |evs| ==> evs[k].Tick?
    ensures var rs' := After(rs, evs, grace);
            |rs'| == |rs| && (forall k :: 0 <= k < |rs| && k != i ==> !IsActive(rs'[k].status))
            && TornAfter(r, j, if j + |evs| <= |r.targets| then |evs| else |r.targets| - j, rs'[i])
            && forall k :: 0 <= k < |rs'[i].targets| ==> !rs'[i].targets[k].state.InProgress?
  {
    hide Sound, Torn, TickedOne, FirstQueued, FirstInFlight;
    if evs == [] {
      TornStart(r, j, now);
      TornHasNoOpen(r, j, 0, rs[i]);
    } else {
      var n := |evs| - 1;
      var before, e := evs[..n], evs[n];
      assert forall k :: 0 <= k < n ==> before[k] == evs[k];
      TornQuietly(rs, i, r, j, now, before, grace);
      var mid := After(rs, before, grace);
      hide After, ActiveID;
      assert After(rs, evs, grace) == Ticked(mid, e.edges, e.now, grace) by { LastEvent(rs, evs, grace); }
      if j + n < |r.targets| {
        OnlyActive(mid, i);
        TornTick(r, j, n, mid[i], e.edges, e.now, grace);
      } else {
        NoneActive(mid);
      }
    }
  }

  lemma LastEvent(rs: seq<Rollout>, evs: seq<Event>, grace: int)
    requires evs != []
    ensures After(rs, evs, grace) == Step(After(rs, evs[..|evs| - 1], grace), evs[|evs| - 1], grace)
  {
  }

  lemma OnlyActive(rs: seq<Rollout>, i: nat)
    requires i < |rs| && IsActive(rs[i].status) && forall k :: 0 <= k < |rs| && k != i ==> !IsActive(rs[k].status)
    ensures ActiveID(rs) == Some(i)
  {
  }

  lemma NoneActive(rs: seq<Rollout>)
    requires forall k :: 0 <= k < |rs| ==> !IsActive(rs[k].status)
    ensures ActiveID(rs) == None
  {
  }

  lemma TornHasNoOpen(r: Rollout, j: nat, n: nat, x: Rollout)
    requires TornAfter(r, j, n, x)
    ensures forall k :: 0 <= k < |x.targets| ==> !x.targets[k].state.InProgress?
  {
  }

  lemma TornOpens(rs: seq<Rollout>, i: nat, r: Rollout, j: nat, now: int, evs: seq<Event>, grace: int) returns (m: nat)
    requires TornIn(rs, i, r, j, now) && (forall k :: 0 <= k < |evs| ==> evs[k].Tick?) && OnlineAtTurn(r, j, evs)
    ensures m <= |evs| && SomeOpen(After(rs, evs[..m], grace), i)
  {
    hide After, Sound, Torn, ActiveID;
    var n := FirstOnlineTurn(r, j, evs);
    assert forall k :: 0 <= k < n ==> evs[..n][k] == evs[k];
    TornQuietly(rs, i, r, j, now, evs[..n], grace);
    var mid := After(rs, evs[..n], grace);
    OnlyActive(mid, i);
    TornTick(r, j, n, mid[i], evs[n].edges, evs[n].now, grace);
    m := n + 1;
    LastEvent(rs, evs[..m], grace);
    assert evs[..m][..|evs[..m]| - 1] == evs[..n] && evs[..m][|evs[..m]| - 1] == evs[n];
    assert After(rs, evs[..m], grace) == Ticked(mid, evs[n].edges, evs[n].now, grace);
    assert After(rs, evs[..m], grace)[i].targets[j + n + 1].state.InProgress?;
  }

  /** Over any number of further ticks a torn rollout opens a target exactly when one
      is online at its turn; otherwise, after one tick per remaining target and one
      more, it is declared done over its broken target. */
  lemma TornRunOpensIff(rs: seq<Rollout>, i: nat, r: Rollout, j: nat, now: int, evs: seq<Event>, grace: int)
    requires TornIn(rs, i, r, j, now) && forall k :: 0 <= k < |evs| ==> evs[k].Tick?
    ensures (exists m :: 0 <= m <= |evs| && SomeOpen(After(rs, evs[..m], grace), i)) <==> OnlineAtTurn(r, j, evs)
    ensures !OnlineAtTurn(r, j, evs) && |evs| >= |r.targets| - j ==>
              i < |After(rs, evs, grace)| && After(rs, evs, grace)[i].status.Done?
              && j < |After(rs, evs, grace)[i].targets| && After(rs, evs, grace)[i].targets[j].state.Broken?
  {
    hide After, Sound, Torn, Step;
    if OnlineAtTurn(r, j, evs) {
      hide SomeOpen;
      var m := TornOpens(rs, i, r, j, now, evs, grace);
    } else {
      forall m | 0 <= m <= |evs| ensures !SomeOpen(After(rs, evs[..m], grace), i) {
        assert forall k :: 0 <= k < m ==> evs[..m][k] == evs[k];
        TornQuietly(rs, i, r, j, now, evs[..m], grace);
      }
      TornQuietly(rs, i, r, j, now, evs, grace);
    }
  }

  ghost predicate SomeOpen(rs: seq<Rollout>, i: nat) {
    i < |rs| && exists k :: 0 <= k < |rs[i].targets| && rs[i].targets[k].state.InProgress?
  }

  lemma FirstOnlineTurn(r: Rollout, j: nat, evs: seq<Event>) returns (m: nat)
    requires OnlineAtTurn(r, j, evs)
    ensures m < |evs| && j + 1 + m < |r.targets| && evs[m].Tick? && evs[m].edges(r.targets[j + 1 + m].edgeID).online
    ensures !OnlineAtTurn(r, j, evs[..m])
  {
    var n :| 0 <= n < |evs| && j + 1 + n < |r.targets| && evs[n].Tick? && evs[n].edges(r.targets[j + 1 + n].edgeID).online;
    m := 0;
    while !(evs[m].Tick? && evs[m].edges(r.targets[j + 1 + m].edgeID).online)
      invariant m <= n
      invariant forall k :: 0 <= k < m ==> !(evs[k].Tick? && evs[k].edges(r.targets[j + 1 + k].edgeID).online)
      decreases n - m
    {
      m := m + 1;
    }
  }

  // ---------- soak evidence ----------

  /** Event p is a tick that saw the edge online, healthy and on version to. */
  ghost predicate Saw(evs: seq<Event>, p: int, edgeID: string, to: string) {
    0 <= p < |evs| && evs[p].Tick? && evs[p].edges(edgeID).online && evs[p].edges(edgeID).healthy && evs[p].edges(edgeID).version == to
  }

  /** Event o of a run from an empty store is a tick that turned target j of rollout i
      from one state to another. */
  ghost predicate TurnedAt(evs: seq<Event>, grace: int, i: nat, j: nat, o: int, was: TargetState, becomes: TargetState) {
    0 <= o < |evs| && evs[o].Tick?
    && var s, s' := After([], evs[..o], grace), After([], evs[..o + 1], grace);
       i < |s| && i < |s'| && j < |s[i].targets| && j < |s'[i].targets|
       && s[i].targets[j].state == was && s'[i].targets[j].state == becomes
  }

  ghost predicate OpenedAt(evs: seq<Event>, grace: int, i: nat, j: nat, o: int) {
    TurnedAt(evs, grace, i, j, o, Queued, InProgress)
  }

  ghost predicate SoakedAt(evs: seq<Event>, grace: int, i: nat, j: nat, p: int) {
    TurnedAt(evs, grace, i, j, p, InProgress, Soaking)
  }

  /** Event q is a tick more than soak and grace after event b, and it did not see the
      edge online, healthy and on the new version. */
  ghost predicate Missed(evs: seq<Event>, b: int, q: int, t: Target, soak: int, grace: int) {
    0 <= b < q < |evs| && evs[b].Tick? && evs[q].Tick? && evs[q].now > evs[b].now + soak + grace && !Saw(evs, q, t.edgeID, t.to)
  }

  ghost predicate TickAt(evs: seq<Event>, o: int) {
    0 <= o < |evs| && evs[o].Tick?
  }

  ghost predicate OpenEvidence(evs: seq<Event>, grace: int, i: nat, j: nat, t: Target) {
    exists o :: TickAt(evs, o) && OpenedAt(evs, grace, i, j, o) && evs[o].now == t.updatedAt
                && evs[o].edges(t.edgeID).online && evs[o].edges(t.edgeID).version == t.from
  }

  ghost predicate SoakEvidence(evs: seq<Event>, grace: int, i: nat, j: nat, t: Target) {
    exists o, p :: TickAt(evs, o) && TickAt(evs, p) && OpenedAt(evs, grace, i, j, o) && o < p && SoakedAt(evs, grace, i, j, p)
                   && Saw(evs, p, t.edgeID, t.to) && evs[p].now == t.updatedAt
  }

  ghost predicate FinishEvidence(evs: seq<Event>, grace: int, i: nat, j: nat, t: Target, soak: int) {
    exists o, p, q :: TickAt(evs, o) && TickAt(evs, p) && TickAt(evs, q)
                      && OpenedAt(evs, grace, i, j, o) && Saw(evs, p, t.edgeID, t.to) && Saw(evs, q, t.edgeID, t.to)
                      && o < p < q && evs[q].now - evs[p].now >= soak
  }

  ghost predicate BreakEvidence(evs: seq<Event>, grace: int, i: nat, j: nat, t: Target, soak: int) {
    exists o, b, q :: TickAt(evs, o) && OpenedAt(evs, grace, i, j, o) && (b == o || (o < b && SoakedAt(evs, grace, i, j, b)))
                      && Missed(evs, b, q, t, soak, grace)
  }

  ghost predicate SkipEvidence(evs: seq<Event>, t: Target) {
    exists q :: TickAt(evs, q) && !evs[q].edges(t.edgeID).online
  }

  /** The evidence behind a target's state. A finished one was opened, then, later,
      seen healthy on the new version, then, at least the soak window later, seen so
      again. A broken one was opened, and soak and grace after that or after its soak
      began it was not seen so. A skipped one was offline. The version an opened one
      came from is the one its edge reported then. */
  ghost predicate Evident(evs: seq<Event>, grace: int, i: nat, j: nat, t: Target, soak: int) {
    (t.state.InProgress? ==> OpenEvidence(evs, grace, i, j, t))
    && (t.state.Soaking? ==> SoakEvidence(evs, grace, i, j, t))
    && (t.state.Finished? ==> FinishEvidence(evs, grace, i, j, t, soak))
    && (t.state.Broken? ==> BreakEvidence(evs, grace, i, j, t, soak))
    && (t.state.Skipped? ==> SkipEvidence(evs, t))
  }

  ghost predicate AllEvident(evs: seq<Event>, grace: int, rs: seq<Rollout>) {
    forall i, j :: 0 <= i < |rs| && 0 <= j < |rs[i].targets| ==> Evident(evs, grace, i, j, rs[i].targets[j], rs[i].soak)
  }

  lemma OneMoreEvent(evs: seq<Event>, e: Event, grace: int)
    ensures After([], evs + [e], grace) == Step(After([], evs, grace), e, grace)
    ensures forall o :: 0 <= o <= |evs| ==> (evs + [e])[..o] == evs[..o]
  {
    assert (evs + [e])[..|evs|] == evs;
  }

  lemma TurnedStays(evs: seq<Event>, e: Event, grace: int, i: nat, j: nat, o: int, was: TargetState, becomes: TargetState)
    requires TurnedAt(evs, grace, i, j, o, was, becomes)
    ensures TurnedAt(evs + [e], grace, i, j, o, was, becomes) && 0 <= o < |evs| && (evs + [e])[o] == evs[o]
  {
    assert (evs + [e])[..o] == evs[..o] && (evs + [e])[..o + 1] == evs[..o + 1];
  }

  lemma SightingStays(evs: seq<Event>, e: Event, p: int, edgeID: string, to: string)
    requires Saw(evs, p, edgeID, to)
    ensures Saw(evs + [e], p, edgeID, to) && 0 <= p < |evs| && (evs + [e])[p] == evs[p]
  {
  }

  lemma MissStays(evs: seq<Event>, e: Event, b: int, q: int, t: Target, soak: int, grace: int)
    requires Missed(evs, b, q, t, soak, grace)
    ensures Missed(evs + [e], b, q, t, soak, grace)
  {
    assert (evs + [e])[b] == evs[b] && (evs + [e])[q] == evs[q];
  }

  lemma OpenStays(evs: seq<Event>, e: Event, grace: int, i: nat, j: nat, t: Target)
    requires OpenEvidence(evs, grace, i, j, t)
    ensures OpenEvidence(evs + [e], grace, i, j, t)
  {
    hide TurnedAt;
    var o :| TickAt(evs, o) && OpenedAt(evs, grace, i, j, o) && evs[o].now == t.updatedAt && evs[o].edges(t.edgeID).online
        && evs[o].edges(t.edgeID).version == t.from;
    TurnedStays(evs, e, grace, i, j, o, Queued, InProgress);
  }

  lemma SoakStays(evs: seq<Event>, e: Event, grace: int, i: nat, j: nat, t: Target)
    requires SoakEvidence(evs, grace, i, j, t)
    ensures SoakEvidence(evs + [e], grace, i, j, t)
  {
    hide TurnedAt, Saw;
    var o, p :| TickAt(evs, o) && TickAt(evs, p) && OpenedAt(evs, grace, i, j, o) && o < p && SoakedAt(evs, grace, i, j, p)
        && Saw(evs, p, t.edgeID, t.to) && evs[p].now == t.updatedAt;
    TurnedStays(evs, e, grace, i, j, o, Queued, InProgress);
    TurnedStays(evs, e, grace, i, j, p, InProgress, Soaking);
    SightingStays(evs, e, p, t.edgeID, t.to);
    assert TickAt(evs + [e], o) && TickAt(evs + [e], p) && OpenedAt(evs + [e], grace, i, j, o) && SoakedAt(evs + [e], grace, i, j, p);
  }

  lemma FinishStays(evs: seq<Event>, e: Event, grace: int, i: nat, j: nat, t: Target, soak: int)
    requires FinishEvidence(evs, grace, i, j, t, soak)
    ensures FinishEvidence(evs + [e], grace, i, j, t, soak)
  {
    hide TurnedAt, Saw;
    var o, p, q :| TickAt(evs, o) && TickAt(evs, p) && TickAt(evs, q) && OpenedAt(evs, grace, i, j, o) && Saw(evs, p, t.edgeID, t.to)
        && Saw(evs, q, t.edgeID, t.to)
                   && o < p < q && evs[q].now - evs[p].now >= soak;
    TurnedStays(evs, e, grace, i, j, o, Queued, InProgress);
    SightingStays(evs, e, p, t.edgeID, t.to);
    SightingStays(evs, e, q, t.edgeID, t.to);
    assert TickAt(evs + [e], o) && TickAt(evs + [e], p) && TickAt(evs + [e], q) && OpenedAt(evs + [e], grace, i, j, o);
  }

  lemma BreakStays(evs: seq<Event>, e: Event, grace: int, i: nat, j: nat, t: Target, soak: int)
    requires BreakEvidence(evs, grace, i, j, t, soak)
    ensures BreakEvidence(evs + [e], grace, i, j, t, soak)
  {
    hide TurnedAt, Missed;
    var o, b, q :| TickAt(evs, o) && OpenedAt(evs, grace, i, j, o) && (b == o || (o < b && SoakedAt(evs, grace, i, j, b)))
        && Missed(evs, b, q, t, soak, grace);
    TurnedStays(evs, e, grace, i, j, o, Queued, InProgress);
    if b != o { TurnedStays(evs, e, grace, i, j, b, InProgress, Soaking); }
    MissStays(evs, e, b, q, t, soak, grace);
    assert TickAt(evs + [e], o) && OpenedAt(evs + [e], grace, i, j, o) && (b == o || SoakedAt(evs + [e], grace, i, j, b));
  }

  lemma EvidenceStays(evs: seq<Event>, e: Event, grace: int, i: nat, j: nat, t: Target, soak: int)
    requires Evident(evs, grace, i, j, t, soak)
    ensures Evident(evs + [e], grace, i, j, t, soak)
  {
    hide OpenEvidence, SoakEvidence, FinishEvidence, BreakEvidence;
    match t.state
    case Queued =>
    case InProgress => OpenStays(evs, e, grace, i, j, t);
    case Soaking => SoakStays(evs, e, grace, i, j, t);
    case Finished => FinishStays(evs, e, grace, i, j, t, soak);
    case Broken => BreakStays(evs, e, grace, i, j, t, soak);
    case Skipped =>
      var q :| TickAt(evs, q) && !evs[q].edges(t.edgeID).online;
      assert (evs + [e])[q] == evs[q];
  }

  lemma TickIsEvident(evs: seq<Event>, grace: int, edges: string -> EdgeState, now: int, i: nat, j: nat)
    requires World(After([], evs, grace)) && ActiveID(After([], evs, grace)) == Some(i)
    requires var rs := After([], evs, grace);
             j < |rs[i].targets| && Evident(evs, grace, i, j, rs[i].targets[j], rs[i].soak)
    ensures var rs := After([], evs, grace);
            j < |TickedOne(rs[i], edges, now, grace).targets|
            && Evident(evs + [Tick(edges, now)], grace, i, j, TickedOne(rs[i], edges, now, grace).targets[j], rs[i].soak)
  {
    hide After, Evident, ActiveID;
    var e := Tick(edges, now);
    var more, r := evs + [e], After([], evs, grace)[i];
    var t, r' := r.targets[j], TickedOne(r, edges, now, grace);
    TickKeepsRest(r, edges, now, grace);
    assert Sound(r);
    EvidenceStays(evs, e, grace, i, j, t, r.soak);
    var t' := r'.targets[j];
    if t' != t {
      OneMoreEvent(evs, e, grace);
      TickTurns(r, edges, now, grace, j);
      hide TickedOne, Sound;
      assert more[..|evs|] == evs && more[..|evs| + 1] == more && more[|evs|] == e;
      assert TurnedAt(more, grace, i, j, |evs|, t.state, t'.state);
      assert OpenedAt(more, grace, i, j, |evs|) <==> t.state.Queued? && t'.state.InProgress?;
      assert SoakedAt(more, grace, i, j, |evs|) <==> t.state.InProgress? && t'.state.Soaking?;
      hide TurnedAt, OpenedAt, SoakedAt;
      EvidenceIs(evs, grace, i, j, t, r.soak);
      if t'.state.InProgress? {
        OpenIsEvident(more, grace, i, j, |evs|, t', r.soak);
      } else if t'.state.Soaking? {
        SoakIsEvident(evs, e, grace, i, j, t, t', r.soak);
      } else if t'.state.Finished? {
        FinishIsEvident(evs, e, grace, i, j, t, t', r.soak);
      } else if t'.state.Broken? {
        BreakIsEvident(evs, e, grace, i, j, t, t', r.soak);
      } else {
        SkipIsEvident(more, grace, i, j, |evs|, t', r.soak);
      }
    }
  }

  /** How a tick turns one target. */
  lemma TickTurns(r: Rollout, edges: string -> EdgeState, now: int, grace: int, j: nat)
    requires Sound(r) && IsActive(r.status) && j < |r.targets|
    ensures j < |TickedOne(r, edges, now, grace).targets|
    ensures var t, t' := r.targets[j], TickedOne(r, edges, now, grace).targets[j];
            t' == t
            || (t'.edgeID == t.edgeID && t'.to == t.to
                && ((t'.state.InProgress? && t.state.Queued? && t'.updatedAt == now
                     && edges(t.edgeID).online && t'.from == edges(t.edgeID).version)
                    || (t'.state.Soaking? && t.state.InProgress? && HealthyOnNew(t, edges(t.edgeID)) && t'.updatedAt == now)
                    || (t'.state.Finished? && t.state.Soaking? && HealthyOnNew(t, edges(t.edgeID)) && now >= t.updatedAt + r.soak)
                    || (t'.state.Broken? && InFlight(t) && !HealthyOnNew(t, edges(t.edgeID)) && now > t.updatedAt + r.soak + grace)
                    || (t'.state.Skipped? && t.state.Queued? && !edges(t.edgeID).online)))
  {
    hide InOrder;
  }

  lemma OpenIsEvident(evs: seq<Event>, grace: int, i: nat, j: nat, o: nat, t: Target, soak: int)
    requires t.state.InProgress? && OpenedAt(evs, grace, i, j, o)
    requires o < |evs| && evs[o].Tick? && evs[o].now == t.updatedAt && evs[o].edges(t.edgeID).online && evs[o].edges(t.edgeID).version == t.from
    ensures Evident(evs, grace, i, j, t, soak)
  {
    hide OpenedAt;
  }

  lemma SkipIsEvident(evs: seq<Event>, grace: int, i: nat, j: nat, q: nat, t: Target, soak: int)
    requires t.state.Skipped? && q < |evs| && evs[q].Tick? && !evs[q].edges(t.edgeID).online
    ensures Evident(evs, grace, i, j, t, soak)
  {
  }

  lemma EvidenceIs(evs: seq<Event>, grace: int, i: nat, j: nat, t: Target, soak: int)
    requires Evident(evs, grace, i, j, t, soak)
    ensures t.state.InProgress? ==> OpenEvidence(evs, grace, i, j, t)
    ensures t.state.Soaking? ==> SoakEvidence(evs, grace, i, j, t)
  {
  }

  lemma QueuedIsEvident(evs: seq<Event>, grace: int, i: nat, j: nat, t: Target, soak: int)
    requires t.state.Queued?
    ensures Evident(evs, grace, i, j, t, soak)
  {
  }

  lemma SoakIsEvident(evs: seq<Event>, e: Event, grace: int, i: nat, j: nat, t: Target, t': Target, soak: int)
    requires OpenEvidence(evs, grace, i, j, t) && t'.state.Soaking? && SoakedAt(evs + [e], grace, i, j, |evs|)
    requires e.Tick? && HealthyOnNew(t, e.edges(t.edgeID)) && t'.updatedAt == e.now && t'.edgeID == t.edgeID && t'.to == t.to
    ensures Evident(evs + [e], grace, i, j, t', soak)
  {
    hide TurnedAt;
    var more := evs + [e];
    var o :| TickAt(evs, o) && OpenedAt(evs, grace, i, j, o);
    TurnedStays(evs, e, grace, i, j, o, Queued, InProgress);
    assert more[|evs|] == e && Saw(more, |evs|, t.edgeID, t.to);
    assert TickAt(more, o) && TickAt(more, |evs|) && OpenedAt(more, grace, i, j, o);
    hide Saw, SoakedAt, OpenedAt;
    assert SoakEvidence(more, grace, i, j, t');
  }

  lemma FinishIsEvident(evs: seq<Event>, e: Event, grace: int, i: nat, j: nat, t: Target, t': Target, soak: int)
    requires SoakEvidence(evs, grace, i, j, t) && t'.state.Finished?
    requires e.Tick? && HealthyOnNew(t, e.edges(t.edgeID)) && e.now >= t.updatedAt + soak && t'.edgeID == t.edgeID && t'.to == t.to
    ensures Evident(evs + [e], grace, i, j, t', soak)
  {
    hide TurnedAt;
    var more, q := evs + [e], |evs|;
    assert more[q] == e && Saw(more, q, t.edgeID, t.to);
    hide Saw;
    var o, p :| TickAt(evs, o) && TickAt(evs, p) && OpenedAt(evs, grace, i, j, o) && o < p && SoakedAt(evs, grace, i, j, p)
        && Saw(evs, p, t.edgeID, t.to) && evs[p].now == t.updatedAt;
    TurnedStays(evs, e, grace, i, j, o, Queued, InProgress);
    SightingStays(evs, e, p, t.edgeID, t.to);
    assert TickAt(more, o) && TickAt(more, p) && TickAt(more, q) && OpenedAt(more, grace, i, j, o);
    hide SoakedAt, OpenedAt;
    assert FinishEvidence(more, grace, i, j, t', soak);
  }

  lemma BreakIsEvident(evs: seq<Event>, e: Event, grace: int, i: nat, j: nat, t: Target, t': Target, soak: int)
    requires (t.state.InProgress? && OpenEvidence(evs, grace, i, j, t)) || (t.state.Soaking? && SoakEvidence(evs, grace, i, j, t))
    requires t'.state.Broken?
    requires e.Tick? && !HealthyOnNew(t, e.edges(t.edgeID)) && e.now > t.updatedAt + soak + grace && t'.edgeID == t.edgeID && t'.to == t.to
    ensures Evident(evs + [e], grace, i, j, t', soak)
  {
    hide TurnedAt;
    var more, q := evs + [e], |evs|;
    var o, b: int;
    if t.state.InProgress? {
      o :| TickAt(evs, o) && OpenedAt(evs, grace, i, j, o) && evs[o].now == t.updatedAt;
      b := o;
    } else {
      o, b :| TickAt(evs, o) && TickAt(evs, b) && OpenedAt(evs, grace, i, j, o) && o < b && SoakedAt(evs, grace, i, j, b)
          && evs[b].now == t.updatedAt;
      TurnedStays(evs, e, grace, i, j, b, InProgress, Soaking);
    }
    TurnedStays(evs, e, grace, i, j, o, Queued, InProgress);
    assert more[q] == e && more[b] == evs[b];
    assert Missed(more, b, q, t', soak, grace);
    assert TickAt(more, o) && OpenedAt(more, grace, i, j, o) && (b == o || (o < b && SoakedAt(more, grace, i, j, b)));
    hide OpenedAt, SoakedAt, Missed;
    assert BreakEvidence(more, grace, i, j, t', soak);
  }

  lemma TickKeepsRest(r: Rollout, edges: string -> EdgeState, now: int, grace: int)
    ensures |TickedOne(r, edges, now, grace).targets| == |r.targets| && TickedOne(r, edges, now, grace).soak == r.soak
  {
  }

  lemma CreatedIsEvident(evs: seq<Event>, grace: int, rs: seq<Rollout>, version: string, pops: seq<string>, soak: int,
                         scheduledAt: Option<int>, from: map<string, string>, now: int)
    requires AllEvident(evs, grace, rs)
    ensures AllEvident(evs, grace, Created(rs, version, pops, soak, scheduledAt, from, now))
  {
    var rs' := Created(rs, version, pops, soak, scheduledAt, from, now);
    if rs' != rs {
      NewTargetsAre(pops, version, from, now);
      hide Evident, NewTargets, InOrder, ActiveID, Distinct;
      forall j | 0 <= j < |rs'[|rs|].targets| ensures Evident(evs, grace, |rs|, j, rs'[|rs|].targets[j], rs'[|rs|].soak) {
        assert rs'[|rs|].targets[j] in rs'[|rs|].targets;
        QueuedIsEvident(evs, grace, |rs|, j, rs'[|rs|].targets[j], rs'[|rs|].soak);
      }
    }
  }

  lemma StepIsEvident(evs: seq<Event>, e: Event, grace: int)
    requires World(After([], evs, grace)) && AllEvident(evs, grace, After([], evs, grace))
    ensures AllEvident(evs + [e], grace, Step(After([], evs, grace), e, grace))
  {
    hide Evident, Sound, Created, TickedOne, After;
    var rs := After([], evs, grace);
    forall i, j | 0 <= i < |rs| && 0 <= j < |rs[i].targets| ensures Evident(evs + [e], grace, i, j, rs[i].targets[j], rs[i].soak) {
      EvidenceStays(evs, e, grace, i, j, rs[i].targets[j], rs[i].soak);
    }
    assert AllEvident(evs + [e], grace, rs);
    match e
    case Tick(edges, now) =>
      var id := ActiveID(rs);
      if id.Some? {
        TickKeepsRest(rs[id.value], edges, now, grace);
        forall j | 0 <= j < |rs[id.value].targets|
          ensures Evident(evs + [e], grace, id.value, j, TickedOne(rs[id.value], edges, now, grace).targets[j], rs[id.value].soak)
        {
          TickIsEvident(evs, grace, edges, now, id.value, j);
        }
      }
    case Admin(call, releases, from, now) =>
      match call
      case Start(version, pops, soak, scheduledAt) => CreatedIsEvident(evs + [e], grace, rs, version, pops, soak, scheduledAt, from, now);
      case Rollback(id, version) =>
        if 0 <= id < |rs| {
          var stopped := if IsActive(rs[id].status) then rs[id := WithStatus(rs[id], Cancelled, "rolled back", now)] else rs;
          assert AllEvident(evs + [e], grace, stopped);
          CreatedIsEvident(evs + [e], grace, stopped, RollbackTo(rs[id], version), rs[id].pops, rs[id].soak, None, from, now);
        }
      case _ =>
  }

  /** No target is finished, broken or skipped without evidence, in any run from an
      empty store. Finished: after the event that opened it two ticks at least the soak
      window apart saw its edge online, healthy and on the new version; health in
      between is not claimed, since a dip does not restart the soak clock. Broken: more
      than soak and grace after it was opened, or after its soak began, a tick did not
      see it so. */
  lemma {:induction false} EveryEndHasEvidence(evs: seq<Event>, grace: int)
    ensures World(After([], evs, grace)) && AllEvident(evs, grace, After([], evs, grace))
  {
    hide World, AllEvident, Step, After;
    if evs == [] {
      EmptyStore(evs, grace);
    } else {
      var before, e := evs[..|evs| - 1], evs[|evs| - 1];
      EveryEndHasEvidence(before, grace);
      StepKeepsWorld(After([], before, grace), e, grace);
      StepIsEvident(before, e, grace);
      assert evs == before + [e];
      OneMoreEvent(before, e, grace);
    }
  }

  lemma EmptyStore(evs: seq<Event>, grace: int)
    requires evs == []
    ensures World(After([], evs, grace)) && AllEvident(evs, grace, After([], evs, grace))
  {
  }

  // ---------- bounded time ----------

  function QueuedIn(ts: seq<Target>): nat {
    if ts == [] then 0 else (if ts[0].state.Queued? then 1 else 0) + QueuedIn(ts[1..])
  }

  /** A bound on the time of the last tick that can still find the rollout running,
      given the time t of the latest one: d between ticks, w for a target to leave
      a state it is in. */
  ghost function Latest(r: Rollout, t: int, d: int, w: int): int {
    var f := FirstInFlight(r.targets);
    var q := QueuedIn(r.targets);
    if f.None? then t + q * (2 * w + d)
    else
      var x := r.targets[f.value];
      var left := if x.updatedAt + w > t + d then x.updatedAt + w else t + d;
      left + (if x.state.InProgress? then w else 0) + q * (2 * w + d)
  }

  lemma {:induction false} QueuedPut(ts: seq<Target>, j: nat, t: Target)
    requires j < |ts|
    ensures QueuedIn(ts[j := t]) == QueuedIn(ts) + (if t.state.Queued? then 1 else 0) - (if ts[j].state.Queued? then 1 else 0)
  {
    if j == 0 {
      assert ts[0 := t][1..] == ts[1..];
    } else {
      assert ts[j := t][1..] == ts[1..][j - 1 := t];
      QueuedPut(ts[1..], j - 1, t);
    }
  }

  lemma {:induction false} QueuedAtMost(ts: seq<Target>)
    ensures QueuedIn(ts) <= |ts|
    ensures (exists j :: 0 <= j < |ts| && !ts[j].state.Queued?) ==> QueuedIn(ts) < |ts|
  {
    if ts == [] {
    } else {
      QueuedAtMost(ts[1..]);
      if exists j :: 0 < j < |ts| && !ts[j].state.Queued? {
        var j :| 0 < j < |ts| && !ts[j].state.Queued?;
        assert ts[1..][j - 1] == ts[j];
      }
    }
  }

  lemma OnlyInFlight(ts: seq<Target>, j: nat)
    requires j < |ts| && InFlight(ts[j]) && forall k :: 0 <= k < |ts| && k != j ==> !InFlight(ts[k])
    ensures FirstInFlight(ts) == Some(j)
  {
  }

  lemma LatestInFlight(r: Rollout, j: nat, t: int, d: int, w: int)
    requires j < |r.targets| && InFlight(r.targets[j]) && forall k :: 0 <= k < |r.targets| && k != j ==> !InFlight(r.targets[k])
    ensures var x := r.targets[j];
            Latest(r, t, d, w) == (if x.updatedAt + w > t + d then x.updatedAt + w else t + d)
                                  + (if x.state.InProgress? then w else 0) + QueuedIn(r.targets) * (2 * w + d)
  {
    OnlyInFlight(r.targets, j);
  }

  lemma LatestIdle(r: Rollout, t: int, d: int, w: int)
    requires forall k :: 0 <= k < |r.targets| ==> !InFlight(r.targets[k])
    ensures Latest(r, t, d, w) == t + QueuedIn(r.targets) * (2 * w + d)
  {
  }

  lemma AdvanceKeepsLatest(r: Rollout, j: nat, es: EdgeState, t: int, now: int, d: int, grace: int)
    requires Sound(r) && r.status.Running? && t <= now <= t + d && 0 <= grace && j < |r.targets| && InFlight(r.targets[j])
    ensures var r' := Advanced(r, j, es, now, grace);
            r'.status.Running? ==> Latest(r', now, d, r.soak + grace + d) <= Latest(r, t, d, r.soak + grace + d)
  {
    hide InOrder, Latest, QueuedIn, HealthyOnNew;
    var w := r.soak + grace + d;
    var r' := Advanced(r, j, es, now, grace);
    Shape(r, j);
    LatestInFlight(r, j, t, d, w);
    QueuedPut(r.targets, j, r'.targets[j]);
    assert r.targets[j := r.targets[j]] == r.targets;
    if InFlight(r'.targets[j]) {
      LatestInFlight(r', j, now, d, w);
    } else {
      LatestIdle(r', now, d, w);
    }
  }

  /** A tick within d of the one before does not move the bound up, while the
      rollout stays running. */
  lemma TickKeepsLatest(r: Rollout, edges: string -> EdgeState, t: int, now: int, d: int, grace: int)
    requires Sound(r) && r.status.Running? && t <= now <= t + d && 0 <= grace
    ensures var r' := TickedOne(r, edges, now, grace);
            r'.status.Running? ==> Latest(r', now, d, r.soak + grace + d) <= Latest(r, t, d, r.soak + grace + d)
  {
    hide InOrder, FirstInFlight, FirstQueued, QueuedIn, Latest;
    var w := r.soak + grace + d;
    var r' := TickedOne(r, edges, now, grace);
    var f, q := FirstInFlight(r.targets), FirstQueued(r.targets);
    if f.Some? {
      AdvanceKeepsLatest(r, f.value, edges(r.targets[f.value].edgeID), t, now, d, grace);
    } else if q.Some? {
      var j := q.value;
      Shape(r, j);
      LatestIdle(r, t, d, w);
      QueuedPut(r.targets, j, r'.targets[j]);
      OneMore(QueuedIn(r.targets) - 1, 2 * w + d);
      if InFlight(r'.targets[j]) {
        LatestInFlight(r', j, now, d, w);
      } else {
        LatestIdle(r', now, d, w);
      }
    }
  }

  lemma LatestAtMost(r: Rollout, t: int, d: int, grace: int)
    requires Sound(r) && 0 <= d && 0 <= grace
    requires forall k :: 0 <= k < |r.targets| ==> r.targets[k].updatedAt <= t
    ensures var w := r.soak + grace + d; Latest(r, t, d, w) <= t + |r.targets| * (2 * w + d)
  {
    var w := r.soak + grace + d;
    var c, q, n := 2 * w + d, QueuedIn(r.targets), |r.targets|;
    QueuedAtMost(r.targets);
    if FirstInFlight(r.targets).Some? {
      assert !r.targets[FirstInFlight(r.targets).value].state.Queued?;
      OneMore(n - 1, c);
      assert q * c <= (n - 1) * c by { MulMonotone(q, n - 1, c); }
    } else {
      MulMonotone(q, n, c);
    }
  }

  /** The time of the last tick, t0 before any. */
  ghost function LastTime(t0: int, evs: seq<Event>): int {
    if evs == [] then t0 else if evs[|evs| - 1].Tick? then evs[|evs| - 1].now else LastTime(t0, evs[..|evs| - 1])
  }

  /** An admin call that does not ask to pause, cancel or roll back rollout i. Starts,
      which are refused while i is active, and calls on other ids are among them. */
  predicate Spares(c: Call, i: nat) {
    match c
    case Start(_, _, _, _) => true
    case Resume(_) => true
    case Pause(id) => id != i
    case Cancel(id) => id != i
    case Rollback(id, _) => id != i
  }

  /** Ticks at most d apart, the first at most d after t0, with admin calls that spare
      rollout i in between. */
  ghost predicate Paced(t0: int, evs: seq<Event>, d: int, i: nat) {
    forall k :: 0 <= k < |evs| ==>
      if evs[k].Tick? then LastTime(t0, evs[..k]) <= evs[k].now <= LastTime(t0, evs[..k]) + d else Spares(evs[k].call, i)
  }

  lemma PacedPrefix(t0: int, evs: seq<Event>, d: int, i: nat)
    requires Paced(t0, evs, d, i) && evs != []
    ensures var before, e := evs[..|evs| - 1], evs[|evs| - 1];
            Paced(t0, before, d, i) && if e.Tick? then LastTime(t0, before) <= e.now <= LastTime(t0, before) + d else Spares(e.call, i)
  {
    hide LastTime, Spares;
    var before, n := evs[..|evs| - 1], |evs| - 1;
    forall k | 0 <= k < n ensures before[k] == evs[k] && before[..k] == evs[..k] {
    }
    assert evs[n] == evs[|evs| - 1];
  }

  /** A sparing call leaves rollout i as it is, running or over. */
  lemma SparedStays(rs: seq<Rollout>, e: Event, grace: int, i: nat)
    requires World(rs) && e.Admin? && Spares(e.call, i) && i < |rs| && !rs[i].status.Paused? && !rs[i].status.Scheduled?
    ensures i < |Step(rs, e, grace)| && Step(rs, e, grace)[i] == rs[i]
  {
    hide Sound, NewTargets, Distinct, RollbackTo, WithStatus;
    if IsActive(rs[i].status) {
      OnlyActive(rs, i);
    }
  }

  lemma {:induction false} RunningMeansEarly(rs: seq<Rollout>, i: nat, t0: int, evs: seq<Event>, d: int, grace: int)
    requires World(rs) && i < |rs| && rs[i].status.Running? && 0 <= d && 0 <= grace && Paced(t0, evs, d, i)
    ensures var rs' := After(rs, evs, grace);
            World(rs') && i < |rs'| && rs'[i].soak == rs[i].soak
            && (rs'[i].status.Running? || rs'[i].status.Done?
                || (rs'[i].status.Failed? && exists k :: 0 <= k < |rs'[i].targets| && rs'[i].targets[k].state.Broken?))
            && (rs'[i].status.Running? ==>
                  var w := rs[i].soak + grace + d; Latest(rs'[i], LastTime(t0, evs), d, w) <= Latest(rs[i], t0, d, w))
  {
    hide Latest, Sound, TickedRunning;
    if evs == [] {
    } else {
      var before, e := evs[..|evs| - 1], evs[|evs| - 1];
      PacedPrefix(t0, evs, d, i);
      RunningMeansEarly(rs, i, t0, before, d, grace);
      var mid := After(rs, before, grace);
      StepKeepsWorld(mid, e, grace);
      if e.Admin? {
        SparedStays(mid, e, grace, i);
      } else if mid[i].status.Running? {
        OnlyActive(mid, i);
        TickKeepsRest(mid[i], e.edges, e.now, grace);
        TickKeepsLatest(mid[i], e.edges, LastTime(t0, before), e.now, d, grace);
        TickEnds(mid[i], e.edges, e.now, grace);
      } else {
        OverIsIdle(mid, e, grace, i);
      }
    }
  }

  lemma OverIsIdle(rs: seq<Rollout>, e: Event, grace: int, i: nat)
    requires e.Tick? && i < |rs| && !IsActive(rs[i].status)
    ensures i < |Step(rs, e, grace)| && Step(rs, e, grace)[i] == rs[i]
  {
    hide TickedOne;
  }

  lemma TickEnds(r: Rollout, edges: string -> EdgeState, now: int, grace: int)
    requires r.status.Running?
    ensures var r' := TickedOne(r, edges, now, grace);
            r'.status.Running? || r'.status.Done?
            || (r'.status.Failed? && exists k :: 0 <= k < |r'.targets| && r'.targets[k].state.Broken?)
  {
    var f := FirstInFlight(r.targets);
    if f.Some? {
      var x := TickedOne(r, edges, now, grace).targets[f.value];
    }
  }

  lemma LatestIsLater(r: Rollout, t: int, d: int, w: int)
    requires 0 <= d && 0 <= w
    ensures t <= Latest(r, t, d, w)
  {
    assert 0 <= QueuedIn(r.targets) * (2 * w + d) by { MulMonotone(0, QueuedIn(r.targets), 2 * w + d); }
  }

  /** A running rollout ends in bounded time, whatever the edges report: with ticks
      at most d apart and N targets it is over by the first tick later than
      N*(2*(soak+grace+d)+d) after t0, also when starts are refused and other
      rollouts administered meanwhile. */
  lemma RolloutEnds(rs: seq<Rollout>, i: nat, t0: int, evs: seq<Event>, d: int, grace: int)
    requires World(rs) && i < |rs| && rs[i].status.Running? && 0 <= d && 0 <= grace && Paced(t0, evs, d, i)
    requires forall k :: 0 <= k < |rs[i].targets| ==> rs[i].targets[k].updatedAt <= t0
    requires LastTime(t0, evs) > t0 + |rs[i].targets| * (2 * (rs[i].soak + grace + d) + d)
    ensures i < |After(rs, evs, grace)|
    ensures var end := After(rs, evs, grace)[i];
            (end.status.Done? && forall k :: 0 <= k < |end.targets| ==> end.targets[k].state.Finished? || end.targets[k].state.Skipped?)
            || (end.status.Failed? && exists k :: 0 <= k < |end.targets| && end.targets[k].state.Broken?)
  {
    hide Latest, After, ActiveID;
    RunningMeansEarly(rs, i, t0, evs, d, grace);
    var end := After(rs, evs, grace)[i];
    LatestAtMost(rs[i], t0, d, grace);
    LatestIsLater(end, LastTime(t0, evs), d, rs[i].soak + grace + d);
    assert Sound(end);
  }
}

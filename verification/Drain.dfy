/** Draining servers and regions (drain.go): the guard against emptying the pool,
    what it promises, and what it does not see. */
module Drain {
  import opened Text
  import opened Regions
  import opened Rotation
  import opened Records
  import opened Reconcile
  import opened Converge
  import opened ReconcileLaws

  datatype Server = Server(id: int, edgeID: string, region: string, ip: string, status: string, lastSeen: Option<int>,
                           health: string, drained: bool, role: string, servePublic: bool)

  function EndpointOf(s: Server): Endpoint {
    Endpoint(s.edgeID, s.region, s.ip, s.status, s.lastSeen, 0, "", 0, false, 0.0, s.health, s.drained)
  }

  /** The servers once those with the given ids are drained. */
  function Drained(servers: seq<Server>, ids: set<int>): seq<Server> {
    seq(|servers|, i requires 0 <= i < |servers| => if servers[i].id in ids then servers[i].(drained := true) else servers[i])
  }

  function Fleet(servers: seq<Server>): seq<Endpoint> {
    seq(|servers|, i requires 0 <= i < |servers| => EndpointOf(servers[i]))
  }

  ghost predicate ServersOK(servers: seq<Server>) {
    forall i, j :: 0 <= i < j < |servers| ==> servers[i].edgeID != servers[j].edgeID && servers[i].id != servers[j].id
  }

  /** Some server is in rotation, as the API counts it. */
  ghost predicate Answers(servers: seq<Server>, now: int, staleAfter: int) {
    exists ep :: InPoolOf(ep, Fleet(servers), now, staleAfter)
  }

  /** The edges in rotation. */
  ghost function Pool(servers: seq<Server>, now: int, staleAfter: int): set<string> {
    set s | s in servers && InPoolOf(EndpointOf(s), Fleet(servers), now, staleAfter) :: s.edgeID
  }

  lemma DrainedFleet(servers: seq<Server>, ids: set<int>, eps: seq<Endpoint>)
    requires ServersOK(servers) && |eps| == |servers|
    requires forall i :: 0 <= i < |servers| ==>
               eps[i] == EndpointOf(servers[i].(drained := if servers[i].id in ids then true else servers[i].drained))
    ensures eps == Fleet(Drained(servers, ids)) && ServersOK(Drained(servers, ids))
  {
  }

  lemma PoolIsDecided(servers: seq<Server>, dec: map<string, Decision>, now: int, staleAfter: int)
    requires ServersOK(servers) && dec == DecisionMap(Fleet(servers), Fleet(servers), now, staleAfter)
    ensures forall id :: id in Pool(servers, now, staleAfter) <==> id in dec && dec[id].inRotation
    ensures Pool(servers, now, staleAfter) != {} <==> Answers(servers, now, staleAfter)
  {
    var eps := Fleet(servers);
    DecisionMapKeys(eps, eps, now, staleAfter);
    DecisionsArePool(eps, dec, now, staleAfter);
    hide DecisionMap, Verdict;
    forall id | id in dec && dec[id].inRotation ensures id in Pool(servers, now, staleAfter) {
      var ep :| ep in eps && ep.edgeID == id;
      var i :| 0 <= i < |eps| && eps[i] == ep;
      assert servers[i] in servers && EndpointOf(servers[i]) == ep;
    }
    forall s | s in servers ensures EndpointOf(s) in eps { var i :| 0 <= i < |servers| && servers[i] == s; assert eps[i] == EndpointOf(s); }
    assert Answers(servers, now, staleAfter) <==> exists id :: id in dec && dec[id].inRotation;
  }

  datatype Outcome = BadRequest | NotFound | WouldEmpty(inRotation: nat) | Done(affected: seq<Server>, inRotationAfter: Option<nat>)

  class API {
    var servers: seq<Server>
    const staleAfter: int

    constructor (servers: seq<Server>, staleAfter: int)
      ensures this.servers == servers && this.staleAfter == staleAfter
    {
      this.servers, this.staleAfter := servers, staleAfter;
    }

    method EndpointsFor(overrideDrained: map<int, bool>) returns (eps: seq<Endpoint>)
      ensures |eps| == |servers|
      ensures forall i :: 0 <= i < |servers| ==>
                eps[i] == EndpointOf(servers[i].(drained := if servers[i].id in overrideDrained then overrideDrained[servers[i].id] else servers[i].drained))
    {
      eps := [];
      for i := 0 to |servers|
        invariant |eps| == i
        invariant forall k :: 0 <= k < i ==>
                    eps[k] == EndpointOf(servers[k].(drained := if servers[k].id in overrideDrained then overrideDrained[servers[k].id] else servers[k].drained))
      {
        var drained := servers[i].drained;
        if servers[i].id in overrideDrained {
          drained := overrideDrained[servers[i].id];
        }
        eps := eps + [EndpointOf(servers[i].(drained := drained))];
      }
    }

    /** Counts the edges in rotation if the servers with the given ids were drained. */
    method InRotationCount(ids: set<int>, now: int) returns (n: nat)
      requires ServersOK(servers)
      ensures n == |Pool(Drained(servers, ids), now, staleAfter)|
      ensures n > 0 <==> Answers(Drained(servers, ids), now, staleAfter)
    {
      hide DecisionMap, Verdict, Pool, Answers, Drained, Fleet, ServersOK, DistinctEdges;
      var eps := EndpointsFor(map id | id in ids :: true);
      DrainedFleet(servers, ids, eps);
      var dec := RotationDecision(eps, now, staleAfter);
      PoolIsDecided(Drained(servers, ids), dec, now, staleAfter);
      n := 0;
      var left := dec.Keys;
      ghost var counted: set<string> := {};
      while left != {}
        invariant left <= dec.Keys && counted !! left && n == |counted|
        invariant forall id :: id in counted || (id in left && dec[id].inRotation) <==> id in dec && dec[id].inRotation
        decreases |left|
      {
        var id :| id in left;
        left := left - {id};
        if dec[id].inRotation {
          n := n + 1;
          counted := counted + {id};
        }
      }
      assert counted == Pool(Drained(servers, ids), now, staleAfter);
    }

    /** Without force, a drain that would take the last edge out is refused. */
    method DrainServer(id: int, force: bool, now: int) returns (r: Outcome)
      requires ServersOK(servers)
      modifies this`servers
      ensures r.NotFound? <==> forall s :: s in old(servers) ==> s.id != id
      ensures r.WouldEmpty? <==> !r.NotFound? && !force && Answers(old(servers), now, staleAfter)
                                 && !Answers(Drained(old(servers), {id}), now, staleAfter)
      ensures !r.BadRequest?
      ensures r.WouldEmpty? ==> r.inRotation == |Pool(old(servers), now, staleAfter)|
      ensures r.Done? ==> r.affected == AffectedBy(old(servers), {id}) && r.inRotationAfter == Some(|Pool(servers, now, staleAfter)|)
      ensures servers == if r.Done? then Drained(old(servers), {id}) else old(servers)
      ensures r.Done? && !force && Answers(old(servers), now, staleAfter) ==> Answers(servers, now, staleAfter)
    {
      hide Answers, Pool;
      var found := false;
      for i := 0 to |servers|
        invariant found <==> exists k :: 0 <= k < i && servers[k].id == id
      {
        if servers[i].id == id {
          found := true;
        }
      }
      if !found {
        return NotFound;
      }
      var before := InRotationCount({}, now);
      var after := InRotationCount({id}, now);
      assert Drained(servers, {}) == servers;
      if before > 0 && after == 0 && !force {
        return WouldEmpty(before);
      }
      r := Done(AffectedBy(servers, {id}), Some(after));
      servers := Drained(servers, {id});
    }

    /** The guard looks at exactly the servers the update then drains. */
    method DrainRegion(region: string, force: bool, now: int) returns (r: Outcome)
      requires ServersOK(servers)
      modifies this`servers
      ensures var ids := InRegion(old(servers), TrimSpace(region));
              (r.BadRequest? <==> TrimSpace(region) == "")
              && (r.NotFound? <==> !r.BadRequest? && ids == {})
              && (r.WouldEmpty? <==> !r.BadRequest? && ids != {} && !force && Answers(old(servers), now, staleAfter)
                                     && !Answers(Drained(old(servers), ids), now, staleAfter))
              && (r.WouldEmpty? ==> r.inRotation == |Pool(old(servers), now, staleAfter)|)
              && (r.Done? ==> r.affected == AffectedBy(old(servers), ids))
              && servers == if r.Done? then Drained(old(servers), ids) else old(servers)
      ensures r.Done? && !force && Answers(old(servers), now, staleAfter) ==> Answers(servers, now, staleAfter)
    {
      hide Answers, Pool, TrimSpace;
      var name := TrimSpace(region);
      if name == "" {
        return BadRequest;
      }
      var ids: set<int> := {};
      for i := 0 to |servers|
        invariant servers == old(servers) && ids == InRegion(servers[..i], name)
      {
        assert servers[..i + 1] == servers[..i] + [servers[i]];
        RegionSnoc(servers[..i], servers[i], name);
        if EqualFold(servers[i].region, name) {
          ids := ids + {servers[i].id};
        }
      }
      assert servers[..|servers|] == servers;
      if ids == {} {
        return NotFound;
      }
      var before := InRotationCount({}, now);
      var after := InRotationCount(ids, now);
      assert Drained(servers, {}) == servers;
      if before > 0 && after == 0 && !force {
        return WouldEmpty(before);
      }
      StoreDrainsSame(servers, name);
      r := Done(AffectedBy(servers, ids), None);
      servers := DrainedWhere(servers, name);
    }
  }

  function AffectedBy(servers: seq<Server>, ids: set<int>): seq<Server> {
    if servers == [] then []
    else
      var s := servers[|servers| - 1];
      AffectedBy(servers[..|servers| - 1], ids) + if s.id in ids then [s.(drained := true)] else []
  }

  /** The servers reported are exactly those with the given ids, as drained. */
  lemma {:induction false} AffectedAre(servers: seq<Server>, ids: set<int>)
    ensures forall x :: x in AffectedBy(servers, ids) <==> exists s :: s in servers && s.id in ids && x == s.(drained := true)
  {
    if servers == [] {
    } else {
      AffectedAre(servers[..|servers| - 1], ids);
      assert servers == servers[..|servers| - 1] + [servers[|servers| - 1]];
    }
  }

  ghost function InRegion(servers: seq<Server>, name: string): set<int> {
    set i | 0 <= i < |servers| && EqualFold(servers[i].region, name) :: servers[i].id
  }

  lemma RegionSnoc(servers: seq<Server>, s: Server, name: string)
    ensures InRegion(servers + [s], name) == InRegion(servers, name) + if EqualFold(s.region, name) then {s.id} else {}
  {
    var more := servers + [s];
    assert more[|servers|] == s;
    forall id | id in InRegion(servers, name) ensures id in InRegion(more, name) {
      var i :| 0 <= i < |servers| && EqualFold(servers[i].region, name) && servers[i].id == id;
      assert more[i] == servers[i];
    }
  }

  /** The store's own update: every row whose upper-cased region matches. */
  function DrainedWhere(servers: seq<Server>, name: string): seq<Server> {
    seq(|servers|, i requires 0 <= i < |servers| => if Upper(servers[i].region) == Upper(name) then servers[i].(drained := true) else servers[i])
  }

  lemma FoldIsUpper(a: string, b: string)
    ensures EqualFold(a, b) <==> Upper(a) == Upper(b)
  {
    if EqualFold(a, b) {
      assert |Lower(a)| == |Lower(b)|;
      forall i | 0 <= i < |a| ensures Upper(a)[i] == Upper(b)[i] { assert Lower(a)[i] == Lower(b)[i]; }
    }
    if Upper(a) == Upper(b) {
      assert |Upper(a)| == |Upper(b)|;
      forall i | 0 <= i < |a| ensures Lower(a)[i] == Lower(b)[i] { assert Upper(a)[i] == Upper(b)[i]; }
    }
  }

  /** The guard compares regions by case folding and the store by upper case; they
      pick the same servers. */
  lemma StoreDrainsSame(servers: seq<Server>, name: string)
    requires ServersOK(servers)
    ensures DrainedWhere(servers, name) == Drained(servers, InRegion(servers, name))
  {
    hide EqualFold;
    forall i | 0 <= i < |servers| ensures servers[i].id in InRegion(servers, name) <==> Upper(servers[i].region) == Upper(name) {
      FoldIsUpper(servers[i].region, name);
    }
  }

  lemma DecisionsArePool(eps: seq<Endpoint>, dec: map<string, Decision>, now: int, staleAfter: int)
    requires DistinctEdges(eps) && dec == DecisionMap(eps, eps, now, staleAfter)
    ensures (exists id :: id in dec && dec[id].inRotation) <==> exists ep :: InPoolOf(ep, eps, now, staleAfter)
  {
    DecisionMapKeys(eps, eps, now, staleAfter);
    hide DecisionMap, Verdict;
    if ep :| InPoolOf(ep, eps, now, staleAfter) {
      assert ep.edgeID in dec && dec[ep.edgeID].inRotation;
    }
    if id :| id in dec && dec[id].inRotation {
      var ep :| ep in eps && ep.edgeID == id;
      assert InPoolOf(ep, eps, now, staleAfter);
    }
  }

  // ---------- draining can bring other edges in ----------

  /** An edge that is not drained itself comes into rotation through a drain exactly
      when the drained ones were all that kept it out: the last healthy online ones
      for an unhealthy online edge, the last online ones for an offline edge. */
  lemma DrainBringsIn(servers: seq<Server>, ids: set<int>, s: Server, now: int, staleAfter: int)
    requires s in servers && s.id !in ids && !s.drained
    ensures var ep, before, after := EndpointOf(s), Fleet(servers), Fleet(Drained(servers, ids));
            InPoolOf(ep, before, now, staleAfter) ==> InPoolOf(ep, after, now, staleAfter)
    ensures var ep, before, after := EndpointOf(s), Fleet(servers), Fleet(Drained(servers, ids));
            !InPoolOf(ep, before, now, staleAfter) && InPoolOf(ep, after, now, staleAfter) <==>
              if Unhealthy(ep)
              then Online(ep, now, staleAfter) && SomeHealthyOnline(before, now, staleAfter) && !SomeHealthyOnline(after, now, staleAfter)
              else !Online(ep, now, staleAfter) && SomeOnline(before, now, staleAfter) && !SomeOnline(after, now, staleAfter)
  {
    var before, after := Fleet(servers), Fleet(Drained(servers, ids));
    var i :| 0 <= i < |servers| && servers[i] == s;
    assert before[i] == EndpointOf(s) && after[i] == EndpointOf(s);
    forall ep | ep in after && !ep.drained ensures ep in before {
      var k :| 0 <= k < |after| && after[k] == ep;
      assert before[k] == ep;
    }
  }

  // ---------- what DNS is given ----------

  predicate IsPublic(s: Server) {
    !(EqualFold(s.role, "shield") && !s.servePublic)
  }

  /** The servers whose edges the reconciler is given: all but pure shields. */
  function PublicOnly(servers: seq<Server>): seq<Server> {
    if servers == [] then []
    else PublicOnly(servers[..|servers| - 1]) + if IsPublic(servers[|servers| - 1]) then [servers[|servers| - 1]] else []
  }

  lemma {:induction false} PublicMembers(servers: seq<Server>)
    ensures forall s :: s in PublicOnly(servers) <==> s in servers && IsPublic(s)
  {
    if servers == [] {
    } else {
      PublicMembers(servers[..|servers| - 1]);
      assert servers == servers[..|servers| - 1] + [servers[|servers| - 1]];
    }
  }

  /** Some apex record is enabled: a public server with an edge id and an address is
      in rotation among the public ones. */
  ghost predicate DNSAnswers(servers: seq<Server>, now: int, staleAfter: int) {
    exists s :: s in servers && IsPublic(s) && s.edgeID != "" && s.ip != ""
                && InPoolOf(EndpointOf(s), Fleet(PublicOnly(servers)), now, staleAfter)
  }

  /** ep without what plays no part in rotation. */
  function Bare(ep: Endpoint): Endpoint {
    ep.(weight := 0, routingOverride := "", capacityMbps := 0, weightByCapacity := false, loadFactor := 0.0)
  }

  lemma BareVerdict(ep: Endpoint, eps: seq<Endpoint>, bare: seq<Endpoint>, now: int, staleAfter: int)
    requires |bare| == |eps| && forall i :: 0 <= i < |eps| ==> bare[i] == Bare(eps[i])
    ensures Verdict(Bare(ep), bare, now, staleAfter) == Verdict(ep, eps, now, staleAfter)
  {
    hide EqualFold;
    forall x | x in eps ensures Bare(x) in bare { var i :| 0 <= i < |eps| && eps[i] == x; assert bare[i] in bare; }
    forall y | y in bare ensures exists x :: x in eps && y == Bare(x) { var i :| 0 <= i < |bare| && bare[i] == y; assert eps[i] in eps; }
  }

  lemma BarePool(eps: seq<Endpoint>, bare: seq<Endpoint>, now: int, staleAfter: int)
    requires |bare| == |eps| && forall i :: 0 <= i < |eps| ==> bare[i] == Bare(eps[i])
    ensures forall i :: 0 <= i < |eps| ==>
              (InPoolOf(eps[i], eps, now, staleAfter) <==> InPoolOf(bare[i], bare, now, staleAfter))
              && eps[i].edgeID == bare[i].edgeID && eps[i].ip == bare[i].ip
  {
    hide Verdict;
    forall i | 0 <= i < |eps| ensures InPoolOf(eps[i], eps, now, staleAfter) <==> InPoolOf(bare[i], bare, now, staleAfter) {
      BareVerdict(eps[i], eps, bare, now, staleAfter);
      assert eps[i] in eps && bare[i] in bare;
    }
  }

  lemma FleetAt(servers: seq<Server>, i: nat)
    requires i < |servers|
    ensures |Fleet(servers)| == |servers| && Fleet(servers)[i] == EndpointOf(servers[i])
    ensures Fleet(servers)[i].edgeID == servers[i].edgeID && Fleet(servers)[i].ip == servers[i].ip
  {
  }

  lemma PublicAnswers(servers: seq<Server>, i: nat, now: int, staleAfter: int)
    requires i < |PublicOnly(servers)| && InPoolOf(Fleet(PublicOnly(servers))[i], Fleet(PublicOnly(servers)), now, staleAfter)
    requires Fleet(PublicOnly(servers))[i].edgeID != "" && Fleet(PublicOnly(servers))[i].ip != ""
    ensures DNSAnswers(servers, now, staleAfter)
  {
    hide PublicOnly, IsPublic, InPoolOf, Fleet;
    PublicMembers(servers);
    FleetAt(PublicOnly(servers), i);
    assert PublicOnly(servers)[i] in PublicOnly(servers);
  }

  lemma AnsweringServer(servers: seq<Server>, now: int, staleAfter: int) returns (i: nat)
    requires DNSAnswers(servers, now, staleAfter)
    ensures i < |PublicOnly(servers)| && InPoolOf(Fleet(PublicOnly(servers))[i], Fleet(PublicOnly(servers)), now, staleAfter)
    ensures Fleet(PublicOnly(servers))[i].edgeID != "" && Fleet(PublicOnly(servers))[i].ip != ""
  {
    hide PublicOnly, IsPublic, InPoolOf;
    PublicMembers(servers);
    var public := PublicOnly(servers);
    var s :| s in servers && IsPublic(s) && s.edgeID != "" && s.ip != "" && InPoolOf(EndpointOf(s), Fleet(public), now, staleAfter);
    i :| 0 <= i < |public| && public[i] == s;
  }

  lemma PublicPool(servers: seq<Server>, eps: seq<Endpoint>, now: int, staleAfter: int)
    requires |eps| == |PublicOnly(servers)| && forall i :: 0 <= i < |eps| ==> Bare(eps[i]) == EndpointOf(PublicOnly(servers)[i])
    ensures (exists ep :: ep in eps && ep.edgeID != "" && ep.ip != "" && InPoolOf(ep, eps, now, staleAfter))
       <==> DNSAnswers(servers, now, staleAfter)
  {
    var fleet := Fleet(PublicOnly(servers));
    BarePool(eps, fleet, now, staleAfter);
    hide *;
    if ep :| ep in eps && ep.edgeID != "" && ep.ip != "" && InPoolOf(ep, eps, now, staleAfter) {
      var i :| 0 <= i < |eps| && eps[i] == ep;
      PublicAnswers(servers, i, now, staleAfter);
    }
    if DNSAnswers(servers, now, staleAfter) {
      var i := AnsweringServer(servers, now, staleAfter);
      assert eps[i] in eps;
    }
  }

  /** What DNSAnswers means for the records: after an apex plan for the public servers,
      whatever their weights and loads, has settled, some server's record is enabled
      exactly then. */
  lemma DNSAnswersIsEnabled(servers: seq<Server>, eps: seq<Endpoint>, o: Opts, rs: seq<Record>)
    requires ServersOK(servers) && o.ttl != 0
    requires |eps| == |PublicOnly(servers)| && forall i :: 0 <= i < |eps| ==> Bare(eps[i]) == EndpointOf(PublicOnly(servers)[i])
    requires Settled(Apex, ApexWants(eps, o), rs)
    ensures (exists r :: r in rs && Key(Apex, r).Some? && !r.disabled) <==> DNSAnswers(servers, o.now, o.staleAfter)
  {
    hide Key, At, ApexWants, Settled, InPoolOf, DNSAnswers, PublicOnly;
    PublicKeepsOrder(servers);
    PublicPool(servers, eps, o.now, o.staleAfter);
    var public := PublicOnly(servers);
    forall i, j | 0 <= i < j < |eps| ensures eps[i].edgeID != eps[j].edgeID {
      assert Bare(eps[i]).edgeID == public[i].edgeID && Bare(eps[j]).edgeID == public[j].edgeID;
    }
    EnabledIffInPool(eps, o, rs);
  }

  lemma {:induction false} PublicKeepsOrder(servers: seq<Server>)
    requires forall i, j :: 0 <= i < j < |servers| ==> servers[i].edgeID != servers[j].edgeID
    ensures forall i, j :: 0 <= i < j < |PublicOnly(servers)| ==> PublicOnly(servers)[i].edgeID != PublicOnly(servers)[j].edgeID
  {
    if servers == [] {
    } else {
      var front, last := servers[..|servers| - 1], servers[|servers| - 1];
      PublicKeepsOrder(front);
      PublicMembers(front);
      hide IsPublic;
      var p := PublicOnly(front);
      forall i | 0 <= i < |p| ensures p[i].edgeID != last.edgeID {
        assert p[i] in p;
        var n :| 0 <= n < |front| && front[n] == p[i];
      }
    }
  }

  /** A server that keeps a pool from being empty. */
  predicate Holds(s: Server, now: int, staleAfter: int) {
    !s.drained && (Online(EndpointOf(s), now, staleAfter) || !Unhealthy(EndpointOf(s)))
  }

  lemma AnswersExactly(servers: seq<Server>, now: int, staleAfter: int)
    ensures Answers(servers, now, staleAfter) <==> exists s :: s in servers && Holds(s, now, staleAfter)
  {
    PoolEmptyExactly(Fleet(servers), now, staleAfter);
    hide Online, Unhealthy, Verdict;
    if s :| s in servers && Holds(s, now, staleAfter) {
      var i :| 0 <= i < |servers| && servers[i] == s;
      assert Fleet(servers)[i] == EndpointOf(s);
    }
    if ep :| ep in Fleet(servers) && !ep.drained && (Online(ep, now, staleAfter) || !Unhealthy(ep)) {
      var i :| 0 <= i < |servers| && Fleet(servers)[i] == ep;
      assert servers[i] in servers && Holds(servers[i], now, staleAfter);
    }
  }

  lemma DNSAnswersExactly(servers: seq<Server>, now: int, staleAfter: int)
    requires forall s :: s in servers ==> s.edgeID != "" && s.ip != ""
    ensures DNSAnswers(servers, now, staleAfter) <==> exists s :: s in servers && IsPublic(s) && Holds(s, now, staleAfter)
  {
    var public := PublicOnly(servers);
    PublicMembers(servers);
    AnswersExactly(public, now, staleAfter);
    hide Online, Unhealthy, Verdict, Holds, IsPublic;
    if Answers(public, now, staleAfter) {
      var ep :| InPoolOf(ep, Fleet(public), now, staleAfter);
      var i :| 0 <= i < |public| && Fleet(public)[i] == ep;
      assert public[i] in public;
    }
  }

  /** The same from the servers' own fields: a pool answers exactly when some server
      that is not drained either reports online in time or is not flagged unhealthy;
      DNS asks that of the servers that are no shields or serve the public all the same. */
  lemma AnswersByFields(servers: seq<Server>, now: int, staleAfter: int)
    ensures Answers(servers, now, staleAfter) <==>
            exists s :: s in servers && !s.drained
                        && ((Lower(s.status) == "online" && s.lastSeen.Some? && s.lastSeen.value + staleAfter >= now) || Lower(s.health) != "unhealthy")
    ensures (forall s :: s in servers ==> s.edgeID != "" && s.ip != "") ==>
              (DNSAnswers(servers, now, staleAfter) <==>
               exists s :: s in servers && !s.drained && (Lower(s.role) != "shield" || s.servePublic)
                           && ((Lower(s.status) == "online" && s.lastSeen.Some? && s.lastSeen.value + staleAfter >= now) || Lower(s.health) != "unhealthy"))
  {
    AnswersExactly(servers, now, staleAfter);
    forall s ensures Holds(s, now, staleAfter) <==>
                     !s.drained && ((Lower(s.status) == "online" && s.lastSeen.Some? && s.lastSeen.value + staleAfter >= now) || Lower(s.health) != "unhealthy")
    {
      HoldsByFields(s, now, staleAfter);
    }
    forall s ensures IsPublic(s) <==> Lower(s.role) != "shield" || s.servePublic { assert Lower("shield") == "shield"; }
    hide Holds, Answers, DNSAnswers, IsPublic, Lower;
    if forall s :: s in servers ==> s.edgeID != "" && s.ip != "" {
      DNSAnswersExactly(servers, now, staleAfter);
    }
  }

  lemma HoldsByFields(s: Server, now: int, staleAfter: int)
    ensures Holds(s, now, staleAfter) <==>
            !s.drained && ((Lower(s.status) == "online" && s.lastSeen.Some? && s.lastSeen.value + staleAfter >= now) || Lower(s.health) != "unhealthy")
  {
    assert Lower("online") == "online" && Lower("unhealthy") == "unhealthy";
  }

  /** The guard counts pure shields, which DNS never lists. When every server has an
      edge id and an address, an accepted, unforced drain of an answering pool leaves
      DNS with an enabled record exactly when a public server is among those that
      hold the pool. */
  lemma GuardProtectsDNSIff(servers: seq<Server>, ids: set<int>, now: int, staleAfter: int)
    requires forall s :: s in servers ==> s.edgeID != "" && s.ip != ""
    requires Answers(servers, now, staleAfter) && Answers(Drained(servers, ids), now, staleAfter)
    ensures DNSAnswers(Drained(servers, ids), now, staleAfter)
       <==> exists s :: s in servers && s.id !in ids && IsPublic(s) && Holds(s, now, staleAfter)
  {
    var after := Drained(servers, ids);
    forall s | s in after ensures s.edgeID != "" && s.ip != "" {
      var i :| 0 <= i < |after| && after[i] == s;
      assert servers[i] in servers;
    }
    DNSAnswersExactly(after, now, staleAfter);
    hide Answers, DNSAnswers, Online, Unhealthy, EqualFold;
    if s :| s in after && IsPublic(s) && Holds(s, now, staleAfter) {
      var i :| 0 <= i < |after| && after[i] == s;
      assert servers[i] in servers && servers[i] == s;
    }
    if s :| s in servers && s.id !in ids && IsPublic(s) && Holds(s, now, staleAfter) {
      var i :| 0 <= i < |servers| && servers[i] == s;
      assert after[i] in after && after[i] == s;
    }
  }

  /** One edge and one shield, both fine: draining the edge is accepted, and DNS is
      left with no enabled record. */
  lemma ShieldFoolsGuard(now: int, staleAfter: int)
    requires staleAfter >= 0
    ensures var edge := Server(1, "e", "EU", "192.0.2.1", "online", Some(now), "healthy", false, "edge", false);
            var shield := Server(2, "s", "EU", "192.0.2.2", "online", Some(now), "healthy", false, "shield", false);
            var servers := [edge, shield];
            Answers(servers, now, staleAfter) && DNSAnswers(servers, now, staleAfter)
            && Answers(Drained(servers, {1}), now, staleAfter) && !DNSAnswers(Drained(servers, {1}), now, staleAfter)
  {
    var edge := Server(1, "e", "EU", "192.0.2.1", "online", Some(now), "healthy", false, "edge", false);
    var shield := Server(2, "s", "EU", "192.0.2.2", "online", Some(now), "healthy", false, "shield", false);
    var servers := [edge, shield];
    var after := Drained(servers, {1});
    assert after == [edge.(drained := true), shield];
    assert "shield" == Lower("shield");
    assert !EqualFold("edge", "shield") by { assert |Lower("edge")| == 4 && |Lower("shield")| == 6; }
    assert IsPublic(edge) && !IsPublic(shield);
    assert edge in servers && shield in servers && shield in after && edge.(drained := true) in after;
    assert Online(EndpointOf(edge), now, staleAfter) && Online(EndpointOf(shield), now, staleAfter);
    hide Online, Answers, DNSAnswers, EqualFold, Unhealthy;
    AnswersExactly(servers, now, staleAfter);
    AnswersExactly(after, now, staleAfter);
    DNSAnswersExactly(servers, now, staleAfter);
    DNSAnswersExactly(after, now, staleAfter);
  }
}

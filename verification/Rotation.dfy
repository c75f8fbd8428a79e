/** Which edges answer in DNS (reconcile.go): drain beats health beats heartbeat,
    with two guards against emptying the pool by a control-plane fault. */
module Rotation {
  import opened Text
  import opened Regions

  datatype Reason = InPool | DrainedOut | UnhealthyOut | OfflineOut

  datatype Decision = Decision(inRotation: bool, reason: Reason)

  predicate Online(ep: Endpoint, now: int, staleAfter: int) {
    EqualFold(ep.status, "online") && ep.lastSeen.Some? && now - ep.lastSeen.value <= staleAfter
  }

  predicate Unhealthy(ep: Endpoint) {
    EqualFold(ep.health, "unhealthy")
  }

  ghost predicate SomeOnline(eps: seq<Endpoint>, now: int, staleAfter: int) {
    exists ep :: ep in eps && !ep.drained && Online(ep, now, staleAfter)
  }

  ghost predicate SomeHealthyOnline(eps: seq<Endpoint>, now: int, staleAfter: int) {
    exists ep :: ep in eps && !ep.drained && Online(ep, now, staleAfter) && !Unhealthy(ep)
  }

  /** The verdict on one edge of a fleet. */
  ghost function Verdict(ep: Endpoint, fleet: seq<Endpoint>, now: int, staleAfter: int): Decision {
    if ep.drained then Decision(false, DrainedOut)
    else if Unhealthy(ep) then
      if Online(ep, now, staleAfter) && !SomeHealthyOnline(fleet, now, staleAfter)
      then Decision(true, InPool) else Decision(false, UnhealthyOut)
    else if !Online(ep, now, staleAfter) then
      if !SomeOnline(fleet, now, staleAfter) then Decision(true, InPool) else Decision(false, OfflineOut)
    else Decision(true, InPool)
  }

  /** The verdicts by edge id; of two edges with one id the later one counts. */
  ghost function DecisionMap(eps: seq<Endpoint>, fleet: seq<Endpoint>, now: int, staleAfter: int): map<string, Decision> {
    if eps == [] then map[]
    else
      var ep := eps[|eps| - 1];
      DecisionMap(eps[..|eps| - 1], fleet, now, staleAfter)[ep.edgeID := Verdict(ep, fleet, now, staleAfter)]
  }

  lemma SomeSnoc(eps: seq<Endpoint>, ep: Endpoint, now: int, staleAfter: int)
    ensures SomeOnline(eps + [ep], now, staleAfter) <==> SomeOnline(eps, now, staleAfter) || (!ep.drained && Online(ep, now, staleAfter))
    ensures SomeHealthyOnline(eps + [ep], now, staleAfter)
       <==> SomeHealthyOnline(eps, now, staleAfter) || (!ep.drained && Online(ep, now, staleAfter) && !Unhealthy(ep))
  {
    hide Online, Unhealthy;
    assert forall x :: x in eps + [ep] <==> x in eps || x == ep;
  }

  method RotationDecision(eps: seq<Endpoint>, now: int, staleAfter: int) returns (out: map<string, Decision>)
    ensures out == DecisionMap(eps, eps, now, staleAfter)
  {
    hide Online, Unhealthy, SomeOnline, SomeHealthyOnline;
    var nonDrained, onlineCount, healthyOnline := 0, 0, 0;
    assert !SomeOnline([], now, staleAfter) && !SomeHealthyOnline([], now, staleAfter) by { NoneOnline(now, staleAfter); }
    for i := 0 to |eps|
      invariant 0 <= healthyOnline <= onlineCount <= nonDrained
      invariant forall k :: 0 <= k < i && !eps[k].drained ==> nonDrained > 0
      invariant onlineCount > 0 <==> SomeOnline(eps[..i], now, staleAfter)
      invariant healthyOnline > 0 <==> SomeHealthyOnline(eps[..i], now, staleAfter)
    {
      assert eps[..i + 1] == eps[..i] + [eps[i]];
      SomeSnoc(eps[..i], eps[i], now, staleAfter);
      if !eps[i].drained {
        nonDrained := nonDrained + 1;
        if Online(eps[i], now, staleAfter) {
          onlineCount := onlineCount + 1;
          if !Unhealthy(eps[i]) {
            healthyOnline := healthyOnline + 1;
          }
        }
      }
    }
    assert eps[..|eps|] == eps;
    var allDown := onlineCount > 0 && healthyOnline == 0;
    var allOffline := nonDrained > 0 && onlineCount == 0;

    out := map[];
    for i := 0 to |eps|
      invariant out == DecisionMap(eps[..i], eps, now, staleAfter)
    {
      var ep := eps[i];
      var online := Online(ep, now, staleAfter);
      assert !ep.drained && online ==> SomeOnline(eps, now, staleAfter) by { OneOnline(eps, ep, now, staleAfter); }
      var d;
      if ep.drained {
        d := Decision(false, DrainedOut);
      } else if Unhealthy(ep) {
        d := if online && allDown then Decision(true, InPool) else Decision(false, UnhealthyOut);
      } else if !online {
        d := if allOffline then Decision(true, InPool) else Decision(false, OfflineOut);
      } else {
        d := Decision(true, InPool);
      }
      assert d == Verdict(ep, eps, now, staleAfter);
      out := out[ep.edgeID := d];
      assert eps[..i + 1][..i] == eps[..i];
    }
  }

  lemma NoneOnline(now: int, staleAfter: int)
    ensures !SomeOnline([], now, staleAfter) && !SomeHealthyOnline([], now, staleAfter)
  {
  }

  lemma OneOnline(eps: seq<Endpoint>, ep: Endpoint, now: int, staleAfter: int)
    requires ep in eps
    ensures !ep.drained && Online(ep, now, staleAfter) ==> SomeOnline(eps, now, staleAfter)
  {
  }

  ghost predicate DistinctEdges(eps: seq<Endpoint>) {
    forall i, j :: 0 <= i < j < |eps| ==> eps[i].edgeID != eps[j].edgeID
  }

  lemma {:induction false} DecisionMapKeys(eps: seq<Endpoint>, fleet: seq<Endpoint>, now: int, staleAfter: int)
    ensures forall id :: id in DecisionMap(eps, fleet, now, staleAfter) <==> exists ep :: ep in eps && ep.edgeID == id
    ensures DistinctEdges(eps) ==> forall ep :: ep in eps ==>
              ep.edgeID in DecisionMap(eps, fleet, now, staleAfter)
              && DecisionMap(eps, fleet, now, staleAfter)[ep.edgeID] == Verdict(ep, fleet, now, staleAfter)
  {
    hide Verdict;
    if eps == [] {
    } else {
      var front, last := eps[..|eps| - 1], eps[|eps| - 1];
      DecisionMapKeys(front, fleet, now, staleAfter);
      assert eps == front + [last];
      assert forall ep :: ep in eps <==> ep in front || ep == last;
      if DistinctEdges(eps) {
        LastIsOther(eps);
      }
      hide DistinctEdges;
    }
  }

  lemma LastIsOther(eps: seq<Endpoint>)
    requires DistinctEdges(eps) && eps != []
    ensures DistinctEdges(eps[..|eps| - 1]) && forall ep :: ep in eps[..|eps| - 1] ==> ep.edgeID != eps[|eps| - 1].edgeID
  {
  }

  ghost predicate InPoolOf(ep: Endpoint, fleet: seq<Endpoint>, now: int, staleAfter: int) {
    ep in fleet && Verdict(ep, fleet, now, staleAfter).inRotation
  }

  /** Exactly when nobody answers: every edge that is not drained is both
      heartbeat-offline and probe-unhealthy. Drained edges never answer. */
  lemma PoolEmptyExactly(fleet: seq<Endpoint>, now: int, staleAfter: int)
    ensures (forall ep :: !InPoolOf(ep, fleet, now, staleAfter))
       <==> (forall ep :: ep in fleet && !ep.drained ==> !Online(ep, now, staleAfter) && Unhealthy(ep))
    ensures forall ep :: ep in fleet && ep.drained ==> !InPoolOf(ep, fleet, now, staleAfter)
  {
    if SomeHealthyOnline(fleet, now, staleAfter) {
      var ep :| ep in fleet && !ep.drained && Online(ep, now, staleAfter) && !Unhealthy(ep);
      assert InPoolOf(ep, fleet, now, staleAfter);
    } else if SomeOnline(fleet, now, staleAfter) {
      var ep :| ep in fleet && !ep.drained && Online(ep, now, staleAfter);
      assert InPoolOf(ep, fleet, now, staleAfter);
    } else {
      forall ep | ep in fleet && !ep.drained
        ensures InPoolOf(ep, fleet, now, staleAfter) <==> !Unhealthy(ep)
      {
      }
    }
  }

  /** A fleet of one edge that was never heard of and is flagged unhealthy. */
  lemma SickSilentFleetIsEmpty(now: int, staleAfter: int)
    ensures var sick := Endpoint("e", "EU", "192.0.2.1", "online", None, 100, "", 0, false, 1.0, "unhealthy", false);
            forall ep :: !InPoolOf(ep, [sick], now, staleAfter)
  {
    PoolEmptyExactly([Endpoint("e", "EU", "192.0.2.1", "online", None, 100, "", 0, false, 1.0, "unhealthy", false)], now, staleAfter);
  }

  /** The precedence: an edge is out for a stale heartbeat only if some other edge
      is online, and out for its health only if it is offline or a healthy edge is
      online; a healthy online undrained edge is always in. */
  lemma OutReasons(ep: Endpoint, fleet: seq<Endpoint>, now: int, staleAfter: int)
    requires ep in fleet
    ensures Verdict(ep, fleet, now, staleAfter).reason.DrainedOut? <==> ep.drained
    ensures Verdict(ep, fleet, now, staleAfter).reason.UnhealthyOut? <==>
              !ep.drained && Unhealthy(ep)
              && (!Online(ep, now, staleAfter)
                  || exists o :: o in fleet && !o.drained && Online(o, now, staleAfter) && !Unhealthy(o))
    ensures Verdict(ep, fleet, now, staleAfter).reason.OfflineOut? <==>
              !ep.drained && !Unhealthy(ep) && !Online(ep, now, staleAfter)
              && exists o :: o in fleet && !o.drained && o != ep && Online(o, now, staleAfter)
  {
    if SomeOnline(fleet, now, staleAfter) && !Online(ep, now, staleAfter) {
      var o :| o in fleet && !o.drained && Online(o, now, staleAfter);
      assert o != ep;
    }
  }

  // ---------- the verdict from the fields ----------

  /** Two listings that differ, edge by edge, in nothing a decision depends on. */
  ghost predicate Alike(a: seq<Endpoint>, b: seq<Endpoint>, now: int, staleAfter: int) {
    |a| == |b| && forall i :: 0 <= i < |a| ==>
      a[i].edgeID == b[i].edgeID && a[i].drained == b[i].drained && Unhealthy(a[i]) == Unhealthy(b[i])
      && Online(a[i], now, staleAfter) == Online(b[i], now, staleAfter)
  }

  lemma AlikeFleets(a: seq<Endpoint>, b: seq<Endpoint>, now: int, staleAfter: int)
    requires Alike(a, b, now, staleAfter)
    ensures SomeOnline(a, now, staleAfter) ==> SomeOnline(b, now, staleAfter)
    ensures SomeHealthyOnline(a, now, staleAfter) ==> SomeHealthyOnline(b, now, staleAfter)
  {
    hide Online, Unhealthy;
    if ep :| ep in a && !ep.drained && Online(ep, now, staleAfter) {
      var i :| 0 <= i < |a| && a[i] == ep;
      assert b[i] in b;
    }
    if ep :| ep in a && !ep.drained && Online(ep, now, staleAfter) && !Unhealthy(ep) {
      var i :| 0 <= i < |a| && a[i] == ep;
      assert b[i] in b;
    }
  }

  lemma {:induction false} AlikeDecisions(a: seq<Endpoint>, b: seq<Endpoint>, all: seq<Endpoint>, others: seq<Endpoint>, now: int, staleAfter: int)
    requires Alike(all, others, now, staleAfter) && Alike(a, b, now, staleAfter)
    ensures DecisionMap(a, all, now, staleAfter) == DecisionMap(b, others, now, staleAfter)
  {
    hide Online, Unhealthy;
    if a == [] {
    } else {
      AlikeFleets(all, others, now, staleAfter);
      AlikeFleets(others, all, now, staleAfter);
      AlikeDecisions(a[..|a| - 1], b[..|b| - 1], all, others, now, staleAfter);
    }
  }

  /** An edge of eps with other fields, all else the same. */
  lemma SameDecisions(eps: seq<Endpoint>, i: nat, ep: Endpoint, now: int, staleAfter: int)
    requires i < |eps| && ep.edgeID == eps[i].edgeID && ep.drained == eps[i].drained
    requires Unhealthy(ep) == Unhealthy(eps[i]) && Online(ep, now, staleAfter) == Online(eps[i], now, staleAfter)
    ensures DecisionMap(eps, eps, now, staleAfter) == DecisionMap(eps[i := ep], eps[i := ep], now, staleAfter)
  {
    AlikeDecisions(eps, eps[i := ep], eps, eps[i := ep], now, staleAfter);
  }

  /** A heartbeat counts only by being within staleAfter: an older one is as good as
      none, one within it as good as one just now, and with a status other than
      "online", in whatever case, it does not count at all. */
  lemma HeartbeatCounts(eps: seq<Endpoint>, i: nat, t: int, now: int, staleAfter: int)
    requires i < |eps| && eps[i].lastSeen == Some(t) && staleAfter >= 0
    ensures now - t > staleAfter || Lower(eps[i].status) != "online" ==>
              var silent := eps[i := eps[i].(lastSeen := None)];
              DecisionMap(eps, eps, now, staleAfter) == DecisionMap(silent, silent, now, staleAfter)
    ensures now - t <= staleAfter ==>
              var recent := eps[i := eps[i].(lastSeen := Some(now))];
              DecisionMap(eps, eps, now, staleAfter) == DecisionMap(recent, recent, now, staleAfter)
    ensures Lower(eps[i].status) == "online" ==>
              var plain := eps[i := eps[i].(status := "online")];
              DecisionMap(eps, eps, now, staleAfter) == DecisionMap(plain, plain, now, staleAfter)
  {
    hide DecisionMap, Unhealthy;
    assert Lower("online") == "online";
    assert forall ep: Endpoint, s: Option<int> :: Unhealthy(ep.(lastSeen := s)) == Unhealthy(ep) by { HealthOnly(); }
    assert forall ep: Endpoint, s: string :: Unhealthy(ep.(status := s)) == Unhealthy(ep) by { HealthOnly(); }
    if now - t > staleAfter || Lower(eps[i].status) != "online" {
      SameDecisions(eps, i, eps[i].(lastSeen := None), now, staleAfter);
    }
    if now - t <= staleAfter {
      SameDecisions(eps, i, eps[i].(lastSeen := Some(now)), now, staleAfter);
    }
    if Lower(eps[i].status) == "online" {
      SameDecisions(eps, i, eps[i].(status := "online"), now, staleAfter);
    }
  }

  lemma HealthOnly()
    ensures forall ep: Endpoint, s: Option<int> :: Unhealthy(ep.(lastSeen := s)) == Unhealthy(ep)
    ensures forall ep: Endpoint, s: string :: Unhealthy(ep.(status := s)) == Unhealthy(ep)
  {
  }

  /** Of the health texts only "unhealthy", in whatever case, counts. */
  lemma HealthTextCounts(eps: seq<Endpoint>, i: nat, now: int, staleAfter: int)
    requires i < |eps|
    ensures var plain := eps[i := eps[i].(health := if Lower(eps[i].health) == "unhealthy" then "unhealthy" else "healthy")];
            DecisionMap(eps, eps, now, staleAfter) == DecisionMap(plain, plain, now, staleAfter)
  {
    assert Lower("unhealthy") == "unhealthy" && Lower("healthy") == "healthy";
    hide DecisionMap, Online;
    var ep := eps[i].(health := if Lower(eps[i].health) == "unhealthy" then "unhealthy" else "healthy");
    assert Online(ep, now, staleAfter) == Online(eps[i], now, staleAfter) by { OnlineIgnoresHealth(eps[i], ep.health, now, staleAfter); }
    SameDecisions(eps, i, ep, now, staleAfter);
  }

  lemma OnlineIgnoresHealth(ep: Endpoint, health: string, now: int, staleAfter: int)
    ensures Online(ep.(health := health), now, staleAfter) == Online(ep, now, staleAfter)
  {
  }

  /** A heartbeat of an undrained edge in time, in terms of the server's own fields. */
  ghost predicate Beats(ep: Endpoint, now: int, staleAfter: int) {
    !ep.drained && Lower(ep.status) == "online" && ep.lastSeen.Some? && ep.lastSeen.value + staleAfter >= now
  }

  /** Every decision, from the fields: drained is out; otherwise a flagged edge is in
      only if it beats and no unflagged one does, and an unflagged edge is out only if
      it does not beat and some edge does. */
  lemma DecidedByFields(eps: seq<Endpoint>, i: nat, now: int, staleAfter: int)
    requires DistinctEdges(eps) && i < |eps|
    ensures var dec := DecisionMap(eps, eps, now, staleAfter);
            var ep := eps[i];
            ep.edgeID in dec
            && (dec[ep.edgeID].inRotation <==>
                  !ep.drained
                  && if Lower(ep.health) == "unhealthy"
                     then Beats(ep, now, staleAfter) && forall x :: x in eps && Beats(x, now, staleAfter) ==> Lower(x.health) == "unhealthy"
                     else Beats(ep, now, staleAfter) || forall x :: x in eps ==> !Beats(x, now, staleAfter))
  {
    DecisionMapKeys(eps, eps, now, staleAfter);
    assert Lower("online") == "online" && Lower("unhealthy") == "unhealthy";
    assert eps[i] in eps;
    hide DecisionMap;
    forall x ensures Beats(x, now, staleAfter) <==> !x.drained && Online(x, now, staleAfter) { }
    forall x ensures Unhealthy(x) <==> Lower(x.health) == "unhealthy" { }
    hide Online, Unhealthy, Beats;
  }

  /** A stale heartbeat takes a healthy edge out as soon as another edge beats. */
  lemma StaleIsOut(eps: seq<Endpoint>, i: nat, j: nat, now: int, staleAfter: int)
    requires DistinctEdges(eps) && i < |eps| && j < |eps| && Lower(eps[i].health) != "unhealthy"
    requires eps[i].lastSeen.Some? && eps[i].lastSeen.value < now - staleAfter && Beats(eps[j], now, staleAfter)
    ensures var dec := DecisionMap(eps, eps, now, staleAfter); eps[i].edgeID in dec && !dec[eps[i].edgeID].inRotation
  {
    DecidedByFields(eps, i, now, staleAfter);
    assert eps[j] in eps;
  }
}

/** The edge firewall engine (waf.go): zones compiled on reload, reused while their
    fingerprint is unchanged, and the decision on one request. Compiling patterns
    and rulesets, matching a rule and running the managed ruleset are parameters. */
module Waf {
  import opened Text

  datatype Rule = Rule(id: int, priority: int, field: string, op: string, value: string, headerName: string,
                       action: string, enabled: bool)

  /** The settings an engine is built from; rate limits are nginx's business. */
  datatype Settings = Settings(mode: string, ruleset: string, paranoia: int, failOpen: bool, wpPreset: bool, rules: seq<Rule>)

  datatype WAF = WAF(enabled: bool, settings: Settings, rateLimits: seq<string>)

  datatype Zone = Zone(domain: string, waf: Option<WAF>)

  /** A rule with its pattern compiled, P standing for the pattern. */
  datatype Compiled<P> = Compiled(ruleID: string, rule: Rule, pattern: P)

  datatype ZoneWAF<P, W> = ZoneWAF(host: string, mode: string, failOpen: bool, managed: bool, engine: Option<W>,
                                   rules: seq<Compiled<P>>, fingerprint: string)

  datatype Tools<!P, !W> = Tools(fingerprint: Settings -> string, compileSet: int -> Option<W>, compileRule: Rule -> Option<P>,
                                 preset: seq<Compiled<P>>)

  // ---------- building one zone ----------

  /** r goes behind every rule whose priority is not higher in number. */
  function Placed(rs: seq<Rule>, r: Rule): seq<Rule> {
    if rs == [] || rs[|rs| - 1].priority <= r.priority then rs + [r] else Placed(rs[..|rs| - 1], r) + [rs[|rs| - 1]]
  }

  function StableSorted(rs: seq<Rule>): seq<Rule> {
    if rs == [] then [] else Placed(StableSorted(rs[..|rs| - 1]), rs[|rs| - 1])
  }

  function CompiledRules<P, W>(tools: Tools<P, W>, rs: seq<Rule>): seq<Compiled<P>> {
    if rs == [] then []
    else
      var r := rs[|rs| - 1];
      var p := tools.compileRule(r);
      CompiledRules(tools, rs[..|rs| - 1])
      + if r.enabled && p.Some? then [Compiled("custom:" + FormatInt(r.id), r, p.value)] else []
  }

  lemma NoRules<P, W>(tools: Tools<P, W>)
    ensures CompiledRules(tools, []) == []
  {
  }

  lemma RulesSnoc<P, W>(tools: Tools<P, W>, rs: seq<Rule>, i: nat)
    requires i < |rs|
    ensures var r := rs[i];
            var p := tools.compileRule(r);
            CompiledRules(tools, rs[..i + 1])
            == CompiledRules(tools, rs[..i]) + if r.enabled && p.Some? then [Compiled("custom:" + FormatInt(r.id), r, p.value)] else []
  {
    assert rs[..i + 1][..i] == rs[..i];
  }

  function ModeOr(m: string): string {
    if EqualFold(m, "block") then "block" else "detect"
  }

  /** None when the managed ruleset does not compile. */
  function Build<P, W>(tools: Tools<P, W>, host: string, s: Settings): Option<ZoneWAF<P, W>> {
    var managed := EqualFold(s.ruleset, "owasp_crs");
    var engine := if managed then tools.compileSet(s.paranoia) else None;
    if managed && engine.None? then None
    else
      Some(ZoneWAF(host, ModeOr(s.mode), s.failOpen, managed, engine,
                   (if s.wpPreset then tools.preset else []) + CompiledRules(tools, StableSorted(s.rules)), tools.fingerprint(s)))
  }

  // ---------- reload ----------

  predicate Protected(z: Zone) {
    z.waf.Some? && z.waf.value.enabled
  }

  /** The zone map built from scratch; a later zone with the same host wins, unless
      it does not compile. */
  function Fresh<P, W>(tools: Tools<P, W>, zones: seq<Zone>): map<string, ZoneWAF<P, W>> {
    if zones == [] then map[]
    else
      var next, z := Fresh(tools, zones[..|zones| - 1]), zones[|zones| - 1];
      if !Protected(z) then next
      else
        var built := Build(tools, Lower(z.domain), z.waf.value.settings);
        if built.None? then next else next[Lower(z.domain) := built.value]
  }

  /** The zone map of a reload that reuses what prev already holds. */
  function Reloaded<P, W>(tools: Tools<P, W>, prev: map<string, ZoneWAF<P, W>>, zones: seq<Zone>): map<string, ZoneWAF<P, W>> {
    if zones == [] then map[]
    else
      var next, z := Reloaded(tools, prev, zones[..|zones| - 1]), zones[|zones| - 1];
      if !Protected(z) then next
      else
        var host := Lower(z.domain);
        if host in prev && prev[host].fingerprint == tools.fingerprint(z.waf.value.settings) then next[host := prev[host]]
        else
          var built := Build(tools, host, z.waf.value.settings);
          if built.None? then next else next[host := built.value]
  }

  /** Two settings with one fingerprint are the same settings. */
  ghost predicate CollisionFree<P, W>(tools: Tools<P, W>) {
    forall a, b :: tools.fingerprint(a) == tools.fingerprint(b) ==> a == b
  }

  /** Every engine held was built for its host from some settings. */
  ghost predicate Genuine<P, W>(tools: Tools<P, W>, zones: map<string, ZoneWAF<P, W>>) {
    forall host :: host in zones ==> exists s :: Build(tools, host, s) == Some(zones[host])
  }

  lemma {:induction false} ReloadIsFresh<P, W>(tools: Tools<P, W>, prev: map<string, ZoneWAF<P, W>>, zones: seq<Zone>)
    requires CollisionFree(tools) && Genuine(tools, prev)
    ensures Reloaded(tools, prev, zones) == Fresh(tools, zones)
  {
    if zones == [] {
    } else {
      ReloadIsFresh(tools, prev, zones[..|zones| - 1]);
      var z := zones[|zones| - 1];
      hide StableSorted, CompiledRules;
      if Protected(z) && Lower(z.domain) in prev && prev[Lower(z.domain)].fingerprint == tools.fingerprint(z.waf.value.settings) {
        var s :| Build(tools, Lower(z.domain), s) == Some(prev[Lower(z.domain)]);
        assert tools.fingerprint(s) == tools.fingerprint(z.waf.value.settings);
      }
    }
  }

  lemma {:induction false} FreshIsGenuine<P, W>(tools: Tools<P, W>, zones: seq<Zone>)
    ensures Genuine(tools, Fresh(tools, zones))
  {
    hide Build;
    if zones == [] {
    } else {
      FreshIsGenuine(tools, zones[..|zones| - 1]);
    }
  }

  /** The zone map after some reloads, starting empty. */
  function AfterAll<P, W>(tools: Tools<P, W>, configs: seq<seq<Zone>>): map<string, ZoneWAF<P, W>> {
    if configs == [] then map[] else Reloaded(tools, AfterAll(tools, configs[..|configs| - 1]), configs[|configs| - 1])
  }

  /** History does not matter: after any reloads the zone map is the one built from
      scratch from the last configuration alone, so a reused engine decides as a
      fresh one would. */
  lemma {:induction false} ReloadsForgetHistory<P, W>(tools: Tools<P, W>, configs: seq<seq<Zone>>)
    requires CollisionFree(tools)
    ensures Genuine(tools, AfterAll(tools, configs))
    ensures configs != [] ==> AfterAll(tools, configs) == Fresh(tools, configs[|configs| - 1])
  {
    hide Build;
    if configs == [] {
    } else {
      ReloadsForgetHistory(tools, configs[..|configs| - 1]);
      ReloadIsFresh(tools, AfterAll(tools, configs[..|configs| - 1]), configs[|configs| - 1]);
      FreshIsGenuine(tools, configs[|configs| - 1]);
    }
  }

  // ---------- the order of rules ----------

  ghost predicate ByPriority(rs: seq<Rule>) {
    forall i, j :: 0 <= i < j < |rs| ==> rs[i].priority <= rs[j].priority
  }

  function OfPriority(rs: seq<Rule>, p: int): seq<Rule> {
    if rs == [] then [] else OfPriority(rs[..|rs| - 1], p) + if rs[|rs| - 1].priority == p then [rs[|rs| - 1]] else []
  }

  lemma OfPrioritySnoc(rs: seq<Rule>, r: Rule, p: int)
    ensures OfPriority(rs + [r], p) == OfPriority(rs, p) + if r.priority == p then [r] else []
  {
    assert (rs + [r])[..|rs|] == rs;
  }

  lemma {:induction false} PlacedMembers(rs: seq<Rule>, r: Rule)
    ensures multiset(Placed(rs, r)) == multiset(rs) + multiset{r}
    ensures forall x :: x in Placed(rs, r) <==> x in rs || x == r
  {
    if rs == [] || rs[|rs| - 1].priority <= r.priority {
    } else {
      PlacedMembers(rs[..|rs| - 1], r);
      assert rs == rs[..|rs| - 1] + [rs[|rs| - 1]];
    }
  }

  lemma {:induction false} PlacedSorted(rs: seq<Rule>, r: Rule)
    requires ByPriority(rs)
    ensures ByPriority(Placed(rs, r))
  {
    if rs == [] || rs[|rs| - 1].priority <= r.priority {
    } else {
      var front, last := rs[..|rs| - 1], rs[|rs| - 1];
      PlacedSorted(front, r);
      PlacedMembers(front, r);
      var all := Placed(front, r);
      assert Placed(rs, r) == all + [last];
      hide Placed;
      forall i | 0 <= i < |all| ensures all[i].priority <= last.priority {
        assert all[i] in all;
      }
    }
  }

  lemma {:induction false} PlacedStable(rs: seq<Rule>, r: Rule, p: int)
    ensures OfPriority(Placed(rs, r), p) == OfPriority(rs, p) + if r.priority == p then [r] else []
  {
    hide OfPriority;
    if rs == [] || rs[|rs| - 1].priority <= r.priority {
      OfPrioritySnoc(rs, r, p);
    } else {
      var front, last := rs[..|rs| - 1], rs[|rs| - 1];
      PlacedStable(front, r, p);
      assert rs == front + [last];
      OfPrioritySnoc(front, last, p);
      OfPrioritySnoc(Placed(front, r), last, p);
    }
  }

  /** Custom rules run in order of priority, rules of one priority in the order they
      are listed in; none is lost or doubled. */
  lemma {:induction false} SortedStably(rs: seq<Rule>, p: int)
    ensures ByPriority(StableSorted(rs)) && multiset(StableSorted(rs)) == multiset(rs)
    ensures OfPriority(StableSorted(rs), p) == OfPriority(rs, p)
  {
    if rs == [] {
    } else {
      hide ByPriority, Placed;
      var front, last := rs[..|rs| - 1], rs[|rs| - 1];
      assert StableSorted(rs) == Placed(StableSorted(front), last);
      assert rs == front + [last];
      hide StableSorted, OfPriority;
      SortedStably(front, p);
      OfPrioritySnoc(front, last, p);
      PlacedSorted(StableSorted(front), last);
      PlacedMembers(StableSorted(front), last);
      PlacedStable(StableSorted(front), last, p);
    }
  }

  // ---------- one request ----------

  /** What the managed ruleset says: an engine error, nothing, or a rule. */
  datatype Managed = EngineError | Pass | Interrupt(rule: int)

  datatype Event = Event(ruleID: string, typ: string, action: string)

  datatype Judges<!P, !W, !R> = Judges(matches: (Compiled<P>, R) -> bool, managed: (W, R) -> Managed)

  predicate Ends<P, W, R>(j: Judges<P, W, R>, c: Compiled<P>, req: R) {
    j.matches(c, req) && c.rule.action != "log"
  }

  /** The first rule that matches and does not merely log. */
  ghost predicate FirstEnding<P, W, R>(j: Judges<P, W, R>, rules: seq<Compiled<P>>, req: R, i: int) {
    0 <= i < |rules| && Ends(j, rules[i], req) && forall k :: 0 <= k < i ==> !Ends(j, rules[k], req)
  }

  ghost predicate NoneEnding<P, W, R>(j: Judges<P, W, R>, rules: seq<Compiled<P>>, req: R) {
    forall k :: 0 <= k < |rules| ==> !Ends(j, rules[k], req)
  }

  /** The managed ruleset's answer, Pass when the zone has none. */
  function ManagedOf<P, W, R>(j: Judges<P, W, R>, z: ZoneWAF<P, W>, req: R): Managed {
    if z.managed && z.engine.Some? then j.managed(z.engine.value, req) else Pass
  }

  function Logs<P, W, R>(j: Judges<P, W, R>, rules: seq<Compiled<P>>, req: R): seq<Event> {
    if rules == [] then []
    else
      var c := rules[|rules| - 1];
      Logs(j, rules[..|rules| - 1], req)
      + if j.matches(c, req) && c.rule.action == "log" then [Event(c.ruleID, "custom", "log")] else []
  }

  lemma LogsSnoc<P, W, R>(j: Judges<P, W, R>, rules: seq<Compiled<P>>, c: Compiled<P>, req: R)
    ensures Logs(j, rules + [c], req) == Logs(j, rules, req) + if j.matches(c, req) && c.rule.action == "log" then [Event(c.ruleID, "custom", "log")] else []
  {
    assert (rules + [c])[..|rules|] == rules;
  }

  lemma {:induction false} LogsConcat<P, W, R>(j: Judges<P, W, R>, a: seq<Compiled<P>>, b: seq<Compiled<P>>, req: R)
    ensures Logs(j, a + b, req) == Logs(j, a, req) + Logs(j, b, req)
  {
    if b == [] {
      assert a + b == a;
    } else {
      hide Logs;
      var front, last := b[..|b| - 1], b[|b| - 1];
      assert b == front + [last] && a + b == (a + front) + [last];
      LogsConcat(j, a, front, req);
      LogsSnoc(j, a + front, last, req);
      LogsSnoc(j, front, last, req);
    }
  }

  lemma {:induction false} NoLogs<P, W, R>(j: Judges<P, W, R>, rules: seq<Compiled<P>>, req: R)
    requires forall c :: c in rules ==> !(j.matches(c, req) && c.rule.action == "log")
    ensures Logs(j, rules, req) == []
  {
    if rules == [] {
    } else {
      NoLogs(j, rules[..|rules| - 1], req);
    }
  }

  /** The rules passed on the way log one event each, in order, if they match and merely
      log; the others leave no trace. */
  lemma LogsOfPassed<P, W, R>(j: Judges<P, W, R>, a: seq<Compiled<P>>, c: Compiled<P>, b: seq<Compiled<P>>, req: R)
    requires j.matches(c, req) && c.rule.action == "log"
    ensures Logs(j, a + [c] + b, req) == Logs(j, a, req) + [Event(c.ruleID, "custom", "log")] + Logs(j, b, req)
    ensures (forall x :: x in b ==> !(j.matches(x, req) && x.rule.action == "log")) ==> Logs(j, b, req) == []
  {
    LogsConcat(j, a + [c], b, req);
    LogsSnoc(j, a, c, req);
    if forall x :: x in b ==> !(j.matches(x, req) && x.rule.action == "log") { NoLogs(j, b, req); }
  }

  /** Whether a request is blocked, in terms of the rules and the mode. */
  ghost predicate Blocks<P, W, R>(j: Judges<P, W, R>, z: ZoneWAF<P, W>, req: R) {
    (z.mode == "block" && exists i :: FirstEnding(j, z.rules, req, i) && z.rules[i].rule.action != "allow")
    || (NoneEnding(j, z.rules, req)
        && ((ManagedOf(j, z, req).EngineError? && !z.failOpen) || (ManagedOf(j, z, req).Interrupt? && z.mode == "block")))
  }

  /** Detect mode enforces no rule, but it is no guarantee that nothing is blocked:
      a managed-engine error blocks in either mode when the zone fails closed. */
  lemma DetectBlocksIff<P, W, R>(j: Judges<P, W, R>, z: ZoneWAF<P, W>, req: R)
    requires z.mode != "block"
    ensures Blocks(j, z, req) <==> !z.failOpen && z.managed && z.engine.Some? && j.managed(z.engine.value, req).EngineError?
                                   && forall c :: c in z.rules && j.matches(c, req) ==> c.rule.action == "log"
  {
    if NoneEnding(j, z.rules, req) {
      forall c | c in z.rules ensures !Ends(j, c, req) {
        var k :| 0 <= k < |z.rules| && z.rules[k] == c;
      }
    } else {
      var k :| 0 <= k < |z.rules| && Ends(j, z.rules[k], req);
      assert z.rules[k] in z.rules;
    }
  }

  /** A zone in detect mode without rules, closed on errors, whose engine errs. */
  lemma DetectModeBlocks(req: string)
    ensures var z: ZoneWAF<string, string> := ZoneWAF("shop.example.com", "detect", false, true, Some("crs"), [], "fp");
            Blocks(Judges((c, r) => false, (w, r) => EngineError), z, req)
  {
    var z: ZoneWAF<string, string> := ZoneWAF("shop.example.com", "detect", false, true, Some("crs"), [], "fp");
    DetectBlocksIff(Judges((c, r) => false, (w, r) => EngineError), z, req);
  }

  /** In block mode the first rule that matches and does not merely log decides: only
      "allow" lets the request through, and then whatever the managed ruleset would
      say. Without such a rule a managed hit blocks, and an engine error does exactly
      when the zone fails closed. */
  lemma BlockModeDecides<P, W, R>(j: Judges<P, W, R>, z: ZoneWAF<P, W>, req: R, i: int)
    requires z.mode == "block"
    ensures FirstEnding(j, z.rules, req, i) ==> (Blocks(j, z, req) <==> z.rules[i].rule.action != "allow")
    ensures (forall c :: c in z.rules && j.matches(c, req) ==> c.rule.action == "log") ==>
              (Blocks(j, z, req) <==> z.managed && z.engine.Some?
                                      && match j.managed(z.engine.value, req)
                                         case Pass => false
                                         case EngineError => !z.failOpen
                                         case Interrupt(_) => true)
  {
    if FirstEnding(j, z.rules, req, i) {
      assert forall n :: FirstEnding(j, z.rules, req, n) ==> n == i;
    }
    if forall c :: c in z.rules && j.matches(c, req) ==> c.rule.action == "log" {
      forall k | 0 <= k < |z.rules| ensures !Ends(j, z.rules[k], req) { assert z.rules[k] in z.rules; }
    }
  }

  /** What a zone is built of: its mode is "block" only for that word in any case, the
      preset's rules come first, then exactly the enabled custom rules that compile,
      and a managed zone never lacks its engine. */
  lemma BuiltOf<P, W>(tools: Tools<P, W>, host: string, s: Settings)
    ensures Build(tools, host, s).None? <==> EqualFold(s.ruleset, "owasp_crs") && tools.compileSet(s.paranoia).None?
    ensures Build(tools, host, s).Some? ==>
              var z := Build(tools, host, s).value;
              var preset := if s.wpPreset then |tools.preset| else 0;
              z.host == host && z.failOpen == s.failOpen && z.fingerprint == tools.fingerprint(s)
              && z.mode == (if Lower(s.mode) == "block" then "block" else "detect")
              && (z.managed <==> Lower(s.ruleset) == "owasp_crs") && z.engine == (if z.managed then tools.compileSet(s.paranoia) else None)
              && preset <= |z.rules| && z.rules[..preset] == tools.preset[..preset]
              && forall c :: c in z.rules[preset..] <==>
                   exists r :: r in s.rules && r.enabled && tools.compileRule(r).Some?
                               && c == Compiled("custom:" + FormatInt(r.id), r, tools.compileRule(r).value)
  {
    assert Lower("block") == "block" && Lower("owasp_crs") == "owasp_crs";
    CompiledAre(tools, StableSorted(s.rules));
    forall r ensures r in StableSorted(s.rules) <==> r in s.rules { SortedHolds(s.rules, r); }
    hide CompiledRules, StableSorted, Lower;
    if Build(tools, host, s).Some? {
      var z := Build(tools, host, s).value;
      var preset := if s.wpPreset then tools.preset else [];
      assert z.rules == preset + CompiledRules(tools, StableSorted(s.rules));
    }
  }

  lemma SortedHolds(rs: seq<Rule>, r: Rule)
    ensures r in StableSorted(rs) <==> r in rs
  {
    SortedStably(rs, 0);
    hide StableSorted, ByPriority, OfPriority;
    assert r in multiset(StableSorted(rs)) <==> r in multiset(rs);
  }

  lemma {:induction false} CompiledAre<P, W>(tools: Tools<P, W>, rs: seq<Rule>)
    ensures forall c :: c in CompiledRules(tools, rs) <==>
              exists r :: r in rs && r.enabled && tools.compileRule(r).Some?
                          && c == Compiled("custom:" + FormatInt(r.id), r, tools.compileRule(r).value)
  {
    hide FormatInt;
    if rs == [] {
    } else {
      CompiledAre(tools, rs[..|rs| - 1]);
      assert rs == rs[..|rs| - 1] + [rs[|rs| - 1]];
    }
  }

  /** A host is protected exactly when some enabled zone with that domain, in any case,
      compiles, and then as the last such zone in the configuration says. */
  lemma {:induction false} LastZoneWins<P, W>(tools: Tools<P, W>, zones: seq<Zone>, host: string)
    ensures host !in Fresh(tools, zones) <==>
            forall i :: 0 <= i < |zones| && zones[i].waf.Some? && zones[i].waf.value.enabled && Lower(zones[i].domain) == host ==>
              Build(tools, host, zones[i].waf.value.settings).None?
    ensures forall i :: 0 <= i < |zones| && zones[i].waf.Some? && zones[i].waf.value.enabled && Lower(zones[i].domain) == host
                        && Build(tools, host, zones[i].waf.value.settings).Some?
                        && (forall k :: i < k < |zones| && zones[k].waf.Some? && zones[k].waf.value.enabled && Lower(zones[k].domain) == host ==>
                              Build(tools, host, zones[k].waf.value.settings).None?) ==>
              host in Fresh(tools, zones) && Build(tools, host, zones[i].waf.value.settings) == Some(Fresh(tools, zones)[host])
  {
    hide Build, Lower;
    if zones == [] {
    } else {
      var front := zones[..|zones| - 1];
      LastZoneWins(tools, front, host);
      assert forall i :: 0 <= i < |front| ==> front[i] == zones[i];
    }
  }

  class Engine<!P, !W> {
    const tools: Tools<P, W>
    var zones: map<string, ZoneWAF<P, W>>

    constructor (tools: Tools<P, W>)
      ensures this.tools == tools && zones == map[]
    {
      this.tools, zones := tools, map[];
    }

    method BuildZoneWAF(host: string, s: Settings) returns (z: Option<ZoneWAF<P, W>>)
      ensures z == Build(tools, host, s)
    {
      hide StableSorted, CompiledRules;
      NoRules(tools);
      var managed := EqualFold(s.ruleset, "owasp_crs");
      var engine: Option<W> := None;
      if managed {
        engine := tools.compileSet(s.paranoia);
        if engine.None? {
          return None;
        }
      }
      var rules := if s.wpPreset then tools.preset else [];
      ghost var first := rules;
      assert first + [] == first;
      var sorted := StableSorted(s.rules);
      for i := 0 to |sorted|
        invariant rules == first + CompiledRules(tools, sorted[..i])
      {
        RulesSnoc(tools, sorted, i);
        var p := tools.compileRule(sorted[i]);
        if !sorted[i].enabled || p.None? {
          assert CompiledRules(tools, sorted[..i]) + [] == CompiledRules(tools, sorted[..i]);
          continue;
        }
        rules := rules + [Compiled("custom:" + FormatInt(sorted[i].id), sorted[i], p.value)];
      }
      assert sorted[..|sorted|] == sorted;
      return Some(ZoneWAF(host, ModeOr(s.mode), s.failOpen, managed, engine, rules, tools.fingerprint(s)));
    }

    method Reload(config: seq<Zone>)
      modifies this`zones
      ensures zones == Reloaded(tools, old(zones), config)
    {
      hide Build;
      var prev := zones;
      var next: map<string, ZoneWAF<P, W>> := map[];
      for i := 0 to |config|
        invariant zones == prev && next == Reloaded(tools, prev, config[..i])
      {
        assert config[..i + 1][..i] == config[..i];
        var z := config[i];
        if z.waf.None? || !z.waf.value.enabled {
          continue;
        }
        var host := Lower(z.domain);
        var fp := tools.fingerprint(z.waf.value.settings);
        if host in prev && prev[host].fingerprint == fp {
          next := next[host := prev[host]];
          continue;
        }
        var built := BuildZoneWAF(host, z.waf.value.settings);
        if built.Some? {
          next := next[host := built.value];
        }
      }
      assert config[..|config|] == config;
      zones := next;
    }

    /** Custom rules first, in order, then the managed ruleset. The events are one per
        matching log rule passed on the way, then one for what decided. */
    method Inspect<R>(j: Judges<P, W, R>, host: string, req: R) returns (block: bool, events: seq<Event>)
      ensures Lower(host) !in zones ==> !block && events == []
      ensures Lower(host) in zones ==> block == Blocks(j, zones[Lower(host)], req)
      ensures Lower(host) in zones ==>
                forall i :: FirstEnding(j, zones[Lower(host)].rules, req, i) ==>
                  var z := zones[Lower(host)]; var c := z.rules[i];
                  events == Logs(j, z.rules[..i], req)
                            + if c.rule.action == "allow" then []
                              else [Event(c.ruleID, "custom", if z.mode == "block" then c.rule.action else "detect")]
      ensures Lower(host) in zones && NoneEnding(j, zones[Lower(host)].rules, req) ==>
                var z := zones[Lower(host)];
                events == Logs(j, z.rules, req)
                          + match ManagedOf(j, z, req)
                            case Pass => []
                            case EngineError => [Event("engine_error", "managed", if z.failOpen then "log" else "block")]
                            case Interrupt(rule) => [Event("crs:" + FormatInt(rule), "managed", if z.mode == "block" then "block" else "detect")]
    {
      events := [];
      if Lower(host) !in zones {
        return false, events;
      }
      var z := zones[Lower(host)];
      for i := 0 to |z.rules|
        invariant events == Logs(j, z.rules[..i], req)
        invariant forall k :: 0 <= k < i ==> !Ends(j, z.rules[k], req)
      {
        assert z.rules[..i + 1][..i] == z.rules[..i];
        var c := z.rules[i];
        if !j.matches(c, req) {
          continue;
        }
        if c.rule.action == "log" {
          events := events + [Event(c.ruleID, "custom", "log")];
          continue;
        }
        assert FirstEnding(j, z.rules, req, i) && !NoneEnding(j, z.rules, req);
        assert forall n :: FirstEnding(j, z.rules, req, n) ==> n == i;
        if c.rule.action == "allow" {
          return false, events + [];
        }
        events := events + [Event(c.ruleID, "custom", if z.mode == "block" then c.rule.action else "detect")];
        return z.mode == "block", events;
      }
      assert z.rules[..|z.rules|] == z.rules;
      assert events + [] == events;
      if z.managed && z.engine.Some? {
        match j.managed(z.engine.value, req) {
          case EngineError =>
            return !z.failOpen, events + [Event("engine_error", "managed", if z.failOpen then "log" else "block")];
          case Interrupt(rule) =>
            return z.mode == "block", events + [Event("crs:" + FormatInt(rule), "managed", if z.mode == "block" then "block" else "detect")];
          case Pass =>
        }
      }
      block := false;
    }
  }
}

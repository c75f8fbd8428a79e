# Brisk, modelled and proved

Brisk is a CDN: a control plane keeps DNS, agent rollouts, health verdicts and load
weights for a fleet of edges, and an agent on each edge filters requests and ships logs.
This project models the parts of it whose behaviour is more than plumbing, as Dafny
classes and methods where the code works step by step and as functions where it computes,
and proves what those parts promise.

* **DNS reconciler** (`Text`, `Tags`, `Records`, `Regions`, `Rotation`, `Reconcile`,
  `Converge`, `Frames`, `Recovery`, `ReconcilePass`, `ReconcileTheorems`,
  `ReconcileLaws`, `Faults`, `Live`, `Commute`, `Twins`, `Bunny`, `Audit`, `Served`, `Syncer`). Bunny's zone is a
  sequence of records with ids behind requests that may get lost, as may their replies, and
  are then sent again; an update is a partial merge. The planners are proved
  against one function of the listing (`Reconcile.PlanWants`), a *class* of records is a
  key function (`Records.Scope`, `Records.Key`), and everything else is about how executed
  actions move the records under each key. Deletes come out of a Go map: every theorem
  holds for any order of them, and for any unused ids Bunny gives to new records. The main
  results: one error-free reconcile settles every class and a second one plans nothing; the
  one stale snapshot is as good as listing again; a plan interrupted any number
  of times is resumed exactly; the apex plan and a zone's plan end in the same records in either order;
  foreign records are never touched, whatever calls fail; after *any* history of reconciles
  with any calls failing, the tables changing and the records being edited in between, the
  first error-free one settles everything, provided that no add was made twice; and an
  error-free one is always possible, because no plan ever names a missing record.
* **Rollout engine** (`Rollout`, `RolloutRuns`, `RolloutLaws`). Ticks, admin calls and
  arbitrary edge reports in any interleaving: one target in flight, exactly its edge offered
  the new version, halting on failure, evidence behind every finished and every broken
  target, healthy edges that finish, and an end in bounded time.
* **Feedback machines** (`LoginLimiter`, `Health`, `LoadSteer`, over `Arith`). Counting and arithmetic
  bounds over whole runs: failed logins per window (with a run that reaches the bound),
  health transitions per probe result, republications under constant load.
* **Edge buffers and caches** (`Bounded`, `EventBuffer`, `LogShip`, `Waf`, `LuaLiteral`).
  Each agrees with a simple specification under every interleaving or schedule.
* **Draining and dashboard arithmetic** (`Drain`, `Series`).

## What the code does not do

Where a promise does not hold, the model keeps the code, states exactly when it does, and
gives an input on which it does not.

* A second reconcile is idle for the server, zone and orphan records always, but for the
  tenant wildcard only if that record carries no server tag and no tag of a zone that is
  gone: otherwise the first reconcile deletes it after having counted it as present
  (`ReconcileTheorems.SecondPassWritesNothingIff`,
  `ReconcileTheorems.TaggedWildcardNeedsSecondPass`).
* The planners never compare the record type. A record of another type that carries an
  edge's tag and matches otherwise stays as it is (`ReconcileLaws.ApexTypeExactly`,
  `ReconcileLaws.OtherTypeStays`).
* An add whose reply is lost is sent again and makes a second record with the same tag,
  and the reconcile reports success. The planners index the last record under a tag, so
  while the edge is in the server table the earlier one is never named again: no later
  reconcile removes or changes it. Once the edge is gone each error-free reconcile deletes
  one of them. One error-free reconcile settles its classes exactly when no tag was on two
  records, and no tag gets on two records exactly when no add is made twice
  (`Twins.OnePassSettlesIff`, `Twins.KeepsAllUniqueIff`, `Twins.TwinsNeverGo`,
  `Twins.GoneEdgeLosesOne`, `Twins.RetriedAddStays`).
* The audit trail gives the records again exactly when every call that took effect was also
  acknowledged: a delete whose reply is lost finds no record at the next attempt, fails and
  is not audited (`Audit.AuditReplaysIff`, `Audit.LostDeleteUnaudited`).
* A record with an active zone's tag that was renamed or retyped by hand in Bunny belongs
  to no class: neither the zone's own plan nor the orphan sweep repairs or removes it. An
  error-free reconcile leaves it unless an edge without a record of its own adopts it for
  its address, and exactly then. The application itself makes none, since it never renames
  a zone (brisk-control/internal/store/zones.go:228-250)
  (`Faults.StrayZoneRecordKeptIff`, `Faults.StrayZoneRecordStaysIff`,
  `Faults.RenamedRecordIsStray`).
* The drain guard counts pure shields, which DNS never lists, so an accepted drain can
  leave DNS with no enabled record (`Drain.GuardProtectsDNSIff`, `Drain.ShieldFoolsGuard`).
* The two guards against blackholing the zone still leave it empty when every edge that is
  not drained is both heartbeat-offline and flagged unhealthy, and exactly then
  (`Rotation.PoolEmptyExactly`, `Rotation.SickSilentFleetIsEmpty`).
* Targets run in edge id order, not in the order the request names them, although
  `CreateRolloutParams` and the migration say "in order". The request's order is kept
  exactly when it is ascending (`RolloutRuns.RequestOrderKeptIff`,
  `RolloutRuns.DescendingRequestIsReversed`).
* Halting on failure needs the two writes of a failing tick to be atomic. After the first
  one alone, a later tick opens another target exactly when one is online at its turn;
  otherwise the rollout is declared done over its broken target
  (`RolloutRuns.TornFailureOpensNextIff`, `RolloutRuns.TornRunOpensIff`,
  `RolloutRuns.TornTickOpensSecond`).
* Detect mode of the firewall enforces no rule, but a managed-engine error still blocks
  when the zone fails closed (`Waf.DetectBlocksIff`, `Waf.DetectModeBlocks`).
* The log tailer's first poll may start in the middle of a line
  (`LogShip.FirstPollCleanIff`, `LogShip.FirstPollInsideLine`).

## Model

| member | source | states |
|---|---|---|
| Tags.ServerTagRoundTrip | brisk-control/internal/dns/reconcile.go:13-22 | the edge id read from a server tag is the one it was made of, colons included |
| Tags.ServerTagInjective | brisk-control/internal/dns/reconcile.go:13-22 | only an edge's own tag is read as that edge |
| Tags.ZoneIDRoundTrip | brisk-control/internal/dns/zonesync.go:38-77 | the zone id read from a zone-edge tag is the one it was made of, for every 64-bit id and every edge id |
| Tags.ZoneEdgeTagRead | brisk-control/internal/dns/zonesync.go:43-59 | zone z' accepts the tag of zone z exactly when z = z', and then reads the edge id: zone 1 never claims zone 12's records |
| Tags.ZoneReadersAgree | brisk-control/internal/dns/zonesync.go:50-77 | whatever comment one zone's reader accepts, the orphan reader assigns to that zone |
| Tags.ServerTagIsNotZoneTag | brisk-control/internal/dns/zonesync.go:63-77 | no server tag reads as a zone tag |
| Tags.WildcardTagIsNeither | brisk-control/internal/dns/bunny.go:311-350 | the wildcard's comment is neither a server tag nor a zone tag |
| Tags.TagsAsWritten | brisk-control/internal/dns/reconcile.go:13-16 | the three kinds of comment, character by character |
| Text.TrimSpaceExactly | brisk-control/internal/dns/regions.go:262-266 | trimming takes blanks, tabs and line ends off both ends, all of them and nothing else |
| Text.FoldsLetters | brisk-control/internal/dns/regions.go:262-266 | case folding changes the letters A to Z, or a to z, and nothing else |
| Regions.LookupIsMostSpecific | brisk-control/internal/dns/regions.go:262-276 | the location found is that of the longest dash prefix of the region that is mapped; none is found only when no dash prefix is mapped |
| Regions.ComputeMaxCapacity | brisk-control/internal/dns/regions.go:320-336 | the reference capacity is at least that of every edge that opted in, and that of one of them unless it is 0 |
| Regions.WeightInRange | brisk-control/internal/dns/regions.go:308-375 | every record weight is between 1 and 100, whatever capacity, manual weight and load factor |
| Regions.CapacityWeightOrder | brisk-control/internal/dns/regions.go:341-375 | among edges under capacity weighting and equally loaded a larger one never gets a smaller weight, and an unloaded one with the fleet's maximum capacity gets 100 |
| Regions.ManualWeight | brisk-control/internal/dns/regions.go:308-317 | unloaded and without capacity weighting a weight from 1 to 100 is kept and any other stands for 100 |
| Regions.CapacityWeight | brisk-control/internal/dns/regions.go:341-360 | an unloaded capacity weight is the whole percentage of the fleet's maximum that is nearest, 1 at least; without a capacity the manual weight |
| Regions.LoadedWeight | brisk-control/internal/dns/regions.go:362-375 | a load factor between 0 and 1 scales the unloaded weight to the nearest whole number, 1 at least; any other changes nothing |
| Rotation.RotationDecision | brisk-control/internal/dns/reconcile.go:114-154 | the two counting loops give each edge the verdict defined by quantifiers over the fleet |
| Rotation.PoolEmptyExactly | brisk-control/internal/dns/reconcile.go:114-154 | nobody is in rotation exactly when every edge not drained is both heartbeat-offline and unhealthy; drained edges are never in |
| Rotation.SickSilentFleetIsEmpty | brisk-control/internal/dns/reconcile.go:114-154 | one edge never heard of and flagged unhealthy: nobody is in rotation |
| Rotation.OutReasons | brisk-control/internal/dns/reconcile.go:88-154 | the exact condition for each reason to be out: drain over health over heartbeat, with both guards |
| Rotation.DecidedByFields | brisk-control/internal/dns/reconcile.go:70-154 | every decision from the servers' own fields: drained, status text, age of the heartbeat and health text |
| Rotation.HeartbeatCounts | brisk-control/internal/dns/reconcile.go:70-80 | a heartbeat older than staleAfter is as good as none, one within it as good as one now, and without the status online it does not count |
| Rotation.HealthTextCounts | brisk-control/internal/dns/reconcile.go:88-154 | of the health texts only unhealthy counts, in whatever case |
| Rotation.StaleIsOut | brisk-control/internal/dns/reconcile.go:114-154 | a healthy edge with a stale heartbeat is out as soon as another edge is online in time |
| Records.AtMergedInto | brisk-control/internal/dns/bunny.go:77-113 | a merge-style update that brings a record under an empty key leaves exactly the merged record there |
| Records.UntouchedSurvives | brisk-control/internal/dns/bunny.go:270-286 | a record that no executed action names is unchanged at the end |
| Reconcile.Diff | brisk-control/internal/dns/reconcile.go:214-317 | the loop over maps plans exactly what the function of the listing says, with the deletes in any order |
| Reconcile.DiffZone | brisk-control/internal/dns/zonesync.go:92-184 | the same for one zone's own set |
| Reconcile.OrphanZonePlan | brisk-control/internal/dns/zonesync.go:189-201 | one delete per record whose zone tag names no active zone, in listing order |
| Converge.WrittenConverges | brisk-control/internal/dns/bunny.go:77-113 | after a partial-merge update the record matches the wanted one in all fields the planners compare |
| Reconcile.KindsTell | brisk-control/internal/dns/reconcile.go:297-306 | an enable or disable changes the disabled flag of the edge's own record and nothing else the planners compare; every other write is an update |
| Converge.ModeSwitchClears | brisk-control/internal/dns/bunny.go:77-113 | whatever the record held, after a partial-merge write it has coordinates or a latency zone, never both, and neither where the region is unmapped |
| Converge.PlanSettles | brisk-control/internal/dns/reconcile.go:214-344 | an executed plan leaves exactly one converged record per wanted edge and none else in its class, for any delete order and any new ids |
| Converge.SettledPlansNothing | brisk-control/internal/dns/reconcile.go:288-317 | in a settled class the planner plans nothing, adoptable records or not |
| Frames.PlanTouchesOnlyItsOwn | brisk-control/internal/dns/reconcile.go:214-317 | a record outside the class that no unmatched edge adopts is unchanged by the plan or any prefix of it |
| Frames.PlanWritesOnlyItsOwn | brisk-control/internal/dns/reconcile.go:248-311 | whatever a plan changed or created carries the class's own tag |
| Recovery.CutBetweenWants | brisk-control/internal/dns/reconcile.go:248-309 | every prefix of the planned writes ends between two edges |
| Recovery.ResumedRunIsOnePlan | brisk-control/internal/dns/reconcile.go:319-344 | what was executed before a failure followed by a fresh plan is one complete run of the first plan |
| Recovery.CompleteRunsAgree | brisk-control/internal/dns/reconcile.go:319-344 | all complete runs of one plan end in the same records, up to the ids of new ones |
| ReconcilePass.ApexWantedExactly | brisk-control/internal/dns/reconcile.go:248-271 | the apex set is wanted for exactly the edges with an id and an address |
| ReconcilePass.ZoneWantedExactly | brisk-control/internal/dns/zonesync.go:93-118 | a zone's set is wanted for exactly its assigned edges that are known and have an address |
| ReconcileTheorems.ApexPlanFrame | brisk-control/internal/dns/reconcile.go:214-317 | the apex plan, whole or cut, leaves every tenant zone's set as it was |
| ReconcileTheorems.ZonePlanFrame | brisk-control/internal/dns/zonesync.go:92-184 | a zone plan, whole or cut, leaves the apex set, adoptable records, other zones, orphans and the wildcard as they were |
| ReconcileTheorems.StaleSnapshotSound | brisk-control/internal/dns/syncer.go:155-187 | zone plans all computed from the one snapshot are exactly the plans one would get by listing again before each zone |
| ReconcileTheorems.SweepExact | brisk-control/internal/dns/zonesync.go:189-201 | the sweep from the old snapshot deletes every orphan and nothing else |
| ReconcileTheorems.OnePassSettles | brisk-control/internal/dns/syncer.go:98-199 | one error-free reconcile settles the apex set and every active zone's set and leaves no orphan |
| ReconcileTheorems.SecondPassIsIdle | brisk-control/internal/dns/syncer.go:98-199 | a second reconcile with the same inputs and clock writes no server, zone or orphan record |
| ReconcileTheorems.KeptWildcardStays | brisk-control/internal/dns/bunny.go:300-350 | a wildcard CNAME with no server tag and no dead zone's tag survives the reconcile unchanged |
| ReconcileTheorems.SecondPassWritesNothingIff | brisk-control/internal/dns/syncer.go:118-149 | the second reconcile creates no wildcard exactly when there was none before or one that the first does not delete |
| ReconcileTheorems.TaggedWildcardNeedsSecondPass | brisk-control/internal/dns/syncer.go:118-149 | with a wildcard CNAME that carries a server tag as the only record, the second reconcile still writes |
| ReconcileLaws.ApexPlanResumes | brisk-control/internal/dns/reconcile.go:214-344 | stopped after any prefix, a new apex plan is exactly the rest of the old one, given distinct edge ids and addresses |
| ReconcileLaws.ZonePlanResumes | brisk-control/internal/dns/zonesync.go:92-184 | the same for every zone plan, addresses regardless |
| ReconcileLaws.InterruptedApexSameEnd | brisk-control/internal/dns/reconcile.go:319-344 | stopped anywhere any number of times, each time planned again, the apex set ends as in the uninterrupted run, up to the ids of new records |
| ReconcileLaws.InterruptedZoneSameEnd | brisk-control/internal/dns/syncer.go:169-187 | the same for every zone's set, addresses regardless |
| ReconcileLaws.ApexAndZonePlansCommute | brisk-control/internal/dns/syncer.go:127-149 | running the apex plan or a zone's plan, whole or cut, does not change what the other plans nor its records |
| Commute.EitherOrder | brisk-control/internal/dns/syncer.go:127-149 | apex plan first or a zone's plan first: the records that were there end the same, and the same records are added, up to their ids and their place |
| ReconcileLaws.ApexTypeExactly | brisk-control/internal/dns/reconcile.go:288-299 | an edge's one record is an A record, except exactly when a record of another type carried its tag and matched otherwise |
| ReconcileLaws.OtherTypeStays | brisk-control/internal/dns/reconcile.go:288-299 | for every lone edge: a CNAME that carries its tag and matches otherwise is what the apex plan leaves |
| ReconcileLaws.EnabledIffInPool | brisk-control/internal/dns/reconcile.go:248-299 | a settled apex set holds an enabled record exactly when some edge with an id and an address is in rotation |
| Faults.UntaggedIsAllUnique | brisk-control/internal/dns/bunny.go:73-75 | a zone without Brisk tags satisfies the invariant that every history keeps |
| Faults.CutKeepsUnique | brisk-control/internal/dns/reconcile.go:319-344 | stopped anywhere, a plan leaves each tag of its class on at most one record if it made no add twice |
| Faults.ForeignRecordsStay | brisk-control/internal/dns/syncer.go:98-199 | whatever fails, a record that is no server's, no active zone's, no dead zone's and not the one untagged A record adopted for an edge without a record of its own is unchanged |
| Faults.OnlyOwnRecordsAppear | brisk-control/internal/dns/syncer.go:98-199 | whatever fails, every new or changed record carries a server tag or an active zone's tag, or is the wildcard the reconcile creates |
| Faults.StrayZoneRecordStaysIff | brisk-control/internal/dns/zonesync.go:92-201 | whatever fails, a record with an active zone's tag that is in no zone's own set and not adopted is there afterwards exactly when it was there before |
| Faults.StrayZoneRecordKeptIff | brisk-control/internal/dns/reconcile.go:218-246 | after an error-free reconcile such a record is there exactly when it was there and no edge without a record of its own adopts it |
| Faults.RenamedRecordIsStray | brisk-control/internal/dns/zonesync.go:103-111 | one zone and one of its records renamed by hand: the listing is well formed and every reconcile leaves the record |
| Faults.AnyHistoryThenSettled | brisk-control/internal/dns/syncer.go:204-229 | after any history of reconciles with any failures in which no add was made twice, changing tables and edits that keep the invariant, the first error-free reconcile settles every class, keeps the invariant, and the next plans nothing for servers, zones and orphans |
| Live.PlanNamesLive | brisk-control/internal/dns/reconcile.go:214-344 | every update and delete of a plan names a record that exists and that no earlier action deletes |
| Live.ReconcileCanSucceed | brisk-control/internal/dns/syncer.go:98-199 | for all tables, settings and records, a reconcile none of whose calls is refused runs to its end, the plans from the stale snapshot included |
| Served.ApexServed | brisk-control/internal/dns/reconcile.go:248-309 | after an error-free reconcile every edge with an id and an address has one record with its tag: address, name, ttl, comment and monitor as configured, disabled exactly when out of rotation, its weight, and the latency zone or coordinates of the longest mapped prefix of its region under its own or the network's mode |
| Served.ZoneServed | brisk-control/internal/dns/zonesync.go:115-175 | the same for every edge assigned to an active zone, in the zone's own set of A records |
| Served.ReconcileKeepsRest | brisk-control/internal/dns/bunny.go:77-113 | whatever fails, records that are written over keep their ids, priorities and monitor verdicts |
| Served.LostTagRecovered | brisk-control/internal/dns/reconcile.go:218-286 | an A record under the routing name that lost its tag is taken back by the edge at its address instead of being doubled, given distinct addresses |
| Served.NoDeadZoneLeft | brisk-control/internal/dns/zonesync.go:189-201 | after an error-free reconcile no record carries the tag of a zone that is gone |
| Served.WildcardServed | brisk-control/internal/dns/bunny.go:300-350 | the wildcard is created exactly when there is a label and a domain and no CNAME has its name, points at the routing record and is there after the reconcile |
| Twins.TwinUntouched | brisk-control/internal/dns/reconcile.go:218-246 | a record that is not the last one under its tag survives every plan of its class unchanged, whole or cut |
| Twins.OnePlanSettlesIff | brisk-control/internal/dns/reconcile.go:214-344 | a complete plan settles its class exactly when no tag of the class was on two records |
| Twins.OnePassSettlesIff | brisk-control/internal/dns/syncer.go:98-199 | the same for an error-free reconcile, the apex set and every zone's set |
| Twins.KeepsAllUniqueIff | brisk-control/internal/dns/syncer.go:98-199 | the invariant that no tag is on two records of a class survives a reconcile, whichever calls fail, exactly when it makes no add twice |
| Twins.TwinsNeverGo | brisk-control/internal/dns/syncer.go:204-229 | over any number of reconciles, failing or not, with the edge in the server table, none of its records but the last is removed or changed |
| Twins.GoneEdgeLosesOne | brisk-control/internal/dns/reconcile.go:311-317 | of an edge that is gone, each error-free reconcile deletes exactly the last record |
| Twins.RetriedAddStays | brisk-control/internal/dns/bunny.go:347-409 | the add of a lone edge made twice: it has two records from then on, through all later reconciles |
| Bunny.Client.Do | brisk-control/internal/dns/bunny.go:347-409 | up to four attempts, each carried out or lost: an update or delete takes effect once or not at all, an add any number of times up to four, and a success is the last attempt's |
| Bunny.AcknowledgedIff | brisk-control/internal/dns/bunny.go:347-409 | an add or update is acknowledged exactly when some attempt arrives and is answered 2xx and none before it was turned down, and the updated record exists |
| Bunny.LostDeleteFails | brisk-control/internal/dns/bunny.go:372-408 | a delete that was carried out without an answer fails in the end |
| Bunny.Client.AddRecord | brisk-control/internal/dns/bunny.go:270-275 | creates the record under unused ids, once per attempt that arrived; acknowledged, the returned id is one of them |
| Bunny.Client.UpdateRecord | brisk-control/internal/dns/bunny.go:277-281 | merges into the record with that id or changes nothing; acknowledged only if it merged, but a failing call may have merged too |
| Bunny.Client.DeleteRecord | brisk-control/internal/dns/bunny.go:283-286 | deletes the record with that id or changes nothing; acknowledged only if it deleted, but a failing call may have deleted too |
| Bunny.Client.Apply | brisk-control/internal/dns/reconcile.go:319-344 | stops at the first failing call; what was done carries out the plan as far, the failing call included if it took effect, and what it reports is the acknowledged part of it |
| Bunny.Client.EnsureWildcardCNAME | brisk-control/internal/dns/bunny.go:300-350 | creates the wildcard only if no CNAME has its name, and with every call acknowledged exactly then and once |
| Syncer.Syncer.ReconcileZones | brisk-control/internal/dns/syncer.go:151-199 | a run of zone plans from one listing, each cut at its own failing call, then the sweep; a whole run when every call was acknowledged; the audit trail gains the acknowledged part, plan by plan |
| Syncer.Syncer.Reconcile | brisk-control/internal/dns/syncer.go:96-149 | the records end as the log of what was done says, the log is a cut pass, without repeated adds when none was made twice, and a whole pass when every call was acknowledged; the audit trail gains the acknowledged part, all of it when no reply was lost; a dry run writes nothing |
| Syncer.AuditReplays | brisk-control/internal/dns/syncer.go:132-195 | what was done after the wildcard was ensured, phase after phase, gives the final records |
| Audit.AuditReplaysIff | brisk-control/internal/dns/reconcile.go:319-344 | the report of one plan, replayed, gives the records again exactly when it holds all that was done, whatever failed or was repeated |
| Audit.ReportIsTrue | brisk-control/internal/dns/reconcile.go:272-316 | name and value of every action are those of the record written or deleted, and its edge is the one in the record's tag |
| Audit.LostDeleteUnaudited | brisk-control/internal/dns/bunny.go:381-408 | a delete that took effect although the call failed: nothing is reported, and replaying that leaves the record in place |
| Rollout.Store.ActiveRollout | brisk-control/internal/store/rollouts.go:106-116 | the latest scheduled, running or paused rollout |
| Rollout.Store.CreateRollout | brisk-control/internal/store/rollouts.go:59-98 | one queued target per edge in listing order, or nothing at all when a rollout is active or an edge is named twice |
| Rollout.Store.SetRolloutStatus | brisk-control/internal/store/rollouts.go:185-195 | sets the status, keeps the old reason when none is given, stamps the start at the first running status and the end at every terminal one |
| Rollout.Engine.Tick | brisk-control/internal/rollout/engine.go:71-110 | one step of the active rollout: advance the target in flight, else open or skip the next queued one, else finish |
| Rollout.Engine.Advance | brisk-control/internal/rollout/engine.go:113-138 | start the soak, finish, fail and halt, or wait |
| Rollout.API.StartRollout | brisk-control/internal/api/rollouts.go:105-141 | creates a rollout of a known release unless one is active |
| Rollout.API.SetRolloutStatus | brisk-control/internal/api/rollouts.go:175-196 | pause only from running, resume only from paused, cancel from anything |
| Rollout.API.RollbackRollout | brisk-control/internal/api/rollouts.go:204-253 | cancels an active rollout and starts the reverse one on the same edges |
| Rollout.FirstFrom | brisk-control/internal/api/rollouts.go:216-226 | a rollback without a version goes to the version that the first listed target which has one came from |
| Rollout.API.AgentRelease | brisk-control/internal/api/rollouts.go:54-94 | the version an edge is told to run |
| RolloutRuns.EveryRunKeepsWorld | brisk-control/internal/rollout/engine.go:71-138 | in every reachable state at most one rollout is active, and in each the targets are: over, then at most one in flight, then queued |
| RolloutRuns.OneOfferAtATime | brisk-control/internal/api/rollouts.go:54-94 | at most one edge is offered a version it does not run, and only while its own target is the one in flight of the running rollout |
| RolloutRuns.OfferIff | brisk-control/internal/api/rollouts.go:54-94 | the edge whose target is in flight in the running rollout is told that rollout's version if the release exists, whatever it runs; every other edge is told its own |
| RolloutRuns.OverIsOver | brisk-control/internal/api/rollouts.go:175-196 | a done, failed or cancelled rollout never becomes active again and its targets never change |
| RolloutRuns.BrokenHalts | brisk-control/internal/rollout/engine.go:128-138 | after a target failed, no target of that rollout ever changes again |
| RolloutRuns.TornFailureOpensNextIff | brisk-control/internal/rollout/engine.go:131-135 | if only the first of the two writes of a failing tick is made, the next tick opens a target exactly when the one after the broken target exists and is online; if the broken one is the last, the rollout is declared done |
| RolloutRuns.TornRunOpensIff | brisk-control/internal/rollout/engine.go:71-135 | over any number of further ticks a target is opened exactly when one is online at its turn; otherwise the rollout ends done over its broken target |
| RolloutRuns.TornTickOpensSecond | brisk-control/internal/rollout/engine.go:128-135 | two edges: the whole failing tick halts the rollout, its first write alone lets the next tick open the second edge |
| RolloutRuns.EveryEndHasEvidence | brisk-control/internal/rollout/engine.go:84-138 | in every run from an empty store: behind a finished target lie two ticks after its opening, at least the soak window apart, that saw its edge online, healthy and on the new version; behind a broken one its opening or the start of its soak and a tick more than soak and grace later that did not; behind a skipped one a tick that saw it offline; and an opened one records the version its edge reported then |
| RolloutLaws.HealthyTargetFinishes | brisk-control/internal/rollout/engine.go:113-138 | a target in flight whose edge every tick sees online, healthy and on the new version is never broken or skipped, and is finished exactly from the first tick that comes the soak window after its soak start |
| RolloutLaws.ScheduledStartsOnTime | brisk-control/internal/rollout/engine.go:77-83 | a scheduled rollout stays as it is until the first tick at or after its time, which starts it and stamps the start |
| RolloutLaws.PauseHolds | brisk-control/internal/api/rollouts.go:175-196 | pausing, any ticks and resuming leave every rollout as it was |
| RolloutLaws.StartAcceptedIff | brisk-control/internal/api/rollouts.go:105-141 | a start is accepted exactly when the release is known, edges are named, none twice, and no rollout is active; then one queued target per edge, the soak as asked or 90 |
| RolloutLaws.CancelStops | brisk-control/internal/api/rollouts.go:175-196 | a cancelled rollout is over for good and its targets stay as they are, the other rollouts too |
| RolloutLaws.RollbackLeadsBack | brisk-control/internal/api/rollouts.go:204-253 | a rollback without a version starts a rollout to the version the targets came from, on the same edges, and ends the one rolled back |
| RolloutLaws.EndIsStamped | brisk-control/internal/store/rollouts.go:182-195 | the event that ends a rollout stamps its finish with its time |
| RolloutLaws.FailuresSayWhy | brisk-control/internal/rollout/engine.go:128-138 | a broken target and its rollout keep the reason, through every later event |
| RolloutRuns.RolloutEnds | brisk-control/internal/rollout/engine.go:71-138 | with ticks at most d apart, and any admin calls between them that leave it running, a running rollout of N targets is done or failed by the first tick later than N*(2*(soak+grace+d)+d) after the start, whatever edges report |
| RolloutRuns.RequestOrderIsLost | brisk-control/internal/store/rollouts.go:139-157 | two requests that name the same edges in different orders create the same targets in the same order |
| RolloutRuns.RequestOrderKeptIff | brisk-control/internal/store/rollouts.go:46-98 | the targets stand in the order of the request exactly when the request is ascending |
| RolloutRuns.DescendingRequestIsReversed | brisk-control/internal/store/rollouts.go:139-157 | a request for b and then a creates the targets a and then b |
| LoginLimiter.LoginLimiter.Allowed | brisk-control/internal/adminauth/ratelimit.go:31-40 | free until a lock is set, and again from the moment it ends |
| LoginLimiter.LoginLimiter.Fail | brisk-control/internal/adminauth/ratelimit.go:42-57 | counts on the current window or a new one, locks at the maximum, and leaves other keys alone |
| LoginLimiter.LoginLimiter.Reset | brisk-control/internal/adminauth/ratelimit.go:59-64 | forgets the key's failures and its lock, and no other key's |
| LoginLimiter.LoginBound | brisk-control/internal/adminauth/ratelimit.go:31-57 | guarded attempts over any keys, lockout longer than the window, no reset: every closed interval of the window's length holds at most max(1, 2*max-2) failures of a key |
| LoginLimiter.BoundIsReached | brisk-control/internal/adminauth/ratelimit.go:42-57 | a run with that many failures in one window, for every max of at least 3 |
| LoginLimiter.LockEnds | brisk-control/internal/adminauth/ratelimit.go:31-57 | a key is refused only after as many failures as the maximum within one window, and only for the lockout after the last |
| LoginLimiter.LockHolds | brisk-control/internal/adminauth/ratelimit.go:31-57 | as many failures as the maximum within one window, more than a window after the one before, lock the key until exactly the lockout after the last |
| Health.WithDefaults | brisk-control/internal/health/checker.go:63-86 | interval, timeout and thresholds become positive; a positive interval or threshold is kept, and so is a positive timeout below the interval; the timeout ends below every interval of at least 3 ns |
| Health.Defaults | brisk-control/internal/health/checker.go:63-86 | the values taken for settings that are not usable |
| Health.Checker.HandleResult | brisk-control/internal/health/checker.go:280-328 | only the probed edge changes, and the callback runs exactly when its verdict does |
| Health.Checker.Reload | brisk-control/internal/health/checker.go:212-242 | the table's rows applied one after the other, edges that are gone dropped |
| Health.Checker.ScheduleDue | brisk-control/internal/health/checker.go:245-261 | starts a probe for exactly the enabled edges that are due and have none in flight |
| Health.ReloadKeepsVerdicts | brisk-control/internal/health/checker.go:212-242 | a reload keeps every known edge's counters and verdict and seeds a new one from the table with no streak |
| Health.ReloadKeepsSchedule | brisk-control/internal/health/checker.go:212-242 | a reload leaves a known edge's probe in flight and its due time alone, gives a new edge its stagger, and every edge the settings of its last row |
| Health.CountersAreRuns | brisk-control/internal/health/checker.go:298-315 | the counters are the lengths of the trailing runs of successes and failures |
| Health.RunsDecide | brisk-control/internal/health/checker.go:298-315 | a trailing run of failures as long as its threshold means unhealthy, one of successes healthy, whatever came before |
| Health.VerdictChangesIff | brisk-control/internal/health/checker.go:298-328 | the verdict changes, and a transition fires, exactly at a result that completes such a run against the verdict so far |
| Health.StoredStateRead | brisk-control/internal/health/checker.go:212-242 | stored states are read whatever their case and surrounding space |
| Health.OwnSettingsWin | brisk-control/internal/health/checker.go:245-311 | an edge's own positive thresholds and interval win over the network's |
| Health.TransitionsAlternate | brisk-control/internal/health/checker.go:298-315 | transitions alternate, and each ends a run at least as long as its threshold that began after the one before |
| Health.FlapBound | brisk-control/internal/health/checker.go:282-328 | n results fire k transitions with k*(f+r) <= 2n + abs(f-r), so at most 2n/(f+r) + 1 |
| LoadSteer.WithDefaults | brisk-control/internal/dns/loadsteer.go:48-70 | every setting becomes usable, and each usable one is kept |
| LoadSteer.Defaults | brisk-control/internal/dns/loadsteer.go:48-70 | the values taken for settings that are not usable |
| LoadSteer.LoadController.Factor | brisk-control/internal/dns/loadsteer.go:111-121 | the published factor is within [MinFactor, 1], and 1 for an unknown edge |
| LoadSteer.LoadController.Refresh | brisk-control/internal/dns/loadsteer.go:141-174 | samples every edge with a reading, in any order, leaves the others, keeps the bounds, and reports a change exactly when some factor moved |
| LoadSteer.SampleSteers | brisk-control/internal/dns/loadsteer.go:127-171 | after each sample the factor is in range, within the deadband of the ramp value, and 1 when the ramp says 1 |
| LoadSteer.ClampIsNearest | brisk-control/internal/dns/loadsteer.go:149-154 | a reading outside 0 to 1 counts as the nearest value inside |
| LoadSteer.SampleMoves | brisk-control/internal/dns/loadsteer.go:155-171 | the first sample counts in full, later ones by their share; the factor moves to the ramp value exactly by the deadband or more or all the way back to 1 |
| LoadSteer.ChangeIsReported | brisk-control/internal/dns/loadsteer.go:166-171 | a sample counts as a change exactly when the published factor is another one |
| LoadSteer.RampEnds | brisk-control/internal/dns/loadsteer.go:127-137 | full weight exactly up to the low mark, the floor exactly from the high mark on |
| LoadSteer.RampIsStraight | brisk-control/internal/dns/loadsteer.go:127-137 | each share of the way between the marks takes that share of the drop |
| LoadSteer.FactorLipschitz | brisk-control/internal/dns/loadsteer.go:127-137 | a pressure difference moves the factor by at most the ramp's slope times it |
| LoadSteer.Contracts | brisk-control/internal/dns/loadsteer.go:156-162 | under constant pressure the distance to it shrinks by 1 - alpha per sample |
| LoadSteer.Settles | brisk-control/internal/dns/loadsteer.go:141-174 | after n samples of constant pressure the factor is within the deadband plus a geometrically vanishing rest of the ramp value |
| LoadSteer.RepublishBound | brisk-control/internal/dns/loadsteer.go:166-171 | under constant pressure an edge, known before or not, is republished at most 2 + (1-MinFactor)/Deadband times |
| Bounded.NewestConcat | brisk-agent/waf/server.go:57-64 | dropping the oldest early loses nothing that would be kept in the end |
| EventBuffer.EventBuffer.Add | brisk-agent/waf/server.go:57-64 | the buffer stays the newest max events since the snapshot, a flush in flight or not |
| EventBuffer.EventBuffer.Take | brisk-agent/waf/server.go:84-92 | the batch is the newest max events since the last settled ones |
| EventBuffer.EventBuffer.Finish | brisk-agent/waf/server.go:94-111 | a failed ship leaves the buffer as if no flush had been tried; a delivered batch is a stretch of the events in order of adding |
| EventBuffer.SentInOrderOnce | brisk-agent/waf/server.go:84-111 | everything delivered is in order of adding and nothing is delivered twice |
| LogShip.Shipper.ReadNew | brisk-agent/logship/logship.go:98-142 | one poll is the specified step: skip to the end first, reset on truncation, handle complete lines |
| LogShip.Shipper.Flush | brisk-agent/logship/logship.go:144-162 | the buffer is kept exactly when shipping failed |
| LogShip.ChunkIndependent | brisk-agent/logship/logship.go:98-162 | however polls cut an append-only log, it is handled up to the last line end found, and the buffer is the newest entries of one split of what was handled since the last successful flush |
| LogShip.ReplacedFileChunkIndependent | brisk-agent/logship/logship.go:103-142 | a file found shorter than what was read of it is read from its beginning; after a flush, however later polls cut it, it is handled up to its last line end |
| LogShip.OnlyObjectsCount | brisk-agent/logship/logship.go:128-140 | only lines that hold a JSON object make entries, and blanks around it do not matter |
| LogShip.FirstPollCleanIff | brisk-agent/logship/logship.go:111-115 | in every run over a growing log the lines handled are lines of the log exactly when the first poll found it ending with a line end or no line end was written between it and the last poll |
| LogShip.FirstPollInsideLine | brisk-agent/logship/logship.go:111-115 | a first poll after the first character of a line: the line handled is its rest |
| Waf.Engine.BuildZoneWAF | brisk-agent/waf/waf.go:205-240 | preset rules, then the enabled custom rules that compile, in stable order of priority; none without its managed ruleset |
| Waf.BuiltOf | brisk-agent/waf/waf.go:205-240 | mode, fail policy and managed ruleset as set, whatever the case; the preset's rules first, then exactly the enabled custom rules that compile |
| Waf.Engine.Reload | brisk-agent/waf/waf.go:88-120 | the fold over the configuration that reuses engines by host and fingerprint |
| Waf.ReloadsForgetHistory | brisk-agent/waf/waf.go:88-120 | after any reloads the zone map is the one built from scratch from the last configuration, given collision-free fingerprints |
| Waf.LastZoneWins | brisk-agent/waf/waf.go:88-120 | a host is protected exactly when some enabled zone with that domain compiles, as the last such zone says |
| Waf.SortedStably | brisk-agent/waf/waf.go:227-228 | custom rules are sorted by priority, those of one priority in listing order, none lost or doubled |
| Waf.Engine.Inspect | brisk-agent/waf/waf.go:126-183 | the decision and the events, in terms of the first matching rule that does more than log, the managed ruleset's answer and the mode |
| Waf.LogsOfPassed | brisk-agent/waf/waf.go:137-146 | rules passed on the way log one event each, in order, exactly if they match and merely log |
| Waf.DetectBlocksIff | brisk-agent/waf/waf.go:153-183 | outside block mode a request is blocked exactly when no terminating rule matches, the managed engine errs and the zone fails closed |
| Waf.BlockModeDecides | brisk-agent/waf/waf.go:126-183 | in block mode the first matching rule that does more than log decides, only allow lets through; without one a managed hit blocks, and an engine error when the zone fails closed |
| Waf.DetectModeBlocks | brisk-agent/waf/waf.go:153-183 | a zone in detect mode without rules, closed on errors, whose engine errs, blocks every request |
| LuaLiteral.LuaStr | brisk-agent/nginx/nginx.go:789-814 | the printed literal is the quoted concatenation of the escaped bytes |
| LuaLiteral.LiteralRoundTrip | brisk-agent/nginx/nginx.go:789-814 | by the string-literal rules of section 2.1 of the Lua 5.1 Reference Manual the literal reads back as exactly the bytes and reading goes on at the text after it |
| Drain.API.InRotationCount | brisk-control/internal/api/drain.go:48-57 | the number of edges that would be in rotation, positive exactly when some edge would be |
| Drain.API.DrainServer | brisk-control/internal/api/drain.go:76-117 | refused exactly when unforced and it would empty an answering pool, reporting its size; accepted and unforced, an answering pool still answers, and the size left is reported |
| Drain.API.DrainRegion | brisk-control/internal/api/drain.go:141-187 | the same for a region, and the guard looks at exactly the servers the update drains |
| Drain.AffectedAre | brisk-control/internal/api/drain.go:179-187 | the servers reported are exactly those with the given ids, as drained |
| Drain.StoreDrainsSame | brisk-control/internal/store/servers.go:276-302 | the store's upper-case comparison drains exactly the servers the guard's case folding found |
| Drain.DrainBringsIn | brisk-control/internal/dns/reconcile.go:114-154 | exactly when a drain brings another edge into rotation; it never puts one out that is not drained |
| Drain.GuardProtectsDNSIff | brisk-control/cmd/brisk-control/main.go:149-175 | an accepted unforced drain leaves DNS an enabled record exactly when a public server is among those left that are online or not flagged unhealthy |
| Drain.AnswersByFields | brisk-control/internal/api/drain.go:30-57 | a pool answers exactly when some undrained server is online in time or not flagged unhealthy, from the servers' own fields; DNS asks that of the public ones |
| Drain.DNSAnswersIsEnabled | brisk-control/cmd/brisk-control/main.go:149-175 | after an apex plan for the public servers has settled, some server's record is enabled exactly when DNS counts as answering |
| Drain.ShieldFoolsGuard | brisk-control/internal/api/drain.go:96-106 | an edge and a pure shield: draining the edge is accepted and DNS is left without an enabled record |
| Series.MergeSeries | brisk-dashboard/src/lib/stats.ts:48-101 | one point per reported time, ascending, with the sums, averages and recomputed hit ratio of that time |
| Series.SumsAddUp | brisk-dashboard/src/lib/stats.ts:48-101 | sums add up field by field |
| Series.MergeConserves | brisk-dashboard/src/lib/stats.ts:45-101 | merging conserves requests, hits, misses and bytes |
| Series.MergeIgnoresOrder | brisk-dashboard/src/lib/stats.ts:48-101 | the merged series does not depend on the order of servers or points |
| Series.MergedBandwidth | brisk-dashboard/src/lib/stats.ts:48-101 | a merged point's bandwidth is what all servers report for its time together |
| Series.GaugesAreAverages | brisk-dashboard/src/lib/stats.ts:48-156 | cpu, memory and disk of a merged or grouped point lie within the bounds of what is reported, and are missing exactly when nobody reports |
| Series.RatioIsShare | brisk-dashboard/src/lib/stats.ts:48-156 | a hit ratio times the hits and misses is the hits, 0 without any |
| Series.Downsample | brisk-dashboard/src/lib/stats.ts:105-156 | unchanged when short enough, else one point per group of consecutive ones |
| Series.GroupSize | brisk-dashboard/src/lib/stats.ts:105-108 | the smallest group that keeps to the number of points asked for; everything when none is asked for |
| Series.DownsampleConserves | brisk-dashboard/src/lib/stats.ts:103-156 | downsampling conserves all counts and yields at most the number of points asked for, or one point when none is asked for |
| Series.GroupsAreStretches | brisk-dashboard/src/lib/stats.ts:105-156 | point k stands for the k-th stretch of consecutive points, the last for what is left |
| Series.GroupBandwidth | brisk-dashboard/src/lib/stats.ts:105-156 | a group's bandwidth is an average of what is reported, 0 without reports |
| Series.Summarize | brisk-dashboard/src/lib/stats.ts:167-187 | the loop over the series returns the summary of its total counts |
| Series.SummaryFigures | brisk-dashboard/src/lib/stats.ts:167-187 | requests per second times the seconds are the requests, and hit and miss ratio add up to 1 |
| Series.SummarySurvives | brisk-dashboard/src/lib/stats.ts:167-187 | the summary of the merged and downsampled chart is that of the raw points of all servers |

## Left out

- HTTP, JSON, SQL text, NATS, SSH, nginx templates, certificates and the agent's self-update: plumbing around the modelled state changes; inputs from them are parameters.
- Strings: case folding and trimming are ASCII only; Go folds and trims Unicode.
- Floating point: coordinates, weights, load factors, pressures and ratios are reals; rounding is not modelled.
- Go durations and 64-bit counters other than zone ids: unbounded integers; a soak so large that the Go multiplication overflows is not modelled.
- Bunny.Client.Do: attempts take effect in the order they are sent; waiting between them and the deadline of a call are not modelled.
- Bunny's own changes (its monitor status) and manual edits while a reconcile is running; between reconciles any edit that puts no tag on two records of a class is allowed.
- Records: one edge id twice in the server table, which its unique constraint excludes, is outside the preconditions.
- Syncer.Run: debouncing and the ticker; a history is any sequence of reconciles.
- Syncer.Syncer.Reconcile: the second listing failing and the zone lookup failing both skip the zone phase; the audit reasons are not kept.
- Rollout.Engine.Tick: one tick has one clock, where the code reads the engine's clock and the database's now() separately, and is atomic except in `RolloutRuns.Torn`.
- Rollout.API.SetRolloutStatus: the read of the status and the write are one step; two admin calls racing between them are not modelled. The audit log is not kept.
- Rollout.Store.CreateRollout: the order of edge ids is by character; the database's collation may differ, which changes no theorem but the order itself.
- RolloutRuns.RolloutEnds: pauses and a scheduled start are excluded, since a paused rollout does not end.
- LoginLimiter.LoginBound: attempts are serial; concurrent attempts between the check and the count, and resets by a successful login, are not covered.
- Health.Checker.Reload: a failing table read changes nothing and is left out; the stagger of first probes is a parameter.
- Health.FlapBound: thresholds are fixed during the run; a reload may change them.
- LoadSteer.LoadController.Refresh: the has-data flag is always set on a known edge and is not kept.
- EventBuffer.EventBuffer.Finish: a ship that failed after the control plane stored the batch would be delivered again; a failed ship means nothing was delivered.
- LogShip.ReplacedFileChunkIndependent: a file that was replaced and grew past the offset between two polls cannot be told from an appended one.
- Waf.Engine.Inspect: pattern matching, the managed ruleset and the compilers are parameters, taken to be deterministic; headers, GeoIP and log lines are left out.
- Drain.API.DrainServer: undraining, reasons, the audit trail and the reconcile that follows; the clock of the guard is the clock of the claim.
- Series.MergeSeries: points are ordered by the characters of their time; the source sorts with `localeCompare`, which agrees on timestamps of one format.
- Series.Downsample: bandwidth is averaged per group and is not conserved, by design; a negative target, on which the source does not end, is excluded.
- Custom domains, purge jobs and the agent's traffic statistics: they rest on external services and on delivery guarantees outside the code.

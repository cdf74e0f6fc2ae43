/**
 * The delivery service's cache-changing methods, over real cache objects updated in place. Each
 * method is proved to do to the visible state exactly what its function in Mirror says. Time,
 * the database and the outcome of its reads are parameters.
 */
module Delivery {
  import opened Wrappers
  import opened Sequences
  import opened MemoryCache
  import opened Mirror

  class CMSDeliveryService {
    const cfg: Config
    const monitor: MemoryMonitor
    const schedules: CacheMemory<seq<Schedule>>
    const decisionRules: CacheMemory<RuleCopy>
    const versionHashes: CacheMemory<string>
    const lastSync: CacheMemory<Time>
    /** The DecisionRule field of every schedule object that has one. */
    var attached: map<nat, RuleCopy>
    var nextOid: nat
    var nextRead: nat

    /** The four caches are separate, share the monitor, and have the configured default TTL. */
    ghost predicate Valid() {
      && schedules as object != decisionRules && schedules as object != versionHashes && schedules as object != lastSync
      && decisionRules as object != versionHashes && decisionRules as object != lastSync
      && versionHashes as object != lastSync
      && schedules.monitor == decisionRules.monitor == versionHashes.monitor == lastSync.monitor == monitor
      && schedules.defaultTtl == decisionRules.defaultTtl == cfg.defaultTtl
      && versionHashes.defaultTtl == lastSync.defaultTtl == cfg.defaultTtl
      && monitor as object !in Parts()
    }

    ghost function Parts(): set<object> {
      {this, schedules, decisionRules, versionHashes, lastSync}
    }

    /** The live cache entries at `now`. */
    ghost function CachesAt(now: Time): Caches
      reads schedules, decisionRules, versionHashes, lastSync
    {
      Caches(schedules.View(now), decisionRules.View(now), versionHashes.View(now), lastSync.View(now))
    }

    /** The service's whole visible state at `now`. */
    ghost function PodAt(now: Time): Pod
      reads Parts()
    {
      Pod(CachesAt(now), attached, nextOid, nextRead)
    }

    /** The step's environment is the one the caches see. */
    ghost predicate In(env: Env)
      reads monitor
    {
      Valid() && monitor.isUnderPressure == env.pressure
    }

    constructor (cfg: Config, monitor: MemoryMonitor)
      ensures Valid() && fresh(Parts()) && this.cfg == cfg && this.monitor == monitor
      ensures forall now :: PodAt(now) == Pod(NO_CACHES, map[], 0, 0)
    {
      this.cfg, this.monitor := cfg, monitor;
      schedules := new CacheMemory(monitor, cfg.defaultTtl);
      decisionRules := new CacheMemory(monitor, cfg.defaultTtl);
      versionHashes := new CacheMemory(monitor, cfg.defaultTtl);
      lastSync := new CacheMemory(monitor, cfg.defaultTtl);
      attached, nextOid, nextRead := map[], 0, 0;
    }

    // ----------------------------------------------------------- MemoryCache

    method UpdateSchedules(newSchedules: map<string, seq<Schedule>>, newRules: map<string, RuleCopy>,
                           newVersions: map<string, string>, env: Env)
      requires In(env)
      modifies schedules, decisionRules, versionHashes, lastSync
      ensures CachesAt(env.now) ==
              Mirror.UpdateSchedules(old(CachesAt(env.now)), newSchedules, newRules, newVersions, cfg, env)
    {
      schedules.Replace(newSchedules, cfg.ttl, env.now);
      decisionRules.Replace(newRules, cfg.ttl, env.now);
      versionHashes.Replace(newVersions, cfg.ttl, env.now);
      var stamps := StampPlacements(newSchedules, env.now);
      lastSync.Replace(stamps, cfg.ttl, env.now);
    }

    /** A sync stamp for every placement, its name recovered from the schedules key. */
    method StampPlacements(newSchedules: map<string, seq<Schedule>>, now: Time) returns (stamps: map<string, Time>)
      ensures stamps == SyncStamps(newSchedules, now)
    {
      stamps := map[];
      var todo := newSchedules.Keys;
      while todo != {}
        invariant todo <= newSchedules.Keys
        invariant forall n :: n in stamps <==>
          exists k | k in newSchedules && k !in todo :: TrimPrefix(k, SCHEDULES_PREFIX) == n
        invariant forall n | n in stamps :: stamps[n] == now
        decreases |todo|
      {
        var k :| k in todo;
        stamps := stamps[TrimPrefix(k, SCHEDULES_PREFIX) := now];
        todo := todo - {k};
      }
    }

    method PruneOrphanedRules(now: Time)
      requires Valid()
      modifies decisionRules
      ensures CachesAt(now) == Prune(old(CachesAt(now)))
    {
      var used := CollectUsedRuleKeys(now);
      var cached := decisionRules.Keys(now);
      ghost var was := decisionRules.View(now);
      decisionRules.DeleteKeys(cached - used, now);
      assert decisionRules.View(now) == map k | k in was && k in used :: was[k];
    }

    method CollectUsedRuleKeys(now: Time) returns (used: set<string>)
      ensures used == UsedRuleKeys(schedules.View(now))
    {
      used := {};
      ghost var view := schedules.View(now);
      var todo := schedules.Keys(now);
      while todo != {}
        invariant todo <= view.Keys
        invariant forall x :: x in used <==> exists k | k in view && k !in todo :: x in RuleKeysOf(view[k].value)
        decreases |todo|
      {
        var key :| key in todo;
        var item := schedules.Get(key, now);
        var more := CollectRuleKeys(item.value);
        used := used + more;
        todo := todo - {key};
      }
    }

    /** The rule keys one list refers to. */
    method CollectRuleKeys(ss: seq<Schedule>) returns (keys: set<string>)
      ensures keys == RuleKeysOf(ss)
    {
      keys := {};
      for i := 0 to |ss|
        invariant keys == RuleKeysOf(ss[..i])
      {
        assert ss[..i + 1] == ss[..i] + [ss[i]];
        if ss[i].row.ruleId != NIL_UUID {
          keys := keys + {RuleKey(ss[i].row.ruleId)};
        }
      }
      assert ss[..|ss|] == ss;
    }

    // -------------------------------------------------------------- evaluate

    /** Deduplicates a listing by schedule ID; every kept row becomes a fresh object. */
    method LoadSchedules(occs: seq<Occurrence>, now: Time) returns (ss: seq<Schedule>)
      modifies this`nextOid
      ensures ss == Load(Dedup(occs), old(nextOid), now) && nextOid == old(nextOid) + |ss|
    {
      var seen := {};
      ss := [];
      for i := 0 to |occs|
        invariant seen == SeenIds(occs[..i])
        invariant ss == Load(Dedup(occs[..i]), old(nextOid), now) && nextOid == old(nextOid) + |ss|
      {
        var occ := occs[i];
        LoadStep(occs, i, old(nextOid), now);
        if occ.schedule.None? {
          continue;
        }
        if occ.scheduleId in seen {
          continue;
        }
        seen := seen + {occ.scheduleId};
        ss := ss + [Schedule(nextOid, now, occ.schedule.value)];
        nextOid := nextOid + 1;
      }
      assert occs[..|occs|] == occs;
    }

    method GroupByPlacement(ss: seq<Schedule>) returns (groups: map<string, seq<Schedule>>)
      ensures groups == Groups(ss)
    {
      groups := map[];
      for i := 0 to |ss|
        invariant groups == Groups(ss[..i])
      {
        assert ss[..i + 1] == ss[..i] + [ss[i]];
        GroupsSnoc(ss[..i], ss[i]);
        if ss[i].row.placement.None? || ss[i].row.placement.value == "" {
          continue;
        }
        var name := ss[i].row.placement.value;
        groups := groups[name := (if name in groups then groups[name] else []) + [ss[i]]];
      }
      assert ss[..|ss|] == ss;
    }

    method ComputePlacementHash(ss: seq<Schedule>) returns (hash: string)
      ensures hash == PlacementHash(cfg, ss)
    {
      var text := "";
      for i := 0 to |ss|
        invariant text == HashInput(ss[..i])
      {
        assert ss[..i + 1][..i] == ss[..i];
        text := text + ss[i].row.id + ss[i].row.updatedAt;
      }
      assert ss[..|ss|] == ss;
      hash := cfg.sha(text);
    }

    /** The new schedule set, built group by group in any order. */
    method KeyGroups(groups: map<string, seq<Schedule>>) returns (byKey: map<string, seq<Schedule>>)
      ensures byKey == ByKey(groups)
    {
      byKey := map[];
      var todo := groups.Keys;
      while todo != {}
        invariant todo <= groups.Keys
        invariant forall k :: k in byKey <==> TrimsInto(k, groups.Keys - todo)
        invariant forall k | k in byKey :: byKey[k] == groups[TrimPrefix(k, SCHEDULES_PREFIX)]
        decreases |todo|
      {
        var name :| name in todo;
        KeysInvert(name);
        OneMoreKey(groups.Keys - todo, name);
        assert groups.Keys - (todo - {name}) == groups.Keys - todo + {name};
        byKey := byKey[SchedulesKey(name) := groups[name]];
        todo := todo - {name};
      }
      assert groups.Keys - {} == groups.Keys;
      ByKeyIs(groups, byKey);
    }

    /** The new version set. */
    method HashGroups(groups: map<string, seq<Schedule>>) returns (versions: map<string, string>)
      ensures versions == Versions(groups, cfg)
    {
      versions := map[];
      var todo := groups.Keys;
      while todo != {}
        invariant todo <= groups.Keys
        invariant versions.Keys == groups.Keys - todo
        invariant forall n | n in versions :: versions[n] == PlacementHash(cfg, groups[n])
        decreases |todo|
      {
        var name :| name in todo;
        var hash := ComputePlacementHash(groups[name]);
        versions := versions[name := hash];
        todo := todo - {name};
      }
    }

    /** Fetches the rules of the loaded schedules and puts them under their cache keys. */
    method FetchNewRules(ss: seq<Schedule>, env: Env, rulesOk: bool) returns (rules: map<string, RuleCopy>)
      modifies this`nextRead
      ensures rules == (if rulesOk then KeyRules(env.db, RowIds(ss), old(nextRead)) else map[])
      ensures nextRead == old(nextRead) + 1
    {
      rules := map[];
      if rulesOk {
        rules := KeyFetched(env.db, RowIds(ss), nextRead);
      }
      nextRead := nextRead + 1;
    }

    method KeyFetched(db: Db, ids: set<string>, readNo: nat) returns (rules: map<string, RuleCopy>)
      ensures rules == KeyRules(db, ids, readNo)
    {
      var fetched := FetchRules(db, ids, readNo);
      rules := map[];
      var todo := fetched.Keys;
      while todo != {}
        invariant todo <= fetched.Keys
        invariant forall k :: k in rules <==> exists i | i in fetched && i !in todo :: RuleKey(db.ruleOf[i]) == k
        invariant forall k | k in rules :: KeyedCopy(db, readNo, k, rules[k])
        decreases |todo|
      {
        var i :| i in todo;
        KeysInvert(db.ruleOf[i]);
        rules := rules[RuleKey(fetched[i].rule.id) := fetched[i]];
        todo := todo - {i};
      }
    }

    method ClearPlacements(names: seq<string>, env: Env)
      requires In(env)
      modifies schedules, versionHashes, lastSync
      ensures CachesAt(env.now) == ClearTargets(old(CachesAt(env.now)), names, cfg, env)
    {
      for i := 0 to |names|
        invariant CachesAt(env.now) == ClearTargets(old(CachesAt(env.now)), names[..i], cfg, env)
      {
        assert names[..i + 1][..i] == names[..i];
        schedules.Delete(SchedulesKey(names[i]));
        versionHashes.Delete(names[i]);
        lastSync.Set(names[i], env.now, cfg.ttl, env.now);
      }
      assert names[..|names|] == names;
    }

    /** A targeted refresh. The three per-placement sets touch separate caches, so each runs as one pass. */
    method RefreshPlacements(groups: map<string, seq<Schedule>>, byKey: map<string, seq<Schedule>>,
                             versions: map<string, string>, rules: map<string, RuleCopy>, env: Env)
      requires In(env) && byKey == ByKey(groups) && versions == Versions(groups, cfg)
      modifies schedules, decisionRules, versionHashes, lastSync
      ensures CachesAt(env.now) == RefreshTargets(old(CachesAt(env.now)), groups, rules, cfg, env)
    {
      schedules.SetAll(byKey, cfg.ttl, env.now);
      lastSync.SetAll(map n | n in groups :: env.now, cfg.ttl, env.now);
      versionHashes.SetAll(versions, cfg.ttl, env.now);
      decisionRules.SetAll(rules, cfg.ttl, env.now);
      PruneOrphanedRules(env.now);
    }

    /** Pulls the active schedules and synchronises the mirror; no names means every placement. */
    method Evaluate(names: seq<string>, env: Env, out: Outcome)
      requires In(env)
      modifies Parts()
      ensures PodAt(env.now) == Mirror.Evaluate(cfg, env, old(PodAt(env.now)), names, out)
    {
      if !out.listOk {
        return;
      }
      var occs := Listing(env.db, names);
      if |names| > 0 && |occs| == 0 {
        ClearPlacements(names, env);
        return;
      }
      Populate(names, occs, env, out);
    }

    /** An evaluate from its listing on. */
    method Populate(names: seq<string>, occs: seq<Occurrence>, env: Env, out: Outcome)
      requires In(env) && out.listOk
      requires occs == Listing(env.db, names) && (names == [] || occs != [])
      modifies Parts()
      ensures PodAt(env.now) == Mirror.Evaluate(cfg, env, old(PodAt(env.now)), names, out)
    {
      EvaluateIsPopulated(cfg, env, PodAt(env.now), names, out);
      var ss := LoadListing(names, occs, env);
      PopulateFrom(names, ss, env, out);
    }

    method LoadListing(ghost names: seq<string>, occs: seq<Occurrence>, env: Env) returns (ss: seq<Schedule>)
      requires occs == Listing(env.db, names)
      modifies this`nextOid
      ensures ss == Loaded(env, old(PodAt(env.now)), names)
      ensures PodAt(env.now) == WithOids(old(PodAt(env.now)), |ss|)
    {
      ss := LoadSchedules(occs, env.now);
    }

    /** Groups the loaded schedules; without a group the mirror is wiped. */
    method PopulateFrom(names: seq<string>, ss: seq<Schedule>, env: Env, out: Outcome)
      requires In(env)
      modifies Parts()
      ensures PodAt(env.now) == Populated(cfg, env, old(PodAt(env.now)), names, ss, out)
    {
      var groups := GroupByPlacement(ss);
      if |groups| == 0 {
        UpdateSchedules(map[], map[], map[], env);
      } else {
        FetchAndRepopulate(names, ss, groups, env, out);
      }
    }

    method FetchAndRepopulate(names: seq<string>, ss: seq<Schedule>, groups: map<string, seq<Schedule>>, env: Env,
                              out: Outcome)
      requires In(env)
      modifies Parts()
      ensures var was, rules := old(PodAt(env.now)), NewRules(env, old(PodAt(env.now)), ss, out);
              PodAt(env.now) ==
              was.(caches := Repopulated(cfg, env, was.caches, names, groups, rules), nextRead := was.nextRead + 1)
    {
      var rules := FetchNewRules(ss, env, out.rulesOk);
      Repopulate(names, groups, rules, env);
    }

    /** The re-population at the end of an evaluate. */
    method Repopulate(names: seq<string>, groups: map<string, seq<Schedule>>, rules: map<string, RuleCopy>, env: Env)
      requires In(env)
      modifies schedules, decisionRules, versionHashes, lastSync
      ensures CachesAt(env.now) == Repopulated(cfg, env, old(CachesAt(env.now)), names, groups, rules)
    {
      var byKey := KeyGroups(groups);
      var versions := HashGroups(groups);
      if |names| > 0 {
        RefreshPlacements(groups, byKey, versions, rules, env);
      } else {
        UpdateSchedules(byKey, rules, versions, env);
      }
    }

    // ----------------------------------------------------------------- flush

    method FlushCache(names: seq<string>, isEvaluate: bool, env: Env, out: Outcome)
      requires In(env)
      modifies Parts()
      ensures PodAt(env.now) == Flush(cfg, env, old(PodAt(env.now)), names, isEvaluate, out)
    {
      if |names| == 0 {
        ClearCaches(env.now);
      } else {
        FlushPlacements(names, env.now);
      }
      if isEvaluate {
        Evaluate([], env, out);
      }
    }

    method ClearCaches(ghost now: Time)
      requires Valid()
      modifies schedules, decisionRules, versionHashes, lastSync
      ensures CachesAt(now) == NO_CACHES
    {
      schedules.Clear();
      decisionRules.Clear();
      versionHashes.Clear();
      lastSync.Clear();
    }

    /** A selective flush. */
    method FlushPlacements(names: seq<string>, now: Time)
      requires Valid()
      modifies schedules, decisionRules, versionHashes, lastSync
      ensures CachesAt(now) == FlushNames(old(CachesAt(now)), attached, names)
    {
      for i := 0 to |names|
        invariant CachesAt(now) == FlushNames(old(CachesAt(now)), attached, names[..i])
      {
        assert names[..i + 1][..i] == names[..i];
        FlushPlacement(names[i], now);
      }
      assert names[..|names|] == names;
    }

    method FlushPlacement(name: string, now: Time)
      requires Valid()
      modifies schedules, decisionRules, versionHashes, lastSync
      ensures CachesAt(now) == FlushOne(old(CachesAt(now)), attached, name)
    {
      var list := schedules.Get(SchedulesKey(name), now);
      if list.Some? {
        DeleteRulesOf(list.value, now);
      }
      schedules.Delete(SchedulesKey(name));
      versionHashes.Delete(name);
      lastSync.Delete(name);
    }

    method DeleteRulesOf(ss: seq<Schedule>, ghost now: Time)
      requires Valid()
      modifies decisionRules
      ensures decisionRules.View(now) == old(decisionRules.View(now)) - FlushedRuleKeys(ss, attached)
    {
      ghost var was, keys := decisionRules.View(now), {};
      for i := 0 to |ss|
        invariant keys == FlushedRuleKeys(ss[..i], attached)
        invariant decisionRules.View(now) == was - keys
      {
        assert ss[..i + 1] == ss[..i] + [ss[i]];
        FlushedSnoc(ss[..i], ss[i], attached);
        if ss[i].oid in attached {
          DeleteOneMore(RuleKey(attached[ss[i].oid].rule.id), was, keys, now);
          keys := keys + {RuleKey(attached[ss[i].oid].rule.id)};
        } else if ss[i].row.ruleId != NIL_UUID {
          DeleteOneMore(RuleKey(ss[i].row.ruleId), was, keys, now);
          keys := keys + {RuleKey(ss[i].row.ruleId)};
        }
      }
      assert ss[..|ss|] == ss;
    }

    method DeleteOneMore(key: string, ghost was: Store<RuleCopy>, ghost gone: set<string>, ghost now: Time)
      requires Valid() && decisionRules.View(now) == was - gone
      modifies decisionRules
      ensures decisionRules.View(now) == was - (gone + {key})
    {
      decisionRules.Delete(key);
      assert (was - gone) - {key} == was - (gone + {key});
    }

    // ----------------------------------------------------------------- pings

    /** The version check a ping undergoes on receipt and again after its jitter. */
    method AlreadyMirrored(ping: Ping, now: Time) returns (skip: bool)
      ensures skip == Mirrored(CachesAt(now), ping)
    {
      skip := false;
      if ping.version != "" {
        var hash := versionHashes.Get(ping.placement, now);
        skip := hash == Some(ping.version);
      }
    }

    /** A ping whose jitter has run out. */
    method FirePing(ping: Ping, env: Env, out: Outcome)
      requires In(env)
      modifies Parts()
      ensures PodAt(env.now) == Mirror.FirePing(cfg, env, old(PodAt(env.now)), ping, out)
    {
      var skip := AlreadyMirrored(ping, env.now);
      if skip {
        return;
      }
      InvalidateTargets(ping, env.now);
      Evaluate(if ping.placement == "" then [] else [ping.placement], env, out);
    }

    method InvalidateTargets(ping: Ping, ghost now: Time)
      requires Valid()
      modifies schedules, decisionRules
      ensures CachesAt(now) == Invalidate(old(CachesAt(now)), ping)
    {
      if ping.ruleId != "" {
        decisionRules.Delete(RuleKey(ping.ruleId));
        if ping.placement != "" {
          schedules.Delete(SchedulesKey(ping.placement));
        }
      }
    }

    // -------------------------------------------------------------- requests

    /** Whether the placement's stamp is there and older than the threshold. */
    method IsStale(name: string, env: Env) returns (found: bool, stale: bool)
      ensures found == (name in lastSync.View(env.now)) && stale == StaleAt(cfg, env, CachesAt(env.now), name)
    {
      var stamp := lastSync.Get(name, env.now);
      var threshold := 10 * MINUTE;
      if cfg.tickInterval > 0 {
        threshold := 2 * cfg.tickInterval;
      }
      found := stamp.Some?;
      stale := found && env.now - stamp.value > threshold;
    }

    /** One requested placement: heal it once if stale; then take its list, or note the miss. */
    method TakePlacement(name: string, env: Env, heal: Outcome, got: seq<Schedule>, missed: set<string>)
      returns (refused: bool, got': seq<Schedule>, missed': set<string>)
      requires In(env)
      modifies Parts()
      ensures TakeOne(cfg, env, Taking(old(PodAt(env.now)), got, missed), name, heal) ==
              if refused then Refused(PodAt(env.now), name) else Taking(PodAt(env.now), got', missed')
    {
      refused, got', missed' := false, got, missed;
      var _, stale := IsStale(name, env);
      if stale {
        Evaluate([], env, heal);
        var found, still := IsStale(name, env);
        if !found || still {
          refused := true;
          return;
        }
      }
      got', missed' := LookUp(name, env.now, got, missed);
    }

    method LookUp(name: string, now: Time, got: seq<Schedule>, missed: set<string>)
      returns (got': seq<Schedule>, missed': set<string>)
      ensures Look(PodAt(now), got, missed, name) == Taking(PodAt(now), got', missed')
    {
      var list := schedules.Get(SchedulesKey(name), now);
      if list.None? {
        got', missed' := got, missed + {name};
      } else {
        got', missed' := got + list.value, missed;
      }
    }

    /** Takes the lists of all requested placements, stopping at the first that stays stale. */
    method TakeLists(names: seq<string>, env: Env, heals: seq<Outcome>)
      returns (refused: Option<string>, got: seq<Schedule>, missed: set<string>)
      requires In(env) && |heals| == |names|
      modifies Parts()
      ensures TakeAll(cfg, env, old(PodAt(env.now)), names, heals) ==
              if refused.Some? then Refused(PodAt(env.now), refused.value) else Taking(PodAt(env.now), got, missed)
    {
      refused, got, missed := None, [], {};
      for i := 0 to |names|
        invariant Taking(PodAt(env.now), got, missed) ==
                  TakeAll(cfg, env, old(PodAt(env.now)), names[..i], heals[..i])
      {
        assert names[..i + 1][..i] == names[..i] && heals[..i + 1][..i] == heals[..i];
        var stop;
        stop, got, missed := TakePlacement(names[i], env, heals[i], got, missed);
        if stop {
          refused := Some(names[i]);
          RefusedStays(cfg, env, old(PodAt(env.now)), names, heals, i + 1);
          return;
        }
      }
      assert names[..|names|] == names && heals[..|heals|] == heals;
    }

    /** After a miss: one evaluate, then another look at every missed placement, in any order. */
    method RetryMissed(missed: set<string>, env: Env, retry: Outcome)
      returns (more: seq<Schedule>, ghost order: seq<string>)
      requires In(env)
      modifies Parts()
      ensures Walks(order, missed)
      ensures PodAt(env.now) == Mirror.Evaluate(cfg, env, old(PodAt(env.now)), [], retry)
      ensures more == Collect(CachesAt(env.now), order)
    {
      Evaluate([], env, retry);
      more, order := CollectMissed(missed, env.now);
    }

    method CollectMissed(missed: set<string>, now: Time) returns (more: seq<Schedule>, ghost order: seq<string>)
      ensures Walks(order, missed)
      ensures more == Collect(CachesAt(now), order)
    {
      more, order := [], [];
      var todo := missed;
      while todo != {}
        invariant todo <= missed && Walks(order, missed - todo)
        invariant more == Collect(CachesAt(now), order)
        decreases |todo|
      {
        var name :| name in todo;
        assert (order + [name])[..|order|] == order;
        var list := schedules.Get(SchedulesKey(name), now);
        if list.Some? {
          more := more + list.value;
        }
        order := order + [name];
        todo := todo - {name};
      }
    }

    /** Re-attaches rules from the rule cache; returns the rows it could not serve. */
    method AttachFromCache(ss: seq<Schedule>, now: Time) returns (missedRules: set<string>)
      modifies this`attached
      ensures attached == AttachCached(old(attached), decisionRules.View(now), ss)
      ensures missedRules == MissedRules(old(attached), decisionRules.View(now), ss)
    {
      missedRules := {};
      for i := 0 to |ss|
        invariant attached == AttachCached(old(attached), decisionRules.View(now), ss[..i])
        invariant missedRules == MissedRules(old(attached), decisionRules.View(now), ss[..i])
      {
        assert ss[..i + 1][..i] == ss[..i];
        if ss[i].oid !in attached && ss[i].row.ruleId != NIL_UUID {
          var rule := decisionRules.Get(RuleKey(ss[i].row.ruleId), now);
          if rule.Some? {
            attached := attached[ss[i].oid := rule.value];
          } else {
            missedRules := missedRules + {ss[i].row.id};
          }
        }
      }
      assert ss[..|ss|] == ss;
    }

    /** Attaches fetched rules and backfills the rule cache with them. */
    method AttachFromDb(ss: seq<Schedule>, fetched: map<string, RuleCopy>, env: Env)
      requires In(env)
      modifies this`attached, decisionRules
      ensures attached == AttachFetched(old(attached), fetched, ss)
      ensures decisionRules.View(env.now) ==
              Backfill(old(decisionRules.View(env.now)), fetched, ss, Expiry(cfg, env), env.pressure)
    {
      for i := 0 to |ss|
        invariant attached == AttachFetched(old(attached), fetched, ss[..i])
        invariant decisionRules.View(env.now) ==
                  Backfill(old(decisionRules.View(env.now)), fetched, ss[..i], Expiry(cfg, env), env.pressure)
      {
        assert ss[..i + 1][..i] == ss[..i];
        if ss[i].row.id in fetched {
          var rule := fetched[ss[i].row.id];
          attached := attached[ss[i].oid := rule];
          decisionRules.Set(RuleKey(rule.rule.id), rule, cfg.ttl, env.now);
        }
      }
      assert ss[..|ss|] == ss;
    }

    method AttachRules(ss: seq<Schedule>, env: Env, rulesOk: bool)
      requires In(env)
      modifies this, decisionRules
      ensures PodAt(env.now) == Mirror.AttachRules(cfg, env, old(PodAt(env.now)), ss, rulesOk)
    {
      var missedRules := AttachFromCache(ss, env.now);
      if missedRules != {} {
        if rulesOk {
          AttachFromDb(ss, FetchRules(env.db, missedRules, nextRead), env);
        }
        nextRead := nextRead + 1;
      }
    }

    /** Groups the schedules that have a rule under the requested placements. */
    method FilterRequested(names: seq<string>, ss: seq<Schedule>, ghost now: Time)
      returns (filtered: map<string, seq<(ScheduleRow, RuleCopy)>>)
      ensures forall n | n in filtered :: n in names
      ensures forall n | n in names ::
                Handed(Taking(PodAt(now), ss, {}), n) == if n in filtered then filtered[n] else []
    {
      filtered := map[];
      for i := 0 to |ss|
        invariant forall n | n in filtered :: n in names
        invariant forall n | n in names ::
                    Handed(Taking(PodAt(now), ss[..i], {}), n) == if n in filtered then filtered[n] else []
      {
        var s := ss[i];
        assert ss[..i + 1] == ss[..i] + [s];
        forall n ensures Handed(Taking(PodAt(now), ss[..i + 1], {}), n) ==
                         Handed(Taking(PodAt(now), ss[..i], {}), n) + HandedOne(attached, s, n) {
          HandedSnoc(PodAt(now), ss[..i], s, n);
        }
        if s.row.placement.Some? && s.oid in attached && s.row.placement.value in names {
          var name := s.row.placement.value;
          filtered := filtered[name := (if name in filtered then filtered[name] else []) + [(s.row, attached[s.oid])]];
        }
      }
      assert ss[..|ss|] == ss;
    }

    /** A request up to the hand-over to the evaluator: refused, or the rows and rules of each placement. */
    method GetPersonalizedContent(names: seq<string>, env: Env, heals: seq<Outcome>, retry: Outcome, rulesOk: bool)
      returns (refused: Option<string>, filtered: map<string, seq<(ScheduleRow, RuleCopy)>>,
               ghost order: seq<string>, ghost response: Progress)
      requires In(env) && |heals| == |names|
      modifies Parts()
      ensures var t := TakeAll(cfg, env, old(PodAt(env.now)), names, heals);
              t.Taking? ==> Walks(order, t.missed)
      ensures response == Request(cfg, env, old(PodAt(env.now)), names, heals, order, retry, rulesOk)
      ensures PodAt(env.now) == response.pod
      ensures refused == if response.Refused? then Some(response.name) else None
      ensures forall n | n in filtered :: n in names
      ensures response.Taking? ==>
                forall n | n in names :: Handed(response, n) == if n in filtered then filtered[n] else []
    {
      filtered, order := map[], [];
      var got, missed;
      refused, got, missed := TakeLists(names, env, heals);
      response := Refused(PodAt(env.now), refused.GetOr(""));
      if refused.Some? {
        return;
      }
      if |missed| > 0 {
        var more;
        more, order := RetryMissed(missed, env, retry);
        got := got + more;
      }
      AttachRules(got, env, rulesOk);
      filtered := FilterRequested(names, got, env.now);
      response := Taking(PodAt(env.now), got, missed);
    }
  }

  lemma FlushedSnoc(ss: seq<Schedule>, s: Schedule, attached: map<nat, RuleCopy>)
    ensures FlushedRuleKeys(ss + [s], attached) ==
            if s.oid in attached then FlushedRuleKeys(ss, attached) + {RuleKey(attached[s.oid].rule.id)}
            else if s.row.ruleId != NIL_UUID then FlushedRuleKeys(ss, attached) + {RuleKey(s.row.ruleId)}
            else FlushedRuleKeys(ss, attached)
  {
    assert s in ss + [s];
    assert forall u | u in ss :: u in ss + [s];
  }

  /** A refusal ends the loop. */
  lemma {:induction false} RefusedStays(cfg: Config, env: Env, pod: Pod, names: seq<string>, heals: seq<Outcome>, i: nat)
    requires |heals| == |names| && i <= |names|
    requires TakeAll(cfg, env, pod, names[..i], heals[..i]).Refused?
    ensures TakeAll(cfg, env, pod, names, heals) == TakeAll(cfg, env, pod, names[..i], heals[..i])
  {
    if i == |names| {
      assert names[..i] == names && heals[..i] == heals;
    } else {
      var n := |names| - 1;
      assert names[..n][..i] == names[..i] && heals[..n][..i] == heals[..i];
      RefusedStays(cfg, env, pod, names[..n], heals[..n], i);
    }
  }

  /** One schedule's share of what a placement is handed. */
  function HandedOne(attached: map<nat, RuleCopy>, s: Schedule, name: string): seq<(ScheduleRow, RuleCopy)> {
    if s.row.placement == Some(name) && s.oid in attached then [(s.row, attached[s.oid])] else []
  }

  lemma HandedSnoc(pod: Pod, ss: seq<Schedule>, s: Schedule, name: string)
    ensures Handed(Taking(pod, ss + [s], {}), name) ==
            Handed(Taking(pod, ss, {}), name) + HandedOne(pod.attached, s, name)
  {
    FilterSnoc(HasRuleAt(name, pod.attached), ss, s);
  }

  /** The caches after a re-population: all placements replaced, or the named ones set. */
  function Repopulated(cfg: Config, env: Env, c: Caches, names: seq<string>, groups: map<string, seq<Schedule>>,
                       rules: map<string, RuleCopy>): Caches {
    if names == [] then Mirror.UpdateSchedules(c, ByKey(groups), rules, Versions(groups, cfg), cfg, env)
    else RefreshTargets(c, groups, rules, cfg, env)
  }

  function WithOids(pod: Pod, n: nat): Pod {
    pod.(nextOid := pod.nextOid + n)
  }

  /** What an evaluate does once it has loaded its schedules. */
  function Populated(cfg: Config, env: Env, pod: Pod, names: seq<string>, ss: seq<Schedule>, out: Outcome): Pod {
    if Groups(ss) == map[] then pod.(caches := Mirror.UpdateSchedules(pod.caches, map[], map[], map[], cfg, env))
    else
      var rules := NewRules(env, pod, ss, out);
      pod.(caches := Repopulated(cfg, env, pod.caches, names, Groups(ss), rules), nextRead := pod.nextRead + 1)
  }

  lemma EvaluateIsPopulated(cfg: Config, env: Env, pod: Pod, names: seq<string>, out: Outcome)
    requires out.listOk && (names == [] || Listing(env.db, names) != [])
    ensures var ss := Loaded(env, pod, names);
            Mirror.Evaluate(cfg, env, pod, names, out) == Populated(cfg, env, WithOids(pod, |ss|), names, ss, out)
  {}

  /** The key is that of one of these names. */
  predicate TrimsInto(key: string, names: set<string>) {
    TrimPrefix(key, SCHEDULES_PREFIX) in names && key == SchedulesKey(TrimPrefix(key, SCHEDULES_PREFIX))
  }

  lemma OneMoreKey(names: set<string>, name: string)
    ensures forall k :: TrimsInto(k, names + {name}) <==> TrimsInto(k, names) || k == SchedulesKey(name)
  {
    KeysInvert(name);
  }

  lemma ByKeyIs(groups: map<string, seq<Schedule>>, byKey: map<string, seq<Schedule>>)
    requires forall k :: k in byKey <==> TrimsInto(k, groups.Keys)
    requires forall k | k in byKey ::
               TrimPrefix(k, SCHEDULES_PREFIX) in groups && byKey[k] == groups[TrimPrefix(k, SCHEDULES_PREFIX)]
    ensures byKey == ByKey(groups)
  {
    forall n | n in groups ensures SchedulesKey(n) in byKey {
      KeysInvert(n);
    }
    forall k ensures k in byKey <==> k in ByKey(groups) {
      if k in ByKey(groups) {
        var n :| n in groups && SchedulesKey(n) == k;
        KeysInvert(n);
      }
    }
  }

  /** The rule the database holds under this key, as read by the given read. */
  predicate KeyedCopy(db: Db, readNo: nat, key: string, copy: RuleCopy) {
    && TrimPrefix(key, RULE_PREFIX) in db.rules
    && copy == RuleCopy(readNo, DecisionRule(TrimPrefix(key, RULE_PREFIX), db.rules[TrimPrefix(key, RULE_PREFIX)]))
  }

  lemma GroupNames(ss: seq<Schedule>, s: Schedule)
    ensures Groups(ss + [s]).Keys == Groups(ss).Keys + if Placed(s) then {s.row.placement.value} else {}
  {
    assert s in ss + [s];
    assert forall u | u in ss :: u in ss + [s];
  }

  /** A placement without a group has no schedule. */
  lemma NoGroup(ss: seq<Schedule>, name: string)
    requires name != "" && name !in Groups(ss)
    ensures Filter(At(name), ss) == []
  {
    var mine := Filter(At(name), ss);
    if mine != [] {
      assert mine[0] in mine;
      assert Placed(mine[0]);
    }
  }

  /** A row is one of those not yet taken, and then becomes the next object. */
  lemma LoadStep(occs: seq<Occurrence>, i: nat, base: nat, now: Time)
    requires i < |occs|
    ensures SeenIds(occs[..i + 1]) == SeenIds(occs[..i]) + if occs[i].schedule.Some? then {occs[i].scheduleId} else {}
    ensures Load(Dedup(occs[..i + 1]), base, now) ==
            if occs[i].schedule.None? || occs[i].scheduleId in SeenIds(occs[..i]) then Load(Dedup(occs[..i]), base, now)
            else Load(Dedup(occs[..i]), base, now) + [Schedule(base + |Dedup(occs[..i])|, now, occs[i].schedule.value)]
  {
    assert occs[..i + 1] == occs[..i] + [occs[i]];
    SeenMore(occs[..i], occs[i]);
    DedupMore(occs[..i], occs[i]);
    LoadMore(Dedup(occs[..i]), Dedup(occs[..i + 1]), occs[i].schedule, occs[i].scheduleId in SeenIds(occs[..i]), base, now);
  }

  lemma LoadMore(before: seq<ScheduleRow>, after: seq<ScheduleRow>, row: Option<ScheduleRow>, seen: bool, base: nat, now: Time)
    requires after == if row.None? || seen then before else before + [row.value]
    ensures Load(after, base, now) ==
            if row.None? || seen then Load(before, base, now)
            else Load(before, base, now) + [Schedule(base + |before|, now, row.value)]
  {
    if row.Some? {
      LoadSnoc(before, row.value, base, now);
    }
  }

  lemma SeenMore(occs: seq<Occurrence>, o: Occurrence)
    ensures SeenIds(occs + [o]) == SeenIds(occs) + if o.schedule.Some? then {o.scheduleId} else {}
  {
    assert o in occs + [o];
  }

  lemma DedupMore(occs: seq<Occurrence>, o: Occurrence)
    ensures Dedup(occs + [o]) ==
            if o.schedule.None? || o.scheduleId in SeenIds(occs) then Dedup(occs) else Dedup(occs) + [o.schedule.value]
  {
    var more := occs + [o];
    assert more[..|more| - 1] == occs && more[|more| - 1] == o;
  }

  lemma LoadSnoc(rows: seq<ScheduleRow>, row: ScheduleRow, base: nat, now: Time)
    ensures Load(rows + [row], base, now) == Load(rows, base, now) + [Schedule(base + |rows|, now, row)]
  {}

  /** One more schedule joins its placement's group. */
  function Join(groups: map<string, seq<Schedule>>, s: Schedule): map<string, seq<Schedule>>
    requires Placed(s)
  {
    var name := s.row.placement.value;
    groups[name := (if name in groups then groups[name] else []) + [s]]
  }

  lemma GroupsSnoc(ss: seq<Schedule>, s: Schedule)
    ensures Groups(ss + [s]) == if Placed(s) then Join(Groups(ss), s) else Groups(ss)
  {
    GroupNames(ss, s);
    var after, grown := Groups(ss + [s]), if Placed(s) then Join(Groups(ss), s) else Groups(ss);
    forall n | n in after ensures after[n] == grown[n] {
      GroupGrows(ss, s, n);
    }
    SameMap(after, grown);
  }

  lemma SameMap<V>(a: map<string, V>, b: map<string, V>)
    requires a.Keys == b.Keys && forall k | k in a :: a[k] == b[k]
    ensures a == b
  {}

  lemma GroupGrows(ss: seq<Schedule>, s: Schedule, name: string)
    requires name in Groups(ss + [s])
    ensures Groups(ss + [s])[name] ==
            (if name in Groups(ss) then Groups(ss)[name] else []) +
            (if Placed(s) && s.row.placement.value == name then [s] else [])
  {
    FilterSnoc(At(name), ss, s);
    if name !in Groups(ss) {
      NoGroup(ss, name);
    }
  }
}

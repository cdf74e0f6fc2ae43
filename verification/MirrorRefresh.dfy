/**
 * What an evaluate puts into the mirror, told from the database's active rows: for a full
 * evaluate and for a refresh of named placements alike.
 */
module MirrorRefresh {
  import opened Wrappers
  import opened MemoryCache
  import opened Mirror
  import opened MirrorRuns
  import opened MirrorTransparency
  import opened MirrorTargets

  /** The text a version hash is taken of: IDs and update times in order. */
  function TextOfRows(rows: seq<ScheduleRow>): string {
    if rows == [] then ""
    else TextOfRows(rows[..|rows| - 1]) + rows[|rows| - 1].id + rows[|rows| - 1].updatedAt
  }

  lemma {:induction false} HashInputOfRows(ss: seq<Schedule>)
    ensures HashInput(ss) == TextOfRows(RowsOf(ss))
  {
    if ss != [] {
      var init := ss[..|ss| - 1];
      HashInputOfRows(init);
      assert RowsOf(ss)[..|ss| - 1] == RowsOf(init);
    }
  }

  /** The evaluate is a full one, or names this placement. */
  predicate Covers(targets: seq<string>, name: string) {
    targets == [] || name in targets
  }

  /** Exactly the covered placements with active rows are loaded, each with those rows. */
  lemma GroupHasActiveRows(env: Env, pod: Pod, targets: seq<string>, name: string)
    requires DbOk(env.db) && Covers(targets, name)
    ensures name in Groups(Loaded(env, pod, targets)) <==> ActiveRows(env.db, name) != []
    ensures name in Groups(Loaded(env, pod, targets)) ==>
              RowsOf(Groups(Loaded(env, pod, targets))[name]) == ActiveRows(env.db, name)
  {
    GroupRows(env, pod, targets, name);
    if targets != [] {
      TargetedRows(env.db, env.db.occurrences, targets, name);
    }
  }

  lemma LoadedNothing(env: Env, pod: Pod, targets: seq<string>)
    requires Listing(env.db, targets) == []
    ensures Groups(Loaded(env, pod, targets)) == map[]
  {
    assert Loaded(env, pod, targets) == [];
  }

  /** Some covered placement has active rows exactly when there is something to mirror. */
  lemma SomethingIsActive(env: Env, pod: Pod, targets: seq<string>)
    requires DbOk(env.db)
    ensures Groups(Loaded(env, pod, targets)) != map[] <==> exists t :: Covers(targets, t) && ActiveRows(env.db, t) != []
  {
    var groups := Groups(Loaded(env, pod, targets));
    if groups != map[] {
      var t :| t in groups;
      if targets != [] {
        GroupIsTarget(env, pod, targets, t);
      }
      GroupHasActiveRows(env, pod, targets, t);
    }
    if t :| Covers(targets, t) && ActiveRows(env.db, t) != [] {
      GroupHasActiveRows(env, pod, targets, t);
    }
  }

  // ------------------------------------------------------------------ new entries

  lemma PutAllAt<V>(s: Store<V>, news: map<string, V>, exp: Option<Time>, pressure: bool, key: string)
    ensures Entry(PutAll(s, news, exp, pressure), key) ==
            if key in news && (pressure ==> key in s) then Some(Item(news[key], exp)) else Entry(s, key)
  {}

  lemma ReplaceAllAt<V>(s: Store<V>, news: map<string, V>, exp: Option<Time>, pressure: bool, key: string)
    ensures Entry(ReplaceAll(s, news, exp, pressure), key) ==
            if key in news && (pressure ==> key in s) then Some(Item(news[key], exp)) else None
  {}

  /** A set is admitted: pressure refuses keys that are not live. */
  predicate Admits<V>(pressure: bool, s: Store<V>, key: string) {
    pressure ==> key in s
  }

  lemma ListRenewed(cfg: Config, env: Env, pod: Pod, targets: seq<string>, out: Outcome, name: string)
    requires out.listOk && name in Groups(Loaded(env, pod, targets))
    ensures var groups, c, d := Groups(Loaded(env, pod, targets)), pod.caches, Evaluate(cfg, env, pod, targets, out).caches;
            Admits(env.pressure, c.schedules, SchedulesKey(name)) ==>
            Entry(d.schedules, SchedulesKey(name)) == Some(Item(groups[name], Deadline(cfg.ttl, cfg.defaultTtl, env.now)))
  {
    var groups, exp := Groups(Loaded(env, pod, targets)), Expiry(cfg, env);
    if Listing(env.db, targets) == [] {
      LoadedNothing(env, pod, targets);
    }
    ByKeyAt(groups, name);
    PutAllAt(pod.caches.schedules, ByKey(groups), exp, env.pressure, SchedulesKey(name));
    ReplaceAllAt(pod.caches.schedules, ByKey(groups), exp, env.pressure, SchedulesKey(name));
  }

  lemma HashRenewed(cfg: Config, env: Env, pod: Pod, targets: seq<string>, out: Outcome, name: string)
    requires out.listOk && name in Groups(Loaded(env, pod, targets))
    ensures var groups, c, d := Groups(Loaded(env, pod, targets)), pod.caches, Evaluate(cfg, env, pod, targets, out).caches;
            Admits(env.pressure, c.versions, name) ==>
            Entry(d.versions, name) ==
            Some(Item(cfg.sha(HashInput(groups[name])), Deadline(cfg.ttl, cfg.defaultTtl, env.now)))
  {
    var groups, exp := Groups(Loaded(env, pod, targets)), Expiry(cfg, env);
    if Listing(env.db, targets) == [] {
      LoadedNothing(env, pod, targets);
    }
    PutAllAt(pod.caches.versions, Versions(groups, cfg), exp, env.pressure, name);
    ReplaceAllAt(pod.caches.versions, Versions(groups, cfg), exp, env.pressure, name);
  }

  lemma StampRenewed(cfg: Config, env: Env, pod: Pod, targets: seq<string>, out: Outcome, name: string)
    requires out.listOk && name in Groups(Loaded(env, pod, targets))
    ensures var c, d := pod.caches, Evaluate(cfg, env, pod, targets, out).caches;
            Admits(env.pressure, c.syncs, name) ==>
            Entry(d.syncs, name) == Some(Item(env.now, Deadline(cfg.ttl, cfg.defaultTtl, env.now)))
  {
    var groups, exp := Groups(Loaded(env, pod, targets)), Expiry(cfg, env);
    if Listing(env.db, targets) == [] {
      LoadedNothing(env, pod, targets);
    }
    SyncStampsAt(groups, env.now);
    PutAllAt(pod.caches.syncs, (map n | n in groups :: env.now), exp, env.pressure, name);
    ReplaceAllAt(pod.caches.syncs, SyncStamps(ByKey(groups), env.now), exp, env.pressure, name);
  }

  /** The rule of a loaded row is among the rules read. */
  lemma RuleIsRead(env: Env, pod: Pod, targets: seq<string>, out: Outcome, s: Schedule)
    requires out.rulesOk && s in Loaded(env, pod, targets) && HasRule(env.db, s.row.id)
    ensures var rules := NewRules(env, pod, Loaded(env, pod, targets), out); var id := env.db.ruleOf[s.row.id];
            RuleKey(id) in rules && rules[RuleKey(id)] == RuleCopy(pod.nextRead, DecisionRule(id, env.db.rules[id]))
  {
    KeysInvert(env.db.ruleOf[s.row.id]);
    assert s.row.id in RowIds(Loaded(env, pod, targets));
  }

  /** A loaded row's rule is cached once its list is, and pressure does not refuse it. */
  lemma RuleRenewed(cfg: Config, env: Env, pod: Pod, targets: seq<string>, out: Outcome, name: string, s: Schedule)
    requires out.listOk && out.rulesOk && name in Groups(Loaded(env, pod, targets))
    requires s in Groups(Loaded(env, pod, targets))[name] && RowOk(env.db, s.row) && HasRule(env.db, s.row.id)
    requires Admits(env.pressure, pod.caches.schedules, SchedulesKey(name))
    ensures var id, d := env.db.ruleOf[s.row.id], Evaluate(cfg, env, pod, targets, out).caches;
            Admits(env.pressure, pod.caches.rules, RuleKey(id)) ==>
            Entry(d.rules, RuleKey(id)) ==
            Some(Item(RuleCopy(pod.nextRead, DecisionRule(id, env.db.rules[id])), Deadline(cfg.ttl, cfg.defaultTtl, env.now)))
  {
    var ss := Loaded(env, pod, targets);
    var groups, rules, exp := Groups(ss), NewRules(env, pod, ss, out), Expiry(cfg, env);
    var key := RuleKey(env.db.ruleOf[s.row.id]);
    if Listing(env.db, targets) == [] {
      LoadedNothing(env, pod, targets);
    }
    GroupsOk(env, pod, targets, name);
    RuleIsRead(env, pod, targets, out, s);
    ListRenewed(cfg, env, pod, targets, out, name);
    PutAllAt(pod.caches.rules, rules, exp, env.pressure, key);
    ReplaceAllAt(pod.caches.rules, rules, exp, env.pressure, key);
    if targets != [] {
      var list := Evaluate(cfg, env, pod, targets, out).caches.schedules;
      if Admits(env.pressure, pod.caches.rules, key) {
        UsedIsKept(PutAllOf(cfg, env, pod, groups, rules), SchedulesKey(name), s);
      }
    }
  }

  /** The caches of a refresh before orphaned rules are pruned. */
  ghost function PutAllOf(cfg: Config, env: Env, pod: Pod, groups: map<string, seq<Schedule>>, rules: map<string, RuleCopy>): Caches {
    var c, exp, p := pod.caches, Expiry(cfg, env), env.pressure;
    Caches(PutAll(c.schedules, ByKey(groups), exp, p), PutAll(c.rules, rules, exp, p),
           PutAll(c.versions, Versions(groups, cfg), exp, p), PutAll(c.syncs, map n | n in groups :: env.now, exp, p))
  }

  lemma UsedIsKept(c: Caches, key: string, s: Schedule)
    requires key in c.schedules && s in c.schedules[key].value && s.row.ruleId != NIL_UUID
    ensures Entry(Prune(c).rules, RuleKey(s.row.ruleId)) == Entry(c.rules, RuleKey(s.row.ruleId))
  {
    assert RuleKey(s.row.ruleId) in RuleKeysOf(c.schedules[key].value);
  }

  // --------------------------------------------------------------- the main result

  /**
   * After an evaluate that covers a placement with active rows, its list, hash and stamp are what
   * the database says, and so are the rules of its rows; only pressure may refuse a key that was
   * not live.
   */
  lemma EvaluateFillsMirror(cfg: Config, env: Env, pod: Pod, targets: seq<string>, out: Outcome, name: string)
    requires out.listOk && DbOk(env.db) && Covers(targets, name) && ActiveRows(env.db, name) != []
    ensures var c, d := pod.caches, Evaluate(cfg, env, pod, targets, out).caches;
            var rows, exp := ActiveRows(env.db, name), Deadline(cfg.ttl, cfg.defaultTtl, env.now);
            && (Admits(env.pressure, c.schedules, SchedulesKey(name)) ==>
                  && SchedulesKey(name) in d.schedules && RowsOf(d.schedules[SchedulesKey(name)].value) == rows
                  && d.schedules[SchedulesKey(name)].expires == exp)
            && (Admits(env.pressure, c.versions, name) ==>
                  Entry(d.versions, name) == Some(Item(cfg.sha(TextOfRows(rows)), exp)))
            && (Admits(env.pressure, c.syncs, name) ==> Entry(d.syncs, name) == Some(Item(env.now, exp)))
            && (out.rulesOk && Admits(env.pressure, c.schedules, SchedulesKey(name)) ==>
                  forall row | row in rows && HasRule(env.db, row.id) ::
                    var id := env.db.ruleOf[row.id];
                    Admits(env.pressure, c.rules, RuleKey(id)) ==>
                    Entry(d.rules, RuleKey(id)) == Some(Item(RuleCopy(pod.nextRead, DecisionRule(id, env.db.rules[id])), exp)))
  {
    GroupHasActiveRows(env, pod, targets, name);
    HashInputOfRows(Groups(Loaded(env, pod, targets))[name]);
    ListRenewed(cfg, env, pod, targets, out, name);
    HashRenewed(cfg, env, pod, targets, out, name);
    StampRenewed(cfg, env, pod, targets, out, name);
    if out.rulesOk && Admits(env.pressure, pod.caches.schedules, SchedulesKey(name)) {
      forall row | row in ActiveRows(env.db, name) && HasRule(env.db, row.id)
        ensures var id := env.db.ruleOf[row.id];
                Admits(env.pressure, pod.caches.rules, RuleKey(id)) ==>
                Entry(Evaluate(cfg, env, pod, targets, out).caches.rules, RuleKey(id)) ==
                Some(Item(RuleCopy(pod.nextRead, DecisionRule(id, env.db.rules[id])), Deadline(cfg.ttl, cfg.defaultTtl, env.now)))
      {
        RowsRuleRenewed(cfg, env, pod, targets, out, name, row);
      }
    }
  }

  /** The rule of an active row, whichever object was loaded for it. */
  lemma RowsRuleRenewed(cfg: Config, env: Env, pod: Pod, targets: seq<string>, out: Outcome, name: string, row: ScheduleRow)
    requires out.listOk && out.rulesOk && DbOk(env.db) && Covers(targets, name)
    requires row in ActiveRows(env.db, name) && HasRule(env.db, row.id)
    requires Admits(env.pressure, pod.caches.schedules, SchedulesKey(name))
    ensures var id, d := env.db.ruleOf[row.id], Evaluate(cfg, env, pod, targets, out).caches;
            Admits(env.pressure, pod.caches.rules, RuleKey(id)) ==>
            Entry(d.rules, RuleKey(id)) ==
            Some(Item(RuleCopy(pod.nextRead, DecisionRule(id, env.db.rules[id])), Deadline(cfg.ttl, cfg.defaultTtl, env.now)))
  {
    GroupHasActiveRows(env, pod, targets, name);
    var group := Groups(Loaded(env, pod, targets))[name];
    var i :| 0 <= i < |group| && RowsOf(group)[i] == row;
    assert group[i] in group;
    GroupsOk(env, pod, targets, name);
    LoadedHonest(env, pod, targets);
    RuleRenewed(cfg, env, pod, targets, out, name, group[i]);
  }

  // ------------------------------------------------------- placements without rows

  lemma {:induction false} ClearedTarget(cfg: Config, env: Env, c: Caches, names: seq<string>, name: string)
    requires name in names
    ensures var d := ClearTargets(c, names, cfg, env);
            && SchedulesKey(name) !in d.schedules && name !in d.versions
            && (Admits(env.pressure, c.syncs, name) ==> Entry(d.syncs, name) == Some(Item(env.now, Deadline(cfg.ttl, cfg.defaultTtl, env.now))))
            && (!Admits(env.pressure, c.syncs, name) ==> name !in d.syncs)
  {
    var init, last := names[..|names| - 1], names[|names| - 1];
    assert names == init + [last];
    KeysInvert(last);
    KeysInvert(name);
    if name in init {
      ClearedTarget(cfg, env, c, init, name);
    } else {
      ClearSparesOthers(cfg, env, c, init, name);
      assert Holds(ClearTargets(c, init, cfg, env), name) == Holds(c, name);
    }
  }

  /**
   * A full evaluate leaves no entry of a placement without active rows. A refresh that names it
   * leaves none either, but for the stamp when nothing at all is listed; unless another named
   * placement has active rows: then the old entries stay as they were.
   */
  lemma EvaluateOfInactive(cfg: Config, env: Env, pod: Pod, targets: seq<string>, out: Outcome, name: string)
    requires out.listOk && DbOk(env.db) && Covers(targets, name) && ActiveRows(env.db, name) == []
    ensures var c, d := pod.caches, Evaluate(cfg, env, pod, targets, out).caches;
            if targets != [] && Listing(env.db, targets) == [] then
              && Holds(d, name).list == None && Holds(d, name).hash == None
              && Holds(d, name).stamp ==
                 if Admits(env.pressure, c.syncs, name)
                 then Some(Item(env.now, Deadline(cfg.ttl, cfg.defaultTtl, env.now))) else None
            else if targets != [] && exists t :: t in targets && ActiveRows(env.db, t) != [] then
              Holds(d, name) == Holds(c, name)
            else Holds(d, name) == NOTHING
  {
    var groups := Groups(Loaded(env, pod, targets));
    GroupHasActiveRows(env, pod, targets, name);
    SomethingIsActive(env, pod, targets);
    if targets != [] && Listing(env.db, targets) == [] {
      ClearedTarget(cfg, env, pod.caches, targets, name);
    } else if targets == [] {
      MirrorFidelity(cfg, env, pod, out, name, "");
    } else if groups == map[] {
      UngroupedRefreshWipes(cfg, env, pod, targets, out);
      assert !exists t :: t in targets && ActiveRows(env.db, t) != [];
    } else {
      var t :| Covers(targets, t) && ActiveRows(env.db, t) != [];
      SetSparesOthers(cfg, env, pod.caches, groups, NewRules(env, pod, Loaded(env, pod, targets), out), name);
    }
  }

  // --------------------------------------------------------------- orphaned rules

  /** Some cached list has a row that refers to the rule. */
  ghost predicate Referenced(c: Caches, key: string) {
    exists k, s :: k in c.schedules && s in c.schedules[k].value && s.row.ruleId != NIL_UUID && key == RuleKey(s.row.ruleId)
  }

  lemma PruneKeepsReferenced(c: Caches, key: string)
    ensures Entry(Prune(c).rules, key) == if Referenced(c, key) then Entry(c.rules, key) else None
  {
    if Referenced(c, key) {
      var k, s :| k in c.schedules && s in c.schedules[k].value && s.row.ruleId != NIL_UUID && key == RuleKey(s.row.ruleId);
      UsedIsKept(c, k, s);
    }
    if key in UsedRuleKeys(c.schedules) {
      var k :| k in c.schedules && key in RuleKeysOf(c.schedules[k].value);
      var s :| s in c.schedules[k].value && s.row.ruleId != NIL_UUID && key == RuleKey(s.row.ruleId);
      assert Referenced(c, key);
    }
  }

  /**
   * A refresh of named placements that have active rows leaves exactly the referenced rules: the
   * ones it read and pressure admits with their new contents, the others as they were.
   */
  lemma RefreshKeepsReferencedRules(cfg: Config, env: Env, pod: Pod, targets: seq<string>, out: Outcome, key: string)
    requires out.listOk && DbOk(env.db) && targets != []
    requires exists t :: t in targets && ActiveRows(env.db, t) != []
    ensures var c, d := pod.caches, Evaluate(cfg, env, pod, targets, out).caches;
            var news := NewRules(env, pod, Loaded(env, pod, targets), out);
            Entry(d.rules, key) ==
            if !Referenced(d, key) then None
            else if key in news && Admits(env.pressure, c.rules, key)
            then Some(Item(news[key], Deadline(cfg.ttl, cfg.defaultTtl, env.now)))
            else Entry(c.rules, key)
  {
    var t :| t in targets && ActiveRows(env.db, t) != [];
    assert Covers(targets, t);
    SomethingIsActive(env, pod, targets);
    if Listing(env.db, targets) == [] {
      LoadedNothing(env, pod, targets);
    }
    var groups, news := Groups(Loaded(env, pod, targets)), NewRules(env, pod, Loaded(env, pod, targets), out);
    var unpruned := PutAllOf(cfg, env, pod, groups, news);
    PruneKeepsReferenced(unpruned, key);
    PutAllAt(pod.caches.rules, news, Expiry(cfg, env), env.pressure, key);
    assert Evaluate(cfg, env, pod, targets, out).caches == Prune(unpruned);
    assert Referenced(Prune(unpruned), key) == Referenced(unpruned, key);
  }

  // ------------------------------------------------------------- pings and pressure

  /**
   * After a ping that is acted on and names a placement and a rule, the placement has a list if
   * and only if it has active rows and there is no pressure; the list is then those rows. Under
   * pressure the invalidated list is gone and the new one is refused.
   */
  lemma PingRefills(cfg: Config, env: Env, pod: Pod, ping: Ping, out: Outcome)
    requires out.listOk && DbOk(env.db) && !Mirrored(pod.caches, ping) && ping.placement != "" && ping.ruleId != ""
    ensures var d, key := FirePing(cfg, env, pod, ping, out).caches, SchedulesKey(ping.placement);
            && (key in d.schedules <==> ActiveRows(env.db, ping.placement) != [] && !env.pressure)
            && (key in d.schedules ==> RowsOf(d.schedules[key].value) == ActiveRows(env.db, ping.placement))
  {
    var name, targets := ping.placement, [ping.placement];
    var cleared := pod.(caches := Invalidate(pod.caches, ping));
    if ActiveRows(env.db, name) != [] {
      EvaluateFillsMirror(cfg, env, cleared, targets, out, name);
      if env.pressure {
        EvaluateRefuses(cfg, env, cleared, targets, out, name);
      }
    } else {
      EvaluateOfInactive(cfg, env, cleared, targets, out, name);
      assert Holds(cleared.caches, name).list == None;
    }
  }

  /**
   * Exactly when a ping is skipped: it carries a version, and the live hash of its placement is
   * that version. It then changes nothing; any other ping that names a placement and a rule refills.
   */
  lemma PingSkippedOrRefills(cfg: Config, env: Env, pod: Pod, ping: Ping, out: Outcome)
    requires out.listOk && DbOk(env.db) && ping.placement != "" && ping.ruleId != ""
    ensures var d, key := FirePing(cfg, env, pod, ping, out), SchedulesKey(ping.placement);
            if ping.version != "" && ping.placement in pod.caches.versions && pod.caches.versions[ping.placement].value == ping.version
            then d == pod
            else
              && (key in d.caches.schedules <==> ActiveRows(env.db, ping.placement) != [] && !env.pressure)
              && (key in d.caches.schedules ==> RowsOf(d.caches.schedules[key].value) == ActiveRows(env.db, ping.placement))
  {
    if !Mirrored(pod.caches, ping) {
      PingRefills(cfg, env, pod, ping, out);
    }
  }

  /** Under pressure an evaluate brings back no list that was not live. */
  lemma EvaluateRefuses(cfg: Config, env: Env, pod: Pod, targets: seq<string>, out: Outcome, name: string)
    requires env.pressure && SchedulesKey(name) !in pod.caches.schedules
    ensures SchedulesKey(name) !in Evaluate(cfg, env, pod, targets, out).caches.schedules
  {
    var groups, exp := Groups(Loaded(env, pod, targets)), Expiry(cfg, env);
    PutAllAt(pod.caches.schedules, ByKey(groups), exp, true, SchedulesKey(name));
    ReplaceAllAt(pod.caches.schedules, ByKey(groups), exp, true, SchedulesKey(name));
    ClearTargetsShrinks(cfg, env, pod.caches, targets);
  }

  // -------------------------------------------------------------- reads that fail

  /** A failed listing changes nothing; a full evaluate whose rule read fails leaves no rule. */
  lemma FailedReads(cfg: Config, env: Env, pod: Pod, targets: seq<string>, out: Outcome)
    ensures !out.listOk ==> Evaluate(cfg, env, pod, targets, out) == pod
    ensures out.listOk && !out.rulesOk && targets == [] ==> Evaluate(cfg, env, pod, targets, out).caches.rules == map[]
  {
    if out.listOk && !out.rulesOk && targets == [] {
      forall key ensures key !in Evaluate(cfg, env, pod, targets, out).caches.rules {
        MirrorFidelity(cfg, env, pod, out, "", key);
      }
    }
  }

  /**
   * A ping that is acted on while the listing fails: with a rule it has already dropped that rule
   * and the named list, and nothing replaces them; without a rule it changes nothing.
   */
  lemma PingOnFailedListing(cfg: Config, env: Env, pod: Pod, ping: Ping, out: Outcome, name: string, key: string)
    requires !out.listOk && !Mirrored(pod.caches, ping)
    ensures var d := FirePing(cfg, env, pod, ping, out).caches;
            && Entry(d.schedules, SchedulesKey(name)) ==
               (if ping.ruleId != "" && ping.placement != "" && name == ping.placement then None
                else Entry(pod.caches.schedules, SchedulesKey(name)))
            && Entry(d.rules, key) ==
               (if ping.ruleId != "" && key == RuleKey(ping.ruleId) then None else Entry(pod.caches.rules, key))
            && d.versions == pod.caches.versions && d.syncs == pod.caches.syncs
  {
    KeysInvert(name);
    KeysInvert(ping.placement);
  }

  /** A ping without a rule keeps the named list live until it is renewed, so that pressure admits the new one. */
  lemma PingWithoutRule(cfg: Config, env: Env, pod: Pod, ping: Ping, out: Outcome)
    requires out.listOk && DbOk(env.db) && !Mirrored(pod.caches, ping) && ping.placement != "" && ping.ruleId == ""
    ensures var d, key := FirePing(cfg, env, pod, ping, out).caches, SchedulesKey(ping.placement);
            && (key in d.schedules <==>
                  ActiveRows(env.db, ping.placement) != [] && (env.pressure ==> key in pod.caches.schedules))
            && (key in d.schedules ==> RowsOf(d.schedules[key].value) == ActiveRows(env.db, ping.placement))
  {
    var name, targets := ping.placement, [ping.placement];
    if ActiveRows(env.db, name) != [] {
      EvaluateFillsMirror(cfg, env, pod, targets, out, name);
      if env.pressure && SchedulesKey(name) !in pod.caches.schedules {
        EvaluateRefuses(cfg, env, pod, targets, out, name);
      }
    } else {
      EvaluateOfInactive(cfg, env, pod, targets, out, name);
    }
  }

  /** A ping without a placement drops its rule and evaluates everything. */
  lemma PingForAll(cfg: Config, env: Env, pod: Pod, ping: Ping, out: Outcome, name: string)
    requires out.listOk && DbOk(env.db) && !Mirrored(pod.caches, ping) && ping.placement == ""
    ensures var d, key := FirePing(cfg, env, pod, ping, out).caches, SchedulesKey(name);
            && (key in d.schedules <==> ActiveRows(env.db, name) != [] && (env.pressure ==> key in pod.caches.schedules))
            && (key in d.schedules ==> RowsOf(d.schedules[key].value) == ActiveRows(env.db, name))
  {
    var cleared := pod.(caches := Invalidate(pod.caches, ping));
    if ActiveRows(env.db, name) != [] {
      EvaluateFillsMirror(cfg, env, cleared, [], out, name);
      if env.pressure && SchedulesKey(name) !in pod.caches.schedules {
        EvaluateRefuses(cfg, env, cleared, [], out, name);
      }
    } else {
      EvaluateOfInactive(cfg, env, cleared, [], out, name);
    }
  }
}

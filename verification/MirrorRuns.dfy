/**
 * Histories of one pod: ticks, pings (received, then fired after their jitter), flushes,
 * requests, expiry, pressure and database changes, in any order.
 */
module MirrorRuns {
  import opened Wrappers
  import opened MemoryCache
  import opened Mirror

  datatype World = World(env: Env, pod: Pod, pending: Option<Ping>)

  datatype Event =
    | Advance(to: Time)
    | ChangeDb(db: Db)
    | ChangePressure(pressure: bool)
    | Tick(out: Outcome)
    | FlushCache(names: seq<string>, isEvaluate: bool, out: Outcome)
    | Receive(ping: Ping, decoded: bool)
    | Fire(out: Outcome)
    | Serve(names: seq<string>, heals: seq<Outcome>, order: seq<string>, retry: Outcome, rulesOk: bool)

  /** A pod that has just started. */
  function Cold(env: Env): World {
    World(env, Pod(NO_CACHES, map[], 0, 0), None)
  }

  ghost predicate Enabled(cfg: Config, w: World, e: Event) {
    match e
    case Advance(to) => w.env.now <= to
    case Receive(_, _) => w.pending.None?
    case Fire(_) => w.pending.Some?
    case Serve(names, heals, order, _, _) =>
      && |heals| == |names|
      && var t := TakeAll(cfg, w.env, w.pod, names, heals);
         (t.Taking? ==> Walks(order, t.missed))
    case _ => true
  }

  function Expire(c: Caches, now: Time): Caches {
    Caches(Visible(c.schedules, now), Visible(c.rules, now), Visible(c.versions, now), Visible(c.syncs, now))
  }

  /** The answer to a request event. */
  function Response(cfg: Config, w: World, e: Event): Progress
    requires e.Serve? && |e.heals| == |e.names|
  {
    Request(cfg, w.env, w.pod, e.names, e.heals, e.order, e.retry, e.rulesOk)
  }

  function Step(cfg: Config, w: World, e: Event): World
    requires e.Fire? ==> w.pending.Some?
    requires e.Serve? ==> |e.heals| == |e.names|
  {
    match e
    case Advance(to) => w.(env := w.env.(now := to), pod := w.pod.(caches := Expire(w.pod.caches, to)))
    case ChangeDb(db) => w.(env := w.env.(db := db))
    case ChangePressure(p) => w.(env := w.env.(pressure := p))
    case Tick(out) => w.(pod := Evaluate(cfg, w.env, w.pod, [], out))
    case FlushCache(names, isEvaluate, out) => w.(pod := Flush(cfg, w.env, w.pod, names, isEvaluate, out))
    case Receive(ping, decoded) => if decoded && Mirrored(w.pod.caches, ping) then w else w.(pending := Some(ping))
    case Fire(out) => w.(pod := FirePing(cfg, w.env, w.pod, w.pending.value, out), pending := None)
    case Serve(_, _, _, _, _) => w.(pod := Response(cfg, w, e).pod)
  }

  /** `ws` is the history that `es` produces. */
  ghost predicate IsHistory(cfg: Config, ws: seq<World>, es: seq<Event>) {
    && |ws| == |es| + 1
    && forall i | 0 <= i < |es| :: Enabled(cfg, ws[i], es[i]) && ws[i + 1] == Step(cfg, ws[i], es[i])
  }

  // ---------------------------------------------------------------- key lookups

  lemma ByKeyAt(groups: map<string, seq<Schedule>>, name: string)
    ensures SchedulesKey(name) in ByKey(groups) <==> name in groups
    ensures name in groups ==> ByKey(groups)[SchedulesKey(name)] == groups[name]
  {
    KeysInvert(name);
    forall n | n in groups ensures TrimPrefix(SchedulesKey(n), SCHEDULES_PREFIX) == n {
      KeysInvert(n);
    }
  }

  lemma SyncStampsAt(groups: map<string, seq<Schedule>>, now: Time)
    ensures SyncStamps(ByKey(groups), now) == map n | n in groups :: now
  {
    var byKey := ByKey(groups);
    forall n | n in groups ensures SchedulesKey(n) in byKey && TrimPrefix(SchedulesKey(n), SCHEDULES_PREFIX) == n {
      ByKeyAt(groups, n);
      KeysInvert(n);
    }
    forall k | k in byKey ensures TrimPrefix(k, SCHEDULES_PREFIX) in groups {}
  }

  lemma RuleKeyInjective(a: string, b: string)
    requires RuleKey(a) == RuleKey(b)
    ensures a == b
  {
    KeysInvert(a);
    KeysInvert(b);
  }

  // --------------------------------------------------------------- the invariant

  predicate NoEarlier(a: Option<Time>, b: Option<Time>) {
    a.None? || (b.Some? && b.value <= a.value)
  }

  /**
   * A live list has a live stamp, written with it and expiring no earlier: the list was read at
   * the stamp, belongs to the placement, and any live version hash is its hash.
   */
  ghost predicate ListOk(cfg: Config, c: Caches, name: string)
    requires SchedulesKey(name) in c.schedules
  {
    var item := c.schedules[SchedulesKey(name)];
    && name in c.syncs && NoEarlier(c.syncs[name].expires, item.expires)
    && (forall s | s in item.value :: s.readAt == c.syncs[name].value && s.row.placement == Some(name))
    && (name in c.versions ==> c.versions[name].value == PlacementHash(cfg, item.value))
  }

  ghost predicate ListsOk(cfg: Config, c: Caches) {
    forall name | SchedulesKey(name) in c.schedules :: ListOk(cfg, c, name)
  }

  lemma GroupsOk(env: Env, pod: Pod, targets: seq<string>, name: string)
    requires name in Groups(Loaded(env, pod, targets))
    ensures forall s | s in Groups(Loaded(env, pod, targets))[name] ::
              s in Loaded(env, pod, targets) && s.readAt == env.now && s.row.placement == Some(name)
  {}

  lemma FullUpdateOk(cfg: Config, env: Env, pod: Pod, rules: map<string, RuleCopy>)
    requires ListsOk(cfg, pod.caches)
    ensures var groups := Groups(Loaded(env, pod, []));
            ListsOk(cfg, UpdateSchedules(pod.caches, ByKey(groups), rules, Versions(groups, cfg), cfg, env))
  {
    var groups := Groups(Loaded(env, pod, []));
    var d := UpdateSchedules(pod.caches, ByKey(groups), rules, Versions(groups, cfg), cfg, env);
    SyncStampsAt(groups, env.now);
    forall name | SchedulesKey(name) in d.schedules ensures ListOk(cfg, d, name) {
      ByKeyAt(groups, name);
      GroupsOk(env, pod, [], name);
      if SchedulesKey(name) in pod.caches.schedules {
        assert ListOk(cfg, pod.caches, name);
      }
    }
  }

  lemma WipeOk(cfg: Config, env: Env, c: Caches)
    ensures ListsOk(cfg, UpdateSchedules(c, map[], map[], map[], cfg, env))
  {}

  lemma RefreshOk(cfg: Config, env: Env, pod: Pod, targets: seq<string>, rules: map<string, RuleCopy>)
    requires ListsOk(cfg, pod.caches)
    ensures ListsOk(cfg, RefreshTargets(pod.caches, Groups(Loaded(env, pod, targets)), rules, cfg, env))
  {
    var groups := Groups(Loaded(env, pod, targets));
    var d := RefreshTargets(pod.caches, groups, rules, cfg, env);
    forall name | SchedulesKey(name) in d.schedules ensures ListOk(cfg, d, name) {
      ByKeyAt(groups, name);
      if SchedulesKey(name) in pod.caches.schedules {
        assert ListOk(cfg, pod.caches, name);
      }
      if name in groups {
        GroupsOk(env, pod, targets, name);
      }
    }
  }

  lemma ClearTargetOk(cfg: Config, env: Env, c: Caches, name: string)
    requires ListsOk(cfg, c)
    ensures ListsOk(cfg, ClearTarget(c, name, cfg, env))
  {
    var d := ClearTarget(c, name, cfg, env);
    forall n | SchedulesKey(n) in d.schedules ensures ListOk(cfg, d, n) {
      assert ListOk(cfg, c, n);
      assert n != name;
    }
  }

  lemma {:induction false} ClearTargetsOk(cfg: Config, env: Env, c: Caches, names: seq<string>)
    requires ListsOk(cfg, c)
    ensures ListsOk(cfg, ClearTargets(c, names, cfg, env))
  {
    if names != [] {
      var init := names[..|names| - 1];
      ClearTargetsOk(cfg, env, c, init);
      ClearTargetOk(cfg, env, ClearTargets(c, init, cfg, env), names[|names| - 1]);
    }
  }

  lemma EvaluateOk(cfg: Config, env: Env, pod: Pod, targets: seq<string>, out: Outcome)
    requires ListsOk(cfg, pod.caches)
    ensures ListsOk(cfg, Evaluate(cfg, env, pod, targets, out).caches)
  {
    if out.listOk {
      var ss := Loaded(env, pod, targets);
      ClearTargetsOk(cfg, env, pod.caches, targets);
      WipeOk(cfg, env, pod.caches);
      var rules := NewRules(env, pod, ss, out);
      if targets == [] {
        FullUpdateOk(cfg, env, pod, rules);
      } else {
        RefreshOk(cfg, env, pod, targets, rules);
      }
    }
  }

  /** Dropping entries, or expiring them, cannot break the invariant. */
  lemma DropOk(cfg: Config, c: Caches, d: Caches)
    requires ListsOk(cfg, c)
    requires forall k | k in d.schedules :: k in c.schedules && d.schedules[k] == c.schedules[k]
    requires forall n | n in d.versions :: n in c.versions && d.versions[n] == c.versions[n]
    requires forall n | n in c.syncs && SchedulesKey(n) in d.schedules :: n in d.syncs && d.syncs[n] == c.syncs[n]
    ensures ListsOk(cfg, d)
  {
    forall n | SchedulesKey(n) in d.schedules ensures ListOk(cfg, d, n) {
      assert ListOk(cfg, c, n);
    }
  }

  lemma ExpireOk(cfg: Config, c: Caches, now: Time)
    requires ListsOk(cfg, c)
    ensures ListsOk(cfg, Expire(c, now))
  {
    forall n | n in c.syncs && SchedulesKey(n) in Expire(c, now).schedules ensures n in Expire(c, now).syncs {
      assert ListOk(cfg, c, n);
    }
    DropOk(cfg, c, Expire(c, now));
  }

  lemma {:induction false} FlushNamesOk(cfg: Config, c: Caches, attached: map<nat, RuleCopy>, names: seq<string>)
    requires ListsOk(cfg, c)
    ensures ListsOk(cfg, FlushNames(c, attached, names))
  {
    if names != [] {
      var init, name := names[..|names| - 1], names[|names| - 1];
      FlushNamesOk(cfg, c, attached, init);
      var d := FlushNames(c, attached, init);
      DropOk(cfg, d, FlushOne(d, attached, name));
    }
  }

  lemma FlushOk(cfg: Config, env: Env, pod: Pod, names: seq<string>, isEvaluate: bool, out: Outcome)
    requires ListsOk(cfg, pod.caches)
    ensures ListsOk(cfg, Flush(cfg, env, pod, names, isEvaluate, out).caches)
  {
    FlushNamesOk(cfg, pod.caches, pod.attached, names);
    var flushed := pod.(caches := if names == [] then NO_CACHES else FlushNames(pod.caches, pod.attached, names));
    EvaluateOk(cfg, env, flushed, [], out);
  }

  lemma FirePingOk(cfg: Config, env: Env, pod: Pod, ping: Ping, out: Outcome)
    requires ListsOk(cfg, pod.caches)
    ensures ListsOk(cfg, FirePing(cfg, env, pod, ping, out).caches)
  {
    DropOk(cfg, pod.caches, Invalidate(pod.caches, ping));
    EvaluateOk(cfg, env, pod.(caches := Invalidate(pod.caches, ping)),
               if ping.placement == "" then [] else [ping.placement], out);
  }

  // -------------------------------------------------------------------- requests

  /** Every taken schedule was read within the staleness threshold. */
  ghost predicate Recent(cfg: Config, env: Env, ss: seq<Schedule>) {
    forall s | s in ss :: env.now - s.readAt <= Threshold(cfg)
  }

  /** The list under a placement after an update: the group just loaded. */
  lemma UpdateRenews(c: Caches, groups: map<string, seq<Schedule>>, rules: map<string, RuleCopy>, cfg: Config, env: Env,
                     name: string)
    ensures var d := UpdateSchedules(c, ByKey(groups), rules, Versions(groups, cfg), cfg, env);
            SchedulesKey(name) in d.schedules ==>
              name in groups && d.schedules[SchedulesKey(name)].value == groups[name]
  {
    ByKeyAt(groups, name);
  }

  /** After a targeted refresh: the group just loaded, or the list as it was. */
  lemma RefreshRenews(c: Caches, groups: map<string, seq<Schedule>>, rules: map<string, RuleCopy>, cfg: Config, env: Env,
                      name: string)
    ensures var d := RefreshTargets(c, groups, rules, cfg, env);
            SchedulesKey(name) in d.schedules ==>
              if name in groups then d.schedules[SchedulesKey(name)].value == groups[name]
              else SchedulesKey(name) in c.schedules && d.schedules[SchedulesKey(name)] == c.schedules[SchedulesKey(name)]
  {
    ByKeyAt(groups, name);
  }

  /** An evaluate leaves a placement's list alone, drops it, or replaces it by one read now. */
  lemma EvaluateRenews(cfg: Config, env: Env, pod: Pod, targets: seq<string>, out: Outcome, name: string)
    ensures var d := Evaluate(cfg, env, pod, targets, out);
            SchedulesKey(name) in d.caches.schedules ==>
              || (SchedulesKey(name) in pod.caches.schedules
                  && d.caches.schedules[SchedulesKey(name)] == pod.caches.schedules[SchedulesKey(name)])
              || (name in Groups(Loaded(env, pod, targets))
                  && d.caches.schedules[SchedulesKey(name)].value == Groups(Loaded(env, pod, targets))[name]
                  && d.nextOid == pod.nextOid + |Loaded(env, pod, targets)|)
  {
    if out.listOk {
      var ss := Loaded(env, pod, targets);
      var groups, rules := Groups(ss), NewRules(env, pod, ss, out);
      ClearTargetsShrinks(cfg, env, pod.caches, targets);
      if targets == [] {
        UpdateRenews(pod.caches, groups, rules, cfg, env, name);
      } else {
        RefreshRenews(pod.caches, groups, rules, cfg, env, name);
      }
    }
  }

  lemma {:induction false} ClearTargetsShrinks(cfg: Config, env: Env, c: Caches, names: seq<string>)
    ensures var d := ClearTargets(c, names, cfg, env);
            && (forall k | k in d.schedules :: k in c.schedules && d.schedules[k] == c.schedules[k])
            && (forall n | n in names :: SchedulesKey(n) !in d.schedules)
            && d.rules == c.rules
  {
    if names != [] {
      ClearTargetsShrinks(cfg, env, c, names[..|names| - 1]);
      assert names == names[..|names| - 1] + [names[|names| - 1]];
    }
  }

  lemma UpdateRules(c: Caches, schedules: map<string, seq<Schedule>>, rules: map<string, RuleCopy>,
                    versions: map<string, string>, cfg: Config, env: Env)
    ensures forall k | k in UpdateSchedules(c, schedules, rules, versions, cfg, env).rules ::
              k in rules && UpdateSchedules(c, schedules, rules, versions, cfg, env).rules[k].value == rules[k]
  {}

  lemma RefreshRules(c: Caches, groups: map<string, seq<Schedule>>, rules: map<string, RuleCopy>, cfg: Config, env: Env)
    ensures forall k | k in RefreshTargets(c, groups, rules, cfg, env).rules ::
              var item := RefreshTargets(c, groups, rules, cfg, env).rules[k];
              if k in rules then item.value == rules[k] else k in c.rules && item == c.rules[k]
  {}

  /** A rule cached after an evaluate was cached before it, or was read by it. */
  lemma RulesAfterEvaluate(cfg: Config, env: Env, pod: Pod, targets: seq<string>, out: Outcome)
    ensures var d := Evaluate(cfg, env, pod, targets, out);
            && d.attached == pod.attached && pod.nextOid <= d.nextOid && pod.nextRead <= d.nextRead
            && forall k | k in d.caches.rules ::
                 || (k in pod.caches.rules && d.caches.rules[k] == pod.caches.rules[k])
                 || (var read := NewRules(env, pod, Loaded(env, pod, targets), out);
                     k in read && d.caches.rules[k].value == read[k] && pod.nextRead < d.nextRead)
  {
    if out.listOk {
      var ss := Loaded(env, pod, targets);
      var groups, rules := Groups(ss), NewRules(env, pod, ss, out);
      if targets != [] && Listing(env.db, targets) == [] {
        ClearTargetsShrinks(cfg, env, pod.caches, targets);
      } else if groups == map[] {
        UpdateRules(pod.caches, map[], map[], map[], cfg, env);
      } else if targets == [] {
        UpdateRules(pod.caches, ByKey(groups), rules, Versions(groups, cfg), cfg, env);
      } else {
        RefreshRules(pod.caches, groups, rules, cfg, env);
      }
    }
  }

  /** What holds of a request between two placements. */
  ghost predicate TakingOk(cfg: Config, env: Env, t: Progress) {
    && ListsOk(cfg, t.pod.caches)
    && (t.Taking? ==>
          && Recent(cfg, env, t.got)
          && forall n, s | n in t.missed && SchedulesKey(n) in t.pod.caches.schedules
                           && s in t.pod.caches.schedules[SchedulesKey(n)].value :: s.readAt == env.now)
  }

  lemma RenewedOk(cfg: Config, env: Env, pod: Pod, missed: set<string>, out: Outcome)
    requires forall n, s | n in missed && SchedulesKey(n) in pod.caches.schedules
                           && s in pod.caches.schedules[SchedulesKey(n)].value :: s.readAt == env.now
    ensures var d := Evaluate(cfg, env, pod, [], out).caches;
            forall n, s | n in missed && SchedulesKey(n) in d.schedules
                          && s in d.schedules[SchedulesKey(n)].value :: s.readAt == env.now
  {
    var d := Evaluate(cfg, env, pod, [], out).caches;
    forall n, s | n in missed && SchedulesKey(n) in d.schedules && s in d.schedules[SchedulesKey(n)].value
      ensures s.readAt == env.now
    {
      EvaluateRenews(cfg, env, pod, [], out, n);
      if n in Groups(Loaded(env, pod, [])) {
        GroupsOk(env, pod, [], n);
      }
    }
  }

  lemma TakeOneOk(cfg: Config, env: Env, t: Progress, name: string, heal: Outcome)
    requires TakingOk(cfg, env, t)
    ensures TakingOk(cfg, env, TakeOne(cfg, env, t, name, heal))
  {
    if t.Taking? {
      EvaluateOk(cfg, env, t.pod, [], heal);
      RenewedOk(cfg, env, t.pod, t.missed, heal);
      var u := TakeOne(cfg, env, t, name, heal);
      if SchedulesKey(name) in u.pod.caches.schedules {
        assert ListOk(cfg, u.pod.caches, name);
      }
    }
  }

  lemma {:induction false} TakeAllOk(cfg: Config, env: Env, pod: Pod, names: seq<string>, heals: seq<Outcome>)
    requires |heals| == |names| && ListsOk(cfg, pod.caches)
    ensures TakingOk(cfg, env, TakeAll(cfg, env, pod, names, heals))
  {
    if names != [] {
      var n := |names| - 1;
      TakeAllOk(cfg, env, pod, names[..n], heals[..n]);
      TakeOneOk(cfg, env, TakeAll(cfg, env, pod, names[..n], heals[..n]), names[n], heals[n]);
    }
  }

  lemma {:induction false} CollectFrom(c: Caches, order: seq<string>)
    ensures forall s | s in Collect(c, order) ::
              exists n | n in order :: SchedulesKey(n) in c.schedules && s in c.schedules[SchedulesKey(n)].value
  {
    if order != [] {
      var init, last := order[..|order| - 1], order[|order| - 1];
      CollectFrom(c, init);
      assert order == init + [last];
      forall s | s in Collect(c, order)
        ensures exists n | n in order :: SchedulesKey(n) in c.schedules && s in c.schedules[SchedulesKey(n)].value
      {
        if s in Collect(c, init) {
          var n :| n in init && SchedulesKey(n) in c.schedules && s in c.schedules[SchedulesKey(n)].value;
          assert n in order;
        } else {
          assert last in order;
        }
      }
    }
  }

  lemma RetryOk(cfg: Config, env: Env, t: Progress, order: seq<string>, retry: Outcome)
    requires t.Taking? && TakingOk(cfg, env, t) && Walks(order, t.missed)
    ensures TakingOk(cfg, env, Retry(cfg, env, t, order, retry))
  {
    if t.missed != {} {
      EvaluateOk(cfg, env, t.pod, [], retry);
      RenewedOk(cfg, env, t.pod, t.missed, retry);
      CollectFrom(Evaluate(cfg, env, t.pod, [], retry).caches, order);
    }
  }

  /** A request keeps the invariant, and everything it serves is recent. */
  lemma RequestOk(cfg: Config, env: Env, pod: Pod, names: seq<string>, heals: seq<Outcome>, order: seq<string>,
                  retry: Outcome, rulesOk: bool)
    requires |heals| == |names| && ListsOk(cfg, pod.caches)
    requires var t := TakeAll(cfg, env, pod, names, heals); t.Taking? ==> Walks(order, t.missed)
    ensures var r := Request(cfg, env, pod, names, heals, order, retry, rulesOk);
            ListsOk(cfg, r.pod.caches) && (r.Taking? ==> Recent(cfg, env, r.got))
  {
    TakeAllOk(cfg, env, pod, names, heals);
    var t := TakeAll(cfg, env, pod, names, heals);
    if t.Taking? {
      RetryOk(cfg, env, t, order, retry);
      var u := Retry(cfg, env, t, order, retry);
      DropOk(cfg, u.pod.caches, AttachRules(cfg, env, u.pod, u.got, rulesOk).caches);
    }
  }

  // ------------------------------------------------------- theorems over histories

  lemma StepOk(cfg: Config, w: World, e: Event)
    requires Enabled(cfg, w, e) && ListsOk(cfg, w.pod.caches)
    ensures ListsOk(cfg, Step(cfg, w, e).pod.caches)
  {
    match e
    case Advance(to) => ExpireOk(cfg, w.pod.caches, to);
    case ChangeDb(_) =>
    case ChangePressure(_) =>
    case Tick(out) => EvaluateOk(cfg, w.env, w.pod, [], out);
    case FlushCache(names, isEvaluate, out) => FlushOk(cfg, w.env, w.pod, names, isEvaluate, out);
    case Receive(_, _) =>
    case Fire(out) => FirePingOk(cfg, w.env, w.pod, w.pending.value, out);
    case Serve(names, heals, order, retry, rulesOk) =>
      RequestOk(cfg, w.env, w.pod, names, heals, order, retry, rulesOk);
  }

  lemma {:induction false} HistoryOk(cfg: Config, ws: seq<World>, es: seq<Event>, env: Env, i: nat)
    requires IsHistory(cfg, ws, es) && ws[0] == Cold(env) && i <= |es|
    ensures ListsOk(cfg, ws[i].pod.caches)
  {
    if i > 0 {
      HistoryOk(cfg, ws, es, env, i - 1);
      StepOk(cfg, ws[i - 1], es[i - 1]);
    }
  }

  /**
   * Bounded staleness. In every history from a cold start, whatever expires, fails or is
   * rejected on the way, a request that is not refused serves only rows read from the database
   * at most the staleness threshold ago.
   */
  lemma BoundedStaleness(cfg: Config, ws: seq<World>, es: seq<Event>, env: Env, i: nat)
    requires IsHistory(cfg, ws, es) && ws[0] == Cold(env) && i < |es| && es[i].Serve?
    ensures var r := Response(cfg, ws[i], es[i]);
            r.Taking? ==> forall s | s in r.got :: ws[i].env.now - s.readAt <= Threshold(cfg)
  {
    HistoryOk(cfg, ws, es, env, i);
    var e := es[i];
    RequestOk(cfg, ws[i].env, ws[i].pod, e.names, e.heals, e.order, e.retry, e.rulesOk);
  }

  /** Version agreement, in every reachable state: a live hash is the hash of the live list. */
  lemma VersionAgreement(cfg: Config, ws: seq<World>, es: seq<Event>, env: Env, i: nat, name: string)
    requires IsHistory(cfg, ws, es) && ws[0] == Cold(env) && i <= |es|
    ensures var c := ws[i].pod.caches;
            name in c.versions && SchedulesKey(name) in c.schedules ==>
              c.versions[name].value == PlacementHash(cfg, c.schedules[SchedulesKey(name)].value)
  {
    HistoryOk(cfg, ws, es, env, i);
    var c := ws[i].pod.caches;
    if SchedulesKey(name) in c.schedules {
      assert ListOk(cfg, c, name);
    }
  }

  /** What the version hash is meant to tell apart: IDs and update times, in order. */
  function Fingerprint(ss: seq<Schedule>): seq<(string, string)> {
    seq(|ss|, i requires 0 <= i < |ss| => (ss[i].row.id, ss[i].row.updatedAt))
  }

  /** IDs are UUID texts, and no update time's text starts another's (they end in their zone). */
  ghost predicate Readable(ss: seq<Schedule>) {
    && (forall s | s in ss :: |s.row.id| == 36)
    && (forall s, u | s in ss && u in ss && s.row.updatedAt <= u.row.updatedAt :: s.row.updatedAt == u.row.updatedAt)
  }

  lemma {:induction false} HashInputCons(ss: seq<Schedule>)
    requires ss != []
    ensures HashInput(ss) == ss[0].row.id + (ss[0].row.updatedAt + HashInput(ss[1..]))
  {
    var n := |ss| - 1;
    if n > 0 {
      HashInputCons(ss[..n]);
      assert ss[1..][..n - 1] == ss[..n][1..];
    }
  }

  lemma PrefixesAgree(u: string, v: string, r: string, s: string)
    requires u + r == v + s && |u| <= |v|
    ensures u <= v
  {
    assert (u + r)[..|u|] == u && (v + s)[..|u|] == v[..|u|];
  }

  /** The concatenation the hash is taken of can be read back. */
  lemma {:induction false} HashInputDecodes(a: seq<Schedule>, b: seq<Schedule>)
    requires Readable(a + b) && HashInput(a) == HashInput(b)
    ensures Fingerprint(a) == Fingerprint(b)
  {
    if a != [] {
      HashInputCons(a);
      assert a[0] in a + b;
    }
    if b != [] {
      HashInputCons(b);
      assert b[0] in a + b;
    }
    if a != [] && b != [] {
      HeadsDecode(a[0].row, b[0].row, HashInput(a[1..]), HashInput(b[1..]));
      assert forall s | s in a[1..] + b[1..] :: s in a + b;
      HashInputDecodes(a[1..], b[1..]);
      FingerprintCons(a);
      FingerprintCons(b);
    }
  }

  lemma FingerprintCons(ss: seq<Schedule>)
    requires ss != []
    ensures Fingerprint(ss) == [(ss[0].row.id, ss[0].row.updatedAt)] + Fingerprint(ss[1..])
  {}

  lemma HeadsDecode(a: ScheduleRow, b: ScheduleRow, r: string, s: string)
    requires |a.id| == |b.id| && a.id + (a.updatedAt + r) == b.id + (b.updatedAt + s)
    requires a.updatedAt <= b.updatedAt || b.updatedAt <= a.updatedAt ==> a.updatedAt == b.updatedAt
    ensures a.id == b.id && a.updatedAt == b.updatedAt && r == s
  {
    var x, y := a.updatedAt + r, b.updatedAt + s;
    assert (a.id + x)[..|a.id|] == a.id && (b.id + y)[..|b.id|] == b.id;
    assert (a.id + x)[|a.id|..] == x && (b.id + y)[|b.id|..] == y;
    if |a.updatedAt| <= |b.updatedAt| {
      PrefixesAgree(a.updatedAt, b.updatedAt, r, s);
    } else {
      PrefixesAgree(b.updatedAt, a.updatedAt, s, r);
    }
    assert x[|a.updatedAt|..] == r && y[|b.updatedAt|..] == s;
  }

  /**
   * A ping skipped because its version is already mirrored leaves no list of another version:
   * when the publisher's hash is that of `published`, the hash is collision-free and the texts
   * can be told apart, the cached list has the very IDs and update times of `published`.
   */
  lemma SkippedPingIsHarmless(cfg: Config, ws: seq<World>, es: seq<Event>, env: Env, i: nat, ping: Ping,
                              published: seq<Schedule>)
    requires IsHistory(cfg, ws, es) && ws[0] == Cold(env) && i <= |es|
    requires forall a, b | cfg.sha(a) == cfg.sha(b) :: a == b
    requires Mirrored(ws[i].pod.caches, ping) && ping.version == PlacementHash(cfg, published)
    requires SchedulesKey(ping.placement) in ws[i].pod.caches.schedules
    requires Readable(ws[i].pod.caches.schedules[SchedulesKey(ping.placement)].value + published)
    ensures Fingerprint(ws[i].pod.caches.schedules[SchedulesKey(ping.placement)].value) == Fingerprint(published)
  {
    VersionAgreement(cfg, ws, es, env, i, ping.placement);
    HashInputDecodes(ws[i].pod.caches.schedules[SchedulesKey(ping.placement)].value, published);
  }

  // ------------------------------------------------------------ mirror fidelity

  lemma UpdateFidelity(cfg: Config, env: Env, c: Caches, groups: map<string, seq<Schedule>>, rules: map<string, RuleCopy>,
                       name: string, key: string)
    ensures var d := UpdateSchedules(c, ByKey(groups), rules, Versions(groups, cfg), cfg, env);
            && Lookup(d.schedules, SchedulesKey(name)) ==
               Admitted(groups, name, env.pressure ==> SchedulesKey(name) in c.schedules)
            && Lookup(d.syncs, name) ==
               Admitted(map n | n in groups :: env.now, name, env.pressure ==> name in c.syncs)
            && Lookup(d.versions, name) == Admitted(Versions(groups, cfg), name, env.pressure ==> name in c.versions)
            && Lookup(d.rules, key) == Admitted(rules, key, env.pressure ==> key in c.rules)
  {
    ByKeyAt(groups, name);
    SyncStampsAt(groups, env.now);
    var exp := Expiry(cfg, env);
    ReplacedAt(c.schedules, ByKey(groups), exp, env.pressure, SchedulesKey(name));
    ReplacedAt(c.syncs, SyncStamps(ByKey(groups), env.now), exp, env.pressure, name);
    ReplacedAt(c.versions, Versions(groups, cfg), exp, env.pressure, name);
    ReplacedAt(c.rules, rules, exp, env.pressure, key);
  }

  lemma ReplacedAt<V>(s: Store<V>, news: map<string, V>, exp: Option<Time>, pressure: bool, key: string)
    ensures Lookup(ReplaceAll(s, news, exp, pressure), key) == Admitted(news, key, pressure ==> key in s)
  {}

  /** The new value of a key, when the cache admits it. */
  function Admitted<V>(news: map<string, V>, key: string, admitted: bool): Option<V> {
    if key in news && admitted then Some(news[key]) else None
  }

  /**
   * After a full evaluate with a successful listing nothing old survives in any cache: each holds
   * exactly the new keys, or under pressure those of them that were live, with the new values.
   */
  lemma MirrorFidelity(cfg: Config, env: Env, pod: Pod, out: Outcome, name: string, key: string)
    requires out.listOk
    ensures var c, d := pod.caches, Evaluate(cfg, env, pod, [], out).caches;
            var groups := Groups(Loaded(env, pod, []));
            var rules := if groups == map[] then map[] else NewRules(env, pod, Loaded(env, pod, []), out);
            && Lookup(d.schedules, SchedulesKey(name)) ==
               Admitted(groups, name, env.pressure ==> SchedulesKey(name) in c.schedules)
            && Lookup(d.syncs, name) ==
               Admitted(map n | n in groups :: env.now, name, env.pressure ==> name in c.syncs)
            && Lookup(d.versions, name) == Admitted(Versions(groups, cfg), name, env.pressure ==> name in c.versions)
            && Lookup(d.rules, key) == Admitted(rules, key, env.pressure ==> key in c.rules)
  {
    var groups := Groups(Loaded(env, pod, []));
    var rules := if groups == map[] then map[] else NewRules(env, pod, Loaded(env, pod, []), out);
    UpdateFidelity(cfg, env, pod.caches, groups, rules, name, key);
    if groups == map[] {
      assert ByKey(groups) == map[] && Versions(groups, cfg) == map[];
    }
  }
}

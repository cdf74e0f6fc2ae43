/**
 * What a refresh of named placements does to the others: exactly when it leaves them alone, and
 * exactly when the ping behind it frees them of older copies of the rule it names.
 */
module MirrorTargets {
  import opened Wrappers
  import opened Sequences
  import opened MemoryCache
  import opened Mirror
  import opened MirrorRuns
  import opened MirrorFreshness
  import opened MirrorTransparency

  /** A placement's cached list, version hash and sync stamp, with their expiry. */
  datatype Holding = Holding(list: Option<Item<seq<Schedule>>>, hash: Option<Item<string>>, stamp: Option<Item<Time>>)

  const NOTHING := Holding(None, None, None)

  function Entry<V>(s: Store<V>, key: string): Option<Item<V>> {
    if key in s then Some(s[key]) else None
  }

  function Holds(c: Caches, name: string): Holding {
    Holding(Entry(c.schedules, SchedulesKey(name)), Entry(c.versions, name), Entry(c.syncs, name))
  }

  lemma {:induction false} ClearSparesOthers(cfg: Config, env: Env, c: Caches, names: seq<string>, other: string)
    requires other !in names
    ensures Holds(ClearTargets(c, names, cfg, env), other) == Holds(c, other)
  {
    if names != [] {
      var init, last := names[..|names| - 1], names[|names| - 1];
      assert names == init + [last];
      ClearSparesOthers(cfg, env, c, init, other);
      KeysInvert(last);
      KeysInvert(other);
    }
  }

  lemma SetSparesOthers(cfg: Config, env: Env, c: Caches, groups: map<string, seq<Schedule>>, rules: map<string, RuleCopy>,
                        other: string)
    requires other !in groups
    ensures Holds(RefreshTargets(c, groups, rules, cfg, env), other) == Holds(c, other)
  {
    ByKeyAt(groups, other);
  }

  /** A refresh that yields no group empties the whole mirror. */
  lemma UngroupedRefreshWipes(cfg: Config, env: Env, pod: Pod, targets: seq<string>, out: Outcome)
    requires out.listOk && targets != [] && Listing(env.db, targets) != []
    requires Groups(Loaded(env, pod, targets)) == map[]
    ensures Evaluate(cfg, env, pod, targets, out).caches == NO_CACHES
  {}

  /** No listed occurrence has a loaded schedule with a placement name: the database's side of "no group". */
  lemma NamelessListingHasNoGroup(env: Env, pod: Pod, targets: seq<string>)
    requires forall o | o in Listing(env.db, targets) && o.schedule.Some? :: o.schedule.value.placement.GetOr("") == ""
    ensures Groups(Loaded(env, pod, targets)) == map[]
  {
    forall s | s in Loaded(env, pod, targets) ensures !Placed(s) {
      var o := LoadedFrom(env, pod, targets, s);
    }
    assert Groups(Loaded(env, pod, targets)).Keys == {};
  }

  /**
   * A refresh of named placements leaves another placement's list, hash and stamp as they were if
   * and only if the listing fails, is empty or yields a group, or there was nothing to leave.
   */
  lemma RefreshSparesOthers(cfg: Config, env: Env, pod: Pod, targets: seq<string>, out: Outcome, other: string)
    requires DbOk(env.db) && targets != [] && other !in targets
    ensures Holds(Evaluate(cfg, env, pod, targets, out).caches, other) == Holds(pod.caches, other) <==>
            || !out.listOk || Listing(env.db, targets) == [] || Groups(Loaded(env, pod, targets)) != map[]
            || Holds(pod.caches, other) == NOTHING
  {
    var groups := Groups(Loaded(env, pod, targets));
    if other in groups {
      GroupIsTarget(env, pod, targets, other);
    }
    if out.listOk {
      if Listing(env.db, targets) == [] {
        ClearSparesOthers(cfg, env, pod.caches, targets, other);
      } else if groups == map[] {
        UngroupedRefreshWipes(cfg, env, pod, targets, out);
      } else {
        SetSparesOthers(cfg, env, pod.caches, groups, NewRules(env, pod, Loaded(env, pod, targets), out), other);
      }
    }
  }

  // ------------------------------------------------- a ping and the other placements

  /** The refresh behind a ping lists something, but no group. */
  ghost predicate Wipes(env: Env, pod: Pod, targets: seq<string>, out: Outcome) {
    out.listOk && Listing(env.db, targets) != [] && Groups(Loaded(env, pod, targets)) == map[]
  }

  /** Some object of the cached list of `name` has rule `r` attached. */
  ghost predicate Carries(pod: Pod, name: string, r: string) {
    SchedulesKey(name) in pod.caches.schedules
    && exists s | s in pod.caches.schedules[SchedulesKey(name)].value :: s.oid in pod.attached && pod.attached[s.oid].rule.id == r
  }

  /** Copies attached so far are older than the next read. */
  lemma CarriedIsOlder(pod: Pod, name: string, r: string)
    requires Tagged(pod) && SchedulesKey(name) in pod.caches.schedules
    ensures NoOlderCopy(pod.attached, pod.caches.schedules[SchedulesKey(name)].value, r, pod.nextRead) <==> !Carries(pod, name, r)
  {}

  /** What the refresh behind a ping does to another placement's list. */
  lemma PingSparesOthers(cfg: Config, env: Env, pod: Pod, ping: Ping, out: Outcome, other: string)
    requires DbOk(env.db) && !Mirrored(pod.caches, ping) && ping.placement != "" && other != ping.placement
    ensures var after := FirePing(cfg, env, pod, ping, out).caches;
            Entry(after.schedules, SchedulesKey(other)) ==
            if Wipes(env, pod, [ping.placement], out) then None else Entry(pod.caches.schedules, SchedulesKey(other))
  {
    var cleared := pod.(caches := Invalidate(pod.caches, ping));
    KeysInvert(ping.placement);
    KeysInvert(other);
    RefreshSparesOthers(cfg, env, cleared, [ping.placement], out, other);
    if Wipes(env, pod, [ping.placement], out) {
      UngroupedRefreshWipes(cfg, env, cleared, [ping.placement], out);
    }
  }

  /**
   * Exactly when a ping acted on also frees another placement `other` of older copies of the rule:
   * no object of its cached list had the rule attached, or the ping's refresh emptied the mirror.
   */
  lemma PingFreshensOthers(cfg: Config, ws: seq<World>, es: seq<Event>, env: Env, i: nat, ping: Ping, other: string)
    requires IsHistory(cfg, ws, es) && ws[0] == Cold(env) && ActsOn(ws, es, i, ping)
    requires DbOk(ws[i].env.db) && other != ping.placement
    ensures var before, after := ws[i].pod, ws[i + 1].pod;
            Fresh(after, other, ping.ruleId, before.nextRead) <==>
            !Carries(before, other, ping.ruleId) || Wipes(ws[i].env, before, [ping.placement], es[i].out)
  {
    var w, before := ws[i], ws[i].pod;
    HistoryTagged(cfg, ws, es, env, i);
    PingLeavesOnlyNew(cfg, ws, es, env, i, ping);
    PingSparesOthers(cfg, w.env, before, ping, es[i].out, other);
    RuleTagsAfterEvaluate(cfg, w.env, before.(caches := Invalidate(before.caches, ping)), [ping.placement], es[i].out);
    if SchedulesKey(other) in before.caches.schedules {
      CarriedIsOlder(before, other, ping.ruleId);
    }
  }

  lemma {:induction false} MissedLackRules(attached: map<nat, RuleCopy>, rules: Store<RuleCopy>, ss: seq<Schedule>)
    ensures forall id | id in MissedRules(attached, rules, ss) :: exists s | s in ss :: s.row.id == id && s.oid !in attached
    ensures forall o | o in attached :: o in AttachCached(attached, rules, ss) && AttachCached(attached, rules, ss)[o] == attached[o]
  {
    if ss != [] {
      var init, last := ss[..|ss| - 1], ss[|ss| - 1];
      MissedLackRules(attached, rules, init);
      assert last in ss && forall s | s in init :: s in ss;
    }
  }

  lemma {:induction false} FetchedElsewhere(attached: map<nat, RuleCopy>, fetched: map<string, RuleCopy>, ss: seq<Schedule>, oid: nat)
    requires oid in attached && forall s | s in ss && s.oid == oid :: s.row.id !in fetched
    ensures var a := AttachFetched(attached, fetched, ss); oid in a && a[oid] == attached[oid]
  {
    if ss != [] {
      assert ss[|ss| - 1] in ss;
      FetchedElsewhere(attached, fetched, ss[..|ss| - 1], oid);
    }
  }

  /**
   * What hangs on an object is served: a request for a live placement hands over the very copy an
   * object of its list carries, when no object of that list lacks a rule for the same row.
   */
  lemma CarriedCopyIsServed(cfg: Config, env: Env, pod: Pod, name: string, heals: seq<Outcome>, order: seq<string>,
                            retry: Outcome, rulesOk: bool, s: Schedule)
    requires |heals| == 1 && ListsOk(cfg, pod.caches) && SchedulesKey(name) in pod.caches.schedules
    requires !StaleAt(cfg, env, pod.caches, name)
    requires var ss := pod.caches.schedules[SchedulesKey(name)].value;
             s in ss && forall u | u in ss && (u.oid == s.oid || u.row.id == s.row.id) :: u.row.id == s.row.id && u.oid in pod.attached
    ensures var u := Request(cfg, env, pod, [name], heals, order, retry, rulesOk);
            u.Taking? && (s.row, pod.attached[s.oid]) in Handed(u, name)
  {
    var ss := pod.caches.schedules[SchedulesKey(name)].value;
    assert TakeAll(cfg, env, pod, [name][..0], heals[..0]) == Taking(pod, [], {});
    assert TakeAll(cfg, env, pod, [name], heals) == Taking(pod, ss, {});
    AttachKeeps(cfg, env, pod, ss, rulesOk, s);
    assert ListOk(cfg, pod.caches, name);
    HandedHolds(Request(cfg, env, pod, [name], heals, order, retry, rulesOk), name, s);
  }

  lemma AttachKeeps(cfg: Config, env: Env, pod: Pod, ss: seq<Schedule>, rulesOk: bool, s: Schedule)
    requires s in ss
    requires forall u | u in ss && (u.oid == s.oid || u.row.id == s.row.id) :: u.row.id == s.row.id && u.oid in pod.attached
    ensures var a := AttachRules(cfg, env, pod, ss, rulesOk).attached; s.oid in a && a[s.oid] == pod.attached[s.oid]
  {
    MissedLackRules(pod.attached, pod.caches.rules, ss);
    var attached := AttachCached(pod.attached, pod.caches.rules, ss);
    var missed := MissedRules(pod.attached, pod.caches.rules, ss);
    FetchedElsewhere(attached, FetchRules(env.db, missed, pod.nextRead), ss, s.oid);
  }

  /** A taken object of the placement with a rule is handed over. */
  lemma HandedHolds(u: Progress, name: string, s: Schedule)
    requires u.Taking? && s in u.got && s.row.placement == Some(name) && s.oid in u.pod.attached
    ensures (s.row, u.pod.attached[s.oid]) in Handed(u, name)
  {
    var ss := Filter(HasRuleAt(name, u.pod.attached), u.got);
    assert s in ss;
    var k :| 0 <= k < |ss| && ss[k] == s;
    assert Handed(u, name)[k] == (s.row, u.pod.attached[s.oid]);
  }
}

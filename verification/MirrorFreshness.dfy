/**
 * Activation freshness: once a ping that names a placement and a rule has been acted on, no
 * request ever again evaluates that placement with a copy of the rule read before the ping.
 */
module MirrorFreshness {
  import opened Wrappers
  import opened Sequences
  import opened MemoryCache
  import opened Mirror
  import opened MirrorRuns

  /** Allocation discipline: rules sit under their own key, and numbers were handed out already. */
  ghost predicate Tagged(pod: Pod) {
    && (forall k | k in pod.caches.rules ::
          k == RuleKey(pod.caches.rules[k].value.rule.id) && pod.caches.rules[k].value.readNo < pod.nextRead)
    && (forall name, s | SchedulesKey(name) in pod.caches.schedules
                         && s in pod.caches.schedules[SchedulesKey(name)].value :: s.oid < pod.nextOid)
    && (forall o | o in pod.attached :: o < pod.nextOid && pod.attached[o].readNo < pod.nextRead)
  }

  /** No copy of rule `r` older than read `n` is cached, or attached to an object in `ss`. */
  ghost predicate NoOlderCopy(attached: map<nat, RuleCopy>, ss: seq<Schedule>, r: string, n: nat) {
    forall s | s in ss && s.oid in attached && attached[s.oid].rule.id == r :: n <= attached[s.oid].readNo
  }

  ghost predicate Fresh(pod: Pod, p: string, r: string, n: nat) {
    && n <= pod.nextRead
    && (RuleKey(r) in pod.caches.rules ==> n <= pod.caches.rules[RuleKey(r)].value.readNo)
    && (SchedulesKey(p) in pod.caches.schedules ==>
          NoOlderCopy(pod.attached, pod.caches.schedules[SchedulesKey(p)].value, r, n))
  }

  // ------------------------------------------------------------------- evaluate

  lemma NewRulesTagged(env: Env, pod: Pod, ss: seq<Schedule>, out: Outcome)
    ensures forall k | k in NewRules(env, pod, ss, out) ::
              var copy := NewRules(env, pod, ss, out)[k];
              k == RuleKey(copy.rule.id) && copy.readNo == pod.nextRead
  {
    forall k | k in NewRules(env, pod, ss, out)
      ensures k == RuleKey(NewRules(env, pod, ss, out)[k].rule.id)
    {
      var i :| i in RowIds(ss) && HasRule(env.db, i) && k == RuleKey(env.db.ruleOf[i]);
      KeysInvert(env.db.ruleOf[i]);
    }
  }

  /** A rule cached after an evaluate was cached before it, or carries the number of its rule read. */
  lemma RuleTagsAfterEvaluate(cfg: Config, env: Env, pod: Pod, targets: seq<string>, out: Outcome)
    ensures var d := Evaluate(cfg, env, pod, targets, out);
            && d.attached == pod.attached && pod.nextOid <= d.nextOid && pod.nextRead <= d.nextRead
            && forall k | k in d.caches.rules ::
                 || (k in pod.caches.rules && d.caches.rules[k] == pod.caches.rules[k])
                 || (k == RuleKey(d.caches.rules[k].value.rule.id)
                     && d.caches.rules[k].value.readNo == pod.nextRead < d.nextRead)
  {
    NewRulesTagged(env, pod, Loaded(env, pod, targets), out);
    RulesAfterEvaluate(cfg, env, pod, targets, out);
  }

  /** A list cached after an evaluate was cached before it, or consists of objects it allocated. */
  lemma ListsAfterEvaluate(cfg: Config, env: Env, pod: Pod, targets: seq<string>, out: Outcome, name: string)
    ensures var d := Evaluate(cfg, env, pod, targets, out);
            SchedulesKey(name) in d.caches.schedules ==>
              || (SchedulesKey(name) in pod.caches.schedules
                  && d.caches.schedules[SchedulesKey(name)] == pod.caches.schedules[SchedulesKey(name)])
              || forall s | s in d.caches.schedules[SchedulesKey(name)].value :: pod.nextOid <= s.oid < d.nextOid
  {
    EvaluateRenews(cfg, env, pod, targets, out, name);
    if name in Groups(Loaded(env, pod, targets)) {
      GroupsOk(env, pod, targets, name);
    }
  }

  lemma EvaluateTagged(cfg: Config, env: Env, pod: Pod, targets: seq<string>, out: Outcome)
    requires Tagged(pod)
    ensures Tagged(Evaluate(cfg, env, pod, targets, out))
  {
    var d := Evaluate(cfg, env, pod, targets, out);
    RuleTagsAfterEvaluate(cfg, env, pod, targets, out);
    forall name, s | SchedulesKey(name) in d.caches.schedules && s in d.caches.schedules[SchedulesKey(name)].value
      ensures s.oid < d.nextOid
    {
      ListsAfterEvaluate(cfg, env, pod, targets, out, name);
    }
  }

  lemma EvaluateFresh(cfg: Config, env: Env, pod: Pod, targets: seq<string>, out: Outcome, p: string, r: string, n: nat)
    requires Tagged(pod) && Fresh(pod, p, r, n)
    ensures Fresh(Evaluate(cfg, env, pod, targets, out), p, r, n)
  {
    RuleTagsAfterEvaluate(cfg, env, pod, targets, out);
    ListsAfterEvaluate(cfg, env, pod, targets, out, p);
  }

  // ---------------------------------------------------------------- flush, ping

  /** Removing cache entries keeps both properties. */
  lemma DropFresh(pod: Pod, caches: Caches, p: string, r: string, n: nat)
    requires Tagged(pod)
    requires forall k | k in caches.schedules :: k in pod.caches.schedules && caches.schedules[k] == pod.caches.schedules[k]
    requires forall k | k in caches.rules :: k in pod.caches.rules && caches.rules[k] == pod.caches.rules[k]
    ensures Tagged(pod.(caches := caches))
    ensures Fresh(pod, p, r, n) ==> Fresh(pod.(caches := caches), p, r, n)
  {}

  lemma {:induction false} FlushShrinks(c: Caches, attached: map<nat, RuleCopy>, names: seq<string>)
    ensures var d := FlushNames(c, attached, names);
            && (forall k | k in d.schedules :: k in c.schedules && d.schedules[k] == c.schedules[k])
            && (forall k | k in d.rules :: k in c.rules && d.rules[k] == c.rules[k])
  {
    if names != [] {
      FlushShrinks(c, attached, names[..|names| - 1]);
    }
  }

  // -------------------------------------------------------------------- requests

  /** Taken objects are allocated, and those of placement `p` carry no older copy. */
  ghost predicate TakingFresh(pod0: Pod, t: Progress, p: string, r: string, n: nat) {
    && Tagged(t.pod) && t.pod.attached == pod0.attached && Fresh(t.pod, p, r, n)
    && (t.Taking? ==>
          && (forall s | s in t.got :: s.oid < t.pod.nextOid)
          && NoOlderCopy(t.pod.attached, Filter(At(p), t.got), r, n))
  }

  /** A list of placement `q` adds objects of `p` only when q is p. */
  lemma TakeListFresh(cfg: Config, pod: Pod, got: seq<Schedule>, q: string, p: string, r: string, n: nat)
    requires Tagged(pod) && Fresh(pod, p, r, n) && ListsOk(cfg, pod.caches)
    requires SchedulesKey(q) in pod.caches.schedules
    requires NoOlderCopy(pod.attached, Filter(At(p), got), r, n)
    ensures NoOlderCopy(pod.attached, Filter(At(p), got + pod.caches.schedules[SchedulesKey(q)].value), r, n)
  {
    var ss := pod.caches.schedules[SchedulesKey(q)].value;
    assert ListOk(cfg, pod.caches, q);
    FilterConcat(At(p), got, ss);
    forall s | s in Filter(At(p), ss) && s.oid in pod.attached && pod.attached[s.oid].rule.id == r
      ensures n <= pod.attached[s.oid].readNo
    {
      assert s in ss && q == p;
    }
  }

  lemma TakeOneFresh(cfg: Config, env: Env, pod0: Pod, t: Progress, name: string, heal: Outcome, p: string, r: string, n: nat)
    requires TakingOk(cfg, env, t) && TakingFresh(pod0, t, p, r, n)
    ensures TakingFresh(pod0, TakeOne(cfg, env, t, name, heal), p, r, n)
  {
    if t.Taking? {
      EvaluateTagged(cfg, env, t.pod, [], heal);
      EvaluateFresh(cfg, env, t.pod, [], heal, p, r, n);
      RuleTagsAfterEvaluate(cfg, env, t.pod, [], heal);
      TakeOneOk(cfg, env, t, name, heal);
      var u := TakeOne(cfg, env, t, name, heal);
      if u.Taking? && SchedulesKey(name) in u.pod.caches.schedules {
        TakeListFresh(cfg, u.pod, t.got, name, p, r, n);
      }
    }
  }

  lemma {:induction false} TakeAllFresh(cfg: Config, env: Env, pod: Pod, names: seq<string>, heals: seq<Outcome>,
                                        p: string, r: string, n: nat)
    requires |heals| == |names| && ListsOk(cfg, pod.caches) && Tagged(pod) && Fresh(pod, p, r, n)
    ensures TakingFresh(pod, TakeAll(cfg, env, pod, names, heals), p, r, n)
  {
    if names != [] {
      var m := |names| - 1;
      TakeAllFresh(cfg, env, pod, names[..m], heals[..m], p, r, n);
      TakeAllOk(cfg, env, pod, names[..m], heals[..m]);
      TakeOneFresh(cfg, env, pod, TakeAll(cfg, env, pod, names[..m], heals[..m]), names[m], heals[m], p, r, n);
    }
  }

  lemma {:induction false} CollectFresh(cfg: Config, pod: Pod, got: seq<Schedule>, order: seq<string>, p: string, r: string, n: nat)
    requires Tagged(pod) && Fresh(pod, p, r, n) && ListsOk(cfg, pod.caches)
    requires NoOlderCopy(pod.attached, Filter(At(p), got), r, n)
    requires forall s | s in got :: s.oid < pod.nextOid
    ensures NoOlderCopy(pod.attached, Filter(At(p), got + Collect(pod.caches, order)), r, n)
    ensures forall s | s in got + Collect(pod.caches, order) :: s.oid < pod.nextOid
  {
    if order == [] {
      assert got + [] == got;
    } else {
      var init, q := order[..|order| - 1], order[|order| - 1];
      CollectFresh(cfg, pod, got, init, p, r, n);
      var before := got + Collect(pod.caches, init);
      if SchedulesKey(q) in pod.caches.schedules {
        TakeListFresh(cfg, pod, before, q, p, r, n);
        assert got + Collect(pod.caches, order) == before + pod.caches.schedules[SchedulesKey(q)].value;
      } else {
        assert got + Collect(pod.caches, order) == before;
      }
    }
  }

  lemma RetryFresh(cfg: Config, env: Env, pod0: Pod, t: Progress, order: seq<string>, retry: Outcome, p: string, r: string, n: nat)
    requires t.Taking? && TakingOk(cfg, env, t) && TakingFresh(pod0, t, p, r, n)
    ensures TakingFresh(pod0, Retry(cfg, env, t, order, retry), p, r, n)
  {
    if t.missed != {} {
      EvaluateTagged(cfg, env, t.pod, [], retry);
      EvaluateFresh(cfg, env, t.pod, [], retry, p, r, n);
      EvaluateOk(cfg, env, t.pod, [], retry);
      RuleTagsAfterEvaluate(cfg, env, t.pod, [], retry);
      CollectFresh(cfg, Evaluate(cfg, env, t.pod, [], retry), t.got, order, p, r, n);
    }
  }

  /** Where an attached rule comes from after the cache pass. */
  lemma {:induction false} CachedSources(attached: map<nat, RuleCopy>, rules: Store<RuleCopy>, ss: seq<Schedule>)
    ensures var a := AttachCached(attached, rules, ss);
            forall o | o in a ::
              || (o in attached && a[o] == attached[o])
              || ((exists s | s in ss :: s.oid == o) && (exists k | k in rules :: a[o] == rules[k].value))
  {
    if ss != [] {
      var init := ss[..|ss| - 1];
      CachedSources(attached, rules, init);
      assert ss == init + [ss[|ss| - 1]];
    }
  }

  lemma {:induction false} FetchedSources(attached: map<nat, RuleCopy>, fetched: map<string, RuleCopy>, ss: seq<Schedule>)
    ensures var a := AttachFetched(attached, fetched, ss);
            forall o | o in a ::
              || (o in attached && a[o] == attached[o])
              || ((exists s | s in ss :: s.oid == o) && (exists i | i in fetched :: a[o] == fetched[i]))
  {
    if ss != [] {
      var init := ss[..|ss| - 1];
      FetchedSources(attached, fetched, init);
      assert ss == init + [ss[|ss| - 1]];
    }
  }

  lemma {:induction false} BackfillSources(rules: Store<RuleCopy>, fetched: map<string, RuleCopy>, ss: seq<Schedule>,
                                           exp: Option<Time>, pressure: bool)
    ensures var b := Backfill(rules, fetched, ss, exp, pressure);
            forall k | k in b ::
              || (k in rules && b[k] == rules[k])
              || (k == RuleKey(b[k].value.rule.id) && exists i | i in fetched :: b[k].value == fetched[i])
  {
    if ss != [] {
      BackfillSources(rules, fetched, ss[..|ss| - 1], exp, pressure);
    }
  }

  /** A rule attached by a request was attached before, or is cached, or was just read. */
  lemma AttachedSources(cfg: Config, env: Env, pod: Pod, ss: seq<Schedule>, rulesOk: bool)
    ensures var d := AttachRules(cfg, env, pod, ss, rulesOk);
            && d.nextOid == pod.nextOid && pod.nextRead <= d.nextRead
            && d.caches.schedules == pod.caches.schedules
            && (forall o | o in d.attached ::
                  || (o in pod.attached && d.attached[o] == pod.attached[o])
                  || ((exists s | s in ss :: s.oid == o)
                      && (|| (exists k | k in pod.caches.rules :: d.attached[o] == pod.caches.rules[k].value)
                          || (d.attached[o].readNo == pod.nextRead < d.nextRead))))
            && (forall k | k in d.caches.rules ::
                  || (k in pod.caches.rules && d.caches.rules[k] == pod.caches.rules[k])
                  || (k == RuleKey(d.caches.rules[k].value.rule.id)
                      && d.caches.rules[k].value.readNo == pod.nextRead < d.nextRead))
  {
    CachedSources(pod.attached, pod.caches.rules, ss);
    var missed := MissedRules(pod.attached, pod.caches.rules, ss);
    if missed != {} && rulesOk {
      var fetched := FetchRules(env.db, missed, pod.nextRead);
      FetchedSources(AttachCached(pod.attached, pod.caches.rules, ss), fetched, ss);
      BackfillSources(pod.caches.rules, fetched, ss, Expiry(cfg, env), env.pressure);
    }
  }

  lemma AttachTagged(cfg: Config, env: Env, pod: Pod, ss: seq<Schedule>, rulesOk: bool)
    requires Tagged(pod) && forall s | s in ss :: s.oid < pod.nextOid
    ensures Tagged(AttachRules(cfg, env, pod, ss, rulesOk))
  {
    AttachedSources(cfg, env, pod, ss, rulesOk);
  }

  /** After attaching, no older copy of `r` hangs on objects that carried none before. */
  lemma AttachNoOlder(cfg: Config, env: Env, pod: Pod, ss: seq<Schedule>, rulesOk: bool, list: seq<Schedule>, r: string, n: nat)
    requires Tagged(pod) && n <= pod.nextRead
    requires RuleKey(r) in pod.caches.rules ==> n <= pod.caches.rules[RuleKey(r)].value.readNo
    requires NoOlderCopy(pod.attached, list, r, n)
    ensures NoOlderCopy(AttachRules(cfg, env, pod, ss, rulesOk).attached, list, r, n)
  {
    AttachedSources(cfg, env, pod, ss, rulesOk);
  }

  lemma AttachFresh(cfg: Config, env: Env, pod: Pod, ss: seq<Schedule>, rulesOk: bool, p: string, r: string, n: nat)
    requires Tagged(pod) && Fresh(pod, p, r, n)
    ensures Fresh(AttachRules(cfg, env, pod, ss, rulesOk), p, r, n)
  {
    AttachedSources(cfg, env, pod, ss, rulesOk);
    if SchedulesKey(p) in pod.caches.schedules {
      AttachNoOlder(cfg, env, pod, ss, rulesOk, pod.caches.schedules[SchedulesKey(p)].value, r, n);
    }
  }

  /** A request keeps freshness and hands over no older copy for `p`. */
  lemma RequestFresh(cfg: Config, env: Env, pod: Pod, names: seq<string>, heals: seq<Outcome>, order: seq<string>,
                     retry: Outcome, rulesOk: bool, p: string, r: string, n: nat)
    requires |heals| == |names| && ListsOk(cfg, pod.caches) && Tagged(pod) && Fresh(pod, p, r, n)
    ensures var u := Request(cfg, env, pod, names, heals, order, retry, rulesOk);
            && Tagged(u.pod) && Fresh(u.pod, p, r, n)
            && (u.Taking? ==> NoOlderCopy(u.pod.attached, Filter(At(p), u.got), r, n))
  {
    TakeAllFresh(cfg, env, pod, names, heals, p, r, n);
    TakeAllOk(cfg, env, pod, names, heals);
    var t := TakeAll(cfg, env, pod, names, heals);
    if t.Taking? {
      RetryFresh(cfg, env, pod, t, order, retry, p, r, n);
      var u := Retry(cfg, env, t, order, retry);
      AttachTagged(cfg, env, u.pod, u.got, rulesOk);
      AttachFresh(cfg, env, u.pod, u.got, rulesOk, p, r, n);
      AttachNoOlder(cfg, env, u.pod, u.got, rulesOk, Filter(At(p), u.got), r, n);
    }
  }

  // ------------------------------------------------------- theorems over histories

  lemma StepTagged(cfg: Config, w: World, e: Event)
    requires Enabled(cfg, w, e) && ListsOk(cfg, w.pod.caches) && Tagged(w.pod)
    ensures Tagged(Step(cfg, w, e).pod)
  {
    StepFresh(cfg, w, e, "", "", 0);
  }

  lemma StepFresh(cfg: Config, w: World, e: Event, p: string, r: string, n: nat)
    requires Enabled(cfg, w, e) && ListsOk(cfg, w.pod.caches) && Tagged(w.pod)
    ensures Tagged(Step(cfg, w, e).pod)
    ensures Fresh(w.pod, p, r, n) ==> Fresh(Step(cfg, w, e).pod, p, r, n)
  {
    var m := if Fresh(w.pod, p, r, n) then n else 0;
    assert Fresh(w.pod, p, r, m);
    match e
    case Advance(to) => DropFresh(w.pod, Expire(w.pod.caches, to), p, r, n);
    case ChangeDb(_) =>
    case ChangePressure(_) =>
    case Tick(out) =>
      EvaluateTagged(cfg, w.env, w.pod, [], out);
      EvaluateFresh(cfg, w.env, w.pod, [], out, p, r, m);
    case FlushCache(names, isEvaluate, out) =>
      var flushed := if names == [] then NO_CACHES else FlushNames(w.pod.caches, w.pod.attached, names);
      FlushShrinks(w.pod.caches, w.pod.attached, names);
      DropFresh(w.pod, flushed, p, r, m);
      EvaluateTagged(cfg, w.env, w.pod.(caches := flushed), [], out);
      EvaluateFresh(cfg, w.env, w.pod.(caches := flushed), [], out, p, r, m);
    case Receive(_, _) =>
    case Fire(out) =>
      var ping := w.pending.value;
      var pod := w.pod.(caches := Invalidate(w.pod.caches, ping));
      var targets := if ping.placement == "" then [] else [ping.placement];
      DropFresh(w.pod, pod.caches, p, r, m);
      EvaluateTagged(cfg, w.env, pod, targets, out);
      EvaluateFresh(cfg, w.env, pod, targets, out, p, r, m);
    case Serve(names, heals, order, retry, rulesOk) =>
      RequestFresh(cfg, w.env, w.pod, names, heals, order, retry, rulesOk, p, r, m);
  }

  lemma {:induction false} HistoryTagged(cfg: Config, ws: seq<World>, es: seq<Event>, env: Env, i: nat)
    requires IsHistory(cfg, ws, es) && ws[0] == Cold(env) && i <= |es|
    ensures Tagged(ws[i].pod)
  {
    if i > 0 {
      HistoryTagged(cfg, ws, es, env, i - 1);
      HistoryOk(cfg, ws, es, env, i - 1);
      StepTagged(cfg, ws[i - 1], es[i - 1]);
    }
  }

  /** The ping at event i is acted on and names a placement and a rule. */
  ghost predicate ActsOn(ws: seq<World>, es: seq<Event>, i: nat, ping: Ping) {
    && i < |es| < |ws| && es[i].Fire? && ws[i].pending == Some(ping)
    && !Mirrored(ws[i].pod.caches, ping)
    && ping.placement != "" && ping.ruleId != ""
  }

  /**
   * Right after the ping, even under pressure or failing reads: the named rule is uncached or
   * the copy this ping read, and the named list is uncached or made of objects this ping read.
   */
  lemma PingLeavesOnlyNew(cfg: Config, ws: seq<World>, es: seq<Event>, env: Env, i: nat, ping: Ping)
    requires IsHistory(cfg, ws, es) && ws[0] == Cold(env) && ActsOn(ws, es, i, ping)
    ensures var before, after := ws[i].pod, ws[i + 1].pod;
            && (RuleKey(ping.ruleId) in after.caches.rules ==>
                  after.caches.rules[RuleKey(ping.ruleId)].value.readNo == before.nextRead)
            && (SchedulesKey(ping.placement) in after.caches.schedules ==>
                  forall s | s in after.caches.schedules[SchedulesKey(ping.placement)].value ::
                    before.nextOid <= s.oid && s.oid !in after.attached)
            && Fresh(after, ping.placement, ping.ruleId, before.nextRead)
  {
    HistoryTagged(cfg, ws, es, env, i);
    var w := ws[i];
    var pod := w.pod.(caches := Invalidate(w.pod.caches, ping));
    RuleTagsAfterEvaluate(cfg, w.env, pod, [ping.placement], es[i].out);
    ListsAfterEvaluate(cfg, w.env, pod, [ping.placement], es[i].out, ping.placement);
  }

  lemma {:induction false} StaysFresh(cfg: Config, ws: seq<World>, es: seq<Event>, env: Env, i: nat, j: nat,
                                      p: string, r: string, n: nat)
    requires IsHistory(cfg, ws, es) && ws[0] == Cold(env) && i <= j <= |es|
    requires Fresh(ws[i].pod, p, r, n)
    ensures Fresh(ws[j].pod, p, r, n)
  {
    if i < j {
      StaysFresh(cfg, ws, es, env, i, j - 1, p, r, n);
      NextFresh(cfg, ws, es, env, j - 1, p, r, n);
    }
  }

  lemma NextFresh(cfg: Config, ws: seq<World>, es: seq<Event>, env: Env, i: nat, p: string, r: string, n: nat)
    requires IsHistory(cfg, ws, es) && ws[0] == Cold(env) && i < |es| && Fresh(ws[i].pod, p, r, n)
    ensures Fresh(ws[i + 1].pod, p, r, n)
  {
    HistoryTagged(cfg, ws, es, env, i);
    HistoryOk(cfg, ws, es, env, i);
    StepFresh(cfg, ws[i], es[i], p, r, n);
  }

  /**
   * Activation freshness. Whatever happens after the ping, every later request that serves the
   * placement evaluates the rule, if at all, from a copy read at or after the ping.
   */
  lemma ActivationFreshness(cfg: Config, ws: seq<World>, es: seq<Event>, env: Env, i: nat, j: nat, ping: Ping)
    requires IsHistory(cfg, ws, es) && ws[0] == Cold(env) && ActsOn(ws, es, i, ping)
    requires i < j < |es| && es[j].Serve?
    ensures var u := Response(cfg, ws[j], es[j]);
            u.Taking? ==> forall h | h in Handed(u, ping.placement) && h.1.rule.id == ping.ruleId ::
                            ws[i].pod.nextRead <= h.1.readNo
  {
    PingLeavesOnlyNew(cfg, ws, es, env, i, ping);
    FreshIsServed(cfg, ws, es, env, i + 1, j, ping.placement, ping.ruleId, ws[i].pod.nextRead);
  }

  /** From a state without older copies for placement `p` on, every request serves newer ones. */
  lemma FreshIsServed(cfg: Config, ws: seq<World>, es: seq<Event>, env: Env, i: nat, j: nat, p: string, r: string, n: nat)
    requires IsHistory(cfg, ws, es) && ws[0] == Cold(env) && i <= j < |es| && es[j].Serve?
    requires Fresh(ws[i].pod, p, r, n)
    ensures var u := Response(cfg, ws[j], es[j]);
            u.Taking? ==> forall h | h in Handed(u, p) && h.1.rule.id == r :: n <= h.1.readNo
  {
    StaysFresh(cfg, ws, es, env, i, j, p, r, n);
    HistoryTagged(cfg, ws, es, env, j);
    HistoryOk(cfg, ws, es, env, j);
    var e := es[j];
    RequestFresh(cfg, ws[j].env, ws[j].pod, e.names, e.heals, e.order, e.retry, e.rulesOk, p, r, n);
    var u := Response(cfg, ws[j], e);
    if u.Taking? {
      HandedAreTaken(u, p);
    }
  }

  /** What is handed over for a placement are its taken objects with the rule attached to them. */
  lemma HandedAreTaken(u: Progress, name: string)
    requires u.Taking?
    ensures forall h | h in Handed(u, name) ::
              exists s | s in Filter(At(name), u.got) :: s.oid in u.pod.attached && h == (s.row, u.pod.attached[s.oid])
  {
    var ss := Filter(HasRuleAt(name, u.pod.attached), u.got);
    forall h | h in Handed(u, name)
      ensures exists s | s in Filter(At(name), u.got) :: s.oid in u.pod.attached && h == (s.row, u.pod.attached[s.oid])
    {
      var k :| 0 <= k < |ss| && Handed(u, name)[k] == h;
      assert ss[k] in ss && At(name)(ss[k]);
    }
  }

  /**
   * Exactly when a fired ping renews the rule it names: afterwards the rule is uncached or the
   * copy this ping read if and only if the ping was not skipped, or the rule was not cached.
   */
  lemma FiredPingRenewsRule(cfg: Config, ws: seq<World>, es: seq<Event>, env: Env, i: nat, ping: Ping)
    requires IsHistory(cfg, ws, es) && ws[0] == Cold(env) && i < |es|
    requires es[i].Fire? && ws[i].pending == Some(ping) && ping.ruleId != ""
    ensures var before, after, key := ws[i].pod, ws[i + 1].pod, RuleKey(ping.ruleId);
            (key in after.caches.rules ==> after.caches.rules[key].value.readNo == before.nextRead) <==>
            !Mirrored(before.caches, ping) || key !in before.caches.rules
  {
    HistoryTagged(cfg, ws, es, env, i);
    var w := ws[i];
    if !Mirrored(w.pod.caches, ping) {
      var pod := w.pod.(caches := Invalidate(w.pod.caches, ping));
      RuleTagsAfterEvaluate(cfg, w.env, pod, if ping.placement == "" then [] else [ping.placement], es[i].out);
    }
  }

  /** A ping whose version is mirrored when it arrives changes nothing at all. */
  lemma SkippedReceiptChangesNothing(cfg: Config, ws: seq<World>, es: seq<Event>, i: nat)
    requires IsHistory(cfg, ws, es) && i < |es| && es[i].Receive?
    ensures ws[i + 1].pod == ws[i].pod && ws[i + 1].env == ws[i].env
    ensures ws[i + 1] == ws[i] <==> es[i].decoded && Mirrored(ws[i].pod.caches, es[i].ping)
  {
    assert Enabled(cfg, ws[i], es[i]) && ws[i + 1] == Step(cfg, ws[i], es[i]);
  }

  /**
   * That a rule edit can be skipped at all: the version hash covers schedule rows, not rule
   * contents, so a rule edited without touching its schedules keeps the hash, the activation
   * ping is skipped on receipt and the old copy stays cached.
   */
  lemma SkippedPingKeepsOldRule(cfg: Config, now: Time, row: ScheduleRow, before: Db, after: Db) returns (ws: seq<World>)
    requires row.id == "s" && row.ruleId == "r" && row.placement == Some("p")
    requires before == Db([Occurrence("s", "p", Some(row))], map["s" := "r"], map["r" := "old"])
    requires after == before.(rules := map["r" := "new"])
    requires cfg.sha("s" + row.updatedAt) != ""
    ensures IsHistory(cfg, ws, [Tick(Outcome(true, true)), ChangeDb(after),
                                Receive(Ping("p", cfg.sha("s" + row.updatedAt), "r"), true)])
    ensures ws[0] == Cold(Env(now, false, before)) && ws[3].env.db == after && ws[3].pending == None
    ensures Lookup(ws[3].pod.caches.rules, RuleKey("r")) == Some(RuleCopy(0, DecisionRule("r", "old")))
  {
    var w0 := Cold(Env(now, false, before));
    var w1 := Step(cfg, w0, Tick(Outcome(true, true)));
    FirstTick(cfg, now, row, before);
    ws := SkipAfter(cfg, w0, w1, after, Ping("p", cfg.sha("s" + row.updatedAt), "r"));
  }

  /** A tick, a database change, and a ping whose version is mirrored: the last two touch no cache. */
  lemma SkipAfter(cfg: Config, w0: World, w1: World, after: Db, ping: Ping) returns (ws: seq<World>)
    requires w1 == Step(cfg, w0, Tick(Outcome(true, true))) && w1.pending == None && Mirrored(w1.pod.caches, ping)
    ensures IsHistory(cfg, ws, [Tick(Outcome(true, true)), ChangeDb(after), Receive(ping, true)])
    ensures ws[0] == w0 && ws[3].env.db == after && ws[3].pending == None && ws[3].pod == w1.pod
  {
    var w2 := w1.(env := w1.env.(db := after));
    ws := [w0, w1, w2, w2];
  }

  /** The first evaluate over one occurrence loads one object and mirrors its rule. */
  lemma OneRowLoads(now: Time, row: ScheduleRow, db: Db)
    requires row.id == "s" && row.placement == Some("p")
    requires db.occurrences == [Occurrence("s", "p", Some(row))]
    ensures var ss := Loaded(Env(now, false, db), Cold(Env(now, false, db)).pod, []);
            && ss == [Schedule(0, now, row)] && RowIds(ss) == {"s"}
            && Groups(ss) == map["p" := ss] && HashInput(ss) == "s" + row.updatedAt
  {
    var s := Schedule(0, now, row);
    var ss := Loaded(Env(now, false, db), Cold(Env(now, false, db)).pod, []);
    assert db.occurrences[..0] == [];
    assert Dedup(db.occurrences) == Dedup([]) + [row];
    assert ss == [s];
    assert s in ss && Placed(s) && At("p")(s);
    assert Filter(At("p"), ss) == [s] + Filter(At("p"), ss[1..]);
    assert HashInput(ss) == HashInput(ss[..0]) + row.id + row.updatedAt;
    assert forall u | u in ss :: u == s;
    assert Filter(At("p"), ss) == ss;
    assert Groups(ss).Keys == {"p"} && Groups(ss)["p"] == ss;
  }

  lemma OneRule(db: Db)
    requires db.ruleOf == map["s" := "r"] && db.rules == map["r" := "old"]
    ensures Found(KeyRules(db, {"s"}, 0), RuleKey("r")) == Some(RuleCopy(0, DecisionRule("r", "old")))
  {
    KeysInvert("r");
    assert HasRule(db, "s") && db.ruleOf["s"] == "r";
  }

  function Found<V>(m: map<string, V>, key: string): Option<V> {
    if key in m then Some(m[key]) else None
  }

  lemma FirstEvaluate(cfg: Config, now: Time, row: ScheduleRow, db: Db)
    requires row.id == "s" && row.ruleId == "r" && row.placement == Some("p")
    requires db == Db([Occurrence("s", "p", Some(row))], map["s" := "r"], map["r" := "old"])
    ensures var d := Evaluate(cfg, Env(now, false, db), Cold(Env(now, false, db)).pod, [], Outcome(true, true)).caches;
            && Lookup(d.versions, "p") == Some(cfg.sha("s" + row.updatedAt))
            && Lookup(d.rules, RuleKey("r")) == Some(RuleCopy(0, DecisionRule("r", "old")))
  {
    var env := Env(now, false, db);
    var pod := Cold(env).pod;
    OneRowLoads(now, row, db);
    OneRule(db);
    MirrorFidelity(cfg, env, pod, Outcome(true, true), "p", RuleKey("r"));
    assert Groups(Loaded(env, pod, [])) != map[];
  }

  lemma FirstTick(cfg: Config, now: Time, row: ScheduleRow, db: Db)
    requires row.id == "s" && row.ruleId == "r" && row.placement == Some("p")
    requires db == Db([Occurrence("s", "p", Some(row))], map["s" := "r"], map["r" := "old"])
    ensures var w := Step(cfg, Cold(Env(now, false, db)), Tick(Outcome(true, true)));
            && w.pending == None
            && Lookup(w.pod.caches.versions, "p") == Some(cfg.sha("s" + row.updatedAt))
            && Lookup(w.pod.caches.rules, RuleKey("r")) == Some(RuleCopy(0, DecisionRule("r", "old")))
  {
    FirstEvaluate(cfg, now, row, db);
    TickEvaluates(cfg, Cold(Env(now, false, db)), Outcome(true, true));
  }

  lemma TickEvaluates(cfg: Config, w: World, out: Outcome)
    ensures Step(cfg, w, Tick(out)) == World(w.env, Evaluate(cfg, w.env, w.pod, [], out), w.pending)
  {}
}

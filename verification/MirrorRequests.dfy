/**
 * When a request is refused: exactly when a placement's stamp is too old and one evaluate does
 * not renew it. With a database that answers, that takes a placement without active rows.
 */
module MirrorRequests {
  import opened Wrappers
  import opened MemoryCache
  import opened Mirror
  import opened MirrorRuns
  import opened MirrorTransparency
  import opened MirrorTargets
  import opened MirrorRefresh

  /** Last synchronised more than two tick intervals ago, or ten minutes when none is configured. */
  predicate TooOld(cfg: Config, env: Env, c: Caches, name: string) {
    name in c.syncs
    && env.now - c.syncs[name].value > if cfg.tickInterval > 0 then 2 * cfg.tickInterval else 600_000_000_000
  }

  /** The service when the i-th requested placement has its turn: each earlier one that was too old cost one evaluate. */
  ghost function AtTurn(cfg: Config, env: Env, pod: Pod, names: seq<string>, heals: seq<Outcome>, i: nat): Pod
    requires i <= |names| == |heals|
  {
    if i == 0 then pod
    else
      var p := AtTurn(cfg, env, pod, names, heals, i - 1);
      if TooOld(cfg, env, p.caches, names[i - 1]) then Evaluate(cfg, env, p, [], heals[i - 1]) else p
  }

  /** The i-th placement is too old at its turn, and the evaluate leaves it too old or without a stamp. */
  ghost predicate RefusesAt(cfg: Config, env: Env, pod: Pod, names: seq<string>, heals: seq<Outcome>, i: nat)
    requires i < |names| == |heals|
  {
    var healed := AtTurn(cfg, env, pod, names, heals, i + 1).caches;
    TooOld(cfg, env, AtTurn(cfg, env, pod, names, heals, i).caches, names[i])
    && (names[i] !in healed.syncs || TooOld(cfg, env, healed, names[i]))
  }

  ghost predicate RefusesBefore(cfg: Config, env: Env, pod: Pod, names: seq<string>, heals: seq<Outcome>, i: nat)
    requires i <= |names| == |heals|
  {
    exists k | 0 <= k < i :: RefusesAt(cfg, env, pod, names, heals, k)
  }

  lemma RefusesNext(cfg: Config, env: Env, pod: Pod, names: seq<string>, heals: seq<Outcome>, i: nat)
    requires i < |names| == |heals|
    ensures RefusesBefore(cfg, env, pod, names, heals, i + 1) <==>
            RefusesBefore(cfg, env, pod, names, heals, i) || RefusesAt(cfg, env, pod, names, heals, i)
  {}

  lemma {:induction false} TakenUpTo(cfg: Config, env: Env, pod: Pod, names: seq<string>, heals: seq<Outcome>, i: nat)
    requires i <= |names| == |heals|
    ensures var t := TakeAll(cfg, env, pod, names[..i], heals[..i]);
            && (t.Refused? <==> RefusesBefore(cfg, env, pod, names, heals, i))
            && (t.Taking? ==> t.pod == AtTurn(cfg, env, pod, names, heals, i))
  {
    if i > 0 {
      TakenUpTo(cfg, env, pod, names, heals, i - 1);
      TakeNext(cfg, env, pod, names, heals, i - 1);
      RefusesNext(cfg, env, pod, names, heals, i - 1);
      NextTurn(cfg, env, pod, names, heals, i - 1, TakeAll(cfg, env, pod, names[..i - 1], heals[..i - 1]));
    }
  }

  lemma NextTurn(cfg: Config, env: Env, pod: Pod, names: seq<string>, heals: seq<Outcome>, i: nat, t: Progress)
    requires i < |names| == |heals| && (t.Taking? ==> t.pod == AtTurn(cfg, env, pod, names, heals, i))
    ensures var u := TakeOne(cfg, env, t, names[i], heals[i]);
            && (u.Refused? <==> t.Refused? || RefusesAt(cfg, env, pod, names, heals, i))
            && (u.Taking? ==> u.pod == AtTurn(cfg, env, pod, names, heals, i + 1))
  {
    if t.Taking? {
      TurnTaken(cfg, env, pod, names, heals, i, t);
    }
  }

  lemma TakeNext(cfg: Config, env: Env, pod: Pod, names: seq<string>, heals: seq<Outcome>, i: nat)
    requires i < |names| == |heals|
    ensures TakeAll(cfg, env, pod, names[..i + 1], heals[..i + 1]) ==
            TakeOne(cfg, env, TakeAll(cfg, env, pod, names[..i], heals[..i]), names[i], heals[i])
  {
    assert names[..i + 1][..i] == names[..i] && heals[..i + 1][..i] == heals[..i];
  }

  /** One placement's turn. */
  lemma TurnTaken(cfg: Config, env: Env, pod: Pod, names: seq<string>, heals: seq<Outcome>, i: nat, t: Progress)
    requires i < |names| == |heals| && t.Taking? && t.pod == AtTurn(cfg, env, pod, names, heals, i)
    ensures var u := TakeOne(cfg, env, t, names[i], heals[i]);
            && (u.Refused? <==> RefusesAt(cfg, env, pod, names, heals, i))
            && u.pod == AtTurn(cfg, env, pod, names, heals, i + 1)
  {}

  /**
   * Exactly when a request is refused: some requested placement has, when its turn comes, a stamp
   * older than the bound, and the one evaluate it gets leaves it with none or with one too old.
   */
  lemma RefusedExactly(cfg: Config, env: Env, pod: Pod, names: seq<string>, heals: seq<Outcome>, order: seq<string>,
                       retry: Outcome, rulesOk: bool)
    requires |heals| == |names|
    ensures Request(cfg, env, pod, names, heals, order, retry, rulesOk).Refused? <==>
            exists i | 0 <= i < |names| :: RefusesAt(cfg, env, pod, names, heals, i)
  {
    TakenUpTo(cfg, env, pod, names, heals, |names|);
    assert names[..|names|] == names && heals[..|names|] == heals;
    assert RefusesBefore(cfg, env, pod, names, heals, |names|) <==>
           exists i | 0 <= i < |names| :: RefusesAt(cfg, env, pod, names, heals, i);
  }

  // ------------------------------------------------------- heals that read the database

  /** The first requested placement that is too old. */
  ghost predicate FirstOld(cfg: Config, env: Env, c: Caches, names: seq<string>, i: int) {
    0 <= i < |names| && TooOld(cfg, env, c, names[i]) && forall j | 0 <= j < i :: !TooOld(cfg, env, c, names[j])
  }

  lemma {:induction false} NothingOldYet(cfg: Config, env: Env, pod: Pod, names: seq<string>, heals: seq<Outcome>, i: nat)
    requires i <= |names| == |heals| && forall j | 0 <= j < i :: !TooOld(cfg, env, pod.caches, names[j])
    ensures AtTurn(cfg, env, pod, names, heals, i) == pod
  {
    if i > 0 {
      NothingOldYet(cfg, env, pod, names, heals, i - 1);
    }
  }

  /** No stamp is too old. */
  ghost predicate NoneOld(cfg: Config, env: Env, c: Caches) {
    forall n :: !TooOld(cfg, env, c, n)
  }

  /** After a full evaluate whose listing succeeds no stamp is too old, and a live one is kept exactly with active rows. */
  lemma HealRestamps(cfg: Config, env: Env, pod: Pod, out: Outcome, name: string)
    requires out.listOk && DbOk(env.db)
    ensures var d := Evaluate(cfg, env, pod, [], out).caches;
            && !TooOld(cfg, env, d, name)
            && (name in pod.caches.syncs ==> (name in d.syncs <==> ActiveRows(env.db, name) != []))
  {
    MirrorFidelity(cfg, env, pod, out, name, "");
    GroupHasActiveRows(env, pod, [], name);
  }

  lemma HealRestampsAll(cfg: Config, env: Env, pod: Pod, out: Outcome)
    requires out.listOk && DbOk(env.db)
    ensures NoneOld(cfg, env, Evaluate(cfg, env, pod, [], out).caches)
  {
    var d := Evaluate(cfg, env, pod, [], out).caches;
    forall n ensures !TooOld(cfg, env, d, n) {
      HealRestamps(cfg, env, pod, out, n);
    }
  }

  lemma {:induction false} NothingOldAnyMore(cfg: Config, env: Env, pod: Pod, names: seq<string>, heals: seq<Outcome>, i: nat, j: nat)
    requires i <= j <= |names| == |heals| && NoneOld(cfg, env, AtTurn(cfg, env, pod, names, heals, i).caches)
    ensures AtTurn(cfg, env, pod, names, heals, j) == AtTurn(cfg, env, pod, names, heals, i)
  {
    if i < j {
      NothingOldAnyMore(cfg, env, pod, names, heals, i, j - 1);
    }
  }

  /**
   * When the heals' listings succeed, over a consistent database and whatever the pressure, a
   * request is refused exactly when the first placement found too old has no active row.
   */
  lemma RefusedWhenInactive(cfg: Config, env: Env, pod: Pod, names: seq<string>, heals: seq<Outcome>, order: seq<string>,
                            retry: Outcome, rulesOk: bool)
    requires |heals| == |names| && DbOk(env.db) && forall h | h in heals :: h.listOk
    ensures Request(cfg, env, pod, names, heals, order, retry, rulesOk).Refused? <==>
            exists i :: FirstOld(cfg, env, pod.caches, names, i) && ActiveRows(env.db, names[i]) == []
  {
    RefusedExactly(cfg, env, pod, names, heals, order, retry, rulesOk);
    if i :| FirstOld(cfg, env, pod.caches, names, i) {
      FirstOldDecides(cfg, env, pod, names, heals, i);
      forall k | FirstOld(cfg, env, pod.caches, names, k) ensures k == i {}
    } else {
      NoOldNames(cfg, env, pod, names, heals);
    }
  }

  /** The first placement found too old decides alone: after its evaluate no stamp is too old. */
  lemma FirstOldDecides(cfg: Config, env: Env, pod: Pod, names: seq<string>, heals: seq<Outcome>, i: nat)
    requires |heals| == |names| && DbOk(env.db) && forall h | h in heals :: h.listOk
    requires FirstOld(cfg, env, pod.caches, names, i)
    ensures RefusesAt(cfg, env, pod, names, heals, i) <==> ActiveRows(env.db, names[i]) == []
    ensures forall k | 0 <= k < |names| && k != i :: !RefusesAt(cfg, env, pod, names, heals, k)
  {
    NothingOldYet(cfg, env, pod, names, heals, i);
    assert heals[i] in heals;
    HealRestamps(cfg, env, pod, heals[i], names[i]);
    HealRestampsAll(cfg, env, pod, heals[i]);
    assert AtTurn(cfg, env, pod, names, heals, i + 1) == Evaluate(cfg, env, pod, [], heals[i]);
    forall k | 0 <= k < |names| && k != i ensures !RefusesAt(cfg, env, pod, names, heals, k) {
      if k < i {
        NothingOldYet(cfg, env, pod, names, heals, k);
      } else {
        NothingOldAnyMore(cfg, env, pod, names, heals, i + 1, k);
      }
    }
  }

  lemma NoOldNames(cfg: Config, env: Env, pod: Pod, names: seq<string>, heals: seq<Outcome>)
    requires |heals| == |names| && forall i :: !FirstOld(cfg, env, pod.caches, names, i)
    ensures forall i | 0 <= i < |names| :: !RefusesAt(cfg, env, pod, names, heals, i)
  {
    forall i | 0 <= i < |names| ensures !RefusesAt(cfg, env, pod, names, heals, i) {
      NoneOldBefore(cfg, env, pod, names, i + 1);
      NothingOldYet(cfg, env, pod, names, heals, i);
    }
  }

  lemma {:induction false} NoneOldBefore(cfg: Config, env: Env, pod: Pod, names: seq<string>, i: nat)
    requires i <= |names| && forall k :: !FirstOld(cfg, env, pod.caches, names, k)
    ensures forall j | 0 <= j < i :: !TooOld(cfg, env, pod.caches, names[j])
  {
    if i > 0 {
      NoneOldBefore(cfg, env, pod, names, i - 1);
      assert !FirstOld(cfg, env, pod.caches, names, i - 1);
    }
  }

  /**
   * For the caller: in every history, when the database answers and every requested placement has
   * an active row, the request is served.
   */
  lemma ActivePlacementsAreServed(cfg: Config, ws: seq<World>, es: seq<Event>, j: nat)
    requires IsHistory(cfg, ws, es) && j < |es| && es[j].Serve? && DbOk(ws[j].env.db)
    requires forall h | h in es[j].heals :: h.listOk
    requires forall n | n in es[j].names :: ActiveRows(ws[j].env.db, n) != []
    ensures Response(cfg, ws[j], es[j]).Taking?
  {
    var e, w := es[j], ws[j];
    RefusedWhenInactive(cfg, w.env, w.pod, e.names, e.heals, e.order, e.retry, e.rulesOk);
  }

  // ------------------------------------------------------------------- the backfill

  lemma {:induction false} BackfilledAt(rules: Store<RuleCopy>, fetched: map<string, RuleCopy>, ss: seq<Schedule>,
                                        exp: Option<Time>, id: string)
    requires id in fetched && exists s :: s in ss && s.row.id == id
    requires forall i, j | i in fetched && j in fetched && fetched[i].rule.id == fetched[j].rule.id :: fetched[i] == fetched[j]
    ensures Entry(Backfill(rules, fetched, ss, exp, false), RuleKey(fetched[id].rule.id)) == Some(Item(fetched[id], exp))
  {
    var init, last := ss[..|ss| - 1], ss[|ss| - 1];
    assert ss == init + [last];
    KeysInvert(fetched[id].rule.id);
    if last.row.id in fetched {
      KeysInvert(fetched[last.row.id].rule.id);
    }
    if last.row.id != id {
      assert exists s :: s in init && s.row.id == id;
      BackfilledAt(rules, fetched, init, exp, id);
    }
  }

  lemma {:induction false} AttachCachedSkips(attached: map<nat, RuleCopy>, rules: Store<RuleCopy>, ss: seq<Schedule>, oid: nat)
    requires oid !in attached && forall s | s in ss && s.oid == oid :: RuleKey(s.row.ruleId) !in rules
    ensures oid !in AttachCached(attached, rules, ss)
  {
    if ss != [] {
      assert ss[|ss| - 1] in ss;
      AttachCachedSkips(attached, rules, ss[..|ss| - 1], oid);
    }
  }

  lemma {:induction false} RuleIsMissed(attached: map<nat, RuleCopy>, rules: Store<RuleCopy>, ss: seq<Schedule>, s: Schedule)
    requires s in ss && s.oid !in attached && s.row.ruleId != NIL_UUID
    requires forall u | u in ss && u.oid == s.oid :: RuleKey(u.row.ruleId) !in rules
    ensures s.row.id in MissedRules(attached, rules, ss)
  {
    var init, last := ss[..|ss| - 1], ss[|ss| - 1];
    assert ss == init + [last];
    if s == last {
      AttachCachedSkips(attached, rules, init, s.oid);
    } else {
      RuleIsMissed(attached, rules, init, s);
    }
  }

  /** A rule the cache could not supply is read, attached, and cached for the next request when there is room. */
  lemma MissedRuleIsBackfilled(cfg: Config, env: Env, pod: Pod, ss: seq<Schedule>, s: Schedule)
    requires s in ss && s.oid !in pod.attached && s.row.ruleId != NIL_UUID && HasRule(env.db, s.row.id) && !env.pressure
    requires forall u | u in ss && u.oid == s.oid :: RuleKey(u.row.ruleId) !in pod.caches.rules
    ensures var id, d := env.db.ruleOf[s.row.id], AttachRules(cfg, env, pod, ss, true);
            Entry(d.caches.rules, RuleKey(id)) ==
            Some(Item(RuleCopy(pod.nextRead, DecisionRule(id, env.db.rules[id])), Deadline(cfg.ttl, cfg.defaultTtl, env.now)))
  {
    RuleIsMissed(pod.attached, pod.caches.rules, ss, s);
    var fetched := FetchRules(env.db, MissedRules(pod.attached, pod.caches.rules, ss), pod.nextRead);
    BackfilledAt(pod.caches.rules, fetched, ss, Expiry(cfg, env), s.row.id);
  }
}

/** What a flush evicts, and what it leaves. */
module MirrorFlush {
  import opened Wrappers
  import opened Mirror
  import opened MirrorRuns
  import opened MirrorTransparency
  import opened MirrorTargets
  import opened MirrorRefresh

  /** The rule of a schedule object under this key: the attached one, else the referenced one. */
  predicate HasRuleKey(attached: map<nat, RuleCopy>, s: Schedule, key: string) {
    if s.oid in attached then key == RuleKey(attached[s.oid].rule.id)
    else s.row.ruleId != NIL_UUID && key == RuleKey(s.row.ruleId)
  }

  /** A schedule of the cached list of one of these placements has the rule. */
  ghost predicate Evicts(pod: Pod, names: seq<string>, key: string) {
    exists n, s :: n in names && SchedulesKey(n) in pod.caches.schedules
                   && s in pod.caches.schedules[SchedulesKey(n)].value && HasRuleKey(pod.attached, s, key)
  }

  lemma ListEvicts(ss: seq<Schedule>, attached: map<nat, RuleCopy>, key: string)
    ensures key in FlushedRuleKeys(ss, attached) <==> exists s :: s in ss && HasRuleKey(attached, s, key)
  {
    if s :| s in ss && HasRuleKey(attached, s, key) {
      assert s.oid in attached || s.row.ruleId != NIL_UUID;
    }
  }

  /** The lists, hashes and stamps after flushing these names one by one. */
  lemma {:induction false} FlushedNames(c: Caches, attached: map<nat, RuleCopy>, names: seq<string>, name: string)
    ensures Holds(FlushNames(c, attached, names), name) == if name in names then NOTHING else Holds(c, name)
  {
    if names != [] {
      var init, last := names[..|names| - 1], names[|names| - 1];
      assert names == init + [last];
      FlushedNames(c, attached, init, name);
      KeysInvert(last);
      KeysInvert(name);
    }
  }

  lemma EvictsMore(pod: Pod, init: seq<string>, last: string, key: string)
    ensures Evicts(pod, init + [last], key) <==> Evicts(pod, init, key) || Evicts(pod, [last], key)
  {
    if Evicts(pod, init + [last], key) {
      var n, s :| n in init + [last] && SchedulesKey(n) in pod.caches.schedules
                  && s in pod.caches.schedules[SchedulesKey(n)].value && HasRuleKey(pod.attached, s, key);
      assert n in init || n in [last];
    }
    assert forall n :: n in init || n in [last] ==> n in init + [last];
  }

  lemma EvictsOne(pod: Pod, name: string, key: string)
    ensures Evicts(pod, [name], key) <==>
            SchedulesKey(name) in pod.caches.schedules
            && key in FlushedRuleKeys(pod.caches.schedules[SchedulesKey(name)].value, pod.attached)
  {
    if SchedulesKey(name) in pod.caches.schedules {
      var ss := pod.caches.schedules[SchedulesKey(name)].value;
      ListEvicts(ss, pod.attached, key);
      if s :| s in ss && HasRuleKey(pod.attached, s, key) {
        assert name in [name];
      }
    }
  }

  /** The rules after flushing these names one by one. */
  lemma {:induction false} FlushedRules(pod: Pod, names: seq<string>, key: string)
    ensures Entry(FlushNames(pod.caches, pod.attached, names).rules, key) ==
            if Evicts(pod, names, key) then None else Entry(pod.caches.rules, key)
  {
    if names != [] {
      var init, last := names[..|names| - 1], names[|names| - 1];
      assert names == init + [last];
      FlushedRules(pod, init, key);
      EvictsMore(pod, init, last, key);
      EvictsOne(pod, last, key);
      FlushedNames(pod.caches, pod.attached, init, last);
      FlushStep(pod, init, last, key);
    }
  }

  lemma FlushStep(pod: Pod, init: seq<string>, last: string, key: string)
    requires Holds(FlushNames(pod.caches, pod.attached, init), last).list ==
             if last in init then None else Entry(pod.caches.schedules, SchedulesKey(last))
    requires Entry(FlushNames(pod.caches, pod.attached, init).rules, key) ==
             if Evicts(pod, init, key) then None else Entry(pod.caches.rules, key)
    requires Evicts(pod, [last], key) <==>
             SchedulesKey(last) in pod.caches.schedules
             && key in FlushedRuleKeys(pod.caches.schedules[SchedulesKey(last)].value, pod.attached)
    ensures Entry(FlushOne(FlushNames(pod.caches, pod.attached, init), pod.attached, last).rules, key) ==
            if Evicts(pod, init, key) || Evicts(pod, [last], key) then None else Entry(pod.caches.rules, key)
  {
    if last in init && Evicts(pod, [last], key) {
      var n, s :| n in [last] && SchedulesKey(n) in pod.caches.schedules
                  && s in pod.caches.schedules[SchedulesKey(n)].value && HasRuleKey(pod.attached, s, key);
      assert Evicts(pod, init, key);
    }
  }

  /**
   * A selective flush removes exactly the list, hash and stamp of each named placement and the
   * rules of the schedules in the removed lists; every other entry stays as it was.
   */
  lemma FlushEvicts(cfg: Config, env: Env, pod: Pod, names: seq<string>, out: Outcome, name: string, key: string)
    requires names != []
    ensures var d := Flush(cfg, env, pod, names, false, out);
            && Holds(d.caches, name) == (if name in names then NOTHING else Holds(pod.caches, name))
            && Entry(d.caches.rules, key) == (if Evicts(pod, names, key) then None else Entry(pod.caches.rules, key))
            && d == pod.(caches := d.caches)
  {
    FlushedNames(pod.caches, pod.attached, names, name);
    FlushedRules(pod, names, key);
  }

  /** A flush without names empties all four caches. */
  lemma FullFlushEmpties(cfg: Config, env: Env, pod: Pod, out: Outcome)
    ensures Flush(cfg, env, pod, [], false, out).caches == Caches(map[], map[], map[], map[])
  {}

  /**
   * A flush with an evaluate brings each flushed placement back with its active rows, when the
   * listing succeeds and there is no pressure; under pressure none of them comes back.
   */
  lemma FlushAndEvaluate(cfg: Config, env: Env, pod: Pod, names: seq<string>, out: Outcome, name: string)
    requires out.listOk && DbOk(env.db) && Covers(names, name)
    ensures var d, key := Flush(cfg, env, pod, names, true, out).caches, SchedulesKey(name);
            && (key in d.schedules <==> ActiveRows(env.db, name) != [] && !env.pressure)
            && (key in d.schedules ==> RowsOf(d.schedules[key].value) == ActiveRows(env.db, name))
  {
    var flushed := Flush(cfg, env, pod, names, false, out);
    if names != [] {
      FlushEvicts(cfg, env, pod, names, out, name, "");
    }
    assert Holds(flushed.caches, name) == NOTHING;
    if ActiveRows(env.db, name) != [] {
      EvaluateFillsMirror(cfg, env, flushed, [], out, name);
    } else {
      EvaluateOfInactive(cfg, env, flushed, [], out, name);
    }
    if env.pressure {
      EvaluateRefuses(cfg, env, flushed, [], out, name);
    }
  }
}

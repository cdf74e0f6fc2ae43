/**
 * Cache transparency: over an unchanging database, whatever was cached, evicted or expired, a
 * served request hands the evaluator the schedules and rules a direct read would give.
 */
module MirrorTransparency {
  import opened Wrappers
  import opened Sequences
  import opened MemoryCache
  import opened Mirror
  import opened MirrorRuns
  import opened MirrorFreshness

  /** The database is consistent: rows agree with its tables, and a schedule has one placement. */
  ghost predicate DbOk(db: Db) {
    forall o | o in db.occurrences ::
      && (o.schedule.Some? ==> RowOk(db, o.schedule.value) && o.schedule.value.placement in {None, Some(o.rowPlacement)})
      && (forall q | q in db.occurrences && q.scheduleId == o.scheduleId :: q.rowPlacement == o.rowPlacement)
  }

  /** A row's rule reference is what the rule lookup by schedule ID finds. */
  predicate RowOk(db: Db, row: ScheduleRow) {
    if row.id in db.ruleOf then db.ruleOf[row.id] == row.ruleId else row.ruleId == NIL_UUID
  }

  function RowAt(name: string): ScheduleRow -> bool {
    (row: ScheduleRow) => row.placement == Some(name)
  }

  /** The active rows of a placement; an unnamed placement is never served. */
  function ActiveRows(db: Db, name: string): seq<ScheduleRow> {
    if name == "" then [] else Filter(RowAt(name), Dedup(db.occurrences))
  }

  function RuleOf(db: Db, id: string): DecisionRule
    requires HasRule(db, id)
  {
    DecisionRule(db.ruleOf[id], db.rules[db.ruleOf[id]])
  }

  /** The rows that have a rule, with it. */
  function WithRules(db: Db, rows: seq<ScheduleRow>): seq<(ScheduleRow, DecisionRule)> {
    if rows == [] then []
    else
      var init, last := WithRules(db, rows[..|rows| - 1]), rows[|rows| - 1];
      if HasRule(db, last.id) then init + [(last, RuleOf(db, last.id))] else init
  }

  /** Reading a placement straight from the database. */
  function DirectRead(db: Db, name: string): seq<(ScheduleRow, DecisionRule)> {
    WithRules(db, ActiveRows(db, name))
  }

  // --------------------------------------------------------------- the invariant

  function RowsOf(ss: seq<Schedule>): seq<ScheduleRow> {
    Map((s: Schedule) => s.row, ss)
  }

  /** An attached rule is the database's rule for the object's row. */
  ghost predicate Honest(db: Db, attached: map<nat, RuleCopy>, ss: seq<Schedule>) {
    forall s | s in ss ::
      && RowOk(db, s.row)
      && (s.oid in attached ==> HasRule(db, s.row.id) && attached[s.oid].rule == RuleOf(db, s.row.id))
  }

  /** Objects with one identity are one object. */
  ghost predicate SameObjects(a: seq<Schedule>, b: seq<Schedule>) {
    forall s, u | s in a && u in b && s.oid == u.oid :: s == u
  }

  ghost predicate Allocated(pod: Pod, ss: seq<Schedule>) {
    forall s | s in ss :: s.oid < pod.nextOid
  }

  /** A cached rule is the database's, under its own key. */
  predicate HonestRule(db: Db, key: string, rule: DecisionRule) {
    key == RuleKey(rule.id) && rule.id != NIL_UUID && rule.id in db.rules && rule.body == db.rules[rule.id]
  }

  ghost predicate HonestRules(db: Db, rules: Store<RuleCopy>) {
    forall k | k in rules :: HonestRule(db, k, rules[k].value.rule)
  }

  ghost predicate Mirrors(db: Db, pod: Pod) {
    && HonestRules(db, pod.caches.rules)
    && (forall name | SchedulesKey(name) in pod.caches.schedules ::
          var ss := pod.caches.schedules[SchedulesKey(name)].value;
          RowsOf(ss) == ActiveRows(db, name) && Honest(db, pod.attached, ss) && Allocated(pod, ss))
    && (forall m, n | SchedulesKey(m) in pod.caches.schedules && SchedulesKey(n) in pod.caches.schedules ::
          SameObjects(pod.caches.schedules[SchedulesKey(m)].value, pod.caches.schedules[SchedulesKey(n)].value))
    && (forall o | o in pod.attached :: o < pod.nextOid)
  }

  // ------------------------------------------------------ targeted and full listing

  lemma DedupSnoc(init: seq<Occurrence>, last: Occurrence)
    ensures Dedup(init + [last]) ==
            if last.schedule.None? || last.scheduleId in SeenIds(init) then Dedup(init)
            else Dedup(init) + [last.schedule.value]
  {
    assert (init + [last])[..|init|] == init;
  }

  /** Occurrence `i` is the first loaded one of its schedule. */
  predicate IsFirstLoaded(occs: seq<Occurrence>, i: nat)
    requires i < |occs|
  {
    occs[i].schedule.Some? && forall j | 0 <= j < i :: occs[j].schedule.Some? ==> occs[j].scheduleId != occs[i].scheduleId
  }

  /** The rows taken from a listing are those of the first loaded occurrence of each schedule, in order. */
  lemma {:induction false} FirstLoadedRows(occs: seq<Occurrence>) returns (at: seq<nat>)
    ensures |at| == |Dedup(occs)| && forall i, j | 0 <= i < j < |at| :: at[i] < at[j]
    ensures forall k | 0 <= k < |at| :: at[k] < |occs| && IsFirstLoaded(occs, at[k]) && occs[at[k]].schedule == Some(Dedup(occs)[k])
    ensures forall i | 0 <= i < |occs| && IsFirstLoaded(occs, i) :: i in at
  {
    if occs == [] {
      at := [];
    } else {
      var n := |occs| - 1;
      var init, last := occs[..n], occs[n];
      assert occs == init + [last];
      at := FirstLoadedRows(init);
      DedupSnoc(init, last);
      forall i | 0 <= i < n ensures IsFirstLoaded(occs, i) <==> IsFirstLoaded(init, i) {}
      assert IsFirstLoaded(occs, n) <==> last.schedule.Some? && last.scheduleId !in SeenIds(init) by {
        SeenMeans(init, last.scheduleId);
      }
      if last.schedule.Some? && last.scheduleId !in SeenIds(init) {
        at := at + [n];
      }
    }
  }

  lemma SeenMeans(occs: seq<Occurrence>, id: string)
    ensures id in SeenIds(occs) <==> exists j | 0 <= j < |occs| :: occs[j].schedule.Some? && occs[j].scheduleId == id
  {}

  /** One more occurrence, seen by the placement's filter. */
  lemma DedupStep(init: seq<Occurrence>, last: Occurrence, name: string)
    ensures Filter(RowAt(name), Dedup(init + [last])) ==
            Filter(RowAt(name), Dedup(init)) +
            if last.schedule.Some? && last.scheduleId !in SeenIds(init) && RowAt(name)(last.schedule.value)
            then [last.schedule.value] else []
  {
    DedupSnoc(init, last);
    if last.schedule.Some? {
      FilterSnoc(RowAt(name), Dedup(init), last.schedule.value);
    }
  }

  lemma TargetedStep(init: seq<Occurrence>, last: Occurrence, kept: seq<Occurrence>, inTargets: bool, name: string)
    requires Filter(RowAt(name), Dedup(kept)) == Filter(RowAt(name), Dedup(init))
    requires inTargets ==> (last.scheduleId in SeenIds(kept) <==> last.scheduleId in SeenIds(init))
    requires last.schedule.Some? && RowAt(name)(last.schedule.value) ==> inTargets
    ensures Filter(RowAt(name), Dedup(kept + if inTargets then [last] else [])) ==
            Filter(RowAt(name), Dedup(init + [last]))
  {
    DedupStep(init, last, name);
    DedupStep(kept, last, name);
    assert kept + [] == kept;
  }

  /** A targeted listing finds the same rows for its placements as the full one. */
  lemma {:induction false} TargetedRows(db: Db, occs: seq<Occurrence>, targets: seq<string>, name: string)
    requires DbOk(db) && forall o | o in occs :: o in db.occurrences
    requires name in targets
    ensures Filter(RowAt(name), Dedup(Filter(InTargets(targets), occs))) == Filter(RowAt(name), Dedup(occs))
  {
    if occs != [] {
      var init, last := occs[..|occs| - 1], occs[|occs| - 1];
      assert occs == init + [last];
      assert last in occs && forall o | o in init :: o in occs;
      TargetedRows(db, init, targets, name);
      FilterSnoc(InTargets(targets), init, last);
      if InTargets(targets)(last) {
        SeenInTargets(db, init, targets, last);
      }
      TargetedStep(init, last, Filter(InTargets(targets), init), InTargets(targets)(last), name);
    }
  }

  lemma SeenInTargets(db: Db, init: seq<Occurrence>, targets: seq<string>, last: Occurrence)
    requires DbOk(db) && last in db.occurrences && forall o | o in init :: o in db.occurrences
    requires last.rowPlacement in targets
    ensures last.scheduleId in SeenIds(Filter(InTargets(targets), init))
            <==> last.scheduleId in SeenIds(init)
  {
    if last.scheduleId in SeenIds(init) {
      var o :| o in init && o.schedule.Some? && o.scheduleId == last.scheduleId;
      assert o.rowPlacement == last.rowPlacement;
      assert InTargets(targets)(o);
      assert o in Filter(InTargets(targets), init);
    }
  }

  lemma {:induction false} DedupRows(occs: seq<Occurrence>)
    ensures forall row | row in Dedup(occs) :: exists o | o in occs :: o.schedule == Some(row)
  {
    if occs != [] {
      var init := occs[..|occs| - 1];
      DedupRows(init);
      assert occs == init + [occs[|occs| - 1]];
    }
  }

  /** Filtering loaded objects by placement is loading the filtered rows. */
  lemma {:induction false} RowsOfGroup(ss: seq<Schedule>, name: string)
    ensures RowsOf(Filter(At(name), ss)) == Filter(RowAt(name), RowsOf(ss))
  {
    if ss != [] {
      RowsOfGroup(ss[1..], name);
      assert RowsOf(ss)[1..] == RowsOf(ss[1..]);
    }
  }

  lemma GroupRows(env: Env, pod: Pod, targets: seq<string>, name: string)
    ensures var ss := Loaded(env, pod, targets);
            && RowsOf(Filter(At(name), ss)) == Filter(RowAt(name), Dedup(Listing(env.db, targets)))
            && (name in Groups(ss) <==> name != "" && Filter(At(name), ss) != [])
  {
    var ss := Loaded(env, pod, targets);
    assert RowsOf(ss) == Dedup(Listing(env.db, targets));
    RowsOfGroup(ss, name);
    if name != "" && Filter(At(name), ss) != [] {
      var s := Filter(At(name), ss)[0];
      assert s in Filter(At(name), ss);
      assert At(name)(s) && s in ss && Placed(s);
    }
    if name in Groups(ss) {
      var s :| s in ss && Placed(s) && s.row.placement.value == name;
      assert At(name)(s) && s in Filter(At(name), ss);
    }
  }

  lemma GroupIsTarget(env: Env, pod: Pod, targets: seq<string>, name: string)
    requires DbOk(env.db) && targets != [] && name in Groups(Loaded(env, pod, targets))
    ensures name in targets
  {
    var s :| s in Loaded(env, pod, targets) && Placed(s) && s.row.placement.value == name;
    var o := LoadedFrom(env, pod, targets, s);
    assert InTargets(targets)(o);
  }

  /** A loaded object's row is that of a listed occurrence. */
  lemma LoadedFrom(env: Env, pod: Pod, targets: seq<string>, s: Schedule) returns (o: Occurrence)
    requires s in Loaded(env, pod, targets)
    ensures o in Listing(env.db, targets) && o.schedule == Some(s.row)
  {
    var rows := Dedup(Listing(env.db, targets));
    var i :| 0 <= i < |rows| && Loaded(env, pod, targets)[i] == s;
    DedupRows(Listing(env.db, targets));
    assert rows[i] in rows;
    o :| o in Listing(env.db, targets) && o.schedule == Some(s.row);
  }

  /** The groups an evaluate loads are the active rows of their placements, as fresh objects. */
  lemma GroupsAreActive(env: Env, pod: Pod, targets: seq<string>, name: string)
    requires DbOk(env.db)
    ensures name in Groups(Loaded(env, pod, targets)) ==>
              RowsOf(Groups(Loaded(env, pod, targets))[name]) == ActiveRows(env.db, name)
    ensures name !in Groups(Loaded(env, pod, [])) ==> ActiveRows(env.db, name) == []
  {
    GroupRows(env, pod, targets, name);
    GroupRows(env, pod, [], name);
    if name in Groups(Loaded(env, pod, targets)) && targets != [] {
      GroupIsTarget(env, pod, targets, name);
      TargetedRows(env.db, env.db.occurrences, targets, name);
    }
  }

  lemma LoadedHonest(env: Env, pod: Pod, targets: seq<string>)
    requires DbOk(env.db)
    ensures forall s | s in Loaded(env, pod, targets) :: RowOk(env.db, s.row) && pod.nextOid <= s.oid
    ensures SameObjects(Loaded(env, pod, targets), Loaded(env, pod, targets))
  {
    forall s | s in Loaded(env, pod, targets) ensures RowOk(env.db, s.row) && pod.nextOid <= s.oid {
      var o := LoadedFrom(env, pod, targets, s);
    }
  }

  // ------------------------------------------------------------------- evaluate

  lemma NewRulesHonest(env: Env, pod: Pod, ss: seq<Schedule>, out: Outcome)
    ensures forall k | k in NewRules(env, pod, ss, out) :: HonestRule(env.db, k, NewRules(env, pod, ss, out)[k].rule)
  {
    forall k | k in NewRules(env, pod, ss, out)
      ensures HonestRule(env.db, k, NewRules(env, pod, ss, out)[k].rule)
    {
      var i :| i in RowIds(ss) && HasRule(env.db, i) && k == RuleKey(env.db.ruleOf[i]);
      KeysInvert(env.db.ruleOf[i]);
    }
  }

  lemma RulesStayHonest(cfg: Config, env: Env, pod: Pod, targets: seq<string>, out: Outcome)
    requires Mirrors(env.db, pod)
    ensures var d := Evaluate(cfg, env, pod, targets, out);
            && d.attached == pod.attached && pod.nextOid <= d.nextOid
            && HonestRules(env.db, d.caches.rules)
  {
    NewRulesHonest(env, pod, Loaded(env, pod, targets), out);
    RulesAfterEvaluate(cfg, env, pod, targets, out);
  }

  /** A cached list after an evaluate: as before, or active rows in objects allocated by it. */
  lemma ListAfter(cfg: Config, env: Env, pod: Pod, targets: seq<string>, out: Outcome, name: string)
    requires DbOk(env.db) && Mirrors(env.db, pod)
    requires SchedulesKey(name) in Evaluate(cfg, env, pod, targets, out).caches.schedules
    ensures var d := Evaluate(cfg, env, pod, targets, out);
            var ss := d.caches.schedules[SchedulesKey(name)].value;
            && RowsOf(ss) == ActiveRows(env.db, name) && Honest(env.db, d.attached, ss) && Allocated(d, ss)
            && (Kept(pod, name, ss) || forall s | s in ss :: s in Loaded(env, pod, targets))
  {
    RulesAfterEvaluate(cfg, env, pod, targets, out);
    EvaluateRenews(cfg, env, pod, targets, out, name);
    var d := Evaluate(cfg, env, pod, targets, out);
    if !Kept(pod, name, d.caches.schedules[SchedulesKey(name)].value) {
      GroupIsHonest(env, pod, targets, name, d.nextOid);
    }
  }

  /** This list is the one that was cached. */
  predicate Kept(pod: Pod, name: string, ss: seq<Schedule>) {
    SchedulesKey(name) in pod.caches.schedules && ss == pod.caches.schedules[SchedulesKey(name)].value
  }

  /** A group just loaded: the active rows of its placement, in new objects without rules. */
  lemma GroupIsHonest(env: Env, pod: Pod, targets: seq<string>, name: string, nextOid: nat)
    requires DbOk(env.db) && Mirrors(env.db, pod) && name in Groups(Loaded(env, pod, targets))
    requires nextOid == pod.nextOid + |Loaded(env, pod, targets)|
    ensures var ss := Groups(Loaded(env, pod, targets))[name];
            && RowsOf(ss) == ActiveRows(env.db, name) && Honest(env.db, pod.attached, ss)
            && (forall s | s in ss :: s.oid < nextOid && s in Loaded(env, pod, targets))
  {
    LoadedHonest(env, pod, targets);
    GroupsAreActive(env, pod, targets, name);
    GroupsOk(env, pod, targets, name);
  }

  lemma EvaluateMirrors(cfg: Config, env: Env, pod: Pod, targets: seq<string>, out: Outcome)
    requires DbOk(env.db) && Mirrors(env.db, pod)
    ensures Mirrors(env.db, Evaluate(cfg, env, pod, targets, out))
  {
    var d := Evaluate(cfg, env, pod, targets, out);
    RulesStayHonest(cfg, env, pod, targets, out);
    LoadedHonest(env, pod, targets);
    forall name | SchedulesKey(name) in d.caches.schedules
      ensures var ss := d.caches.schedules[SchedulesKey(name)].value;
              RowsOf(ss) == ActiveRows(env.db, name) && Honest(env.db, d.attached, ss) && Allocated(d, ss)
    {
      ListAfter(cfg, env, pod, targets, out, name);
    }
    forall m, n | SchedulesKey(m) in d.caches.schedules && SchedulesKey(n) in d.caches.schedules
      ensures SameObjects(d.caches.schedules[SchedulesKey(m)].value, d.caches.schedules[SchedulesKey(n)].value)
    {
      ListAfter(cfg, env, pod, targets, out, m);
      ListAfter(cfg, env, pod, targets, out, n);
    }
  }

  /** Removing entries keeps the invariant. */
  lemma DropMirrors(db: Db, pod: Pod, caches: Caches)
    requires Mirrors(db, pod)
    requires forall k | k in caches.schedules :: k in pod.caches.schedules && caches.schedules[k] == pod.caches.schedules[k]
    requires forall k | k in caches.rules :: k in pod.caches.rules && caches.rules[k] == pod.caches.rules[k]
    ensures Mirrors(db, pod.(caches := caches))
  {}

  // -------------------------------------------------------------------- requests

  /** What holds of the objects a request has taken. */
  ghost predicate Held(db: Db, pod: Pod, got: seq<Schedule>) {
    && Honest(db, pod.attached, got) && Allocated(pod, got) && SameObjects(got, got)
    && forall name | SchedulesKey(name) in pod.caches.schedules ::
         SameObjects(got, pod.caches.schedules[SchedulesKey(name)].value)
  }

  lemma EvaluateHeld(cfg: Config, env: Env, pod: Pod, out: Outcome, got: seq<Schedule>)
    requires DbOk(env.db) && Mirrors(env.db, pod) && Held(env.db, pod, got)
    ensures Held(env.db, Evaluate(cfg, env, pod, [], out), got)
  {
    var d := Evaluate(cfg, env, pod, [], out);
    RulesStayHonest(cfg, env, pod, [], out);
    LoadedHonest(env, pod, []);
    forall name | SchedulesKey(name) in d.caches.schedules
      ensures SameObjects(got, d.caches.schedules[SchedulesKey(name)].value)
    {
      ListAfter(cfg, env, pod, [], out, name);
    }
  }

  lemma HoldMore(db: Db, pod: Pod, got: seq<Schedule>, name: string)
    requires Mirrors(db, pod) && Held(db, pod, got) && SchedulesKey(name) in pod.caches.schedules
    ensures Held(db, pod, got + pod.caches.schedules[SchedulesKey(name)].value)
  {
    var ss := pod.caches.schedules[SchedulesKey(name)].value;
    forall s | s in got + ss ensures s in got || s in ss {}
  }

  /** The taken objects of each finished placement are its active rows; of the others, none. */
  ghost predicate TakenRows(db: Db, got: seq<Schedule>, taken: set<string>) {
    forall name :: RowsOf(Filter(At(name), got)) == if name in taken then ActiveRows(db, name) else []
  }

  lemma TakeRows(cfg: Config, db: Db, pod: Pod, got: seq<Schedule>, taken: set<string>, name: string)
    requires Mirrors(db, pod) && ListsOk(cfg, pod.caches) && TakenRows(db, got, taken)
    requires name !in taken && SchedulesKey(name) in pod.caches.schedules
    ensures TakenRows(db, got + pod.caches.schedules[SchedulesKey(name)].value, taken + {name})
  {
    var ss := pod.caches.schedules[SchedulesKey(name)].value;
    assert ListOk(cfg, pod.caches, name);
    forall n ensures RowsOf(Filter(At(n), got + ss)) == if n in taken + {name} then ActiveRows(db, n) else [] {
      FilterConcat(At(n), got, ss);
      assert RowsOf(Filter(At(n), got)) == if n in taken then ActiveRows(db, n) else [];
      FilterAllOrNone(ss, name, n);
      assert RowsOf(Filter(At(n), got) + Filter(At(n), ss)) == RowsOf(Filter(At(n), got)) + RowsOf(Filter(At(n), ss));
    }
  }

  lemma {:induction false} FilterAllOrNone(ss: seq<Schedule>, name: string, n: string)
    requires forall s | s in ss :: s.row.placement == Some(name)
    ensures Filter(At(n), ss) == if n == name then ss else []
  {
    if ss != [] {
      FilterAllOrNone(ss[1..], name, n);
      assert ss[0] in ss && ss == [ss[0]] + ss[1..];
    }
  }

  /** A request in progress over `names`: everything taken is right, everything else is missed. */
  ghost predicate TakingTrue(cfg: Config, env: Env, t: Progress, names: set<string>) {
    && Mirrors(env.db, t.pod)
    && (t.Taking? ==>
          && t.missed <= names && Held(env.db, t.pod, t.got)
          && TakenRows(env.db, t.got, names - t.missed))
  }

  lemma LookTrue(cfg: Config, env: Env, pod: Pod, got: seq<Schedule>, missed: set<string>, name: string, names: set<string>)
    requires Mirrors(env.db, pod) && ListsOk(cfg, pod.caches) && Held(env.db, pod, got)
    requires missed <= names && name !in names && TakenRows(env.db, got, names - missed)
    ensures TakingTrue(cfg, env, Look(pod, got, missed, name), names + {name})
  {
    if SchedulesKey(name) in pod.caches.schedules {
      HoldMore(env.db, pod, got, name);
      TakeRows(cfg, env.db, pod, got, names - missed, name);
      assert (names + {name}) - missed == (names - missed) + {name};
    } else {
      assert (names + {name}) - (missed + {name}) == names - missed;
    }
  }

  lemma TakeOneTrue(cfg: Config, env: Env, t: Progress, name: string, heal: Outcome, names: set<string>)
    requires DbOk(env.db) && TakingOk(cfg, env, t) && TakingTrue(cfg, env, t, names) && name !in names
    ensures TakingTrue(cfg, env, TakeOne(cfg, env, t, name, heal), names + {name})
  {
    if t.Taking? {
      var stale := StaleAt(cfg, env, t.pod.caches, name);
      var pod := if stale then Evaluate(cfg, env, t.pod, [], heal) else t.pod;
      EvaluateMirrors(cfg, env, t.pod, [], heal);
      EvaluateHeld(cfg, env, t.pod, heal, t.got);
      EvaluateOk(cfg, env, t.pod, [], heal);
      LookTrue(cfg, env, pod, t.got, t.missed, name, names);
    }
  }

  lemma {:induction false} TakeAllTrue(cfg: Config, env: Env, pod: Pod, names: seq<string>, heals: seq<Outcome>)
    requires |heals| == |names| && DbOk(env.db) && Mirrors(env.db, pod) && ListsOk(cfg, pod.caches)
    requires forall i, j | 0 <= i < j < |names| :: names[i] != names[j]
    ensures TakingTrue(cfg, env, TakeAll(cfg, env, pod, names, heals), Names(names))
  {
    if names != [] {
      var m := |names| - 1;
      TakeAllTrue(cfg, env, pod, names[..m], heals[..m]);
      TakeAllOk(cfg, env, pod, names[..m], heals[..m]);
      TakeOneTrue(cfg, env, TakeAll(cfg, env, pod, names[..m], heals[..m]), names[m], heals[m],
                  Names(names[..m]));
      assert names == names[..m] + [names[m]];
      assert Names(names) == Names(names[..m]) + {names[m]};
    }
  }

  /** Without pressure a full evaluate caches every placement that has active rows. */
  lemma EvaluateCachesAll(cfg: Config, env: Env, pod: Pod, out: Outcome, name: string)
    requires DbOk(env.db) && out.listOk && !env.pressure
    ensures SchedulesKey(name) in Evaluate(cfg, env, pod, [], out).caches.schedules || ActiveRows(env.db, name) == []
  {
    GroupsAreActive(env, pod, [], name);
    ByKeyAt(Groups(Loaded(env, pod, [])), name);
  }

  /** The pod's caches mirror the database and are well stamped. */
  ghost function Sound(cfg: Config, db: Db, pod: Pod): Claim {
    Claim(Mirrors(db, pod) && ListsOk(cfg, pod.caches))
  }

  /** The taken objects are in order and are the active rows of the placements in `taken`. */
  ghost function Took(db: Db, pod: Pod, got: seq<Schedule>, taken: set<string>): Claim {
    Claim(Held(db, pod, got) && TakenRows(db, got, taken))
  }

  lemma CollectStep(cfg: Config, db: Db, pod: Pod, before: seq<Schedule>, q: string, done: set<string>)
    requires Sound(cfg, db, pod).holds && Took(db, pod, before, done).holds && q !in done
    requires SchedulesKey(q) in pod.caches.schedules || ActiveRows(db, q) == []
    ensures Took(db, pod, before + Lookup(pod.caches.schedules, SchedulesKey(q)).GetOr([]), done + {q}).holds
  {
    if SchedulesKey(q) in pod.caches.schedules {
      HoldMore(db, pod, before, q);
      TakeRows(cfg, db, pod, before, done, q);
    } else {
      assert before + [] == before;
    }
  }

  /** Collecting a distinct walk of placements takes each one's active rows. */
  lemma {:induction false} CollectTrue(cfg: Config, db: Db, pod: Pod, got: seq<Schedule>, order: seq<string>, taken: set<string>)
    requires Sound(cfg, db, pod).holds && Took(db, pod, got, taken).holds
    requires forall n | n in order :: n !in taken
    requires forall i, j | 0 <= i < j < |order| :: order[i] != order[j]
    requires forall n | n in order :: SchedulesKey(n) in pod.caches.schedules || ActiveRows(db, n) == []
    ensures Took(db, pod, got + Collect(pod.caches, order), taken + Names(order)).holds
  {
    if order == [] {
      assert got + Collect(pod.caches, order) == got && taken + Names(order) == taken;
    } else {
      var m := |order| - 1;
      var init, q := order[..m], order[m];
      CollectShape(pod.caches, got, order, taken);
      CollectTrue(cfg, db, pod, got, init, taken);
      CollectStep(cfg, db, pod, got + Collect(pod.caches, init), q, taken + Names(init));
    }
  }

  /** The last step of a walk, and what the steps before it lack. */
  lemma CollectShape(c: Caches, got: seq<Schedule>, order: seq<string>, taken: set<string>)
    requires order != []
    requires forall n | n in order :: n !in taken
    requires forall i, j | 0 <= i < j < |order| :: order[i] != order[j]
    ensures var init, q := order[..|order| - 1], order[|order| - 1];
            && taken + Names(order) == taken + Names(init) + {q} && q !in taken + Names(init) && q in order
            && (forall n | n in init :: n in order)
            && got + Collect(c, order) == got + Collect(c, init) + Lookup(c.schedules, SchedulesKey(q)).GetOr([])
  {
    var init, q := order[..|order| - 1], order[|order| - 1];
    assert order == init + [q];
  }

  function Names(order: seq<string>): set<string> {
    set n | n in order
  }

  lemma EvaluateTrue(cfg: Config, env: Env, pod: Pod, out: Outcome, got: seq<Schedule>, taken: set<string>)
    requires DbOk(env.db) && Sound(cfg, env.db, pod).holds && Took(env.db, pod, got, taken).holds
    ensures var d := Evaluate(cfg, env, pod, [], out);
            Sound(cfg, env.db, d).holds && Took(env.db, d, got, taken).holds
  {
    EvaluateMirrors(cfg, env, pod, [], out);
    EvaluateHeld(cfg, env, pod, out, got);
    EvaluateOk(cfg, env, pod, [], out);
  }

  lemma RetryTrue(cfg: Config, env: Env, t: Progress, order: seq<string>, retry: Outcome, names: set<string>)
    requires DbOk(env.db) && !env.pressure && retry.listOk
    requires t.Taking? && Walks(order, t.missed) && t.missed <= names
    requires Sound(cfg, env.db, t.pod).holds && Took(env.db, t.pod, t.got, names - t.missed).holds
    ensures var u := Retry(cfg, env, t, order, retry);
            Sound(cfg, env.db, u.pod).holds && Took(env.db, u.pod, u.got, names).holds
  {
    if t.missed == {} {
      assert names - t.missed == names;
    } else {
      RetryCollects(cfg, env, t.pod, t.got, t.missed, order, retry, names);
    }
  }

  lemma RetryCollects(cfg: Config, env: Env, pod: Pod, got: seq<Schedule>, missed: set<string>, order: seq<string>,
                      retry: Outcome, names: set<string>)
    requires DbOk(env.db) && !env.pressure && retry.listOk && Walks(order, missed) && missed <= names
    requires Sound(cfg, env.db, pod).holds && Took(env.db, pod, got, names - missed).holds
    ensures var d := Evaluate(cfg, env, pod, [], retry);
            Sound(cfg, env.db, d).holds && Took(env.db, d, got + Collect(d.caches, order), names).holds
  {
    var d := Evaluate(cfg, env, pod, [], retry);
    EvaluateTrue(cfg, env, pod, retry, got, names - missed);
    AllCached(cfg, env, pod, retry, order);
    WalkFits(order, missed, names);
    CollectTrue(cfg, env.db, d, got, order, names - missed);
  }

  lemma WalkFits(order: seq<string>, missed: set<string>, names: set<string>)
    requires Walks(order, missed) && missed <= names
    ensures (names - missed) + Names(order) == names
    ensures forall n | n in order :: n !in names - missed
  {
    assert Names(order) == missed;
  }

  lemma AllCached(cfg: Config, env: Env, pod: Pod, out: Outcome, order: seq<string>)
    requires DbOk(env.db) && out.listOk && !env.pressure
    ensures forall n | n in order ::
              SchedulesKey(n) in Evaluate(cfg, env, pod, [], out).caches.schedules || ActiveRows(env.db, n) == []
  {
    forall n | n in order
      ensures SchedulesKey(n) in Evaluate(cfg, env, pod, [], out).caches.schedules || ActiveRows(env.db, n) == []
    {
      EvaluateCachesAll(cfg, env, pod, out, n);
    }
  }

  // ------------------------------------------------------------ attaching rules

  /** An attached rule that is the database's rule for some object with that identity. */
  ghost predicate RightRule(db: Db, ss: seq<Schedule>, o: nat, copy: RuleCopy) {
    exists s | s in ss :: s.oid == o && HasRule(db, s.row.id) && copy.rule == RuleOf(db, s.row.id)
  }

  lemma CachedRuleIsRight(db: Db, rules: Store<RuleCopy>, row: ScheduleRow)
    requires RowOk(db, row) && RuleKey(row.ruleId) in rules
    requires HonestRules(db, rules)
    ensures HasRule(db, row.id) && rules[RuleKey(row.ruleId)].value.rule == RuleOf(db, row.id)
  {
    assert HonestRule(db, RuleKey(row.ruleId), rules[RuleKey(row.ruleId)].value.rule);
    RuleKeyInjective(row.ruleId, rules[RuleKey(row.ruleId)].value.rule.id);
  }

  lemma {:induction false} CachePassRight(db: Db, attached: map<nat, RuleCopy>, rules: Store<RuleCopy>, ss: seq<Schedule>)
    requires forall s | s in ss :: RowOk(db, s.row)
    requires HonestRules(db, rules)
    ensures var a := AttachCached(attached, rules, ss);
            && (forall o | o in attached :: o in a)
            && (forall o | o in a :: (o in attached && a[o] == attached[o]) || RightRule(db, ss, o, a[o]))
            && (forall s | s in ss && s.row.ruleId != NIL_UUID :: s.oid in a || s.row.id in MissedRules(attached, rules, ss))
  {
    if ss != [] {
      var init, s := ss[..|ss| - 1], ss[|ss| - 1];
      assert ss == init + [s];
      CachePassRight(db, attached, rules, init);
      var a, b := AttachCached(attached, rules, init), AttachCached(attached, rules, ss);
      if RuleKey(s.row.ruleId) in rules {
        CachedRuleIsRight(db, rules, s.row);
      }
      forall o | o in b ensures (o in attached && b[o] == attached[o]) || RightRule(db, ss, o, b[o]) {
        if o in a && a[o] == b[o] && RightRule(db, init, o, a[o]) {
          var u :| u in init && u.oid == o && HasRule(db, u.row.id) && a[o].rule == RuleOf(db, u.row.id);
          assert u in ss;
        } else if o == s.oid {
          assert s in ss;
        }
      }
    }
  }

  lemma {:induction false} FetchPassRight(db: Db, attached: map<nat, RuleCopy>, ids: set<string>, no: nat, ss: seq<Schedule>)
    ensures var fetched := FetchRules(db, ids, no); var a := AttachFetched(attached, fetched, ss);
            && (forall o | o in attached :: o in a)
            && (forall o | o in a :: (o in attached && a[o] == attached[o]) || RightRule(db, ss, o, a[o]))
            && (forall s | s in ss && s.row.id in fetched :: s.oid in a)
  {
    if ss != [] {
      var init, s := ss[..|ss| - 1], ss[|ss| - 1];
      assert ss == init + [s];
      FetchPassRight(db, attached, ids, no, init);
      var fetched := FetchRules(db, ids, no);
      var a, b := AttachFetched(attached, fetched, init), AttachFetched(attached, fetched, ss);
      forall o | o in b ensures (o in attached && b[o] == attached[o]) || RightRule(db, ss, o, b[o]) {
        if s.row.id in fetched && o == s.oid {
          assert s in ss;
        } else if RightRule(db, init, o, a[o]) {
          var u :| u in init && u.oid == o && HasRule(db, u.row.id) && a[o].rule == RuleOf(db, u.row.id);
          assert u in ss;
        }
      }
    }
  }

  /** Attaching only ever adds right rules; with a working database it misses none. */
  lemma AttachRight(cfg: Config, env: Env, pod: Pod, ss: seq<Schedule>, rulesOk: bool)
    requires Mirrors(env.db, pod) && forall s | s in ss :: RowOk(env.db, s.row)
    ensures var a := AttachRules(cfg, env, pod, ss, rulesOk).attached;
            && (forall o | o in pod.attached :: o in a)
            && (forall o | o in a :: (o in pod.attached && a[o] == pod.attached[o]) || RightRule(env.db, ss, o, a[o]))
            && (rulesOk ==> forall s | s in ss && HasRule(env.db, s.row.id) :: s.oid in a)
  {
    var rules := pod.caches.rules;
    assert HonestRules(env.db, rules);
    CachePassRight(env.db, pod.attached, rules, ss);
    var b := AttachCached(pod.attached, rules, ss);
    var missed := MissedRules(pod.attached, rules, ss);
    FetchPassRight(env.db, b, missed, pod.nextRead, ss);
  }

  /** Rules honestly attached to taken objects stay honest on every object of the same identity. */
  lemma AttachHonest(cfg: Config, env: Env, pod: Pod, ss: seq<Schedule>, rulesOk: bool, list: seq<Schedule>)
    requires Mirrors(env.db, pod) && Honest(env.db, pod.attached, ss)
    requires Honest(env.db, pod.attached, list) && SameObjects(ss, list)
    ensures Honest(env.db, AttachRules(cfg, env, pod, ss, rulesOk).attached, list)
  {
    AttachRight(cfg, env, pod, ss, rulesOk);
    var a := AttachRules(cfg, env, pod, ss, rulesOk).attached;
    forall u | u in list && u.oid in a
      ensures HasRule(env.db, u.row.id) && a[u.oid].rule == RuleOf(env.db, u.row.id)
    {
      if !(u.oid in pod.attached && a[u.oid] == pod.attached[u.oid]) {
        var s :| s in ss && s.oid == u.oid && HasRule(env.db, s.row.id) && a[u.oid].rule == RuleOf(env.db, s.row.id);
        assert s == u;
      }
    }
  }

  lemma {:induction false} BackfillHonest(db: Db, rules: Store<RuleCopy>, ids: set<string>, no: nat, ss: seq<Schedule>,
                                          exp: Option<Time>, pressure: bool)
    requires HonestRules(db, rules)
    ensures HonestRules(db, Backfill(rules, FetchRules(db, ids, no), ss, exp, pressure))
  {
    if ss != [] {
      BackfillHonest(db, rules, ids, no, ss[..|ss| - 1], exp, pressure);
      var fetched := FetchRules(db, ids, no);
      var id := ss[|ss| - 1].row.id;
      var r := Backfill(rules, fetched, ss[..|ss| - 1], exp, pressure);
      var b := Backfill(rules, fetched, ss, exp, pressure);
      forall k | k in b ensures HonestRule(db, k, b[k].value.rule) {
        assert k in r ==> HonestRule(db, k, r[k].value.rule);
        assert (k in r && b[k] == r[k]) || (id in fetched && k == RuleKey(fetched[id].rule.id) && b[k].value == fetched[id]);
      }
    }
  }

  lemma RulesHonestAfterAttach(cfg: Config, env: Env, pod: Pod, ss: seq<Schedule>, rulesOk: bool)
    requires HonestRules(env.db, pod.caches.rules)
    ensures var d := AttachRules(cfg, env, pod, ss, rulesOk);
            && d.caches.schedules == pod.caches.schedules && d.nextOid == pod.nextOid
            && HonestRules(env.db, d.caches.rules)
  {
    var missed := MissedRules(pod.attached, pod.caches.rules, ss);
    BackfillHonest(env.db, pod.caches.rules, missed, pod.nextRead, ss, Expiry(cfg, env), env.pressure);
    var d := AttachRules(cfg, env, pod, ss, rulesOk);
    if missed != {} && rulesOk {
      var b := Backfill(pod.caches.rules, FetchRules(env.db, missed, pod.nextRead), ss, Expiry(cfg, env), env.pressure);
      assert d.caches.rules == b;
      assert HonestRules(env.db, b);
    } else {
      assert d.caches.rules == pod.caches.rules;
    }
  }

  lemma AttachMirrors(cfg: Config, env: Env, pod: Pod, ss: seq<Schedule>, rulesOk: bool)
    requires Mirrors(env.db, pod) && Held(env.db, pod, ss)
    ensures Mirrors(env.db, AttachRules(cfg, env, pod, ss, rulesOk))
  {
    var d := AttachRules(cfg, env, pod, ss, rulesOk);
    AttachRight(cfg, env, pod, ss, rulesOk);
    assert HonestRules(env.db, pod.caches.rules);
    RulesHonestAfterAttach(cfg, env, pod, ss, rulesOk);
    forall name | SchedulesKey(name) in d.caches.schedules
      ensures Honest(env.db, d.attached, d.caches.schedules[SchedulesKey(name)].value)
    {
      AttachHonest(cfg, env, pod, ss, rulesOk, pod.caches.schedules[SchedulesKey(name)].value);
    }
    forall o | o in d.attached ensures o < d.nextOid {
      if !(o in pod.attached && d.attached[o] == pod.attached[o]) {
        var s :| s in ss && s.oid == o && HasRule(env.db, s.row.id) && d.attached[o].rule == RuleOf(env.db, s.row.id);
      }
    }
  }

  // ------------------------------------------------------------- what is handed over

  /** The handed-over pairs as rows with rule contents. */
  function Contents(handed: seq<(ScheduleRow, RuleCopy)>): seq<(ScheduleRow, DecisionRule)> {
    Map((h: (ScheduleRow, RuleCopy)) => (h.0, h.1.rule), handed)
  }

  function PairUp(attached: map<nat, RuleCopy>, ss: seq<Schedule>): seq<(ScheduleRow, DecisionRule)> {
    if ss == [] then []
    else
      var init, s := PairUp(attached, ss[..|ss| - 1]), ss[|ss| - 1];
      if s.oid in attached then init + [(s.row, attached[s.oid].rule)] else init
  }

  lemma {:induction false} HandedPairs(t: Progress, name: string)
    requires t.Taking?
    ensures Contents(Handed(t, name)) == PairUp(t.pod.attached, Filter(At(name), t.got))
    decreases |t.got|
  {
    if t.got == [] {
      assert Contents(Handed(t, name)) == [];
    } else {
      var init, s := t.got[..|t.got| - 1], t.got[|t.got| - 1];
      assert t.got == init + [s];
      HandedPairs(t.(got := init), name);
      HandedSnoc(t.(got := init), s, name);
      PairUpSnoc(t.pod.attached, init, s, name);
    }
  }

  lemma HandedSnoc(t: Progress, s: Schedule, name: string)
    requires t.Taking?
    ensures Contents(Handed(t.(got := t.got + [s]), name)) ==
            Contents(Handed(t, name)) +
            if HasRuleAt(name, t.pod.attached)(s) then [(s.row, t.pod.attached[s.oid].rule)] else []
  {
    FilterSnoc(HasRuleAt(name, t.pod.attached), t.got, s);
    var ss := Filter(HasRuleAt(name, t.pod.attached), t.got + [s]);
    assert Contents(Handed(t.(got := t.got + [s]), name)) ==
           seq(|ss|, i requires 0 <= i < |ss| => assert ss[i] in ss; (ss[i].row, t.pod.attached[ss[i].oid].rule));
  }

  lemma PairUpSnoc(attached: map<nat, RuleCopy>, init: seq<Schedule>, s: Schedule, name: string)
    ensures PairUp(attached, Filter(At(name), init + [s])) ==
            PairUp(attached, Filter(At(name), init)) +
            if HasRuleAt(name, attached)(s) then [(s.row, attached[s.oid].rule)] else []
  {
    FilterSnoc(At(name), init, s);
    var kept := Filter(At(name), init);
    assert (kept + [s])[..|kept|] == kept;
    assert kept + [] == kept;
  }

  /** Objects with exactly the right rules attached pair up as the database would. */
  lemma {:induction false} PairsAreDirect(db: Db, attached: map<nat, RuleCopy>, ss: seq<Schedule>)
    requires Honest(db, attached, ss) && forall s | s in ss && HasRule(db, s.row.id) :: s.oid in attached
    ensures PairUp(attached, ss) == WithRules(db, RowsOf(ss))
  {
    if ss != [] {
      var init, s := ss[..|ss| - 1], ss[|ss| - 1];
      assert ss == init + [s];
      PairsAreDirect(db, attached, init);
      assert RowsOf(ss)[..|ss| - 1] == RowsOf(init);
    }
  }

  /** What a request hands over, given that what it took is right. */
  lemma HandsOverDirectly(cfg: Config, env: Env, pod: Pod, got: seq<Schedule>, missed: set<string>, names: set<string>,
                          name: string)
    requires Sound(cfg, env.db, pod).holds && Took(env.db, pod, got, names).holds && name in names
    ensures var t := Taking(AttachRules(cfg, env, pod, got, true), got, missed);
            Contents(Handed(t, name)) == DirectRead(env.db, name)
  {
    var t := Taking(AttachRules(cfg, env, pod, got, true), got, missed);
    var ss := Filter(At(name), got);
    AttachRight(cfg, env, pod, got, true);
    AttachHonest(cfg, env, pod, got, true, got);
    HandedPairs(t, name);
    PairsAreDirect(env.db, t.pod.attached, ss);
    assert RowsOf(ss) == ActiveRows(env.db, name);
  }

  // ------------------------------------------------------- theorems over histories

  /** A request keeps the mirror true, whichever of its reads fail. */
  lemma RequestMirrors(cfg: Config, w: World, e: Event)
    requires e.Serve? && Enabled(cfg, w, e) && DbOk(w.env.db) && Mirrors(w.env.db, w.pod) && ListsOk(cfg, w.pod.caches)
    ensures Mirrors(w.env.db, Response(cfg, w, e).pod)
  {
    TakeAllHeld(cfg, w.env, w.pod, e.names, e.heals);
    var t := TakeAll(cfg, w.env, w.pod, e.names, e.heals);
    if t.Taking? {
      RetryHeld(cfg, w.env, t, e.order, e.retry);
      var u := Retry(cfg, w.env, t, e.order, e.retry);
      AttachMirrors(cfg, w.env, u.pod, u.got, e.rulesOk);
    }
  }

  lemma TakeOneHeld(cfg: Config, env: Env, t: Progress, name: string, heal: Outcome)
    requires DbOk(env.db) && Mirrors(env.db, t.pod) && (t.Taking? ==> Held(env.db, t.pod, t.got))
    ensures var u := TakeOne(cfg, env, t, name, heal);
            Mirrors(env.db, u.pod) && (u.Taking? ==> Held(env.db, u.pod, u.got))
  {
    if t.Taking? {
      EvaluateMirrors(cfg, env, t.pod, [], heal);
      EvaluateHeld(cfg, env, t.pod, heal, t.got);
      var u := TakeOne(cfg, env, t, name, heal);
      if u.Taking? && SchedulesKey(name) in u.pod.caches.schedules {
        HoldMore(env.db, u.pod, t.got, name);
      }
    }
  }

  lemma {:induction false} TakeAllHeld(cfg: Config, env: Env, pod: Pod, names: seq<string>, heals: seq<Outcome>)
    requires |heals| == |names| && DbOk(env.db) && Mirrors(env.db, pod)
    ensures var t := TakeAll(cfg, env, pod, names, heals);
            Mirrors(env.db, t.pod) && (t.Taking? ==> Held(env.db, t.pod, t.got))
  {
    if names != [] {
      var m := |names| - 1;
      TakeAllHeld(cfg, env, pod, names[..m], heals[..m]);
      TakeOneHeld(cfg, env, TakeAll(cfg, env, pod, names[..m], heals[..m]), names[m], heals[m]);
    }
  }

  lemma {:induction false} CollectHeld(db: Db, pod: Pod, got: seq<Schedule>, order: seq<string>)
    requires Mirrors(db, pod) && Held(db, pod, got)
    ensures Held(db, pod, got + Collect(pod.caches, order))
  {
    if order == [] {
      assert got + Collect(pod.caches, order) == got;
    } else {
      var init, q := order[..|order| - 1], order[|order| - 1];
      var before := got + Collect(pod.caches, init);
      CollectHeld(db, pod, got, init);
      assert got + Collect(pod.caches, order) == before + Lookup(pod.caches.schedules, SchedulesKey(q)).GetOr([]);
      if SchedulesKey(q) in pod.caches.schedules {
        HoldMore(db, pod, before, q);
      } else {
        assert before + [] == before;
      }
    }
  }

  lemma RetryHeld(cfg: Config, env: Env, t: Progress, order: seq<string>, retry: Outcome)
    requires DbOk(env.db) && t.Taking? && Mirrors(env.db, t.pod) && Held(env.db, t.pod, t.got)
    ensures var u := Retry(cfg, env, t, order, retry);
            Mirrors(env.db, u.pod) && Held(env.db, u.pod, u.got)
  {
    if t.missed != {} {
      EvaluateMirrors(cfg, env, t.pod, [], retry);
      EvaluateHeld(cfg, env, t.pod, retry, t.got);
      CollectHeld(env.db, Evaluate(cfg, env, t.pod, [], retry), t.got, order);
    }
  }

  /** Every step over a constant database keeps the mirror true. */
  lemma StepMirrors(cfg: Config, w: World, e: Event)
    requires Enabled(cfg, w, e) && DbOk(w.env.db) && Mirrors(w.env.db, w.pod) && ListsOk(cfg, w.pod.caches)
    ensures Mirrors(w.env.db, Step(cfg, w, e).pod)
  {
    match e
    case Advance(to) => DropMirrors(w.env.db, w.pod, Expire(w.pod.caches, to));
    case ChangeDb(_) =>
    case ChangePressure(_) =>
    case Tick(out) => EvaluateMirrors(cfg, w.env, w.pod, [], out);
    case FlushCache(names, isEvaluate, out) =>
      var flushed := if names == [] then NO_CACHES else FlushNames(w.pod.caches, w.pod.attached, names);
      FlushShrinks(w.pod.caches, w.pod.attached, names);
      DropMirrors(w.env.db, w.pod, flushed);
      EvaluateMirrors(cfg, w.env, w.pod.(caches := flushed), [], out);
    case Receive(_, _) =>
    case Fire(out) =>
      var pod := w.pod.(caches := Invalidate(w.pod.caches, w.pending.value));
      DropMirrors(w.env.db, w.pod, pod.caches);
      EvaluateMirrors(cfg, w.env, pod, if w.pending.value.placement == "" then [] else [w.pending.value.placement], out);
    case Serve(_, _, _, _, _) => RequestMirrors(cfg, w, e);
  }

  ghost predicate ConstantDb(ws: seq<World>, db: Db) {
    forall i | 0 <= i < |ws| :: ws[i].env.db == db
  }

  lemma {:induction false} HistoryMirrors(cfg: Config, ws: seq<World>, es: seq<Event>, env: Env, i: nat)
    requires IsHistory(cfg, ws, es) && ws[0] == Cold(env) && ConstantDb(ws, env.db) && DbOk(env.db) && i <= |es|
    ensures Mirrors(env.db, ws[i].pod)
  {
    if i > 0 {
      HistoryMirrors(cfg, ws, es, env, i - 1);
      HistoryOk(cfg, ws, es, env, i - 1);
      StepMirrors(cfg, ws[i - 1], es[i - 1]);
    }
  }

  /** All the database reads of a request succeed. */
  predicate ReadsSucceed(e: Event) {
    e.Serve? && e.retry.listOk && e.rulesOk
  }

  /**
   * Cache transparency. Whatever ticks, pings, flushes, expiries, pressure and failing reads came
   * before, a request for distinct placements that is not refused, whose own reads succeed and
   * which meets no pressure, hands over exactly what a direct database read would.
   */
  lemma CacheTransparency(cfg: Config, ws: seq<World>, es: seq<Event>, env: Env, i: nat, name: string)
    requires IsHistory(cfg, ws, es) && ws[0] == Cold(env) && ConstantDb(ws, env.db) && DbOk(env.db)
    requires i < |es| && ReadsSucceed(es[i]) && !ws[i].env.pressure
    requires forall a, b | 0 <= a < b < |es[i].names| :: es[i].names[a] != es[i].names[b]
    requires name in es[i].names
    ensures var r := Response(cfg, ws[i], es[i]);
            r.Taking? ==> Contents(Handed(r, name)) == DirectRead(env.db, name)
  {
    var e, w := es[i], ws[i];
    HistoryMirrors(cfg, ws, es, env, i);
    HistoryOk(cfg, ws, es, env, i);
    TakeAllTrue(cfg, w.env, w.pod, e.names, e.heals);
    TakeAllOk(cfg, w.env, w.pod, e.names, e.heals);
    var t := TakeAll(cfg, w.env, w.pod, e.names, e.heals);
    if t.Taking? {
      RetryTrue(cfg, w.env, t, e.order, e.retry, Names(e.names));
      var u := Retry(cfg, w.env, t, e.order, e.retry);
      HandsOverDirectly(cfg, w.env, u.pod, u.got, u.missed, Names(e.names), name);
    }
  }
}

/**
 * The mirror protocol on values: what each operation of the delivery service does to the four
 * caches, to the DecisionRule pointers of loaded schedules, and to nothing else. One evaluate,
 * flush, ping or request is one atomic step: the code holds no lock across an evaluate, so
 * everything proved from this model is about serial histories.
 */
module Mirror {
  import opened Wrappers
  import opened Sequences
  import opened MemoryCache

  const MINUTE := 60_000_000_000

  datatype ScheduleRow = ScheduleRow(id: string, updatedAt: string, ruleId: string, placement: Option<string>)

  /** A loaded schedule object: its identity, when its row was read, and the row. */
  datatype Schedule = Schedule(oid: nat, readAt: Time, row: ScheduleRow)

  datatype DecisionRule = DecisionRule(id: string, body: string)

  /** A loaded rule object: the database read that produced it, and its contents. */
  datatype RuleCopy = RuleCopy(readNo: nat, rule: DecisionRule)

  /** An active occurrence; its preloaded schedule may be missing. */
  datatype Occurrence = Occurrence(scheduleId: string, rowPlacement: string, schedule: Option<ScheduleRow>)

  /** A database snapshot: active occurrences, each schedule's rule, rule contents. */
  datatype Db = Db(occurrences: seq<Occurrence>, ruleOf: map<string, string>, rules: map<string, string>)

  datatype Caches = Caches(
    schedules: Store<seq<Schedule>>,
    rules: Store<RuleCopy>,
    versions: Store<string>,
    syncs: Store<Time>)

  /**
   * The service's memory: the live cache entries, the DecisionRule field of every schedule
   * object that has one (so lists sharing an object share its rule), and two allocators.
   */
  datatype Pod = Pod(caches: Caches, attached: map<nat, RuleCopy>, nextOid: nat, nextRead: nat)

  /** What the outside fixes during one step. */
  datatype Env = Env(now: Time, pressure: bool, db: Db)

  /** Configuration: cache TTL, the caches' default TTL, tick interval, and the hash function. */
  datatype Config = Config(ttl: int, defaultTtl: int, tickInterval: int, sha: string -> string)

  /** Whether the two database reads of an evaluate succeed. */
  datatype Outcome = Outcome(listOk: bool, rulesOk: bool)

  // --------------------------------------------------------------------- keys

  const SCHEDULES_PREFIX := "schedules:placement:"
  const RULE_PREFIX := "rule:"

  function SchedulesKey(name: string): string { SCHEDULES_PREFIX + name }

  function RuleKey(id: string): string { RULE_PREFIX + id }

  /** strings.TrimPrefix. */
  function TrimPrefix(s: string, prefix: string): string {
    if prefix <= s then s[|prefix|..] else s
  }

  lemma KeysInvert(name: string)
    ensures TrimPrefix(SchedulesKey(name), SCHEDULES_PREFIX) == name
    ensures TrimPrefix(RuleKey(name), RULE_PREFIX) == name
  {
    assert SchedulesKey(name)[|SCHEDULES_PREFIX|..] == name;
    assert RuleKey(name)[|RULE_PREFIX|..] == name;
  }

  // ------------------------------------------------------------- database reads

  /** The listing an evaluate asks for: everything, or the named placements only. */
  function Listing(db: Db, targets: seq<string>): seq<Occurrence> {
    if targets == [] then db.occurrences
    else Filter(InTargets(targets), db.occurrences)
  }

  function InTargets(targets: seq<string>): Occurrence -> bool {
    (o: Occurrence) => o.rowPlacement in targets
  }

  /** Schedules already taken from a prefix of the listing. */
  function SeenIds(occs: seq<Occurrence>): set<string> {
    set o | o in occs && o.schedule.Some? :: o.scheduleId
  }

  /** One row per schedule: the first occurrence with a loaded schedule wins. */
  function Dedup(occs: seq<Occurrence>): seq<ScheduleRow> {
    if occs == [] then []
    else
      var init, last := occs[..|occs| - 1], occs[|occs| - 1];
      if last.schedule.None? || last.scheduleId in SeenIds(init) then Dedup(init)
      else Dedup(init) + [last.schedule.value]
  }

  /** Fresh objects for freshly read rows. */
  function Load(rows: seq<ScheduleRow>, base: nat, now: Time): (ss: seq<Schedule>)
    ensures |ss| == |rows|
    ensures forall i | 0 <= i < |rows| :: ss[i] == Schedule(base + i, now, rows[i])
  {
    seq(|rows|, i requires 0 <= i < |rows| => Schedule(base + i, now, rows[i]))
  }

  predicate Placed(s: Schedule) {
    s.row.placement.Some? && s.row.placement.value != ""
  }

  function At(name: string): Schedule -> bool {
    (s: Schedule) => s.row.placement == Some(name)
  }

  /** Schedules by placement name; unnamed placements are skipped. */
  function Groups(ss: seq<Schedule>): map<string, seq<Schedule>> {
    map n | n in (set s | s in ss && Placed(s) :: s.row.placement.value) :: Filter(At(n), ss)
  }

  function ByKey(groups: map<string, seq<Schedule>>): map<string, seq<Schedule>> {
    map k | k in (set n | n in groups :: SchedulesKey(n)) && TrimPrefix(k, SCHEDULES_PREFIX) in groups ::
      groups[TrimPrefix(k, SCHEDULES_PREFIX)]
  }

  function HashInput(ss: seq<Schedule>): string {
    if ss == [] then ""
    else HashInput(ss[..|ss| - 1]) + ss[|ss| - 1].row.id + ss[|ss| - 1].row.updatedAt
  }

  function PlacementHash(cfg: Config, ss: seq<Schedule>): string {
    cfg.sha(HashInput(ss))
  }

  predicate HasRule(db: Db, scheduleId: string) {
    scheduleId in db.ruleOf && db.ruleOf[scheduleId] != NIL_UUID && db.ruleOf[scheduleId] in db.rules
  }

  /** The rule of each asked schedule that has one, all from one read. */
  function FetchRules(db: Db, ids: set<string>, readNo: nat): map<string, RuleCopy> {
    map i | i in ids && HasRule(db, i) :: RuleCopy(readNo, DecisionRule(db.ruleOf[i], db.rules[db.ruleOf[i]]))
  }

  /** The fetched rules under their cache keys. */
  function KeyRules(db: Db, ids: set<string>, readNo: nat): map<string, RuleCopy> {
    map k | k in (set i | i in ids && HasRule(db, i) :: RuleKey(db.ruleOf[i])) &&
            TrimPrefix(k, RULE_PREFIX) in db.rules ::
      RuleCopy(readNo, DecisionRule(TrimPrefix(k, RULE_PREFIX), db.rules[TrimPrefix(k, RULE_PREFIX)]))
  }

  // ------------------------------------------------------------------ evaluate

  function Expiry(cfg: Config, env: Env): Option<Time> {
    Deadline(cfg.ttl, cfg.defaultTtl, env.now)
  }

  /** UpdateSchedules: the four caches become the new sets, as far as pressure admits new keys. */
  function UpdateSchedules(c: Caches, schedules: map<string, seq<Schedule>>, rules: map<string, RuleCopy>,
                           versions: map<string, string>, cfg: Config, env: Env): Caches {
    var exp, p := Expiry(cfg, env), env.pressure;
    Caches(ReplaceAll(c.schedules, schedules, exp, p),
           ReplaceAll(c.rules, rules, exp, p),
           ReplaceAll(c.versions, versions, exp, p),
           ReplaceAll(c.syncs, SyncStamps(schedules, env.now), exp, p))
  }

  function SyncStamps(schedules: map<string, seq<Schedule>>, now: Time): map<string, Time> {
    var names := set k | k in schedules :: TrimPrefix(k, SCHEDULES_PREFIX);
    map n | n in names :: now
  }

  /** The rule keys a list refers to. */
  function RuleKeysOf(ss: seq<Schedule>): set<string> {
    set s | s in ss && s.row.ruleId != NIL_UUID :: RuleKey(s.row.ruleId)
  }

  /** The rule keys some cached schedule refers to. */
  function UsedRuleKeys(schedules: Store<seq<Schedule>>): set<string> {
    set k, key | k in schedules && key in RuleKeysOf(schedules[k].value) :: key
  }

  /** PruneOrphanedRules keeps exactly the cached rules some cached schedule refers to. */
  function Prune(c: Caches): Caches {
    c.(rules := map k | k in c.rules && k in UsedRuleKeys(c.schedules) :: c.rules[k])
  }

  /** A targeted refresh: set the named entries and their rules, then prune. */
  function RefreshTargets(c: Caches, groups: map<string, seq<Schedule>>, rules: map<string, RuleCopy>,
                          cfg: Config, env: Env): Caches {
    var exp, p := Expiry(cfg, env), env.pressure;
    Prune(Caches(PutAll(c.schedules, ByKey(groups), exp, p),
                 PutAll(c.rules, rules, exp, p),
                 PutAll(c.versions, Versions(groups, cfg), exp, p),
                 PutAll(c.syncs, map n | n in groups :: env.now, exp, p)))
  }

  function Versions(groups: map<string, seq<Schedule>>, cfg: Config): map<string, string> {
    map n | n in groups :: PlacementHash(cfg, groups[n])
  }

  /** Targeted cleanup of one placement that has no active row: drop it, but stamp it as synced. */
  function ClearTarget(c: Caches, name: string, cfg: Config, env: Env): Caches {
    c.(schedules := c.schedules - {SchedulesKey(name)},
       versions := c.versions - {name},
       syncs := Put(c.syncs, name, env.now, Expiry(cfg, env), env.pressure))
  }

  function ClearTargets(c: Caches, names: seq<string>, cfg: Config, env: Env): Caches {
    if names == [] then c
    else ClearTarget(ClearTargets(c, names[..|names| - 1], cfg, env), names[|names| - 1], cfg, env)
  }

  /** The schedules an evaluate with a successful listing loads. */
  function Loaded(env: Env, pod: Pod, targets: seq<string>): seq<Schedule> {
    Load(Dedup(Listing(env.db, targets)), pod.nextOid, env.now)
  }

  function RowIds(ss: seq<Schedule>): set<string> {
    set s | s in ss :: s.row.id
  }

  function NewRules(env: Env, pod: Pod, ss: seq<Schedule>, out: Outcome): map<string, RuleCopy> {
    if out.rulesOk then KeyRules(env.db, RowIds(ss), pod.nextRead) else map[]
  }

  /** One evaluate; no targets means all placements. */
  function Evaluate(cfg: Config, env: Env, pod: Pod, targets: seq<string>, out: Outcome): Pod {
    if !out.listOk then pod
    else if targets != [] && Listing(env.db, targets) == [] then
      pod.(caches := ClearTargets(pod.caches, targets, cfg, env))
    else
      var ss := Loaded(env, pod, targets);
      var groups := Groups(ss);
      if groups == map[] then
        pod.(caches := UpdateSchedules(pod.caches, map[], map[], map[], cfg, env), nextOid := pod.nextOid + |ss|)
      else
        var rules := NewRules(env, pod, ss, out);
        var caches :=
          if targets == [] then
            UpdateSchedules(pod.caches, ByKey(groups), rules, Versions(groups, cfg), cfg, env)
          else RefreshTargets(pod.caches, groups, rules, cfg, env);
        pod.(caches := caches, nextOid := pod.nextOid + |ss|, nextRead := pod.nextRead + 1)
  }

  // --------------------------------------------------------------------- flush

  const NO_CACHES := Caches(map[], map[], map[], map[])

  /** The rule keys a selective flush evicts with a list: by attached rule, else by reference. */
  function FlushedRuleKeys(ss: seq<Schedule>, attached: map<nat, RuleCopy>): set<string> {
    set s | s in ss && (s.oid in attached || s.row.ruleId != NIL_UUID) ::
      RuleKey(if s.oid in attached then attached[s.oid].rule.id else s.row.ruleId)
  }

  function FlushOne(c: Caches, attached: map<nat, RuleCopy>, name: string): Caches {
    var key := SchedulesKey(name);
    Caches(c.schedules - {key},
           if key in c.schedules then c.rules - FlushedRuleKeys(c.schedules[key].value, attached) else c.rules,
           c.versions - {name}, c.syncs - {name})
  }

  function FlushNames(c: Caches, attached: map<nat, RuleCopy>, names: seq<string>): Caches {
    if names == [] then c
    else FlushOne(FlushNames(c, attached, names[..|names| - 1]), attached, names[|names| - 1])
  }

  function Flush(cfg: Config, env: Env, pod: Pod, names: seq<string>, isEvaluate: bool, out: Outcome): Pod {
    var flushed := pod.(caches := if names == [] then NO_CACHES else FlushNames(pod.caches, pod.attached, names));
    if isEvaluate then Evaluate(cfg, env, flushed, [], out) else flushed
  }

  // --------------------------------------------------------------------- pings

  datatype Ping = Ping(placement: string, version: string, ruleId: string)

  /** The mirror already holds the version the publisher announces. */
  predicate Mirrored(c: Caches, ping: Ping) {
    ping.version != "" && Lookup(c.versions, ping.placement) == Some(ping.version)
  }

  /** Targeted invalidation before the re-evaluation. */
  function Invalidate(c: Caches, ping: Ping): Caches {
    if ping.ruleId == "" then c
    else c.(rules := c.rules - {RuleKey(ping.ruleId)},
            schedules := if ping.placement == "" then c.schedules else c.schedules - {SchedulesKey(ping.placement)})
  }

  /** A ping after its jitter: skipped when already mirrored, else invalidate and evaluate. */
  function FirePing(cfg: Config, env: Env, pod: Pod, ping: Ping, out: Outcome): Pod {
    if Mirrored(pod.caches, ping) then pod
    else Evaluate(cfg, env, pod.(caches := Invalidate(pod.caches, ping)),
                  if ping.placement == "" then [] else [ping.placement], out)
  }

  // ------------------------------------------------------------------ requests

  function Threshold(cfg: Config): int {
    if cfg.tickInterval > 0 then 2 * cfg.tickInterval else 10 * MINUTE
  }

  predicate StaleAt(cfg: Config, env: Env, c: Caches, name: string) {
    name in c.syncs && env.now - c.syncs[name].value > Threshold(cfg)
  }

  /** The state of a request: lists taken so far and placements missed, or refused as stale. */
  datatype Progress =
    | Taking(pod: Pod, got: seq<Schedule>, missed: set<string>)
    | Refused(pod: Pod, name: string)

  /** One requested placement: heal once if stale, refuse if still stale, else take or miss. */
  function TakeOne(cfg: Config, env: Env, t: Progress, name: string, heal: Outcome): Progress {
    if t.Refused? then t
    else
      var stale := StaleAt(cfg, env, t.pod.caches, name);
      var pod := if stale then Evaluate(cfg, env, t.pod, [], heal) else t.pod;
      if stale && (name !in pod.caches.syncs || StaleAt(cfg, env, pod.caches, name)) then Refused(pod, name)
      else Look(pod, t.got, t.missed, name)
  }

  /** Take the placement's cached list, or note the miss. */
  function Look(pod: Pod, got: seq<Schedule>, missed: set<string>, name: string): Progress {
    match Lookup(pod.caches.schedules, SchedulesKey(name))
    case Some(ss) => Taking(pod, got + ss, missed)
    case None => Taking(pod, got, missed + {name})
  }

  function TakeAll(cfg: Config, env: Env, pod: Pod, names: seq<string>, heals: seq<Outcome>): Progress
    requires |heals| == |names|
  {
    if names == [] then Taking(pod, [], {})
    else
      var n := |names| - 1;
      TakeOne(cfg, env, TakeAll(cfg, env, pod, names[..n], heals[..n]), names[n], heals[n])
  }

  /** The lists now cached for `order`, one after another. */
  function Collect(c: Caches, order: seq<string>): seq<Schedule> {
    if order == [] then []
    else
      var n := |order| - 1;
      Collect(c, order[..n]) + Lookup(c.schedules, SchedulesKey(order[n])).GetOr([])
  }

  /** After a miss: evaluate once and look again, in whatever order the missed set is walked. */
  function Retry(cfg: Config, env: Env, t: Progress, order: seq<string>, retry: Outcome): Progress
    requires t.Taking?
  {
    if t.missed == {} then t
    else
      var pod := Evaluate(cfg, env, t.pod, [], retry);
      Taking(pod, t.got + Collect(pod.caches, order), t.missed)
  }

  predicate NeedsRule(s: Schedule, attached: map<nat, RuleCopy>) {
    s.oid !in attached && s.row.ruleId != NIL_UUID
  }

  /** Re-attach rules from the rule cache to the objects that lack one. */
  function AttachCached(attached: map<nat, RuleCopy>, rules: Store<RuleCopy>, ss: seq<Schedule>): map<nat, RuleCopy> {
    if ss == [] then attached
    else
      var a, s := AttachCached(attached, rules, ss[..|ss| - 1]), ss[|ss| - 1];
      if NeedsRule(s, a) && RuleKey(s.row.ruleId) in rules then a[s.oid := rules[RuleKey(s.row.ruleId)].value] else a
  }

  /** The rows whose rule the cache could not supply. */
  function MissedRules(attached: map<nat, RuleCopy>, rules: Store<RuleCopy>, ss: seq<Schedule>): set<string> {
    if ss == [] then {}
    else
      var init, s := ss[..|ss| - 1], ss[|ss| - 1];
      MissedRules(attached, rules, init) +
      if NeedsRule(s, AttachCached(attached, rules, init)) && RuleKey(s.row.ruleId) !in rules then {s.row.id} else {}
  }

  function AttachFetched(attached: map<nat, RuleCopy>, fetched: map<string, RuleCopy>, ss: seq<Schedule>): map<nat, RuleCopy> {
    if ss == [] then attached
    else
      var a, s := AttachFetched(attached, fetched, ss[..|ss| - 1]), ss[|ss| - 1];
      if s.row.id in fetched then a[s.oid := fetched[s.row.id]] else a
  }

  function Backfill(rules: Store<RuleCopy>, fetched: map<string, RuleCopy>, ss: seq<Schedule>,
                    exp: Option<Time>, pressure: bool): Store<RuleCopy> {
    if ss == [] then rules
    else
      var r, s := Backfill(rules, fetched, ss[..|ss| - 1], exp, pressure), ss[|ss| - 1];
      if s.row.id in fetched then Put(r, RuleKey(fetched[s.row.id].rule.id), fetched[s.row.id], exp, pressure) else r
  }

  /** Attach rules to the taken schedules: from the cache, then from the database. */
  function AttachRules(cfg: Config, env: Env, pod: Pod, ss: seq<Schedule>, rulesOk: bool): Pod {
    var attached := AttachCached(pod.attached, pod.caches.rules, ss);
    var missed := MissedRules(pod.attached, pod.caches.rules, ss);
    if missed == {} then pod.(attached := attached)
    else if !rulesOk then pod.(attached := attached, nextRead := pod.nextRead + 1)
    else
      var fetched := FetchRules(env.db, missed, pod.nextRead);
      var rules := Backfill(pod.caches.rules, fetched, ss, Expiry(cfg, env), env.pressure);
      pod.(attached := AttachFetched(attached, fetched, ss),
           caches := pod.caches.(rules := rules), nextRead := pod.nextRead + 1)
  }

  /** A whole request up to the hand-over to the evaluator. */
  function Request(cfg: Config, env: Env, pod: Pod, names: seq<string>, heals: seq<Outcome>,
                   order: seq<string>, retry: Outcome, rulesOk: bool): Progress
    requires |heals| == |names|
  {
    var t := TakeAll(cfg, env, pod, names, heals);
    if t.Refused? then t
    else
      var u := Retry(cfg, env, t, order, retry);
      Taking(AttachRules(cfg, env, u.pod, u.got, rulesOk), u.got, u.missed)
  }

  /** `order` walks the missed placements once each. */
  ghost predicate Walks(order: seq<string>, missed: set<string>) {
    && (forall n :: n in order <==> n in missed)
    && (forall i, j | 0 <= i < j < |order| :: order[i] != order[j])
  }

  function HasRuleAt(name: string, attached: map<nat, RuleCopy>): Schedule -> bool {
    (s: Schedule) => s.row.placement == Some(name) && s.oid in attached
  }

  /** What the evaluator gets for a requested placement: its schedules that have a rule, with that rule. */
  function Handed(t: Progress, name: string): seq<(ScheduleRow, RuleCopy)>
    requires t.Taking?
  {
    var ss := Filter(HasRuleAt(name, t.pod.attached), t.got);
    seq(|ss|, i requires 0 <= i < |ss| =>
      assert ss[i] in ss;
      (ss[i].row, t.pod.attached[ss[i].oid]))
  }
}

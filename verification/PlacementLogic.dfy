/**
 * Flattening rule rows into self-contained logic conditions, evaluating those, and the proof
 * that the detour through text changes no verdict.
 */
module PlacementLogic {
  import opened Wrappers
  import opened Sequences
  import opened Conditions
  import opened Semantics
  import opened Values
  import opened Validation
  import opened Retyping
  import opened CanonicalMeaning
  import opened LazyCache
  import opened Evaluator

  /** One flattened condition: every reference is text, "" for an absent one. */
  datatype LogicCondition = LogicCondition(
    conditionId: string,
    parentId: string,
    attributeId: string,
    dataType: string,
    op: string,
    connector: string,
    childConnector: string,
    sequence: int,
    expected: Raw)

  function Flatten(rc: RuleCondition, expected: map<string, Raw>): LogicCondition {
    var attr := if rc.attributeId.Some? then rc.attributeId.value else "";
    LogicCondition(
      rc.id,
      ParentKey(rc),
      attr,
      rc.dataType.GetOr(""),
      rc.op,
      ConnectorValue(rc.connector),
      ConnectorValue(rc.childConnector),
      rc.sequence,
      RawOf(expected, attr))
  }

  /** buildLogicEntry's loop over the rule's rows. */
  method FlattenConditions(rows: seq<RuleCondition>, expected: map<string, Raw>) returns (flat: seq<LogicCondition>)
    ensures flat == FlattenAll(rows, expected)
  {
    flat := [];
    for i := 0 to |rows|
      invariant flat == FlattenAll(rows[..i], expected)
    {
      flat := flat + [Flatten(rows[i], expected)];
    }
    assert rows[..|rows|] == rows;
  }

  function FlattenAll(rows: seq<RuleCondition>, expected: map<string, Raw>): seq<LogicCondition> {
    seq(|rows|, i requires 0 <= i < |rows| => Flatten(rows[i], expected))
  }

  function OptionalText(s: string): Option<string> {
    if s == "" then None else Some(s)
  }

  /** A UUID pointer: nil when the text is empty, not a UUID, or the nil UUID. */
  function ParseUuidPointer(s: string): Option<Uuid> {
    if s == "" || ParseUuid(s) == NIL_UUID then None else Some(ParseUuid(s))
  }

  /** logicConditionToRuleCondition. */
  function Restore(lc: LogicCondition): RuleCondition {
    RuleCondition(
      ParseUuid(lc.conditionId),
      if lc.parentId == "" then None else Some(ParseUuid(lc.parentId)),
      ParseUuidPointer(lc.attributeId),
      Some(lc.dataType),
      lc.op,
      lc.sequence,
      OptionalText(lc.connector),
      OptionalText(lc.childConnector))
  }

  function RestoreAll(flat: seq<LogicCondition>): seq<RuleCondition> {
    seq(|flat|, i requires 0 <= i < |flat| => Restore(flat[i]))
  }

  /** The expected values of a flattened list; a later condition overwrites an earlier one. */
  function StampLogic(flat: seq<LogicCondition>): map<string, Raw> {
    if flat == [] then map[]
    else
      var last, m := flat[|flat| - 1], StampLogic(flat[..|flat| - 1]);
      if Stampable(last.expected) then m[last.attributeId := last.expected] else m
  }

  /** Validate, then evaluate: an empty list holds, an invalid tree does not. */
  ghost function RuleVerdict(lib: Lib, rows: seq<RuleCondition>, byParent: Index,
                             expected: map<string, Raw>, user: Option<map<string, Raw>>): Verdict {
    if rows == [] then Val(true)
    else if !TreeOk(rows) then Val(false)
    else Meaning(Forest(byParent, Bucket(byParent, ""), 1), LeafChecker(lib, expected, user))
  }

  method EvaluateLogicConditions(lib: Lib, flat: seq<LogicCondition>, user: Option<map<string, Raw>>) returns (v: Verdict)
    ensures exists byParent ::
              && IsIndex(byParent, RestoreAll(flat), BySequence())
              && v == RuleVerdict(lib, RestoreAll(flat), byParent, StampLogic(flat), user)
  {
    var rows := RestoreConditions(flat);
    if |flat| == 0 {
      assert IsIndex(map[], rows, BySequence());
      return Val(true);
    }
    var stamped := StampConditions(flat);
    var err := ValidateConditionTree(rows);
    if err.Some? {
      BothOrdersAreStrictWeak();
      var index := BuildIndex(rows, BySequence());
      assert IsIndex(index, rows, BySequence());
      return Val(false);
    }
    var expected := new ParsedValues(lib, stamped);
    var attrs: ParsedValues? := null;
    if user.Some? {
      attrs := new ParsedValues(lib, user.value);
    }
    ghost var byParent;
    v, byParent := EvaluateConditionGroup(rows, expected, attrs);
  }

  method RestoreConditions(flat: seq<LogicCondition>) returns (rows: seq<RuleCondition>)
    ensures rows == RestoreAll(flat)
  {
    rows := [];
    for i := 0 to |flat|
      invariant rows == RestoreAll(flat[..i])
    {
      rows := rows + [Restore(flat[i])];
    }
    assert flat[..|flat|] == flat;
  }

  method StampConditions(flat: seq<LogicCondition>) returns (stamped: map<string, Raw>)
    ensures stamped == StampLogic(flat)
  {
    stamped := map[];
    for i := 0 to |flat|
      invariant stamped == StampLogic(flat[..i])
    {
      assert flat[..i + 1][..i] == flat[..i];
      if Stampable(flat[i].expected) {
        stamped := stamped[flat[i].attributeId := flat[i].expected];
      }
    }
    assert flat[..|flat|] == flat;
  }

  /** A valid rule none of whose rows is a root passes for everyone, as one without rows does. */
  lemma RootlessRulePasses(lib: Lib, rows: seq<RuleCondition>, byParent: Index, expected: map<string, Raw>,
                           user: Option<map<string, Raw>>)
    requires IsIndex(byParent, rows, BySequence()) && TreeOk(rows) && forall c | c in rows :: c.parent.Some?
    ensures RuleVerdict(lib, rows, byParent, expected, user) == Val(true)
  {
    forall c | c in rows ensures !InBucket("")(c) {
      assert IsUuidText(c.parent.value) && c.parent.value != "";
    }
    FilterNone(InBucket(""), rows);
    assert Forest(byParent, Bucket(byParent, ""), 1) == [];
  }

  // ------------------------------------------------------------ flattening is faithful

  /** Rows that survive the trip through text: own checks have their attribute loaded, no reference is empty. */
  predicate Faithful(rc: RuleCondition) {
    && (rc.attributeId.Some? ==> rc.dataType.Some?)
    && rc.attributeId != Some(NIL_UUID)
    && rc.connector != Some("") && rc.childConnector != Some("")
  }

  /** The rows come back, a group's missing type as the empty one. */
  lemma RestoreUndoesFlatten(rows: seq<RuleCondition>, expected: map<string, Raw>)
    requires forall rc | rc in rows :: Faithful(rc)
    ensures RestoreAll(FlattenAll(rows, expected)) == RetypeAll(rows)
  {
    forall i | 0 <= i < |rows| ensures Restore(FlattenAll(rows, expected)[i]) == Retype(rows[i]) {
      var rc := rows[i];
      assert rc in rows;
      assert IsUuidText(rc.id) && (rc.parent.Some? ==> IsUuidText(rc.parent.value) && rc.parent.value != "");
      assert rc.attributeId.Some? ==> IsUuidText(rc.attributeId.value) && rc.attributeId.value != "";
    }
  }

  /** Exactly which rows come back: the others lose a nil attribute ID or an empty connector. */
  lemma RestoreExactly(rc: RuleCondition, expected: map<string, Raw>)
    ensures Restore(Flatten(rc, expected)) == Retype(rc) <==>
            rc.attributeId != Some(NIL_UUID) && rc.connector != Some("") && rc.childConnector != Some("")
  {
    assert IsUuidText(rc.id) && (rc.parent.Some? ==> IsUuidText(rc.parent.value) && rc.parent.value != "");
    assert rc.attributeId.Some? ==> IsUuidText(rc.attributeId.value) && rc.attributeId.value != "";
  }

  /** Every attribute a row checks is stamped exactly as in the rule's own expected values. */
  lemma {:induction false} StampedAlike(rows: seq<RuleCondition>, expected: map<string, Raw>, attr: Uuid)
    requires attr != ""
    ensures var m := StampLogic(FlattenAll(rows, expected));
            && (attr in m <==> attr in Stamp(expected) && exists rc | rc in rows :: rc.attributeId == Some(attr))
            && (attr in m ==> m[attr] == expected[attr])
  {
    if rows != [] {
      var init, last := rows[..|rows| - 1], rows[|rows| - 1];
      StampedAlike(init, expected, attr);
      var flat := FlattenAll(rows, expected);
      assert flat[..|flat| - 1] == FlattenAll(init, expected);
      assert rows == init + [last];
      assert flat[|flat| - 1] == Flatten(last, expected);
    }
  }

  /** Buckets hold rows of the rule only. */
  ghost function HoldsRows(byParent: Index, rows: seq<RuleCondition>): Claim {
    Claim(forall key, c | c in Bucket(byParent, key) :: c in rows)
  }

  ghost predicate AreRows(siblings: seq<RuleCondition>, rows: seq<RuleCondition>) {
    forall c | c in siblings :: c in rows
  }

  lemma BucketIsHeld(byParent: Index, rows: seq<RuleCondition>, key: string)
    requires HoldsRows(byParent, rows).holds
    ensures AreRows(Bucket(byParent, key), rows)
  {}

  /** Every check of a forest is a row of the rule that has a check of its own. */
  lemma {:induction false} CheckIsRow(byParent: Index, rows: seq<RuleCondition>, siblings: seq<RuleCondition>, depth: nat,
                                      check: RuleCondition)
    requires HoldsRows(byParent, rows).holds && AreRows(siblings, rows)
    requires check in Checks(Forest(byParent, siblings, depth))
    ensures check in rows && check.attributeId.Some?
    decreases MAX_CONDITION_DEPTH - depth, |siblings|
  {
    assert siblings[0] in siblings;
    CheckStands(byParent, siblings, depth, check);
    if check in Checks(Forest(byParent, siblings[1..], depth)) {
      CheckIsRow(byParent, rows, siblings[1..], depth, check);
    } else if check !in OwnCheck(siblings[0]) {
      BucketIsHeld(byParent, rows, siblings[0].id);
      CheckIsRow(byParent, rows, Bucket(byParent, siblings[0].id), depth + 1, check);
    }
  }

  /** A check is the first row's own, one below it, or one of the rest. */
  lemma CheckStands(byParent: Index, siblings: seq<RuleCondition>, depth: nat, check: RuleCondition)
    requires siblings != [] && check in Checks(Forest(byParent, siblings, depth))
    ensures || check in OwnCheck(siblings[0])
            || check in Checks(Forest(byParent, siblings[1..], depth))
            || (depth < MAX_CONDITION_DEPTH && check in Checks(Forest(byParent, Bucket(byParent, siblings[0].id), depth + 1)))
  {
    ForestSplits(byParent, siblings, depth);
  }

  lemma ForestSplits(byParent: Index, siblings: seq<RuleCondition>, depth: nat)
    requires siblings != []
    ensures var f := Forest(byParent, siblings, depth);
            f[0] == Unfold(byParent, siblings[0], depth) && f[1..] == Forest(byParent, siblings[1..], depth)
  {
    ForestAt(byParent, siblings, depth, 0);
  }

  /** Checkers that agree on the checks of a forest give it the same meaning. */
  lemma MeaningFollowsChecks(f: seq<Tree>, a: Checker, b: Checker)
    requires forall c | c in Checks(f) :: a(c) == b(c)
    ensures Meaning(f, a) == Meaning(f, b)
  {
    ErrorFollowsChecks(Checks(f), a, b);
    TruthsFollowChecks(f, a, b);
  }

  lemma {:induction false} ErrorFollowsChecks(cs: seq<RuleCondition>, a: Checker, b: Checker)
    requires forall c | c in cs :: a(c) == b(c)
    ensures FirstError(a, cs) == FirstError(b, cs)
  {
    if cs != [] {
      assert cs[0] in cs;
      ErrorFollowsChecks(cs[1..], a, b);
    }
  }

  lemma {:induction false} TruthsFollowChecks(f: seq<Tree>, a: Checker, b: Checker)
    requires forall c | c in Checks(f) :: a(c) == b(c)
    ensures Truths(f, a) == Truths(f, b)
  {
    if f != [] {
      var t := f[0];
      TruthsFollowChecks(t.children, a, b);
      TruthsFollowChecks(f[1..], a, b);
      assert t.cond.attributeId.Some? ==> OwnCheck(t.cond)[0] in Checks(f);
      assert Truth(t, a) == Truth(t, b);
      forall i | 0 < i < |f| ensures Truths(f, a)[i] == Truths(f, b)[i] {
        assert f[1..][i - 1] == f[i];
        assert Truths(f[1..], a)[i - 1] == Truths(f[1..], b)[i - 1];
      }
    }
  }

  /**
   * Evaluating the flattened rule is validating and evaluating the rule itself against its
   * non-null expected values: for every index of the rule's rows, its retyped form is one of the
   * restored rows and gives the same verdict. EveryIndexIsRetyped adds that there are no others.
   */
  lemma FlatteningPreservesMeaning(lib: Lib, rows: seq<RuleCondition>, expected: map<string, Raw>,
                                   user: Option<map<string, Raw>>, byParent: Index)
    requires forall rc | rc in rows :: Faithful(rc)
    requires IsIndex(byParent, rows, BySequence())
    ensures IsIndex(RetypeIndex(byParent), RestoreAll(FlattenAll(rows, expected)), BySequence())
    ensures var flat := FlattenAll(rows, expected);
            RuleVerdict(lib, RestoreAll(flat), RetypeIndex(byParent), StampLogic(flat), user) ==
            RuleVerdict(lib, rows, byParent, Stamp(expected), user)
  {
    RestoreUndoesFlatten(rows, expected);
    IndexRetypes(byParent, rows);
    TreeRetypes(rows);
    BucketRetypes(byParent, "");
    ForestRetypes(byParent, Bucket(byParent, ""), 1);
    SameMeaning(lib, rows, expected, user, byParent);
  }

  lemma SameMeaning(lib: Lib, rows: seq<RuleCondition>, expected: map<string, Raw>, user: Option<map<string, Raw>>,
                    byParent: Index)
    requires (forall rc | rc in rows :: Faithful(rc)) && IsIndex(byParent, rows, BySequence())
    ensures var f := Forest(byParent, Bucket(byParent, ""), 1);
            Meaning(RetypeForest(f), LeafChecker(lib, StampLogic(FlattenAll(rows, expected)), user)) ==
            Meaning(f, LeafChecker(lib, Stamp(expected), user))
  {
    var a, b := LeafChecker(lib, StampLogic(FlattenAll(rows, expected)), user), LeafChecker(lib, Stamp(expected), user);
    var f := Forest(byParent, Bucket(byParent, ""), 1);
    forall c | c in Checks(f) ensures a(c) == b(c) && c.dataType.Some? {
      SameChecks(lib, rows, expected, user, byParent, c);
      assert Faithful(c);
    }
    MeaningFollowsChecks(f, a, b);
    MeaningStays(f, a);
  }

  /** Each check of the rule is made against the same expected value, flattened or not. */
  lemma SameChecks(lib: Lib, rows: seq<RuleCondition>, expected: map<string, Raw>, user: Option<map<string, Raw>>,
                   byParent: Index, c: RuleCondition)
    requires IsIndex(byParent, rows, BySequence()) && c in Checks(Forest(byParent, Bucket(byParent, ""), 1))
    ensures c in rows && c.attributeId.Some?
    ensures LeafChecker(lib, StampLogic(FlattenAll(rows, expected)), user)(c) == LeafChecker(lib, Stamp(expected), user)(c)
  {
    forall key ensures forall d | d in Bucket(byParent, key) :: d in rows {
      BucketMembers(byParent, rows, BySequence(), key);
    }
    CheckIsRow(byParent, rows, Bucket(byParent, ""), 1, c);
    StampedAlike(rows, expected, c.attributeId.value);
    SameLeaf(lib, StampLogic(FlattenAll(rows, expected)), Stamp(expected), user, c);
  }

  /** A leaf check looks at its own attribute's expected value only. */
  lemma SameLeaf(lib: Lib, m: map<string, Raw>, e: map<string, Raw>, user: Option<map<string, Raw>>, c: RuleCondition)
    requires c.attributeId.Some?
    requires var attr := c.attributeId.value; (attr in m <==> attr in e) && (attr in m ==> m[attr] == e[attr])
    ensures LeafVerdict(lib, m, user, c) == LeafVerdict(lib, e, user, c)
  {}
}

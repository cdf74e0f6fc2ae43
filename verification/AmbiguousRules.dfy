/**
 * Two rules the service accepts that share a logic expression and answer a user differently:
 * `(x OR (y)) AND z` as a mixed node, and `x OR ((y) AND z)`.
 */
module AmbiguousRules {
  import opened Wrappers
  import opened Sequences
  import opened Conditions
  import opened Semantics
  import opened Values
  import opened Validation
  import opened Canonical
  import opened CanonicalMeaning
  import opened Rendering
  import opened RenderedMeaning

  /** The condition and attribute IDs the two rules are made of. */
  datatype Names = Names(a: Uuid, b: Uuid, c: Uuid, g: Uuid, x: Uuid, y: Uuid, z: Uuid)

  predicate Distinct(n: Names) {
    && n.a != n.b && n.a != n.c && n.a != n.g && n.b != n.c && n.b != n.g && n.c != n.g
    && n.x != n.y && n.x != n.z && n.y != n.z
  }

  /** A check that a Boolean attribute is true. */
  function Check(id: Uuid, parent: Option<Uuid>, attr: Uuid, sequence: int, connector: Option<string>,
                 childConnector: Option<string>): RuleCondition {
    RuleCondition(id, parent, Some(attr), Some("Boolean"), "=", sequence, connector, childConnector)
  }

  function Own(n: Names): RuleCondition { Check(n.a, None, n.x, 1, Some(AND), Some(OR)) }
  function Kid(n: Names): RuleCondition { Check(n.b, Some(n.a), n.y, 1, None, None) }
  function Last(n: Names): RuleCondition { Check(n.c, None, n.z, 2, None, None) }

  function MixedRule(n: Names): seq<RuleCondition> {
    [Own(n), Kid(n), Last(n)]
  }

  function Alone(n: Names): RuleCondition { Check(n.a, None, n.x, 1, Some(OR), None) }
  function Around(n: Names): RuleCondition { RuleCondition(n.g, None, None, None, "", 2, Some(AND), None) }
  function Inner(n: Names): RuleCondition { Check(n.b, Some(n.g), n.y, 1, None, None) }
  function End(n: Names): RuleCondition { Check(n.c, None, n.z, 3, None, None) }

  function SpreadRule(n: Names): seq<RuleCondition> {
    [Alone(n), Around(n), Inner(n), End(n)]
  }

  const TRUE := Doc(false, JBool(true))

  function Expected(n: Names): map<string, Raw> {
    map[n.x := TRUE, n.y := TRUE, n.z := TRUE]
  }

  /** A user of whom only x is known. */
  function User(n: Names): Option<map<string, Raw>> {
    Some(map[n.x := TRUE])
  }

  function MixedIndex(n: Names): Index {
    map["" := [Own(n), Last(n)], n.a := [Kid(n)]]
  }

  function SpreadIndex(n: Names): Index {
    map["" := [Alone(n), Around(n), End(n)], n.g := [Inner(n)]]
  }

  // --------------------------------------------------------------- the two indexes

  lemma RowsCons(c: RuleCondition, rest: seq<RuleCondition>, key: string)
    ensures Rows([c] + rest, key) == (if ParentKey(c) == key then [c] else []) + Rows(rest, key)
  {
    assert ([c] + rest)[1..] == rest;
  }

  /** The row, if it belongs to this bucket. */
  function IfUnder(c: RuleCondition, key: string): seq<RuleCondition> {
    if ParentKey(c) == key then [c] else []
  }

  lemma RowsOfTwo(a: RuleCondition, b: RuleCondition, key: string)
    ensures Rows([a, b], key) == IfUnder(a, key) + IfUnder(b, key)
  {
    RowsCons(a, [b], key);
    RowsCons(b, [], key);
    assert [a, b] == [a] + [b] && [b] == [b] + [];
  }

  lemma RowsOfThree(a: RuleCondition, b: RuleCondition, c: RuleCondition, key: string)
    ensures Rows([a, b, c], key) == IfUnder(a, key) + (IfUnder(b, key) + IfUnder(c, key))
  {
    RowsCons(a, [b, c], key);
    RowsOfTwo(b, c, key);
    assert [a, b, c] == [a] + [b, c];
  }

  lemma MixedRows(n: Names, key: string)
    requires Distinct(n)
    ensures Rows(MixedRule(n), key) == Bucket(MixedIndex(n), key)
  {
    RowsOfThree(Own(n), Kid(n), Last(n), key);
    assert ParentKey(Own(n)) == "" && ParentKey(Kid(n)) == n.a && ParentKey(Last(n)) == "";
  }

  lemma SpreadRows(n: Names, key: string)
    requires Distinct(n)
    ensures Rows(SpreadRule(n), key) == Bucket(SpreadIndex(n), key)
  {
    SpreadTail(n, key);
    FirstOfSpread(n, key);
    SpreadBucket(n, key);
  }

  lemma SpreadBucket(n: Names, key: string)
    ensures Bucket(SpreadIndex(n), key) ==
            if key == n.g then [Inner(n)] else if key == "" then [Alone(n)] + [Around(n), End(n)] else []
  {}

  lemma FirstOfSpread(n: Names, key: string)
    ensures Rows(SpreadRule(n), key) ==
            (if key == "" then [Alone(n)] else []) + Rows([Around(n), Inner(n), End(n)], key)
  {
    RowsCons(Alone(n), [Around(n), Inner(n), End(n)], key);
    assert SpreadRule(n) == [Alone(n)] + [Around(n), Inner(n), End(n)];
  }

  lemma SpreadTail(n: Names, key: string)
    requires Distinct(n)
    ensures Rows([Around(n), Inner(n), End(n)], key) ==
            if key == n.g then [Inner(n)] else if key == "" then [Around(n), End(n)] else []
  {
    RowsOfThree(Around(n), Inner(n), End(n), key);
    assert ParentKey(Around(n)) == "" && ParentKey(Inner(n)) == n.g && ParentKey(End(n)) == "";
  }

  // ---------------------------------------------------------- both rules are accepted

  /** Siblings in order of sequence, with a connector behind each but the last. */
  predicate InOrder(s: seq<RuleCondition>) {
    && s != []
    && (forall i, j | 0 <= i < j < |s| :: s[i].sequence < s[j].sequence)
    && (forall i | 0 <= i < |s| :: s[i].connector.Some? <==> i < |s| - 1)
  }

  /** The buckets are the rule's, in order, and every own check with children joins them. */
  ghost predicate Fits(rule: seq<RuleCondition>, byParent: Index) {
    && (forall key :: Rows(rule, key) == Bucket(byParent, key))
    && (forall key | key in byParent :: InOrder(byParent[key]))
    && (forall c | c in rule && c.attributeId.Some? && c.id in byParent :: c.childConnector.Some?)
  }

  lemma InOrderIsOk(s: seq<RuleCondition>)
    requires s == [] || InOrder(s)
    ensures ChainOk(s) && Sorted(BySequence(), s) && Sorted(BySequenceThenId(), s)
  {
    forall i | 0 <= i < |s| ensures HasLater(s, i) <==> i < |s| - 1 {
      if i < |s| - 1 {
        assert s[i].sequence < s[|s| - 1].sequence;
      }
    }
  }

  /** Such a rule passes validation, and both sorts give these buckets. */
  lemma FittingIsAccepted(rule: seq<RuleCondition>, byParent: Index)
    requires Fits(rule, byParent)
    ensures TreeOk(rule) && IsIndex(byParent, rule, BySequence()) && IsIndex(byParent, rule, BySequenceThenId())
  {
    forall key ensures ChainOk(Rows(rule, key)) {
      InOrderIsOk(Bucket(byParent, key));
    }
    forall i | 0 <= i < |rule| ensures !LacksChildConnector(rule, i) {
      assert rule[i] in rule && Rows(rule, rule[i].id) == Bucket(byParent, rule[i].id);
    }
    forall key ensures key in byParent <==> Rows(rule, key) != [] {
      assert Rows(rule, key) == Bucket(byParent, key);
    }
    forall key | key in byParent
      ensures multiset(byParent[key]) == multiset(Rows(rule, key))
      ensures Sorted(BySequence(), byParent[key]) && Sorted(BySequenceThenId(), byParent[key])
    {
      assert Rows(rule, key) == Bucket(byParent, key);
      InOrderIsOk(byParent[key]);
    }
  }

  lemma MixedFits(n: Names)
    requires Distinct(n)
    ensures Fits(MixedRule(n), MixedIndex(n)) && UniqueIds(MixedRule(n))
  {
    forall key ensures Rows(MixedRule(n), key) == Bucket(MixedIndex(n), key) {
      MixedRows(n, key);
    }
  }

  lemma SpreadFits(n: Names)
    requires Distinct(n)
    ensures Fits(SpreadRule(n), SpreadIndex(n)) && UniqueIds(SpreadRule(n))
  {
    forall key ensures Rows(SpreadRule(n), key) == Bucket(SpreadIndex(n), key) {
      SpreadRows(n, key);
    }
    SpreadInOrder(n);
    SpreadChecks(n);
  }

  lemma SpreadInOrder(n: Names)
    requires Distinct(n)
    ensures forall key | key in SpreadIndex(n) :: InOrder(SpreadIndex(n)[key])
  {
    assert InOrder([Alone(n), Around(n), End(n)]) && InOrder([Inner(n)]);
  }

  lemma SpreadChecks(n: Names)
    requires Distinct(n)
    ensures forall c | c in SpreadRule(n) && c.attributeId.Some? :: c.id !in SpreadIndex(n)
    ensures UniqueIds(SpreadRule(n))
  {}

  /** The rule passes validation with unique IDs, and both sorts index it alike. */
  ghost predicate Accepted(rule: seq<RuleCondition>, byParent: Index) {
    && UniqueIds(rule) && TreeOk(rule)
    && IsIndex(byParent, rule, BySequence()) && IsIndex(byParent, rule, BySequenceThenId())
  }

  lemma MixedAccepted(n: Names)
    requires Distinct(n)
    ensures Accepted(MixedRule(n), MixedIndex(n))
  {
    MixedFits(n);
    FittingIsAccepted(MixedRule(n), MixedIndex(n));
  }

  lemma SpreadAccepted(n: Names)
    requires Distinct(n)
    ensures Accepted(SpreadRule(n), SpreadIndex(n))
  {
    SpreadFits(n);
    FittingIsAccepted(SpreadRule(n), SpreadIndex(n));
  }

  /** A rule accepted by its rows ends the renderer. */
  lemma AcceptedIndexesWell(rule: seq<RuleCondition>, byParent: Index)
    requires Accepted(rule, byParent)
    ensures WellIndexed(byParent, set c | c in rule)
  {
    UniqueIdsGround(rule);
    GroundedIndexesWell(byParent, rule, BySequence());
  }

  // -------------------------------------------------------------------- the forests

  /** A row without children, wherever it is met. */
  lemma LeafNode(byParent: Index, siblings: seq<RuleCondition>, rows: set<RuleCondition>, path: seq<RuleCondition>, i: nat)
    requires WellIndexed(byParent, rows) && Follow(rows, path, siblings) && i < |siblings|
    requires Bucket(byParent, siblings[i].id) == []
    ensures Expand(byParent, siblings, rows, path)[i] == Node(siblings[i], [])
  {
    ExpandAt(byParent, siblings, rows, path, i);
  }

  /** A row with one child, itself childless. */
  lemma ParentNode(byParent: Index, siblings: seq<RuleCondition>, rows: set<RuleCondition>, path: seq<RuleCondition>, i: nat,
                   kid: RuleCondition)
    requires WellIndexed(byParent, rows) && Follow(rows, path, siblings) && i < |siblings|
    requires Bucket(byParent, siblings[i].id) == [kid] && Bucket(byParent, kid.id) == []
    ensures Expand(byParent, siblings, rows, path)[i] == Node(siblings[i], [Node(kid, [])])
  {
    var longer := path + [siblings[i]];
    ExpandAt(byParent, siblings, rows, path, i);
    ChildrenDescend(byParent, rows, longer);
    LeafNode(byParent, [kid], rows, longer, 0);
    assert Under(byParent, siblings[i], rows, longer) == Expand(byParent, [kid], rows, longer);
    assert Expand(byParent, [kid], rows, longer) == [Node(kid, [])];
  }

  function MixedForest(n: Names): seq<Tree> {
    [Node(Own(n), [Node(Kid(n), [])]), Node(Last(n), [])]
  }

  function SpreadForest(n: Names): seq<Tree> {
    [Node(Alone(n), []), Node(Around(n), [Node(Inner(n), [])]), Node(End(n), [])]
  }

  /** Two roots, the first with one child. */
  lemma WholeOfTwo(byParent: Index, rows: set<RuleCondition>, first: RuleCondition, kid: RuleCondition, last: RuleCondition)
    requires WellIndexed(byParent, rows) && Bucket(byParent, "") == [first, last]
    requires Bucket(byParent, first.id) == [kid] && Bucket(byParent, kid.id) == [] && Bucket(byParent, last.id) == []
    ensures WholeForest(byParent, rows) == [Node(first, [Node(kid, [])]), Node(last, [])]
  {
    var roots := [first, last];
    RootsDescend(byParent, rows);
    ParentNode(byParent, roots, rows, [], 0, kid);
    LeafNode(byParent, roots, rows, [], 1);
  }

  /** Three roots, the middle one with one child. */
  lemma WholeOfThree(byParent: Index, rows: set<RuleCondition>, first: RuleCondition, group: RuleCondition, kid: RuleCondition,
                     last: RuleCondition)
    requires WellIndexed(byParent, rows) && Bucket(byParent, "") == [first, group, last]
    requires Bucket(byParent, group.id) == [kid] && Bucket(byParent, kid.id) == []
    requires Bucket(byParent, first.id) == [] && Bucket(byParent, last.id) == []
    ensures WholeForest(byParent, rows) == [Node(first, []), Node(group, [Node(kid, [])]), Node(last, [])]
  {
    var roots := [first, group, last];
    RootsDescend(byParent, rows);
    LeafNode(byParent, roots, rows, [], 0);
    ParentNode(byParent, roots, rows, [], 1, kid);
    LeafNode(byParent, roots, rows, [], 2);
  }

  lemma MixedWell(n: Names)
    requires Distinct(n)
    ensures WellIndexed(MixedIndex(n), set c | c in MixedRule(n))
  {
    MixedAccepted(n);
    AcceptedIndexesWell(MixedRule(n), MixedIndex(n));
  }

  lemma SpreadWell(n: Names)
    requires Distinct(n)
    ensures WellIndexed(SpreadIndex(n), set c | c in SpreadRule(n))
  {
    SpreadAccepted(n);
    AcceptedIndexesWell(SpreadRule(n), SpreadIndex(n));
  }

  lemma MixedWhole(n: Names)
    requires Distinct(n) && WellIndexed(MixedIndex(n), set c | c in MixedRule(n))
    ensures WholeForest(MixedIndex(n), set c | c in MixedRule(n)) == MixedForest(n)
  {
    WholeOfTwo(MixedIndex(n), (set c | c in MixedRule(n)), Own(n), Kid(n), Last(n));
  }

  lemma SpreadWhole(n: Names)
    requires Distinct(n) && WellIndexed(SpreadIndex(n), set c | c in SpreadRule(n))
    ensures WholeForest(SpreadIndex(n), set c | c in SpreadRule(n)) == SpreadForest(n)
  {
    WholeOfThree(SpreadIndex(n), (set c | c in SpreadRule(n)), Alone(n), Around(n), Inner(n), End(n));
  }

  // --------------------------------------------------------------------- the answers

  /** The user's x is true, and what is not known does not match. */
  lemma OneCheck(n: Names, lib: Lib, c: RuleCondition)
    requires Distinct(n) && c.attributeId.Some? && c.attributeId.value in {n.x, n.y, n.z}
    requires c.dataType == Some("Boolean") && c.op == "="
    ensures LeafChecker(lib, Stamp(Expected(n)), User(n))(c) == Val(c.attributeId.value == n.x)
  {}

  lemma BothAnswers(n: Names, compact: Json -> string, lib: Lib)
    requires Distinct(n)
    ensures ForestText(MixedForest(n), ValueLeaf(Expected(n), compact)) ==
            ForestText(SpreadForest(n), ValueLeaf(Expected(n), compact))
    ensures Meaning(MixedForest(n), LeafChecker(lib, Stamp(Expected(n)), User(n))) == Val(false)
    ensures Meaning(SpreadForest(n), LeafChecker(lib, Stamp(Expected(n)), User(n))) == Val(true)
  {
    var leaf, check := ValueLeaf(Expected(n), compact), LeafChecker(lib, Stamp(Expected(n)), User(n));
    OneCheck(n, lib, Own(n));
    OneCheck(n, lib, Alone(n));
    OneCheck(n, lib, Kid(n));
    OneCheck(n, lib, Inner(n));
    OneCheck(n, lib, Last(n));
    OneCheck(n, lib, End(n));
    AmbiguousMixedNode(Own(n), Node(Kid(n), []), Node(Last(n), []),
                       Alone(n), Around(n), Node(Inner(n), []), Node(End(n), []), leaf, check);
  }

  /** A forest no higher than the cap is evaluated whole. */
  lemma WholeIsEvaluated(byParent: Index, rows: set<RuleCondition>, f: seq<Tree>)
    requires WellIndexed(byParent, rows) && WholeForest(byParent, rows) == f && HeightAtMost(f, MAX_CONDITION_DEPTH)
    ensures Forest(byParent, Bucket(byParent, ""), 1) == f
  {
    RootsDescend(byParent, rows);
    EvaluatorCuts(byParent, Bucket(byParent, ""), rows, [], 1);
    CutIsWhole(f, MAX_CONDITION_DEPTH - 1);
  }

  lemma BothAreLow(n: Names)
    ensures HeightAtMost(MixedForest(n), MAX_CONDITION_DEPTH) && HeightAtMost(SpreadForest(n), MAX_CONDITION_DEPTH)
  {
    LeafIsLow(Kid(n), 3);
    LeafIsLow(Inner(n), 3);
  }

  lemma LeafIsLow(c: RuleCondition, height: nat)
    requires height > 0
    ensures HeightAtMost([Node(c, [])], height)
  {}

  /** The evaluator's answer on an index built of these rows. */
  ghost function AnswerOf(n: Names, lib: Lib, byParent: Index): Verdict {
    Meaning(Forest(byParent, Bucket(byParent, ""), 1), LeafChecker(lib, Stamp(Expected(n)), User(n)))
  }

  /** The rule's logic expression. */
  ghost function Expression(n: Names, compact: Json -> string, rule: seq<RuleCondition>, byParent: Index): string
    requires WellIndexed(byParent, set c | c in rule)
  {
    ForestText(WholeForest(byParent, set c | c in rule), ValueLeaf(Expected(n), compact))
  }

  lemma MixedFails(n: Names, compact: Json -> string, lib: Lib)
    requires Distinct(n)
    ensures AnswerOf(n, lib, MixedIndex(n)) == Val(false)
  {
    MixedWell(n);
    MixedWhole(n);
    BothAnswers(n, compact, lib);
    BothAreLow(n);
    WholeIsEvaluated(MixedIndex(n), (set c | c in MixedRule(n)), MixedForest(n));
  }

  lemma SpreadHolds(n: Names, compact: Json -> string, lib: Lib)
    requires Distinct(n)
    ensures AnswerOf(n, lib, SpreadIndex(n)) == Val(true)
  {
    SpreadWell(n);
    SpreadWhole(n);
    BothAnswers(n, compact, lib);
    BothAreLow(n);
    WholeIsEvaluated(SpreadIndex(n), (set c | c in SpreadRule(n)), SpreadForest(n));
  }

  /** Both rules have one logic expression. */
  lemma SameExpression(n: Names, compact: Json -> string, lib: Lib)
    requires Distinct(n)
    ensures WellIndexed(MixedIndex(n), set c | c in MixedRule(n)) && WellIndexed(SpreadIndex(n), set c | c in SpreadRule(n))
    ensures Expression(n, compact, MixedRule(n), MixedIndex(n)) == Expression(n, compact, SpreadRule(n), SpreadIndex(n))
  {
    MixedWell(n);
    SpreadWell(n);
    MixedWhole(n);
    SpreadWhole(n);
    BothAnswers(n, compact, lib);
  }

  /**
   * Both rules are accepted, they have one logic expression, and the user of whom x alone is
   * known passes the second and not the first.
   */
  lemma SameExpressionDifferentAnswers(n: Names, compact: Json -> string, lib: Lib)
    requires Distinct(n)
    ensures Accepted(MixedRule(n), MixedIndex(n)) && Accepted(SpreadRule(n), SpreadIndex(n))
    ensures WellIndexed(MixedIndex(n), set c | c in MixedRule(n)) && WellIndexed(SpreadIndex(n), set c | c in SpreadRule(n))
    ensures Expression(n, compact, MixedRule(n), MixedIndex(n)) == Expression(n, compact, SpreadRule(n), SpreadIndex(n))
    ensures AnswerOf(n, lib, MixedIndex(n)) == Val(false) && AnswerOf(n, lib, SpreadIndex(n)) == Val(true)
  {
    MixedAccepted(n);
    SpreadAccepted(n);
    SameExpression(n, compact, lib);
    MixedFails(n, compact, lib);
    SpreadHolds(n, compact, lib);
  }
}

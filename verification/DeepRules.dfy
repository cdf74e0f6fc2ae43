/**
 * Two more such rules, without any AND: three groups around `x OR (y)` as a mixed node, and around
 * `x OR ((y))` with a pure group. The evaluator does not go below the fourth level, so the mixed
 * node loses its children and the group becomes an empty one, which holds.
 */
module DeepRules {
  import opened Wrappers
  import opened Conditions
  import opened Semantics
  import opened Values
  import opened Validation
  import opened Canonical
  import opened CanonicalMeaning
  import opened Rendering
  import opened RenderedMeaning
  import opened AmbiguousRules

  /** The condition and attribute IDs the two rules are made of. */
  datatype Depths = Depths(g1: Uuid, g2: Uuid, g3: Uuid, a: Uuid, h: Uuid, k: Uuid, x: Uuid, y: Uuid)

  predicate Apart(n: Depths) {
    && n.g1 != n.g2 && n.g1 != n.g3 && n.g1 != n.a && n.g1 != n.h && n.g1 != n.k
    && n.g2 != n.g3 && n.g2 != n.a && n.g2 != n.h && n.g2 != n.k
    && n.g3 != n.a && n.g3 != n.h && n.g3 != n.k
    && n.a != n.h && n.a != n.k && n.h != n.k && n.x != n.y
  }

  function Group(id: Uuid, parent: Option<Uuid>, sequence: int): RuleCondition {
    RuleCondition(id, parent, None, None, "", sequence, None, None)
  }

  function G1(n: Depths): RuleCondition { Group(n.g1, None, 1) }
  function G2(n: Depths): RuleCondition { Group(n.g2, Some(n.g1), 1) }
  function G3(n: Depths): RuleCondition { Group(n.g3, Some(n.g2), 1) }

  function Upper(n: Depths): seq<RuleCondition> {
    [G1(n), G2(n), G3(n)]
  }

  function Mixed(n: Depths): RuleCondition { Check(n.a, Some(n.g3), n.x, 1, None, Some(OR)) }
  function Under(n: Depths): RuleCondition { Check(n.k, Some(n.a), n.y, 1, None, None) }

  function DeepMixedRule(n: Depths): seq<RuleCondition> {
    Upper(n) + [Mixed(n), Under(n)]
  }

  function Alone(n: Depths): RuleCondition { Check(n.a, Some(n.g3), n.x, 1, Some(OR), None) }
  function Hull(n: Depths): RuleCondition { Group(n.h, Some(n.g3), 2) }
  function Inside(n: Depths): RuleCondition { Check(n.k, Some(n.h), n.y, 1, None, None) }

  function DeepSpreadRule(n: Depths): seq<RuleCondition> {
    Upper(n) + [Alone(n), Hull(n), Inside(n)]
  }

  function DeepMixedIndex(n: Depths): Index {
    map["" := [G1(n)], n.g1 := [G2(n)], n.g2 := [G3(n)], n.g3 := [Mixed(n)], n.a := [Under(n)]]
  }

  function DeepSpreadIndex(n: Depths): Index {
    map["" := [G1(n)], n.g1 := [G2(n)], n.g2 := [G3(n)], n.g3 := [Alone(n), Hull(n)], n.h := [Inside(n)]]
  }

  function DeepExpected(n: Depths): map<string, Raw> {
    map[n.x := TRUE, n.y := TRUE]
  }

  /** A user of whom nothing is known. */
  const NOBODY: Option<map<string, Raw>> := Some(map[])

  // ------------------------------------------------------------ both are accepted

  /** The rows of the three groups, in front of the others. */
  lemma UpperRows(n: Depths, tail: seq<RuleCondition>, key: string)
    requires Apart(n)
    ensures Rows(Upper(n) + tail, key) ==
            (if key == "" then [G1(n)] else if key == n.g1 then [G2(n)] else if key == n.g2 then [G3(n)] else [])
            + Rows(tail, key)
  {
    RowsCons(G1(n), [G2(n)] + ([G3(n)] + tail), key);
    RowsCons(G2(n), [G3(n)] + tail, key);
    RowsCons(G3(n), tail, key);
    assert Upper(n) + tail == [G1(n)] + ([G2(n)] + ([G3(n)] + tail));
  }

  lemma MixedTail(n: Depths, key: string)
    requires Apart(n)
    ensures Rows([Mixed(n), Under(n)], key) == if key == n.g3 then [Mixed(n)] else if key == n.a then [Under(n)] else []
  {
    RowsOfTwo(Mixed(n), Under(n), key);
    assert ParentKey(Mixed(n)) == n.g3 && ParentKey(Under(n)) == n.a;
  }

  lemma SpreadTail(n: Depths, key: string)
    requires Apart(n)
    ensures Rows([Alone(n), Hull(n), Inside(n)], key) ==
            if key == n.g3 then [Alone(n), Hull(n)] else if key == n.h then [Inside(n)] else []
  {
    RowsOfThree(Alone(n), Hull(n), Inside(n), key);
    assert ParentKey(Alone(n)) == n.g3 && ParentKey(Hull(n)) == n.g3 && ParentKey(Inside(n)) == n.h;
  }

  lemma MixedBucket(n: Depths, key: string)
    requires Apart(n)
    ensures Bucket(DeepMixedIndex(n), key) ==
            if key == "" then [G1(n)] else if key == n.g1 then [G2(n)] else if key == n.g2 then [G3(n)]
            else if key == n.g3 then [Mixed(n)] else if key == n.a then [Under(n)] else []
  {}

  lemma SpreadBucket(n: Depths, key: string)
    requires Apart(n)
    ensures Bucket(DeepSpreadIndex(n), key) ==
            if key == "" then [G1(n)] else if key == n.g1 then [G2(n)] else if key == n.g2 then [G3(n)]
            else if key == n.g3 then [Alone(n), Hull(n)] else if key == n.h then [Inside(n)] else []
  {}

  lemma DeepMixedRows(n: Depths, key: string)
    requires Apart(n)
    ensures Rows(DeepMixedRule(n), key) == Bucket(DeepMixedIndex(n), key)
  {
    UpperRows(n, [Mixed(n), Under(n)], key);
    MixedTail(n, key);
    MixedBucket(n, key);
  }

  lemma DeepMixedInOrder(n: Depths, key: string)
    requires Apart(n) && key in DeepMixedIndex(n)
    ensures InOrder(DeepMixedIndex(n)[key])
  {
    MixedBucket(n, key);
    assert DeepMixedIndex(n)[key] == Bucket(DeepMixedIndex(n), key);
  }

  lemma DeepMixedJoins(n: Depths, c: RuleCondition)
    requires Apart(n) && c in DeepMixedRule(n) && c.attributeId.Some? && c.id in DeepMixedIndex(n)
    ensures c.childConnector.Some?
  {
    assert c in Upper(n) || c in [Mixed(n), Under(n)];
    MixedBucket(n, n.k);
  }

  lemma DeepMixedFits(n: Depths)
    requires Apart(n)
    ensures Fits(DeepMixedRule(n), DeepMixedIndex(n))
  {
    forall key ensures Rows(DeepMixedRule(n), key) == Bucket(DeepMixedIndex(n), key) {
      DeepMixedRows(n, key);
    }
    forall key | key in DeepMixedIndex(n) ensures InOrder(DeepMixedIndex(n)[key]) {
      DeepMixedInOrder(n, key);
    }
    forall c | c in DeepMixedRule(n) && c.attributeId.Some? && c.id in DeepMixedIndex(n) ensures c.childConnector.Some? {
      DeepMixedJoins(n, c);
    }
  }

  lemma DeepSpreadRows(n: Depths, key: string)
    requires Apart(n)
    ensures Rows(DeepSpreadRule(n), key) == Bucket(DeepSpreadIndex(n), key)
  {
    UpperRows(n, [Alone(n), Hull(n), Inside(n)], key);
    SpreadTail(n, key);
    SpreadBucket(n, key);
  }

  lemma DeepSpreadInOrder(n: Depths, key: string)
    requires Apart(n) && key in DeepSpreadIndex(n)
    ensures InOrder(DeepSpreadIndex(n)[key])
  {
    SpreadBucket(n, key);
    assert DeepSpreadIndex(n)[key] == Bucket(DeepSpreadIndex(n), key);
  }

  lemma DeepSpreadChecksAreLeaves(n: Depths, c: RuleCondition)
    requires Apart(n) && c in DeepSpreadRule(n) && c.attributeId.Some?
    ensures c.id !in DeepSpreadIndex(n)
  {
    assert c in Upper(n) || c in [Alone(n), Hull(n), Inside(n)];
    SpreadBucket(n, n.k);
    SpreadBucket(n, n.a);
  }

  lemma DeepSpreadFits(n: Depths)
    requires Apart(n)
    ensures Fits(DeepSpreadRule(n), DeepSpreadIndex(n))
  {
    forall key ensures Rows(DeepSpreadRule(n), key) == Bucket(DeepSpreadIndex(n), key) {
      DeepSpreadRows(n, key);
    }
    forall key | key in DeepSpreadIndex(n) ensures InOrder(DeepSpreadIndex(n)[key]) {
      DeepSpreadInOrder(n, key);
    }
    forall c | c in DeepSpreadRule(n) && c.attributeId.Some? ensures c.id !in DeepSpreadIndex(n) {
      DeepSpreadChecksAreLeaves(n, c);
    }
  }

  /** One more row with an ID of its own. */
  lemma UniqueCons(c: RuleCondition, rest: seq<RuleCondition>)
    requires UniqueIds(rest) && forall d | d in rest :: d.id != c.id
    ensures UniqueIds([c] + rest)
  {
    var s := [c] + rest;
    forall i, j | 0 <= i < j < |s| ensures s[i].id != s[j].id {
      assert s[j] == rest[j - 1] && rest[j - 1] in rest;
      assert i > 0 ==> s[i] == rest[i - 1];
    }
  }

  lemma UpperUnique(n: Depths, tail: seq<RuleCondition>)
    requires Apart(n) && UniqueIds(tail) && forall d | d in tail :: d.id != n.g1 && d.id != n.g2 && d.id != n.g3
    ensures UniqueIds(Upper(n) + tail)
  {
    UniqueCons(G3(n), tail);
    UniqueCons(G2(n), [G3(n)] + tail);
    UniqueCons(G1(n), [G2(n)] + ([G3(n)] + tail));
    assert Upper(n) + tail == [G1(n)] + ([G2(n)] + ([G3(n)] + tail));
  }

  lemma DeepMixedAccepted(n: Depths)
    requires Apart(n)
    ensures Accepted(DeepMixedRule(n), DeepMixedIndex(n))
  {
    DeepMixedFits(n);
    UpperUnique(n, [Mixed(n), Under(n)]);
    FittingIsAccepted(DeepMixedRule(n), DeepMixedIndex(n));
  }

  lemma DeepSpreadAccepted(n: Depths)
    requires Apart(n)
    ensures Accepted(DeepSpreadRule(n), DeepSpreadIndex(n))
  {
    DeepSpreadFits(n);
    UpperUnique(n, [Alone(n), Hull(n), Inside(n)]);
    FittingIsAccepted(DeepSpreadRule(n), DeepSpreadIndex(n));
  }

  // -------------------------------------------------------------------- the forests

  /** A row with a single child whose own forest is known. */
  lemma OnlyChild(byParent: Index, rows: set<RuleCondition>, path: seq<RuleCondition>, c: RuleCondition, kid: RuleCondition,
                  below: seq<Tree>)
    requires WellIndexed(byParent, rows) && IsDescent(rows, path) && path[|path| - 1] == c
    requires Bucket(byParent, c.id) == [kid] && IsDescent(rows, path + [kid])
    requires Rendering.Under(byParent, kid, rows, path + [kid]) == below
    ensures Rendering.Under(byParent, c, rows, path) == [Node(kid, below)]
  {
    ChildrenDescend(byParent, rows, path);
    ExpandAt(byParent, [kid], rows, path, 0);
  }

  /** The descent down the three groups. */
  lemma Descent(n: Depths, rows: set<RuleCondition>)
    requires G1(n) in rows && G2(n) in rows && G3(n) in rows
    ensures IsDescent(rows, [G1(n)]) && IsDescent(rows, [G1(n)] + [G2(n)]) && IsDescent(rows, [G1(n)] + [G2(n)] + [G3(n)])
  {}

  /** The groups around what is under the third. */
  function Wrapped(n: Depths, core: seq<Tree>): seq<Tree> {
    [Node(G1(n), [Node(G2(n), [Node(G3(n), core)])])]
  }

  lemma WrappedWhole(n: Depths, byParent: Index, rows: set<RuleCondition>, core: seq<Tree>)
    requires WellIndexed(byParent, rows) && G1(n) in rows && G2(n) in rows && G3(n) in rows
    requires Bucket(byParent, "") == [G1(n)] && Bucket(byParent, n.g1) == [G2(n)] && Bucket(byParent, n.g2) == [G3(n)]
    requires IsDescent(rows, [G1(n)] + [G2(n)] + [G3(n)])
    requires Rendering.Under(byParent, G3(n), rows, [G1(n)] + [G2(n)] + [G3(n)]) == core
    ensures WholeForest(byParent, rows) == Wrapped(n, core)
  {
    Descent(n, rows);
    OnlyChild(byParent, rows, [G1(n)] + [G2(n)], G2(n), G3(n), core);
    OnlyChild(byParent, rows, [G1(n)], G1(n), G2(n), [Node(G3(n), core)]);
    RootsDescend(byParent, rows);
    ExpandAt(byParent, [G1(n)], rows, [], 0);
    assert [] + [G1(n)] == [G1(n)];
  }

  function MixedCore(n: Depths): seq<Tree> {
    [Node(Mixed(n), [Node(Under(n), [])])]
  }

  function SpreadCore(n: Depths): seq<Tree> {
    [Node(Alone(n), []), Node(Hull(n), [Node(Inside(n), [])])]
  }

  /** One row with one child under a group. */
  lemma CoreOfOne(byParent: Index, rows: set<RuleCondition>, path: seq<RuleCondition>, g: RuleCondition, m: RuleCondition,
                  k: RuleCondition)
    requires WellIndexed(byParent, rows) && IsDescent(rows, path) && path[|path| - 1] == g
    requires Bucket(byParent, g.id) == [m] && Bucket(byParent, m.id) == [k] && Bucket(byParent, k.id) == []
    ensures Rendering.Under(byParent, g, rows, path) == [Node(m, [Node(k, [])])]
  {
    ChildrenDescend(byParent, rows, path);
    ParentNode(byParent, [m], rows, path, 0, k);
  }

  /** A childless row and one with one child under a group. */
  lemma CoreOfTwo(byParent: Index, rows: set<RuleCondition>, path: seq<RuleCondition>, g: RuleCondition, a: RuleCondition,
                  h: RuleCondition, k: RuleCondition)
    requires WellIndexed(byParent, rows) && IsDescent(rows, path) && path[|path| - 1] == g
    requires Bucket(byParent, g.id) == [a, h] && Bucket(byParent, a.id) == []
    requires Bucket(byParent, h.id) == [k] && Bucket(byParent, k.id) == []
    ensures Rendering.Under(byParent, g, rows, path) == [Node(a, []), Node(h, [Node(k, [])])]
  {
    var siblings := [a, h];
    ChildrenDescend(byParent, rows, path);
    LeafNode(byParent, siblings, rows, path, 0);
    ParentNode(byParent, siblings, rows, path, 1, k);
  }

  lemma UpperIn(n: Depths, tail: seq<RuleCondition>)
    ensures G1(n) in Upper(n) + tail && G2(n) in Upper(n) + tail && G3(n) in Upper(n) + tail
  {
    assert (Upper(n) + tail)[0] == G1(n) && (Upper(n) + tail)[1] == G2(n) && (Upper(n) + tail)[2] == G3(n);
  }

  lemma MixedBuckets(n: Depths)
    requires Apart(n)
    ensures var b := DeepMixedIndex(n);
            && Bucket(b, "") == [G1(n)] && Bucket(b, n.g1) == [G2(n)] && Bucket(b, n.g2) == [G3(n)]
            && Bucket(b, n.g3) == [Mixed(n)] && Bucket(b, n.a) == [Under(n)] && Bucket(b, n.k) == []
  {}

  lemma SpreadBuckets(n: Depths)
    requires Apart(n)
    ensures var b := DeepSpreadIndex(n);
            && Bucket(b, "") == [G1(n)] && Bucket(b, n.g1) == [G2(n)] && Bucket(b, n.g2) == [G3(n)]
            && Bucket(b, n.g3) == [Alone(n), Hull(n)] && Bucket(b, n.a) == [] && Bucket(b, n.h) == [Inside(n)]
            && Bucket(b, n.k) == []
  {}

  lemma DeepMixedWhole(n: Depths)
    requires Apart(n) && WellIndexed(DeepMixedIndex(n), set c | c in DeepMixedRule(n))
    ensures WholeForest(DeepMixedIndex(n), set c | c in DeepMixedRule(n)) == Wrapped(n, MixedCore(n))
  {
    var byParent, path := DeepMixedIndex(n), [G1(n)] + [G2(n)] + [G3(n)];
    var rows := set c | c in DeepMixedRule(n);
    UpperIn(n, [Mixed(n), Under(n)]);
    Descent(n, rows);
    MixedBuckets(n);
    CoreOfOne(byParent, rows, path, G3(n), Mixed(n), Under(n));
    WrappedWhole(n, byParent, rows, MixedCore(n));
  }

  lemma DeepSpreadWhole(n: Depths)
    requires Apart(n) && WellIndexed(DeepSpreadIndex(n), set c | c in DeepSpreadRule(n))
    ensures WholeForest(DeepSpreadIndex(n), set c | c in DeepSpreadRule(n)) == Wrapped(n, SpreadCore(n))
  {
    var byParent, path := DeepSpreadIndex(n), [G1(n)] + [G2(n)] + [G3(n)];
    var rows := set c | c in DeepSpreadRule(n);
    UpperIn(n, [Alone(n), Hull(n), Inside(n)]);
    Descent(n, rows);
    SpreadBuckets(n);
    CoreOfTwo(byParent, rows, path, G3(n), Alone(n), Hull(n), Inside(n));
    WrappedWhole(n, byParent, rows, SpreadCore(n));
  }

  // --------------------------------------------------------------------- the answers

  /** A group of one chain means and prints its chain, in parentheses. */
  lemma GroupReads(g: RuleCondition, kids: seq<Tree>, leaf: LeafText, check: Checker)
    requires g.attributeId.None? && kids != []
    ensures ForestText([Node(g, kids)], leaf) == "(" + ForestText(kids, leaf) + ")"
    ensures Meaning([Node(g, kids)], check) == Meaning(kids, check)
  {
    var f := [Node(g, kids)];
    assert f[1..] == [];
    assert Checks(f) == Checks(kids);
    FoldIsRuns(Truths(f, check), Ors(f));
  }

  lemma WrappedReads(n: Depths, core: seq<Tree>, leaf: LeafText, check: Checker)
    requires core != []
    ensures ForestText(Wrapped(n, core), leaf) == "(" + ("(" + ("(" + ForestText(core, leaf) + ")") + ")") + ")"
    ensures Meaning(Wrapped(n, core), check) == Meaning(core, check)
  {
    GroupReads(G3(n), core, leaf, check);
    GroupReads(G2(n), [Node(G3(n), core)], leaf, check);
    GroupReads(G1(n), [Node(G2(n), [Node(G3(n), core)])], leaf, check);
  }

  /** Cutting three levels below the roots cuts what is under the core. */
  lemma WrappedCut(n: Depths, core: seq<Tree>)
    ensures Cut(Wrapped(n, core), 3) == Wrapped(n, Cut(core, 0))
  {
    assert Cut([Node(G3(n), core)], 1) == [Node(G3(n), Cut(core, 0))];
    assert Cut([Node(G2(n), [Node(G3(n), core)])], 2) == [Node(G2(n), Cut([Node(G3(n), core)], 1))];
  }

  lemma CoresPrintAlike(n: Depths, compact: Json -> string)
    ensures var leaf := ValueLeaf(DeepExpected(n), compact);
            ForestText(MixedCore(n), leaf) == ForestText(SpreadCore(n), leaf)
  {
    var leaf := ValueLeaf(DeepExpected(n), compact);
    var under, inside := Node(Under(n), []), Node(Inside(n), []);
    LeafReads(under, leaf);
    LeafReads(inside, leaf);
    assert SpreadCore(n)[1..] == [Node(Hull(n), [inside])];
    assert NodeText(Node(Hull(n), [inside]), leaf) == "(" + leaf(Inside(n)) + ")";
    assert NodeText(Node(Mixed(n), [under]), leaf) == leaf(Mixed(n)) + " " + OR + " " + ("(" + leaf(Under(n)) + ")");
    assert leaf(Mixed(n)) == leaf(Alone(n)) && leaf(Under(n)) == leaf(Inside(n));
  }

  /** Cut off below, the mixed node answers x. */
  lemma MixedCoreFails(n: Depths, lib: Lib)
    requires Apart(n)
    ensures Meaning(Cut(MixedCore(n), 0), LeafChecker(lib, Stamp(DeepExpected(n)), NOBODY)) == Val(false)
  {
    var check, t := LeafChecker(lib, Stamp(DeepExpected(n)), NOBODY), Node(Mixed(n), []);
    assert Cut(MixedCore(n), 0) == [t];
    LeafChecks(t);
    assert check(Mixed(n)) == Val(false);
    FirstErrorIsSomeError(check, [Mixed(n)]);
    FoldIsRuns(Truths([t], check), Ors([t]));
  }

  /** Cut off below, the group holds, and with it the chain. */
  lemma SpreadCoreHolds(n: Depths, lib: Lib)
    requires Apart(n)
    ensures Meaning(Cut(SpreadCore(n), 0), LeafChecker(lib, Stamp(DeepExpected(n)), NOBODY)) == Val(true)
  {
    var check, f := LeafChecker(lib, Stamp(DeepExpected(n)), NOBODY), [Node(Alone(n), []), Node(Hull(n), [])];
    assert Cut(SpreadCore(n), 0) == f && f[1..] == [Node(Hull(n), [])] && f[1..][1..] == [];
    assert check(Alone(n)) == Val(false);
    assert Checks(f[1..][1..]) == [] && Checks(f[1..]) == [];
    assert Checks(f) == [] + OwnCheck(Alone(n)) + Checks(f[1..]);
    FirstErrorIsSomeError(check, [Alone(n)]);
    FoldIsRuns(Truths(f, check), Ors(f));
    UnrollForest(f, check);
    UnrollForest(f[1..], check);
  }

  /** The evaluator's answer for that user on an index built of these rows. */
  ghost function DeepAnswer(n: Depths, lib: Lib, byParent: Index): Verdict {
    Meaning(Forest(byParent, Bucket(byParent, ""), 1), LeafChecker(lib, Stamp(DeepExpected(n)), NOBODY))
  }

  /** What is evaluated of a rule whose forest is this. */
  lemma WrappedEvaluated(n: Depths, byParent: Index, rows: set<RuleCondition>, core: seq<Tree>, lib: Lib)
    requires WellIndexed(byParent, rows) && WholeForest(byParent, rows) == Wrapped(n, core) && core != []
    ensures DeepAnswer(n, lib, byParent) == Meaning(Cut(core, 0), LeafChecker(lib, Stamp(DeepExpected(n)), NOBODY))
  {
    RootsDescend(byParent, rows);
    EvaluatorCuts(byParent, Bucket(byParent, ""), rows, [], 1);
    WrappedCut(n, core);
    WrappedReads(n, Cut(core, 0), (c: RuleCondition) => "", LeafChecker(lib, Stamp(DeepExpected(n)), NOBODY));
  }

  lemma DeepMixedFails(n: Depths, lib: Lib)
    requires Apart(n)
    ensures DeepAnswer(n, lib, DeepMixedIndex(n)) == Val(false)
  {
    DeepMixedAccepted(n);
    AcceptedIndexesWell(DeepMixedRule(n), DeepMixedIndex(n));
    DeepMixedWhole(n);
    WrappedEvaluated(n, DeepMixedIndex(n), (set c | c in DeepMixedRule(n)), MixedCore(n), lib);
    MixedCoreFails(n, lib);
  }

  lemma DeepSpreadHolds(n: Depths, lib: Lib)
    requires Apart(n)
    ensures DeepAnswer(n, lib, DeepSpreadIndex(n)) == Val(true)
  {
    DeepSpreadAccepted(n);
    AcceptedIndexesWell(DeepSpreadRule(n), DeepSpreadIndex(n));
    DeepSpreadWhole(n);
    WrappedEvaluated(n, DeepSpreadIndex(n), (set c | c in DeepSpreadRule(n)), SpreadCore(n), lib);
    SpreadCoreHolds(n, lib);
  }

  /** The rule's logic expression. */
  ghost function DeepExpression(n: Depths, compact: Json -> string, rule: seq<RuleCondition>, byParent: Index): string
    requires WellIndexed(byParent, set c | c in rule)
  {
    ForestText(WholeForest(byParent, set c | c in rule), ValueLeaf(DeepExpected(n), compact))
  }

  /** Both rules have one logic expression. */
  lemma SameDeepExpression(n: Depths, compact: Json -> string)
    requires Apart(n) && WellIndexed(DeepMixedIndex(n), set c | c in DeepMixedRule(n))
    requires WellIndexed(DeepSpreadIndex(n), set c | c in DeepSpreadRule(n))
    ensures DeepExpression(n, compact, DeepMixedRule(n), DeepMixedIndex(n)) ==
            DeepExpression(n, compact, DeepSpreadRule(n), DeepSpreadIndex(n))
  {
    DeepMixedWhole(n);
    DeepSpreadWhole(n);
    var leaf := ValueLeaf(DeepExpected(n), compact);
    CoresPrintAlike(n, compact);
    WrappedReads(n, MixedCore(n), leaf, (c: RuleCondition) => Val(true));
    WrappedReads(n, SpreadCore(n), leaf, (c: RuleCondition) => Val(true));
  }

  lemma BothUnambiguous(n: Depths)
    ensures Unambiguous(Wrapped(n, MixedCore(n))) && Unambiguous(Wrapped(n, SpreadCore(n)))
  {
    assert Unambiguous([Node(Under(n), [])]) && Unambiguous([Node(Inside(n), [])]);
    assert Unambiguous(MixedCore(n)) && Unambiguous(SpreadCore(n));
    GroupUnambiguous(G3(n), MixedCore(n));
    GroupUnambiguous(G3(n), SpreadCore(n));
    GroupUnambiguous(G2(n), [Node(G3(n), MixedCore(n))]);
    GroupUnambiguous(G2(n), [Node(G3(n), SpreadCore(n))]);
    GroupUnambiguous(G1(n), [Node(G2(n), [Node(G3(n), MixedCore(n))])]);
    GroupUnambiguous(G1(n), [Node(G2(n), [Node(G3(n), SpreadCore(n))])]);
  }

  lemma GroupUnambiguous(g: RuleCondition, kids: seq<Tree>)
    requires g.attributeId.None? && Unambiguous(kids)
    ensures Unambiguous([Node(g, kids)])
  {}

  /**
   * Both rules are accepted and their whole forests are unambiguous, they have one logic
   * expression, and the user of whom nothing is known passes the second and not the first.
   */
  lemma SameDeepExpressionDifferentAnswers(n: Depths, compact: Json -> string, lib: Lib)
    requires Apart(n)
    ensures Accepted(DeepMixedRule(n), DeepMixedIndex(n)) && Accepted(DeepSpreadRule(n), DeepSpreadIndex(n))
    ensures Unambiguous(Wrapped(n, MixedCore(n))) && Unambiguous(Wrapped(n, SpreadCore(n)))
    ensures WellIndexed(DeepMixedIndex(n), set c | c in DeepMixedRule(n))
    ensures WellIndexed(DeepSpreadIndex(n), set c | c in DeepSpreadRule(n))
    ensures DeepExpression(n, compact, DeepMixedRule(n), DeepMixedIndex(n)) ==
            DeepExpression(n, compact, DeepSpreadRule(n), DeepSpreadIndex(n))
    ensures DeepAnswer(n, lib, DeepMixedIndex(n)) == Val(false) && DeepAnswer(n, lib, DeepSpreadIndex(n)) == Val(true)
  {
    DeepMixedAccepted(n);
    DeepSpreadAccepted(n);
    AcceptedIndexesWell(DeepMixedRule(n), DeepMixedIndex(n));
    AcceptedIndexesWell(DeepSpreadRule(n), DeepSpreadIndex(n));
    BothUnambiguous(n);
    SameDeepExpression(n, compact);
    DeepMixedFails(n, lib);
    DeepSpreadHolds(n, lib);
  }
}

/**
 * The renderer and the evaluator on one rule. The renderer prints the whole forest and the
 * evaluator cuts it at the depth cap; on forests that read as they print once cut, rules with one
 * expression accept the same users.
 */
module RenderedMeaning {
  import opened Wrappers
  import opened Conditions
  import opened Semantics
  import opened Values
  import opened Canonical
  import opened CanonicalMeaning
  import opened Rendering

  predicate HeightAtMost(f: seq<Tree>, n: nat) {
    f == [] || (n > 0 && forall t | t in f :: HeightAtMost(t.children, n - 1))
  }

  /** A forest without what lies more than `n` levels below its roots. */
  function Cut(f: seq<Tree>, n: nat): (g: seq<Tree>)
    ensures |g| == |f|
    decreases f
  {
    seq(|f|, i requires 0 <= i < |f| => CutNode(f[i], n))
  }

  function CutNode(t: Tree, n: nat): Tree {
    Node(t.cond, if n == 0 then [] else Cut(t.children, n - 1))
  }

  /** The evaluator's forest is the renderer's, cut at the depth cap. */
  lemma {:induction false} EvaluatorCuts(byParent: Index, siblings: seq<RuleCondition>, rows: set<RuleCondition>,
                                         path: seq<RuleCondition>, depth: nat)
    requires WellIndexed(byParent, rows) && Follow(rows, path, siblings)
    requires 1 <= depth <= MAX_CONDITION_DEPTH
    ensures Forest(byParent, siblings, depth) == Cut(Expand(byParent, siblings, rows, path), MAX_CONDITION_DEPTH - depth)
    decreases MAX_CONDITION_DEPTH - depth, 1
  {
    forall i | 0 <= i < |siblings|
      ensures Forest(byParent, siblings, depth)[i] ==
              CutNode(Expand(byParent, siblings, rows, path)[i], MAX_CONDITION_DEPTH - depth)
    {
      ForestAt(byParent, siblings, depth, i);
      ExpandAt(byParent, siblings, rows, path, i);
      EvaluatorCutsNode(byParent, siblings[i], rows, path + [siblings[i]], depth);
    }
  }

  lemma EvaluatorCutsNode(byParent: Index, c: RuleCondition, rows: set<RuleCondition>, path: seq<RuleCondition>, depth: nat)
    requires WellIndexed(byParent, rows) && IsDescent(rows, path) && path[|path| - 1] == c
    requires 1 <= depth <= MAX_CONDITION_DEPTH
    ensures Unfold(byParent, c, depth) == CutNode(Node(c, Under(byParent, c, rows, path)), MAX_CONDITION_DEPTH - depth)
    decreases MAX_CONDITION_DEPTH - depth, 0
  {
    var kids := Under(byParent, c, rows, path);
    if depth < MAX_CONDITION_DEPTH {
      ChildrenDescend(byParent, rows, path);
      EvaluatorCuts(byParent, Bucket(byParent, c.id), rows, path, depth + 1);
      assert Forest(byParent, Bucket(byParent, c.id), depth + 1) == Cut(kids, MAX_CONDITION_DEPTH - (depth + 1));
    }
  }

  /** A forest no higher than the cap is not cut. */
  lemma {:induction false} CutIsWhole(f: seq<Tree>, n: nat)
    requires HeightAtMost(f, n + 1)
    ensures Cut(f, n) == f
  {
    forall i | 0 <= i < |f| ensures Cut(f, n)[i] == f[i] {
      assert f[i] in f;
      if n > 0 {
        CutIsWhole(f[i].children, n - 1);
      }
    }
  }

  // ---------------------------------------------------------- shapes of cut forests

  /** The same cut on shapes: a group too deep to be evaluated counts as an empty one. */
  function CutShape(s: Shape, n: nat): Shape {
    match s
    case Group(items) => if n == 0 then Unit else Group(CutChain(items, n - 1))
    case _ => s
  }

  function CutChain(c: Chain, n: nat): Chain {
    match c
    case One(node) => One(CutShape(node, n))
    case Link(node, isOr, rest) => Link(CutShape(node, n), isOr, CutChain(rest, n))
  }

  /** No node at the cap joins children, which are cut off below it, by OR. */
  predicate NoOrAtCap(f: seq<Tree>, n: nat) {
    forall t | t in f :: if n == 0 then !JoinsByOr(t) else NoOrAtCap(t.children, n - 1)
  }

  /** The cut shape of a forest, read one node at a time: cut-off children count as holding. */
  lemma UnrollCut(f: seq<Tree>, e: map<string, Raw>, judge: Judge, n: nat)
    requires f != []
    ensures var t, shape := f[0], CutChain(Flat(f, e), n);
            var own, hasKids := OwnVerdict(t.cond, e, judge), t.children != [];
            var kids := hasKids && (n == 0 || Holds(ChainFold(CutChain(Flat(t.children, e), n - 1), judge)));
            var rest := if |f| == 1 then (false, false) else ChainFold(CutChain(Flat(f[1..], e), n), judge);
            && (ChainErrs(shape, judge) <==>
                own.Fail? || (hasKids && n > 0 && ChainErrs(CutChain(Flat(t.children, e), n - 1), judge))
                || (|f| > 1 && ChainErrs(CutChain(Flat(f[1..], e), n), judge)))
            && ChainFold(shape, judge) == Spread(t.cond, hasKids, own == Val(true), kids, |f| == 1, rest)
  {
    var t := f[0];
    if t.children != [] {
      GroupInFront(f, e, judge, n);
      if t.cond.attributeId.Some? {
        var group, cut := Group(Flat(t.children, e)), CutShape(Group(Flat(t.children, e)), n);
        var tail := if |f| == 1 then One(group) else Link(group, t.cond.connector == Some(OR), Flat(f[1..], e));
        assert Flat(f, e).rest == tail;
        assert CutChain(Flat(f, e), n).rest == CutChain(tail, n);
      }
    }
  }

  /** The cut group of a node in front of the rest. */
  lemma GroupInFront(f: seq<Tree>, e: map<string, Raw>, judge: Judge, n: nat)
    requires f != [] && f[0].children != []
    ensures var t, group := f[0], Group(Flat(f[0].children, e));
            var tail := if |f| == 1 then One(group) else Link(group, t.cond.connector == Some(OR), Flat(f[1..], e));
            var kids := n == 0 || Holds(ChainFold(CutChain(Flat(t.children, e), n - 1), judge));
            var isOr := t.cond.connector == Some(OR);
            && ChainFold(CutChain(tail, n), judge) ==
               (if |f| == 1 then (kids, false) else Join(kids, isOr, ChainFold(CutChain(Flat(f[1..], e), n), judge)))
            && (ChainErrs(CutChain(tail, n), judge) <==>
                (n > 0 && ChainErrs(CutChain(Flat(t.children, e), n - 1), judge))
                || (|f| > 1 && ChainErrs(CutChain(Flat(f[1..], e), n), judge)))
  {
    var group := Group(Flat(f[0].children, e));
    assert CutShape(group, n) == if n == 0 then Unit else Group(CutChain(Flat(f[0].children, e), n - 1));
  }

  /** The shape of a forest in the same terms. */
  lemma UnrollWhole(f: seq<Tree>, e: map<string, Raw>, judge: Judge)
    requires f != []
    ensures var t, shape := f[0], Flat(f, e);
            var own, hasKids := OwnVerdict(t.cond, e, judge), t.children != [];
            var kids := hasKids && Holds(ChainFold(Flat(t.children, e), judge));
            var rest := if |f| == 1 then (false, false) else ChainFold(Flat(f[1..], e), judge);
            && (ChainErrs(shape, judge) <==>
                own.Fail? || (hasKids && ChainErrs(Flat(t.children, e), judge))
                || (|f| > 1 && ChainErrs(Flat(f[1..], e), judge)))
            && ChainFold(shape, judge) == Spread(t.cond, hasKids, own == Val(true), kids, |f| == 1, rest)
  {
    UnrollShape(f, e, judge);
  }

  lemma CutTail(f: seq<Tree>, n: nat)
    requires f != []
    ensures Cut(f, n)[1..] == Cut(f[1..], n) && Cut(f, n)[0] == CutNode(f[0], n)
  {}

  /** Cut-off children that count as holding do not matter, except behind an OR. */
  lemma CutOffHolds(c: RuleCondition, own: bool, last: bool, rest: (bool, bool))
    requires c.attributeId.None? ==> own
    requires c.attributeId.Some? ==> c.childConnector != Some(OR)
    ensures Spread(c, true, own, true, last, rest) == Spread(c, false, own, false, last, rest)
  {}

  /** What is printed and then cut reads as what is cut and then printed, when no node at the cap joins by OR. */
  lemma {:induction false} CapIsHarmless(f: seq<Tree>, e: map<string, Raw>, judge: Judge, n: nat)
    requires f != [] && NoOrAtCap(f, n)
    ensures ChainFold(CutChain(Flat(f, e), n), judge) == ChainFold(Flat(Cut(f, n), e), judge)
    ensures ChainErrs(CutChain(Flat(f, e), n), judge) <==> ChainErrs(Flat(Cut(f, n), e), judge)
    decreases f
  {
    var t := f[0];
    assert t in f;
    CutTail(f, n);
    UnrollCut(f, e, judge, n);
    UnrollWhole(Cut(f, n), e, judge);
    if t.children != [] && n > 0 {
      CapIsHarmless(t.children, e, judge, n - 1);
    }
    if |f| > 1 {
      assert forall u | u in f[1..] :: u in f;
      CapIsHarmless(f[1..], e, judge, n);
    }
    if t.children != [] && n == 0 {
      var rest := if |f| == 1 then (false, false) else ChainFold(CutChain(Flat(f[1..], e), n), judge);
      CutOffHolds(t.cond, OwnVerdict(t.cond, e, judge) == Val(true), |f| == 1, rest);
    }
  }

  /** So the evaluator answers as the cut shape does. */
  lemma CutAnswersAsPrinted(f: seq<Tree>, check: Checker, e: map<string, Raw>, judge: Judge, n: nat)
    requires f != [] && Unambiguous(Cut(f, n)) && NoOrAtCap(f, n) && Agree(Cut(f, n), check, e, judge)
    ensures Answer(Meaning(Cut(f, n), check)) == ShapeAnswer(CutChain(Flat(f, e), n), judge)
  {
    ShapeDecides(Cut(f, n), check, e, judge);
    CapIsHarmless(f, e, judge, n);
  }

  lemma {:induction false} CutHasNoMixedNodes(f: seq<Tree>, n: nat)
    requires NoMixedNodes(f)
    ensures NoMixedNodes(Cut(f, n))
    decreases f
  {
    forall u | u in Cut(f, n)
      ensures (u.children == [] || u.cond.attributeId.None?) && NoMixedNodes(u.children)
    {
      var i :| 0 <= i < |f| && u == CutNode(f[i], n);
      assert f[i] in f;
      if n > 0 {
        CutHasNoMixedNodes(f[i].children, n - 1);
      }
    }
  }

  /** A forest without mixed nodes reads as printed at any cap. */
  lemma {:induction false} UnmixedReadsAsCut(f: seq<Tree>, n: nat)
    requires NoMixedNodes(f)
    ensures Unambiguous(Cut(f, n)) && NoOrAtCap(f, n)
  {
    CutHasNoMixedNodes(f, n);
    NoMixedNodesIsUnambiguous(Cut(f, n));
    UnmixedHasNoOrAtCap(f, n);
  }

  lemma {:induction false} UnmixedHasNoOrAtCap(f: seq<Tree>, n: nat)
    requires NoMixedNodes(f)
    ensures NoOrAtCap(f, n)
    decreases n
  {
    if n > 0 {
      forall t | t in f ensures NoOrAtCap(t.children, n - 1) {
        UnmixedHasNoOrAtCap(t.children, n - 1);
      }
    }
  }

  /** So does an unambiguous one that the cap leaves whole. */
  lemma {:induction false} LowHasNoOrAtCap(f: seq<Tree>, n: nat)
    requires HeightAtMost(f, n + 1)
    ensures NoOrAtCap(f, n)
    decreases n
  {
    if n > 0 {
      forall t | t in f ensures NoOrAtCap(t.children, n - 1) {
        LowHasNoOrAtCap(t.children, n - 1);
      }
    }
  }

  // ------------------------------------------------------------------ the main result

  /** What a rule's rows must satisfy for its expression to tell its meaning. */
  ghost predicate Canonicalizable(conditions: seq<RuleCondition>, byParent: Index, expected: map<string, Raw>,
                                  typeOf: Uuid -> Option<string>)
  {
    && SiblingsSeparated(conditions, BySequence())
    && IsIndex(byParent, conditions, BySequenceThenId())
    && WellIndexed(byParent, set c | c in conditions)
    && Tellable(WholeForest(byParent, set c | c in conditions), expected, typeOf)
  }

  /** What is evaluated of the forest is unambiguous, and no node at the cap joins children by OR. */
  ghost predicate Tellable(f: seq<Tree>, expected: map<string, Raw>, typeOf: Uuid -> Option<string>) {
    var n := MAX_CONDITION_DEPTH - 1;
    Printable(f) && Typed(Cut(f, n), expected, typeOf) && Unambiguous(Cut(f, n)) && NoOrAtCap(f, n)
  }

  /** The evaluator's forest, built with its own sort, is the renderer's, cut. */
  lemma SameForest(conditions: seq<RuleCondition>, render: Index, eval: Index)
    requires SiblingsSeparated(conditions, BySequence())
    requires IsIndex(render, conditions, BySequenceThenId()) && IsIndex(eval, conditions, BySequence())
    requires WellIndexed(render, set c | c in conditions)
    ensures Forest(eval, Bucket(eval, ""), 1) == Cut(WholeForest(render, set c | c in conditions), MAX_CONDITION_DEPTH - 1)
  {
    var rows := set c | c in conditions;
    OrdersAgree(eval, render, conditions);
    RootsDescend(render, rows);
    EvaluatorCuts(render, Bucket(render, ""), rows, [], 1);
  }

  lemma EmptyPrintsEmpty(f: seq<Tree>, expected: map<string, Raw>, compact: Json -> string)
    requires Printable(f)
    ensures ForestText(f, ValueLeaf(expected, compact)) == "" <==> f == []
  {
    if f != [] {
      TextOfShape(f, expected, compact);
      ChainStart(Flat(f, expected), compact);
    }
  }

  /** Two rules with the same canonical expression accept the same users. */
  lemma EqualExpressionsEqualAnswers(
    a: seq<RuleCondition>, b: seq<RuleCondition>, ea: map<string, Raw>, eb: map<string, Raw>,
    renderA: Index, renderB: Index, evalA: Index, evalB: Index,
    compact: Json -> string, typeOf: Uuid -> Option<string>, lib: Lib, user: Option<map<string, Raw>>)
    requires CompactLaw(compact)
    requires Canonicalizable(a, renderA, ea, typeOf) && IsIndex(evalA, a, BySequence())
    requires Canonicalizable(b, renderB, eb, typeOf) && IsIndex(evalB, b, BySequence())
    requires ForestText(WholeForest(renderA, set c | c in a), ValueLeaf(ea, compact)) ==
             ForestText(WholeForest(renderB, set c | c in b), ValueLeaf(eb, compact))
    ensures Answer(Meaning(Forest(evalA, Bucket(evalA, ""), 1), LeafChecker(lib, Stamp(ea), user))) ==
            Answer(Meaning(Forest(evalB, Bucket(evalB, ""), 1), LeafChecker(lib, Stamp(eb), user)))
  {
    SameForest(a, renderA, evalA);
    SameForest(b, renderB, evalB);
    EqualTextsEqualAnswers(WholeForest(renderA, set c | c in a), WholeForest(renderB, set c | c in b),
                           ea, eb, compact, typeOf, lib, user);
  }

  lemma EqualTextsEqualAnswers(
    f: seq<Tree>, g: seq<Tree>, ef: map<string, Raw>, eg: map<string, Raw>,
    compact: Json -> string, typeOf: Uuid -> Option<string>, lib: Lib, user: Option<map<string, Raw>>)
    requires CompactLaw(compact) && Tellable(f, ef, typeOf) && Tellable(g, eg, typeOf)
    requires ForestText(f, ValueLeaf(ef, compact)) == ForestText(g, ValueLeaf(eg, compact))
    ensures var n := MAX_CONDITION_DEPTH - 1;
            Answer(Meaning(Cut(f, n), LeafChecker(lib, Stamp(ef), user))) ==
            Answer(Meaning(Cut(g, n), LeafChecker(lib, Stamp(eg), user)))
  {
    EmptyPrintsEmpty(f, ef, compact);
    EmptyPrintsEmpty(g, eg, compact);
    if f != [] {
      var judge := JudgeFor(lib, user, typeOf);
      TextsAgreeIffShapesAgree(f, g, ef, eg, compact);
      TellableAnswers(f, ef, typeOf, lib, user);
      TellableAnswers(g, eg, typeOf, lib, user);
    }
  }

  /** A tellable forest answers every user as its cut shape does. */
  lemma TellableAnswers(f: seq<Tree>, e: map<string, Raw>, typeOf: Uuid -> Option<string>, lib: Lib,
                        user: Option<map<string, Raw>>)
    requires f != [] && Tellable(f, e, typeOf)
    ensures var n := MAX_CONDITION_DEPTH - 1;
            Answer(Meaning(Cut(f, n), LeafChecker(lib, Stamp(e), user))) ==
            ShapeAnswer(CutChain(Flat(f, e), n), JudgeFor(lib, user, typeOf))
  {
    var n := MAX_CONDITION_DEPTH - 1;
    CheckerAgrees(Cut(f, n), lib, e, user, typeOf);
    CutAnswersAsPrinted(f, LeafChecker(lib, Stamp(e), user), e, JudgeFor(lib, user, typeOf), n);
  }
}

/**
 * What a rule means, without its evaluation loop: a forest of conditions, each sibling chain
 * the OR of its maximal AND-runs, and the first failing check (in visiting order) as the error.
 */
module Semantics {
  import opened Wrappers
  import opened Conditions

  datatype EvalError =
    | NotPreloaded(condition: Uuid)
    | BadActual(attribute: Uuid)
    | BadExpected(attribute: Uuid)
    | BadBounds(count: nat, attribute: Uuid)
    | BadOperator(op: string)
    | BadDataType(dataType: string)

  /** The `(bool, error)` result of a check or of a whole rule. */
  datatype Verdict = Val(holds: bool) | Fail(error: EvalError)

  /** A leaf check against one user. */
  type Checker = RuleCondition -> Verdict

  datatype Tree = Node(cond: RuleCondition, children: seq<Tree>)

  const MAX_CONDITION_DEPTH := 4

  /** The part of the index below `c` that the evaluator can reach from depth `depth`. */
  function Unfold(byParent: Index, c: RuleCondition, depth: nat): Tree
    decreases MAX_CONDITION_DEPTH - depth, 0
  {
    Node(c, if depth < MAX_CONDITION_DEPTH then Forest(byParent, Bucket(byParent, c.id), depth + 1) else [])
  }

  function Forest(byParent: Index, siblings: seq<RuleCondition>, depth: nat): (f: seq<Tree>)
    ensures |f| == |siblings|
    decreases MAX_CONDITION_DEPTH - depth, 1
  {
    seq(|siblings|, i requires 0 <= i < |siblings| => Unfold(byParent, siblings[i], depth))
  }

  lemma ForestAt(byParent: Index, siblings: seq<RuleCondition>, depth: nat, i: nat)
    requires i < |siblings|
    ensures Forest(byParent, siblings, depth)[i] == Unfold(byParent, siblings[i], depth)
    ensures Unfold(byParent, siblings[i], depth).cond == siblings[i]
  {}

  /** A node's own leaf check, when it has one. */
  function OwnCheck(c: RuleCondition): seq<RuleCondition> {
    if c.attributeId.Some? then [c] else []
  }

  /** Every leaf check of a forest in the order the evaluator performs them: children first. */
  function Checks(f: seq<Tree>): seq<RuleCondition> {
    if f == [] then []
    else Checks(f[0].children) + OwnCheck(f[0].cond) + Checks(f[1..])
  }

  function FirstError(check: Checker, cs: seq<RuleCondition>): Option<EvalError> {
    if cs == [] then None
    else if check(cs[0]).Fail? then Some(check(cs[0]).error)
    else FirstError(check, cs[1..])
  }

  /** An error surfaces exactly when some visited check fails: there is no short circuit. */
  lemma {:induction false} FirstErrorIsSomeError(check: Checker, cs: seq<RuleCondition>)
    ensures FirstError(check, cs).Some? <==> exists c | c in cs :: check(c).Fail?
  {
    if cs != [] {
      FirstErrorIsSomeError(check, cs[1..]);
      assert cs == [cs[0]] + cs[1..];
    }
  }

  lemma {:induction false} FirstErrorConcat(check: Checker, a: seq<RuleCondition>, b: seq<RuleCondition>)
    ensures FirstError(check, a + b) ==
            if FirstError(check, a).Some? then FirstError(check, a) else FirstError(check, b)
  {
    if a == [] {
      assert a + b == b;
    } else {
      assert (a + b)[1..] == a[1..] + b;
      FirstErrorConcat(check, a[1..], b);
    }
  }

  lemma {:induction false} ChecksConcat(a: seq<Tree>, b: seq<Tree>)
    ensures Checks(a + b) == Checks(a) + Checks(b)
  {
    if a == [] {
      assert a + b == b;
    } else {
      ChecksConcat(a[1..], b);
      HeadFirst(a, b);
      ChecksStep(a + b, a, a[1..] + b, a[1..], a[0], Checks(b));
    }
  }

  /** Putting one node in front of two forests puts its checks in front of theirs. */
  lemma ChecksStep(longer: seq<Tree>, shorter: seq<Tree>, ab: seq<Tree>, a: seq<Tree>, t: Tree, after: seq<RuleCondition>)
    requires longer == [t] + ab && shorter == [t] + a && Checks(ab) == Checks(a) + after
    ensures Checks(longer) == Checks(shorter) + after
  {
    ChecksCons(t, ab);
    ChecksCons(t, a);
    Regroup(NodeChecks(t), Checks(a), after);
  }

  lemma HeadFirst<T>(a: seq<T>, b: seq<T>)
    requires a != []
    ensures a == [a[0]] + a[1..] && a + b == [a[0]] + (a[1..] + b)
  {}

  lemma Regroup<T>(a: seq<T>, b: seq<T>, c: seq<T>)
    ensures a + (b + c) == (a + b) + c
  {}

  ghost function NodeChecks(t: Tree): seq<RuleCondition> {
    Checks(t.children) + OwnCheck(t.cond)
  }

  lemma ChecksCons(t: Tree, rest: seq<Tree>)
    ensures Checks([t] + rest) == NodeChecks(t) + Checks(rest)
  {
    assert ([t] + rest)[1..] == rest;
  }

  /** Of several errors the first met is reported: below a node, then its own, then to its right. */
  lemma FirstErrorOf(check: Checker, f: seq<Tree>)
    requires f != []
    ensures var below, own, rest := FirstError(check, Checks(f[0].children)), FirstError(check, OwnCheck(f[0].cond)), FirstError(check, Checks(f[1..]));
            FirstError(check, Checks(f)) == if below.Some? then below else if own.Some? then own else rest
  {
    FirstErrorConcat(check, Checks(f[0].children) + OwnCheck(f[0].cond), Checks(f[1..]));
    FirstErrorConcat(check, Checks(f[0].children), OwnCheck(f[0].cond));
  }

  /** Positions a..b of a chain of n siblings form a maximal AND-run. */
  ghost predicate IsRun(ors: seq<bool>, n: nat, a: int, b: int) {
    && 0 <= a <= b < n <= |ors|
    && (a == 0 || ors[a - 1])
    && (b == n - 1 || ors[b])
    && (forall k | a <= k < b :: !ors[k])
  }

  ghost predicate AllHold(vals: seq<bool>, a: int, b: int)
    requires 0 <= a <= b < |vals|
  {
    forall k | a <= k <= b :: vals[k]
  }

  /** A chain holds when one of its maximal AND-runs holds throughout. */
  ghost predicate SomeRunHolds(vals: seq<bool>, ors: seq<bool>)
    requires |vals| == |ors|
  {
    exists a, b :: IsRun(ors, |vals|, a, b) && AllHold(vals, a, b)
  }

  /** The connector after each sibling, as the evaluator reads it: only OR breaks a run. */
  function Ors(f: seq<Tree>): (ors: seq<bool>)
    ensures |ors| == |f|
  {
    seq(|f|, i requires 0 <= i < |f| => ConnectorValue(f[i].cond.connector) == OR)
  }

  ghost function Truths(f: seq<Tree>, check: Checker): (vals: seq<bool>)
    ensures |vals| == |f|
    ensures forall i | 0 <= i < |f| :: vals[i] == Truth(f[i], check)
    decreases f, 0
  {
    seq(|f|, i requires 0 <= i < |f| => Truth(f[i], check))
  }

  ghost predicate ChainTruth(f: seq<Tree>, check: Checker)
    decreases f, 1
  {
    SomeRunHolds(Truths(f, check), Ors(f))
  }

  /** The truth of one node when no check of it errors. */
  ghost predicate Truth(t: Tree, check: Checker)
    decreases t, 2
  {
    var own := t.cond.attributeId.None? || check(t.cond) == Val(true);
    if t.children == [] then own
    else if t.cond.attributeId.None? then ChainTruth(t.children, check)
    else if ConnectorValue(t.cond.childConnector) == OR then own || ChainTruth(t.children, check)
    else own && ChainTruth(t.children, check)
  }

  /** The meaning of a forest: its first error, or the truth of its root chain (true when empty). */
  ghost function Meaning(f: seq<Tree>, check: Checker): Verdict {
    match FirstError(check, Checks(f))
    case Some(e) => Fail(e)
    case None => Val(f == [] || ChainTruth(f, check))
  }

  /** The meaning of one node. */
  ghost function NodeMeaning(t: Tree, check: Checker): Verdict {
    match FirstError(check, Checks(t.children) + OwnCheck(t.cond))
    case Some(e) => Fail(e)
    case None => Val(Truth(t, check))
  }

  /** Some run that ends before position `start` holds. */
  ghost predicate EarlierRunHolds(vals: seq<bool>, ors: seq<bool>, start: nat)
    requires |vals| == |ors|
  {
    exists a, b :: IsRun(ors, |vals|, a, b) && b < start && AllHold(vals, a, b)
  }

  /** The open run starts at `start` and reaches `i`. */
  ghost predicate OpenRun(ors: seq<bool>, start: nat, i: nat) {
    && start <= i < |ors|
    && (start == 0 || ors[start - 1])
    && (forall k | start <= k < i :: !ors[k])
  }

  /** Closing the open run: the runs that end by i are the earlier ones and the one just closed. */
  lemma CloseRun(vals: seq<bool>, ors: seq<bool>, start: nat, i: nat)
    requires |vals| == |ors| && OpenRun(ors, start, i) && (ors[i] || i + 1 == |vals|)
    ensures EarlierRunHolds(vals, ors, i + 1) <==> EarlierRunHolds(vals, ors, start) || AllHold(vals, start, i)
  {
    assert IsRun(ors, |vals|, start, i);
    if EarlierRunHolds(vals, ors, i + 1) && !EarlierRunHolds(vals, ors, start) {
      var a, b :| IsRun(ors, |vals|, a, b) && b < i + 1 && AllHold(vals, a, b);
      assert start <= b;
      assert a == start;
    }
  }

  /** One more sibling: an OR closes the open run and opens the next, anything else extends it. */
  lemma ExtendRun(vals: seq<bool>, ors: seq<bool>, start: nat, i: nat)
    requires |vals| == |ors| && OpenRun(ors, start, i) && i + 1 < |vals|
    ensures ors[i] ==>
              && OpenRun(ors, i + 1, i + 1)
              && AllHold(vals, i + 1, i + 1) == vals[i + 1]
              && EarlierRunHolds(vals, ors, i + 1) == (EarlierRunHolds(vals, ors, start) || AllHold(vals, start, i))
    ensures !ors[i] ==>
              && OpenRun(ors, start, i + 1)
              && AllHold(vals, start, i + 1) == (AllHold(vals, start, i) && vals[i + 1])
  {
    if ors[i] {
      CloseRun(vals, ors, start, i);
    }
  }

  /** The first error of one more sibling: the earlier one's, or this node's. */
  lemma StepError(f: seq<Tree>, check: Checker, i: nat)
    requires i < |f| && FirstError(check, Checks(f[..i])) == None
    ensures NodeMeaning(f[i], check).Val? ==> FirstError(check, Checks(f[..i + 1])) == None
    ensures NodeMeaning(f[i], check).Fail? ==> Meaning(f, check) == NodeMeaning(f[i], check)
  {
    var own := Checks(f[i].children) + OwnCheck(f[i].cond);
    assert Checks([f[i]]) == own;
    assert f[..i + 1] == f[..i] + [f[i]] && f == f[..i + 1] + f[i + 1..];
    ChecksConcat(f[..i], [f[i]]);
    ChecksConcat(f[..i + 1], f[i + 1..]);
    FirstErrorConcat(check, Checks(f[..i]), own);
    FirstErrorConcat(check, Checks(f[..i + 1]), Checks(f[i + 1..]));
  }

  /** How far a chain scan has come: is an earlier run true, is the open run true so far. */
  datatype Progress = Stuck | Scanned(accOr: bool, result: bool)

  /** The scan's state after siblings 0..i, none of which errs, with the open run begun at `start`. */
  ghost function Scan(f: seq<Tree>, check: Checker, i: nat, start: nat): Progress {
    if i < |f| && FirstError(check, Checks(f[..i + 1])) == None && OpenRun(Ors(f), start, i)
    then Scanned(EarlierRunHolds(Truths(f, check), Ors(f), start), AllHold(Truths(f, check), start, i))
    else Stuck
  }

  lemma ScanFirst(f: seq<Tree>, check: Checker)
    requires f != []
    ensures NodeMeaning(f[0], check).Fail? ==> Meaning(f, check) == NodeMeaning(f[0], check)
    ensures NodeMeaning(f[0], check).Val? ==> Scan(f, check, 0, 0) == Scanned(false, NodeMeaning(f[0], check).holds)
  {
    assert f[..0] == [];
    StepError(f, check, 0);
  }

  lemma ScanNext(f: seq<Tree>, check: Checker, i: nat, start: nat, accOr: bool, result: bool)
    requires Scan(f, check, i, start) == Scanned(accOr, result) && i + 1 < |f|
    ensures NodeMeaning(f[i + 1], check).Fail? ==> Meaning(f, check) == NodeMeaning(f[i + 1], check)
    ensures NodeMeaning(f[i + 1], check).Val? ==>
              var next := NodeMeaning(f[i + 1], check).holds;
              if ConnectorValue(f[i].cond.connector) == OR
              then Scan(f, check, i + 1, i + 1) == Scanned(accOr || result, next)
              else Scan(f, check, i + 1, start) == Scanned(accOr, result && next)
  {
    StepError(f, check, i + 1);
    ExtendRun(Truths(f, check), Ors(f), start, i);
  }

  lemma ScanLast(f: seq<Tree>, check: Checker, i: nat, start: nat, accOr: bool, result: bool)
    requires Scan(f, check, i, start) == Scanned(accOr, result) && i + 1 == |f|
    ensures Meaning(f, check) == Val(accOr || result)
  {
    CloseRun(Truths(f, check), Ors(f), start, i);
    assert f[..i + 1] == f;
  }
}

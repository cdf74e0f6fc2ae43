/**
 * The canonical expression determines meaning. Two forests that print alike answer alike on
 * every user, provided no mixed node joins its children by OR inside a longer AND-run.
 */
module CanonicalMeaning {
  import opened Wrappers
  import opened Conditions
  import opened Semantics
  import opened Values
  import opened Canonical

  /** An evaluation outcome up to the text of the error. */
  function Answer(v: Verdict): Option<bool> {
    if v.Val? then Some(v.holds) else None
  }

  /** A leaf judged from its printed parts alone. */
  type Judge = (Uuid, string, Json) -> Verdict

  // ------------------------------------------------------- runs, from the right

  /** Whether the first run holds, and whether some later run holds. */
  function Fold(vals: seq<bool>, ors: seq<bool>): (bool, bool)
    requires |vals| == |ors| && vals != []
  {
    if |vals| == 1 then (vals[0], false)
    else Join(vals[0], ors[0], Fold(vals[1..], ors[1..]))
  }

  /** One more sibling in front of a folded chain. */
  function Join(val: bool, isOr: bool, rest: (bool, bool)): (bool, bool) {
    if isOr then (val, rest.0 || rest.1) else (val && rest.0, rest.1)
  }

  function Holds(v: (bool, bool)): bool {
    v.0 || v.1
  }

  ghost predicate FirstRunHolds(vals: seq<bool>, ors: seq<bool>)
    requires |vals| == |ors|
  {
    exists b :: IsRun(ors, |vals|, 0, b) && AllHold(vals, 0, b)
  }

  ghost predicate LaterRunHolds(vals: seq<bool>, ors: seq<bool>)
    requires |vals| == |ors|
  {
    exists a, b :: a > 0 && IsRun(ors, |vals|, a, b) && AllHold(vals, a, b)
  }

  /** The fold computes the maximal-run reading of a chain. */
  lemma {:induction false} FoldIsRuns(vals: seq<bool>, ors: seq<bool>)
    requires |vals| == |ors| && vals != []
    ensures Fold(vals, ors).0 == FirstRunHolds(vals, ors)
    ensures Fold(vals, ors).1 == LaterRunHolds(vals, ors)
    ensures Holds(Fold(vals, ors)) == SomeRunHolds(vals, ors)
  {
    var n := |vals|;
    if n == 1 {
      assert IsRun(ors, 1, 0, 0);
    } else {
      var v, o := vals[1..], ors[1..];
      FoldIsRuns(v, o);
      FirstOfTail(vals, ors);
      LaterOfTail(vals, ors);
    }
  }

  lemma RunInTail(ors: seq<bool>, n: nat, a: int, b: int)
    requires 2 <= n <= |ors|
    ensures a > 0 ==> (IsRun(ors, n, a + 1, b + 1) <==> IsRun(ors[1..], n - 1, a, b))
    ensures ors[0] ==> (IsRun(ors, n, 1, b + 1) <==> IsRun(ors[1..], n - 1, 0, b))
    ensures !ors[0] ==> (IsRun(ors, n, 0, b + 1) <==> IsRun(ors[1..], n - 1, 0, b))
  {
    var o := ors[1..];
    assert forall k | 0 <= k < |o| :: o[k] == ors[k + 1];
    if IsRun(ors, n, a + 1, b + 1) && a > 0 {
      assert forall k | a <= k < b :: o[k] == ors[k + 1];
    }
    if IsRun(o, n - 1, a, b) && a > 0 {
      assert forall k | a + 1 <= k < b + 1 :: ors[k] == o[k - 1];
    }
    if IsRun(o, n - 1, 0, b) {
      assert forall k | 1 <= k < b + 1 :: ors[k] == o[k - 1];
    }
  }

  lemma FirstOfTail(vals: seq<bool>, ors: seq<bool>)
    requires |vals| == |ors| >= 2
    ensures FirstRunHolds(vals, ors) ==
            if ors[0] then vals[0] else vals[0] && FirstRunHolds(vals[1..], ors[1..])
  {
    var n, v, o := |vals|, vals[1..], ors[1..];
    if ors[0] {
      assert IsRun(ors, n, 0, 0);
    } else {
      if FirstRunHolds(vals, ors) {
        var b :| IsRun(ors, n, 0, b) && AllHold(vals, 0, b);
        RunInTail(ors, n, 0, b - 1);
        assert AllHold(v, 0, b - 1);
      }
      if vals[0] && FirstRunHolds(v, o) {
        var b :| IsRun(o, n - 1, 0, b) && AllHold(v, 0, b);
        RunInTail(ors, n, 0, b);
        assert forall k | 1 <= k <= b + 1 :: vals[k] == v[k - 1];
        assert AllHold(vals, 0, b + 1);
      }
    }
  }

  lemma LaterOfTail(vals: seq<bool>, ors: seq<bool>)
    requires |vals| == |ors| >= 2
    ensures LaterRunHolds(vals, ors) ==
            (LaterRunHolds(vals[1..], ors[1..]) || (ors[0] && FirstRunHolds(vals[1..], ors[1..])))
  {
    var n, v, o := |vals|, vals[1..], ors[1..];
    if LaterRunHolds(vals, ors) {
      var a, b :| a > 0 && IsRun(ors, n, a, b) && AllHold(vals, a, b);
      RunInTail(ors, n, a - 1, b - 1);
      assert AllHold(v, a - 1, b - 1);
    }
    if LaterRunHolds(v, o) {
      var a, b :| a > 0 && IsRun(o, n - 1, a, b) && AllHold(v, a, b);
      RunInTail(ors, n, a, b);
      assert forall k | a + 1 <= k <= b + 1 :: vals[k] == v[k - 1];
      assert AllHold(vals, a + 1, b + 1);
    }
    if ors[0] && FirstRunHolds(v, o) {
      var b :| IsRun(o, n - 1, 0, b) && AllHold(v, 0, b);
      RunInTail(ors, n, 0, b);
      assert forall k | 1 <= k <= b + 1 :: vals[k] == v[k - 1];
      assert AllHold(vals, 1, b + 1);
    }
  }

  // ------------------------------------------------------------ meaning of a shape

  function ShapeHolds(s: Shape, judge: Judge): bool {
    match s
    case Leaf(attr, op, v) => judge(attr, op, v) == Val(true)
    case Unit => true
    case Group(items) => Holds(ChainFold(items, judge))
  }

  function ChainFold(c: Chain, judge: Judge): (bool, bool) {
    match c
    case One(n) => (ShapeHolds(n, judge), false)
    case Link(n, isOr, rest) => Join(ShapeHolds(n, judge), isOr, ChainFold(rest, judge))
  }

  predicate ShapeErrs(s: Shape, judge: Judge) {
    match s
    case Leaf(attr, op, v) => judge(attr, op, v).Fail?
    case Unit => false
    case Group(items) => ChainErrs(items, judge)
  }

  predicate ChainErrs(c: Chain, judge: Judge) {
    match c
    case One(n) => ShapeErrs(n, judge)
    case Link(n, _, rest) => ShapeErrs(n, judge) || ChainErrs(rest, judge)
  }

  /** The answer a printed chain gives. */
  function ShapeAnswer(c: Chain, judge: Judge): Option<bool> {
    if ChainErrs(c, judge) then None else Some(Holds(ChainFold(c, judge)))
  }

  /** An own check joined with children by OR: the node whose missing parentheses can mislead. */
  predicate JoinsByOr(t: Tree) {
    t.cond.attributeId.Some? && t.children != [] && t.cond.childConnector == Some(OR)
  }

  /** Every node that joins its children by OR stands alone in its AND-run, at every level. */
  predicate Unambiguous(f: seq<Tree>) {
    && (forall i | 0 <= i < |f| && JoinsByOr(f[i]) ::
          && (i == 0 || f[i - 1].cond.connector == Some(OR))
          && (i == |f| - 1 || f[i].cond.connector == Some(OR)))
    && (forall t | t in f :: Unambiguous(t.children))
  }

  /** The checker and the judge agree on every check of the forest. */
  ghost predicate Agree(f: seq<Tree>, check: Checker, expected: map<string, Raw>, judge: Judge) {
    forall c | c in Checks(f) ::
      && c.attributeId.Some?
      && Answer(check(c)) == Answer(judge(c.attributeId.value, c.op, PrintedValue(expected, c.attributeId.value)))
  }

  lemma AgreeParts(f: seq<Tree>, check: Checker, expected: map<string, Raw>, judge: Judge)
    requires f != [] && Agree(f, check, expected, judge)
    ensures Agree(f[0].children, check, expected, judge) && Agree(f[1..], check, expected, judge)
    ensures f[0].cond.attributeId.Some? ==> f[0].cond in Checks(f)
  {
    var own := OwnCheck(f[0].cond);
    assert Checks(f) == Checks(f[0].children) + own + Checks(f[1..]);
    if f[0].cond.attributeId.Some? {
      assert own[0] == f[0].cond && own[0] in own;
    }
  }

  /** What the judge says of a node's own check. */
  function OwnVerdict(c: RuleCondition, expected: map<string, Raw>, judge: Judge): Verdict {
    if c.attributeId.None? then Val(true)
    else judge(c.attributeId.value, c.op, PrintedValue(expected, c.attributeId.value))
  }

  /** A node of value `val` in front of the folded rest of its chain. */
  function InFront(f: seq<Tree>, val: bool, expected: map<string, Raw>, judge: Judge): (bool, bool)
    requires f != []
  {
    if |f| == 1 then (val, false)
    else Join(val, f[0].cond.connector == Some(OR), ChainFold(Flat(f[1..], expected), judge))
  }

  /** The shape of a forest, read one node at a time. */
  lemma UnrollShape(f: seq<Tree>, expected: map<string, Raw>, judge: Judge)
    requires f != []
    ensures var t := f[0]; var shape := Flat(f, expected);
            var own := OwnVerdict(t.cond, expected, judge);
            && (ChainErrs(shape, judge) <==>
                own.Fail? || (t.children != [] && ChainErrs(Flat(t.children, expected), judge))
                || (|f| > 1 && ChainErrs(Flat(f[1..], expected), judge)))
            && ChainFold(shape, judge) ==
               if t.children == [] then InFront(f, own == Val(true), expected, judge)
               else
                 var group := InFront(f, Holds(ChainFold(Flat(t.children, expected), judge)), expected, judge);
                 if t.cond.attributeId.None? then group
                 else Join(own == Val(true), t.cond.childConnector == Some(OR), group)
  {
    var t := f[0];
    if t.children != [] {
      var group := Group(Flat(t.children, expected));
      var isOr := t.cond.connector == Some(OR);
      var tail := if |f| == 1 then One(group) else Link(group, isOr, Flat(f[1..], expected));
      assert ChainFold(tail, judge) ==
             InFront(f, Holds(ChainFold(Flat(t.children, expected), judge)), expected, judge);
      assert ChainErrs(tail, judge) <==>
             ChainErrs(Flat(t.children, expected), judge) || (|f| > 1 && ChainErrs(Flat(f[1..], expected), judge));
    }
  }

  /** Some check of the forest errs exactly when some leaf of its shape does. */
  lemma {:induction false} ErrorsOfShape(f: seq<Tree>, check: Checker, expected: map<string, Raw>, judge: Judge)
    requires f != [] && Agree(f, check, expected, judge)
    ensures ChainErrs(Flat(f, expected), judge) <==> FirstError(check, Checks(f)).Some?
  {
    var t := f[0];
    UnrollShape(f, expected, judge);
    AgreeParts(f, check, expected, judge);
    FirstErrorConcat(check, Checks(t.children), OwnCheck(t.cond));
    FirstErrorConcat(check, Checks(t.children) + OwnCheck(t.cond), Checks(f[1..]));
    assert FirstError(check, OwnCheck(t.cond)).Some? <==> OwnVerdict(t.cond, expected, judge).Fail?;
    if t.children != [] {
      ErrorsOfShape(t.children, check, expected, judge);
    }
    if |f| > 1 {
      ErrorsOfShape(f[1..], check, expected, judge);
    }
  }

  /** The forest's fold, read one node at a time. */
  lemma UnrollForest(f: seq<Tree>, check: Checker)
    requires f != []
    ensures Fold(Truths(f, check), Ors(f)) ==
            if |f| == 1 then (Truth(f[0], check), false)
            else Join(Truth(f[0], check), f[0].cond.connector == Some(OR), Fold(Truths(f[1..], check), Ors(f[1..])))
  {
    if |f| > 1 {
      TailReads(f, check);
    }
  }

  lemma TailReads(f: seq<Tree>, check: Checker)
    requires f != []
    ensures Truths(f, check)[1..] == Truths(f[1..], check) && Ors(f)[1..] == Ors(f[1..])
    ensures Truths(f, check)[0] == Truth(f[0], check) && Ors(f)[0] == (f[0].cond.connector == Some(OR))
  {}

  lemma UnambiguousParts(f: seq<Tree>)
    requires f != [] && Unambiguous(f)
    ensures Unambiguous(f[0].children)
    ensures |f| > 1 ==> Unambiguous(f[1..]) && (JoinsByOr(f[1]) ==> f[0].cond.connector == Some(OR))
    ensures |f| > 1 && JoinsByOr(f[0]) ==> f[0].cond.connector == Some(OR)
  {
    assert f[0] in f;
    if |f| > 1 {
      UnambiguousTail(f);
      assert JoinsByOr(f[1]) ==> f[1 - 1].cond.connector == Some(OR);
    }
  }

  lemma UnambiguousTail(f: seq<Tree>)
    requires |f| > 1 && Unambiguous(f)
    ensures Unambiguous(f[1..])
  {
    assert forall u | u in f[1..] :: u in f;
    forall i | 0 <= i < |f[1..]| && JoinsByOr(f[1..][i])
      ensures (i == 0 || f[1..][i - 1].cond.connector == Some(OR)) && (i == |f[1..]| - 1 || f[1..][i].cond.connector == Some(OR))
    {
      assert JoinsByOr(f[i + 1]);
    }
  }

  /** A node's value from its own check's and its children's. */
  function NodeValue(c: RuleCondition, hasKids: bool, own: bool, kids: bool): bool {
    if !hasKids then own
    else if c.attributeId.None? then kids
    else if c.childConnector == Some(OR) then own || kids
    else own && kids
  }

  /** The fold of a node's printed items in front of a folded rest. */
  function Spread(c: RuleCondition, hasKids: bool, own: bool, kids: bool, last: bool, rest: (bool, bool)): (bool, bool) {
    var isOr := c.connector == Some(OR);
    var front := (val: bool) => if last then (val, false) else Join(val, isOr, rest);
    if !hasKids then front(own)
    else if c.attributeId.None? then front(kids)
    else Join(own, c.childConnector == Some(OR), front(kids))
  }

  /** Spreading a node is placing its value, unless it joins by OR inside a longer run. */
  lemma SpreadIsValue(c: RuleCondition, hasKids: bool, own: bool, kids: bool, last: bool, r: (bool, bool), q: (bool, bool))
    requires !last ==> Holds(r) == Holds(q) && (c.connector != Some(OR) ==> r == q)
    ensures var joins := c.attributeId.Some? && hasKids && c.childConnector == Some(OR);
            var val := NodeValue(c, hasKids, own, kids);
            var w := if last then (val, false) else Join(val, c.connector == Some(OR), q);
            && (!joins ==> Spread(c, hasKids, own, kids, last, r) == w)
            && (last || c.connector == Some(OR) ==> Holds(Spread(c, hasKids, own, kids, last, r)) == Holds(w))
  {}

  lemma {:induction false} ValueOfNode(t: Tree, check: Checker, own: bool)
    requires own == (t.cond.attributeId.None? || check(t.cond) == Val(true))
    ensures Truth(t, check) == NodeValue(t.cond, t.children != [], own,
                                         t.children != [] && Holds(Fold(Truths(t.children, check), Ors(t.children))))
  {
    if t.children != [] {
      FoldIsRuns(Truths(t.children, check), Ors(t.children));
    }
  }

  /** Splitting a mixed node keeps the chain's value when the node is unambiguous. */
  lemma {:induction false} ValueOfShape(f: seq<Tree>, check: Checker, expected: map<string, Raw>, judge: Judge)
    requires f != [] && Unambiguous(f) && Agree(f, check, expected, judge)
    ensures var v, w := ChainFold(Flat(f, expected), judge), Fold(Truths(f, check), Ors(f));
            Holds(v) == Holds(w) && (!JoinsByOr(f[0]) ==> v == w)
  {
    var t := f[0];
    AgreeParts(f, check, expected, judge);
    UnambiguousParts(f);
    if t.children != [] {
      ValueOfShape(t.children, check, expected, judge);
    }
    if |f| > 1 {
      ValueOfShape(f[1..], check, expected, judge);
    }
    OwnCheckAgrees(f, check, expected, judge);
    FoldsAgree(f, check, expected, judge);
  }

  /** A node's own check holds for the checker and for the judge alike. */
  ghost predicate OwnAgrees(c: RuleCondition, check: Checker, expected: map<string, Raw>, judge: Judge) {
    (OwnVerdict(c, expected, judge) == Val(true)) == (c.attributeId.None? || check(c) == Val(true))
  }

  lemma OwnCheckAgrees(f: seq<Tree>, check: Checker, expected: map<string, Raw>, judge: Judge)
    requires f != [] && Agree(f, check, expected, judge)
    ensures OwnAgrees(f[0].cond, check, expected, judge)
  {
    AgreeParts(f, check, expected, judge);
  }

  /** The two folds of a chain agree when those of its first node's children and of its rest do. */
  lemma FoldsAgree(f: seq<Tree>, check: Checker, expected: map<string, Raw>, judge: Judge)
    requires f != [] && OwnAgrees(f[0].cond, check, expected, judge)
    requires f[0].children != [] ==> KidsPrinted(f[0], expected, judge) == KidsRead(f[0], check)
    requires var r, q := RestPrinted(f, expected, judge), RestRead(f, check);
             |f| > 1 ==> Holds(r) == Holds(q) && (f[0].cond.connector != Some(OR) ==> r == q)
    requires |f| > 1 && JoinsByOr(f[0]) ==> f[0].cond.connector == Some(OR)
    ensures var v, w := ChainFold(Flat(f, expected), judge), Fold(Truths(f, check), Ors(f));
            Holds(v) == Holds(w) && (!JoinsByOr(f[0]) ==> v == w)
  {
    var own := OwnVerdict(f[0].cond, expected, judge) == Val(true);
    PrintedStep(f, expected, judge, own);
    ReadStep(f, check, own);
    ValueStep(f, RestPrinted(f, expected, judge), RestRead(f, check), own, KidsRead(f[0], check));
  }

  /** The two folds of a chain from those of its rest. */
  lemma ValueStep(f: seq<Tree>, r: (bool, bool), q: (bool, bool), own: bool, kids: bool)
    requires f != []
    requires |f| > 1 ==> Holds(r) == Holds(q) && (f[0].cond.connector != Some(OR) ==> r == q)
    requires |f| > 1 && JoinsByOr(f[0]) ==> f[0].cond.connector == Some(OR)
    ensures var c, val := f[0].cond, NodeValue(f[0].cond, f[0].children != [], own, kids);
            var v := Spread(c, f[0].children != [], own, kids, |f| == 1, r);
            var w := if |f| == 1 then (val, false) else Join(val, c.connector == Some(OR), q);
            Holds(v) == Holds(w) && (!JoinsByOr(f[0]) ==> v == w)
  {
    SpreadIsValue(f[0].cond, f[0].children != [], own, kids, |f| == 1, r, q);
  }

  ghost function KidsPrinted(t: Tree, expected: map<string, Raw>, judge: Judge): bool {
    t.children != [] && Holds(ChainFold(Flat(t.children, expected), judge))
  }

  ghost function KidsRead(t: Tree, check: Checker): bool {
    t.children != [] && Holds(Fold(Truths(t.children, check), Ors(t.children)))
  }

  ghost function RestPrinted(f: seq<Tree>, expected: map<string, Raw>, judge: Judge): (bool, bool)
    requires f != []
  {
    if |f| == 1 then (false, false) else ChainFold(Flat(f[1..], expected), judge)
  }

  ghost function RestRead(f: seq<Tree>, check: Checker): (bool, bool)
    requires f != []
  {
    if |f| == 1 then (false, false) else Fold(Truths(f[1..], check), Ors(f[1..]))
  }

  /** A chain's printed items fold to its first node's, spread in front of the rest's. */
  lemma PrintedStep(f: seq<Tree>, expected: map<string, Raw>, judge: Judge, own: bool)
    requires f != [] && own == (OwnVerdict(f[0].cond, expected, judge) == Val(true))
    ensures ChainFold(Flat(f, expected), judge) ==
            Spread(f[0].cond, f[0].children != [], own, KidsPrinted(f[0], expected, judge), |f| == 1, RestPrinted(f, expected, judge))
  {
    UnrollShape(f, expected, judge);
  }

  /** A chain's values fold to its first node's, in front of the rest's. */
  lemma ReadStep(f: seq<Tree>, check: Checker, own: bool)
    requires f != [] && own == (f[0].cond.attributeId.None? || check(f[0].cond) == Val(true))
    ensures var val := NodeValue(f[0].cond, f[0].children != [], own, KidsRead(f[0], check));
            Fold(Truths(f, check), Ors(f)) ==
            if |f| == 1 then (val, false) else Join(val, f[0].cond.connector == Some(OR), RestRead(f, check))
  {
    UnrollForest(f, check);
    ValueOfNode(f[0], check, own);
  }

  /** A forest answers as its shape does. */
  lemma ShapeDecides(f: seq<Tree>, check: Checker, expected: map<string, Raw>, judge: Judge)
    requires f != [] && Unambiguous(f) && Agree(f, check, expected, judge)
    ensures Answer(Meaning(f, check)) == ShapeAnswer(Flat(f, expected), judge)
  {
    ErrorsOfShape(f, check, expected, judge);
    ValueOfShape(f, check, expected, judge);
    FoldIsRuns(Truths(f, check), Ors(f));
  }

  // -------------------------------------------------------- leaves judged by value

  /** An expected value worth comparing: not empty and not the literal null. */
  predicate Stampable(raw: Raw) {
    raw != Empty && raw != Doc(false, JNull)
  }

  /** The expected values an evaluation keeps. */
  function Stamp(expected: map<string, Raw>): map<string, Raw> {
    map a | a in expected && Stampable(expected[a]) :: expected[a]
  }

  /** A value whose printed form tells how it compares: not malformed and not a padded null. */
  predicate Determinate(raw: Raw) {
    raw != Malformed && raw != Doc(true, JNull)
  }

  /** The judge for one user, given each attribute's data type. A printed null never matches. */
  function JudgeFor(lib: Lib, user: Option<map<string, Raw>>, typeOf: Uuid -> Option<string>): Judge {
    (attr: Uuid, op: string, v: Json) =>
      if v == JNull then Val(false)
      else LeafVerdict(lib, map[attr := Doc(false, v)], user,
                       RuleCondition(NIL_UUID, None, Some(attr), typeOf(attr), op, 0, None, None))
  }

  /** Attribute types and expected values are such that a leaf's text tells what it checks. */
  ghost predicate Typed(f: seq<Tree>, expected: map<string, Raw>, typeOf: Uuid -> Option<string>) {
    forall c | c in Checks(f) && c.attributeId.Some? ::
      && c.dataType == typeOf(c.attributeId.value)
      && (c.attributeId.value in expected ==> Determinate(expected[c.attributeId.value]))
  }

  /** White space around an expected value changes nothing but the literal-null test. */
  lemma PaddingIsIrrelevant(lib: Lib, v: Json)
    ensures var raw, plain := Doc(true, v), Doc(false, v);
            && DecodeString(raw) == DecodeString(plain) && DecodeNumber(raw) == DecodeNumber(plain)
            && DecodeBool(raw) == DecodeBool(plain) && DecodeDate(lib, raw) == DecodeDate(lib, plain)
            && DecodeStrings(raw) == DecodeStrings(plain) && DecodeNumbers(raw) == DecodeNumbers(plain)
            && DecodeDateBounds(lib, raw) == DecodeDateBounds(lib, plain)
  {}

  lemma PaddedSentinel(lib: Lib, dataType: string, op: string, padded: bool, v: Json, user: map<string, Raw>, attr: Uuid)
    ensures SentinelAnswer(lib, dataType, op, Doc(padded, v), user, attr) ==
            SentinelAnswer(lib, dataType, op, Doc(false, v), user, attr)
  {
    PaddingIsIrrelevant(lib, v);
    assert ExtractSentinel(lib, Doc(padded, v)) == ExtractSentinel(lib, Doc(false, v));
  }

  lemma PaddedCompare(lib: Lib, dataType: string, op: string, actual: Raw, attr: Uuid, padded: bool, v: Json)
    ensures CompareVerdict(lib, dataType, op, actual, attr, Doc(padded, v)) ==
            CompareVerdict(lib, dataType, op, actual, attr, Doc(false, v))
  {
    PaddingIsIrrelevant(lib, v);
  }

  lemma LeafJudged(lib: Lib, expected: map<string, Raw>, user: Option<map<string, Raw>>, c: RuleCondition,
                   typeOf: Uuid -> Option<string>)
    requires c.attributeId.Some? && c.dataType == typeOf(c.attributeId.value)
    requires c.attributeId.value in expected ==> Determinate(expected[c.attributeId.value])
    ensures Answer(LeafVerdict(lib, Stamp(expected), user, c)) ==
            Answer(JudgeFor(lib, user, typeOf)(c.attributeId.value, c.op, PrintedValue(expected, c.attributeId.value)))
  {
    var attr := c.attributeId.value;
    var v := PrintedValue(expected, attr);
    if v != JNull {
      var padded := expected[attr].padded;
      assert Stamp(expected)[attr] == Doc(padded, v);
      if user.Some? && c.dataType.Some? {
        PaddedSentinel(lib, c.dataType.value, c.op, padded, v, user.value, attr);
        PaddedCompare(lib, c.dataType.value, c.op, RawOf(user.value, attr), attr, padded, v);
      }
    }
  }

  lemma {:induction false} ChecksAreLeaves(f: seq<Tree>)
    ensures forall c | c in Checks(f) :: c.attributeId.Some?
  {
    if f != [] {
      ChecksAreLeaves(f[0].children);
      ChecksAreLeaves(f[1..]);
    }
  }

  lemma CheckerAgrees(f: seq<Tree>, lib: Lib, expected: map<string, Raw>, user: Option<map<string, Raw>>,
                      typeOf: Uuid -> Option<string>)
    requires Typed(f, expected, typeOf)
    ensures Agree(f, LeafChecker(lib, Stamp(expected), user), expected, JudgeFor(lib, user, typeOf))
  {
    ChecksAreLeaves(f);
    forall c | c in Checks(f)
      ensures Answer(LeafChecker(lib, Stamp(expected), user)(c)) ==
              Answer(JudgeFor(lib, user, typeOf)(c.attributeId.value, c.op, PrintedValue(expected, c.attributeId.value)))
    {
      LeafJudged(lib, expected, user, c, typeOf);
    }
  }

  /**
   * Equal canonical expressions, equal answers: for every user, two printable, unambiguous
   * forests over the same attribute types that render to the same text answer alike.
   */
  lemma ExpressionDeterminesMeaning(
    f: seq<Tree>, g: seq<Tree>, ef: map<string, Raw>, eg: map<string, Raw>,
    compact: Json -> string, typeOf: Uuid -> Option<string>, lib: Lib, user: Option<map<string, Raw>>)
    requires CompactLaw(compact)
    requires Printable(f) && Printable(g) && Unambiguous(f) && Unambiguous(g)
    requires Typed(f, ef, typeOf) && Typed(g, eg, typeOf)
    requires ForestText(f, ValueLeaf(ef, compact)) == ForestText(g, ValueLeaf(eg, compact))
    ensures Answer(Meaning(f, LeafChecker(lib, Stamp(ef), user))) ==
            Answer(Meaning(g, LeafChecker(lib, Stamp(eg), user)))
  {
    if f != [] {
      TextOfShape(f, ef, compact);
      ChainStart(Flat(f, ef), compact);
    }
    if g != [] {
      TextOfShape(g, eg, compact);
      ChainStart(Flat(g, eg), compact);
    }
    if f != [] {
      var judge := JudgeFor(lib, user, typeOf);
      TextsAgreeIffShapesAgree(f, g, ef, eg, compact);
      CheckerAgrees(f, lib, ef, user, typeOf);
      CheckerAgrees(g, lib, eg, user, typeOf);
      ShapeDecides(f, LeafChecker(lib, Stamp(ef), user), ef, judge);
      ShapeDecides(g, LeafChecker(lib, Stamp(eg), user), eg, judge);
    }
  }

  /** A forest without mixed nodes is unambiguous. */
  predicate NoMixedNodes(f: seq<Tree>) {
    forall t | t in f :: (t.children == [] || t.cond.attributeId.None?) && NoMixedNodes(t.children)
  }

  lemma {:induction false} NoMixedNodesIsUnambiguous(f: seq<Tree>)
    requires NoMixedNodes(f)
    ensures Unambiguous(f)
  {
    forall i | 0 <= i < |f| ensures !JoinsByOr(f[i]) {
      assert f[i] in f;
    }
    forall t | t in f ensures Unambiguous(t.children) {
      NoMixedNodesIsUnambiguous(t.children);
    }
  }

  /**
   * The condition is needed: `(a OR (b)) AND c` as a mixed node and `a OR ((b) AND c)` print
   * alike, yet answer differently when a holds and c does not. `own`, `group`, `inner` and `end`
   * are a's check on its own, the pure group around b, b and c as the second rule has them.
   */
  lemma AmbiguousMixedNode(a: RuleCondition, b: Tree, c: Tree, own: RuleCondition, group: RuleCondition, inner: Tree, end: Tree,
                           leaf: LeafText, check: Checker)
    requires a.attributeId.Some? && own.attributeId.Some? && group.attributeId.None?
    requires a.connector == group.connector == Some(AND) && a.childConnector == own.connector == Some(OR)
    requires IsLeaf(b) && IsLeaf(c) && IsLeaf(inner) && IsLeaf(end)
    requires leaf(own) == leaf(a) && leaf(inner.cond) == leaf(b.cond) && leaf(end.cond) == leaf(c.cond)
    requires check(own) == check(a) == Val(true) && check(inner.cond).Val? && check(b.cond).Val?
    requires check(end.cond) == check(c.cond) == Val(false)
    ensures var mixed, spread := [Node(a, [b]), c], [Node(own, []), Node(group, [inner]), end];
            && ForestText(mixed, leaf) == ForestText(spread, leaf)
            && Meaning(mixed, check) == Val(false)
            && Meaning(spread, check) == Val(true)
  {
    SpreadText(leaf(a), leaf(b.cond), leaf(c.cond));
    MixedReads(a, b, c, leaf, check);
    SpreadReads(own, group, inner, end, leaf, check);
  }

  predicate IsLeaf(t: Tree) {
    t.children == [] && t.cond.attributeId.Some?
  }

  lemma MixedReads(a: RuleCondition, b: Tree, c: Tree, leaf: LeafText, check: Checker)
    requires a.attributeId.Some? && a.connector == Some(AND) && a.childConnector == Some(OR) && IsLeaf(b) && IsLeaf(c)
    requires check(a) == Val(true) && check(b.cond).Val? && check(c.cond) == Val(false)
    ensures var mixed := [Node(a, [b]), c];
            && ForestText(mixed, leaf) ==
               (leaf(a) + " " + OR + " " + ("(" + leaf(b.cond) + ")")) + " " + AND + " " + leaf(c.cond)
            && Meaning(mixed, check) == Val(false)
  {
    var mixed := [Node(a, [b]), c];
    assert mixed[1..] == [c];
    LeafReads(b, leaf);
    LeafReads(c, leaf);
    LeafChecks(b);
    LeafChecks(c);
    assert Checks(mixed) == [b.cond, a, c.cond];
    FirstErrorIsSomeError(check, Checks(mixed));
    FoldIsRuns(Truths(mixed, check), Ors(mixed));
    UnrollForest(mixed, check);
    UnrollForest([c], check);
  }

  lemma SpreadReads(own: RuleCondition, group: RuleCondition, inner: Tree, end: Tree, leaf: LeafText, check: Checker)
    requires own.attributeId.Some? && group.attributeId.None? && own.connector == Some(OR) && group.connector == Some(AND)
    requires IsLeaf(inner) && IsLeaf(end) && check(own) == Val(true) && check(inner.cond).Val? && check(end.cond).Val?
    ensures var spread := [Node(own, []), Node(group, [inner]), end];
            && ForestText(spread, leaf) ==
               leaf(own) + " " + OR + " " + (("(" + leaf(inner.cond) + ")") + " " + AND + " " + leaf(end.cond))
            && Meaning(spread, check) == Val(true)
  {
    var spread, rest := [Node(own, []), Node(group, [inner]), end], [Node(group, [inner]), end];
    assert spread[1..] == rest && rest[1..] == [end];
    LeafReads(inner, leaf);
    LeafReads(end, leaf);
    assert ForestText(rest, leaf) == ("(" + leaf(inner.cond) + ")") + " " + AND + " " + leaf(end.cond);
    LeafChecks(inner);
    LeafChecks(end);
    assert Checks(rest) == [inner.cond, end.cond];
    assert Checks(spread) == [own, inner.cond, end.cond];
    FirstErrorIsSomeError(check, Checks(spread));
    FoldIsRuns(Truths(spread, check), Ors(spread));
    UnrollForest(spread, check);
  }

  lemma LeafReads(t: Tree, leaf: LeafText)
    requires IsLeaf(t)
    ensures ForestText([t], leaf) == NodeText(t, leaf) == leaf(t.cond)
  {}

  lemma LeafChecks(t: Tree)
    requires t.children == [] && t.cond.attributeId.Some?
    ensures Checks([t]) == [t.cond]
  {
    assert [t][1..] == [];
  }

  lemma SpreadText(a: string, b: string, c: string)
    ensures (a + " " + OR + " " + ("(" + b + ")")) + " " + AND + " " + c ==
            a + " " + OR + " " + (("(" + b + ")") + " " + AND + " " + c)
  {}
}

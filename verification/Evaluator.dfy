/** The recursive rule evaluation, run through the mutable parse caches. */
module Evaluator {
  import opened Wrappers
  import opened Text
  import opened Conditions
  import opened Semantics
  import opened Values
  import opened LazyCache
  import opened Sentinels

  method CompareText(op: string, actual: string, attr: Uuid, expected: ParsedValues) returns (v: Verdict)
    requires expected.Valid()
    modifies expected.Repr
    ensures expected.Valid() && fresh(expected.Repr - old(expected.Repr))
    ensures v == TextVerdict(expected.lib, op, actual, attr, RawOf(expected.raw, attr))
  {
    var lib, a := expected.lib, TrimSpace(actual);
    if op in {"=", "!=", "CONTAINS"} {
      var e := expected.GetString(attr);
      if !e.ok {
        return Fail(BadExpected(attr));
      }
      if op == "CONTAINS" {
        return Val(HasSubstring(lib.lower(a), lib.lower(TrimSpace(e.value))));
      }
      v := Val(EqualFold(lib, a, TrimSpace(e.value)) == (op == "="));
    } else if op in {"IN", "NOT IN"} {
      var es := expected.GetStringSlice(attr);
      if !es.ok {
        return Fail(BadExpected(attr));
      }
      v := Val((exists e | e in es.value :: EqualFold(lib, TrimSpace(e), a)) == (op == "IN"));
    } else {
      v := Fail(BadOperator(op));
    }
  }

  method CompareNumber(op: string, actual: int, attr: Uuid, expected: ParsedValues) returns (v: Verdict)
    requires expected.Valid()
    modifies expected.Repr
    ensures expected.Valid() && fresh(expected.Repr - old(expected.Repr))
    ensures v == NumberVerdict(op, actual, attr, RawOf(expected.raw, attr))
  {
    if op in ORDER_OPS {
      var e := expected.GetNumber(attr);
      v := if !e.ok then Fail(BadExpected(attr)) else Val(Compares(op, actual, e.value));
    } else if op == "IN" {
      var es := expected.GetNumberSlice(attr);
      v := if !es.ok then Fail(BadExpected(attr)) else Val(actual in es.value);
    } else if op == "BETWEEN" {
      var es := expected.GetNumberSlice(attr);
      if !es.ok {
        return Fail(BadExpected(attr));
      }
      if |es.value| != 2 {
        return Fail(BadBounds(|es.value|, attr));
      }
      v := Val(es.value[0] <= actual && actual <= es.value[1]);
    } else {
      v := Fail(BadOperator(op));
    }
  }

  method CompareDate(op: string, actual: int, attr: Uuid, expected: ParsedValues) returns (v: Verdict)
    requires expected.Valid()
    modifies expected.Repr
    ensures expected.Valid() && fresh(expected.Repr - old(expected.Repr))
    ensures v == DateVerdict(expected.lib, op, actual, attr, RawOf(expected.raw, attr))
  {
    if op in ORDER_OPS {
      var e := expected.GetDate(attr);
      v := if !e.ok then Fail(BadExpected(attr)) else Val(Compares(op, actual, e.value));
    } else if op == "BETWEEN" {
      var b := expected.GetDateBounds(attr);
      v := if !b.ok then Fail(BadExpected(attr)) else Val(b.value.0 <= actual && actual <= b.value.1);
    } else {
      v := Fail(BadOperator(op));
    }
  }

  method CompareBoolean(op: string, actual: bool, attr: Uuid, expected: ParsedValues) returns (v: Verdict)
    requires expected.Valid()
    modifies expected.Repr
    ensures expected.Valid() && fresh(expected.Repr - old(expected.Repr))
    ensures v == BooleanVerdict(op, actual, attr, RawOf(expected.raw, attr))
  {
    var e := expected.GetBool(attr);
    if !e.ok {
      v := Fail(BadExpected(attr));
    } else if op == "=" {
      v := Val(actual == e.value);
    } else if op == "!=" {
      v := Val(actual != e.value);
    } else {
      v := Fail(BadOperator(op));
    }
  }

  /** Parses the user's value by data type, then the matching comparator. */
  method CompareValues(dataType: string, op: string, user: ParsedValues, attr: Uuid, expected: ParsedValues)
    returns (v: Verdict)
    requires Ready(expected, user)
    modifies Footprint(expected, user)
    ensures Ready(expected, user) && fresh(Footprint(expected, user) - old(Footprint(expected, user)))
    ensures v == CompareVerdict(expected.lib, dataType, op, RawOf(user.raw, attr), attr, RawOf(expected.raw, attr))
  {
    match dataType
    case "Text" =>
      var a := user.GetString(attr);
      if a.ok { v := CompareText(op, a.value, attr, expected); } else { v := Fail(BadActual(attr)); }
    case "Number" =>
      var a := user.GetNumber(attr);
      if a.ok { v := CompareNumber(op, a.value, attr, expected); } else { v := Fail(BadActual(attr)); }
    case "Date" =>
      var a := user.GetDate(attr);
      if a.ok { v := CompareDate(op, a.value, attr, expected); } else { v := Fail(BadActual(attr)); }
    case "Boolean" =>
      var a := user.GetBool(attr);
      if a.ok { v := CompareBoolean(op, a.value, attr, expected); } else { v := Fail(BadActual(attr)); }
    case _ =>
      v := Fail(BadDataType(dataType));
  }

  ghost function UserMap(user: ParsedValues?): Option<map<string, Raw>> {
    if user == null then None else Some(user.raw)
  }

  /** The checker an evaluation over these caches stands for. */
  ghost function CheckerOf(expected: ParsedValues, user: ParsedValues?): Checker {
    LeafChecker(expected.lib, expected.raw, UserMap(user))
  }

  method EvaluateSingleCondition(c: RuleCondition, expected: ParsedValues, user: ParsedValues?) returns (v: Verdict)
    requires c.attributeId.Some? && Ready(expected, user)
    modifies Footprint(expected, user)
    ensures Ready(expected, user) && fresh(Footprint(expected, user) - old(Footprint(expected, user)))
    ensures v == CheckerOf(expected, user)(c)
  {
    var attr := c.attributeId.value;
    if attr !in expected.raw {
      return Val(false);
    }
    if user == null {
      return Val(false);
    }
    if c.dataType.None? {
      return Fail(NotPreloaded(c.id));
    }
    var answer := ApplySentinel(c.dataType.value, c.op, expected.raw[attr], user, attr);
    if answer.Some? {
      return Val(answer.value);
    }
    if attr !in user.raw {
      return Val(false);
    }
    v := CompareValues(c.dataType.value, c.op, user, attr, expected);
  }

  /**
   * Evaluates a sorted sibling chain: runs of AND are conjoined as they are scanned and ORed at
   * each OR connector. The result is the chain's denotation. Terminates on every index, whatever
   * cycles or duplicate IDs it holds, because the depth is capped.
   */
  method EvalSiblings(byParent: Index, siblings: seq<RuleCondition>, depth: nat,
                      expected: ParsedValues, user: ParsedValues?) returns (v: Verdict)
    requires siblings != [] && Ready(expected, user)
    modifies Footprint(expected, user)
    ensures Ready(expected, user) && fresh(Footprint(expected, user) - old(Footprint(expected, user)))
    ensures v == Meaning(Forest(byParent, siblings, depth), CheckerOf(expected, user))
    decreases MAX_CONDITION_DEPTH - depth, 1
  {
    ghost var check, f, start := CheckerOf(expected, user), Forest(byParent, siblings, depth), 0;
    var accOr := false;
    var first := EvalNode(byParent, siblings[0], depth, expected, user);
    ForestAt(byParent, siblings, depth, 0);
    ScanFirst(f, check);
    if first.Fail? {
      return first;
    }
    var result := first.holds;
    var i := 0;
    while i < |siblings| - 1
      invariant Ready(expected, user) && fresh(Footprint(expected, user) - old(Footprint(expected, user)))
      invariant 0 <= i < |siblings| && Scan(f, check, i, start) == Scanned(accOr, result)
    {
      var conn := ConnectorValue(siblings[i].connector);
      var next := EvalNode(byParent, siblings[i + 1], depth, expected, user);
      ForestAt(byParent, siblings, depth, i);
      ForestAt(byParent, siblings, depth, i + 1);
      ScanNext(f, check, i, start, accOr, result);
      if next.Fail? {
        return next;
      }
      if conn == OR {
        accOr := accOr || result;
        result := next.holds;
        start := i + 1;
      } else {
        result := result && next.holds;
      }
      i := i + 1;
    }
    ScanLast(f, check, i, start, accOr, result);
    v := Val(accOr || result);
  }

  /** Evaluates one node: own check, children, or both joined by ChildConnectorOperator. */
  method EvalNode(byParent: Index, c: RuleCondition, depth: nat,
                  expected: ParsedValues, user: ParsedValues?) returns (v: Verdict)
    requires Ready(expected, user)
    modifies Footprint(expected, user)
    ensures Ready(expected, user) && fresh(Footprint(expected, user) - old(Footprint(expected, user)))
    ensures v == NodeMeaning(Unfold(byParent, c, depth), CheckerOf(expected, user))
    decreases MAX_CONDITION_DEPTH - depth, 0
  {
    ghost var check, t := CheckerOf(expected, user), Unfold(byParent, c, depth);
    FirstErrorConcat(check, Checks(t.children), OwnCheck(c));
    var hasOwnCheck := c.attributeId.Some?;
    var children := [];
    if depth < MAX_CONDITION_DEPTH {
      children := Bucket(byParent, c.id);
    }
    if |children| == 0 {
      if !hasOwnCheck {
        return Val(true);
      }
      v := EvaluateSingleCondition(c, expected, user);
      return;
    }
    var kids := EvalSiblings(byParent, children, depth + 1, expected, user);
    if kids.Fail? || !hasOwnCheck {
      return kids;
    }
    var own := EvaluateSingleCondition(c, expected, user);
    if own.Fail? {
      return own;
    }
    if ConnectorValue(c.childConnector) == OR {
      v := Val(own.holds || kids.holds);
    } else {
      v := Val(own.holds && kids.holds);
    }
  }

  /** Indexes the rows, sorts every bucket (ties in any order) and evaluates the root chain. */
  method EvaluateConditionGroup(conditions: seq<RuleCondition>, expected: ParsedValues, user: ParsedValues?)
    returns (v: Verdict, ghost byParent: Index)
    requires Ready(expected, user)
    modifies Footprint(expected, user)
    ensures Ready(expected, user) && fresh(Footprint(expected, user) - old(Footprint(expected, user)))
    ensures IsIndex(byParent, conditions, BySequence())
    ensures v == Meaning(Forest(byParent, Bucket(byParent, ""), 1), CheckerOf(expected, user))
  {
    BothOrdersAreStrictWeak();
    var index := BuildIndex(conditions, BySequence());
    byParent := index;
    var roots := Bucket(index, "");
    if |roots| == 0 {
      return Val(true), index;
    }
    v := EvalSiblings(index, roots, 1, expected, user);
  }
}

/**
 * What the operators of a leaf check mean for the customer's value: how they depend on each other,
 * what the sentinels do, and exactly when a check errs.
 */
module LeafLaws {
  import opened Wrappers
  import opened Text
  import opened Conditions
  import opened Semantics
  import opened Values
  import opened CaretLists
  import CanonicalMeaning

  /** The check `c`, under another operator and expected value. */
  ghost function Says(lib: Lib, expected: map<string, Raw>, user: Option<map<string, Raw>>, c: RuleCondition, op: string,
                      e: Raw): Verdict
    requires c.attributeId.Some?
  {
    LeafVerdict(lib, expected[c.attributeId.value := e], user, c.(op := op))
  }

  /** The check compares an attribute of this type, and the user has this value for it. */
  predicate Checks(c: RuleCondition, dataType: string, user: Option<map<string, Raw>>, actual: Json) {
    && c.attributeId.Some? && c.dataType == Some(dataType)
    && user.Some? && c.attributeId.value in user.value
    && user.value[c.attributeId.value].Doc? && user.value[c.attributeId.value].json == actual
  }

  /** No sentinel: neither ANY nor NULL in any case, and no caret. */
  predicate Plain(lib: Lib, w: string) {
    var t := TrimSpace(w);
    t == "" || (!EqualFold(lib, t, "ANY") && !EqualFold(lib, t, "NULL") && '^' !in t)
  }

  /** Both are answers, and opposite ones. */
  predicate Opposite(a: Verdict, b: Verdict) {
    a.Val? && b.Val? && a.holds != b.holds
  }

  // ------------------------------------------------------------------------ text

  /** Equality with a word is membership in the list of that word alone, for every user, errors included. */
  lemma EqualsIsSingleton(lib: Lib, expected: map<string, Raw>, user: Option<map<string, Raw>>, c: RuleCondition, w: string,
                          p: bool, q: bool)
    requires c.attributeId.Some? && c.dataType == Some("Text") && Plain(lib, w)
    ensures Says(lib, expected, user, c, "=", Doc(p, JString(w))) == Says(lib, expected, user, c, "IN", Doc(q, JsonArray([w])))
    ensures Says(lib, expected, user, c, "!=", Doc(p, JString(w))) == Says(lib, expected, user, c, "NOT IN", Doc(q, JsonArray([w])))
  {
    ArrayDecodes([w], q);
    assert [w][0] == w && forall e | e in [w] :: e == w;
  }

  /** Equality is equality up to case and to space around either text; inequality is its opposite. */
  lemma TextEquality(lib: Lib, expected: map<string, Raw>, user: Option<map<string, Raw>>, c: RuleCondition, u: string,
                     w: string, p: bool)
    requires Checks(c, "Text", user, JString(u)) && Plain(lib, w)
    ensures Says(lib, expected, user, c, "=", Doc(p, JString(w))) == Val(EqualFold(lib, TrimSpace(u), TrimSpace(w)))
    ensures TrimSpace(u) == TrimSpace(w) ==> Says(lib, expected, user, c, "=", Doc(p, JString(w))) == Val(true)
    ensures Opposite(Says(lib, expected, user, c, "=", Doc(p, JString(w))), Says(lib, expected, user, c, "!=", Doc(p, JString(w))))
  {}

  /** A list holds the value exactly when one of its words alone does; NOT IN is the opposite. */
  lemma ListIsSomeWord(lib: Lib, expected: map<string, Raw>, user: Option<map<string, Raw>>, c: RuleCondition, u: string,
                       ws: seq<string>, p: bool)
    requires Checks(c, "Text", user, JString(u))
    ensures Says(lib, expected, user, c, "IN", Doc(p, JsonArray(ws))) ==
            Val(exists w :: w in ws && Says(lib, expected, user, c, "IN", Doc(p, JsonArray([w]))) == Val(true))
    ensures Opposite(Says(lib, expected, user, c, "IN", Doc(p, JsonArray(ws))),
                     Says(lib, expected, user, c, "NOT IN", Doc(p, JsonArray(ws))))
  {
    ArrayDecodes(ws, p);
    forall w ensures Says(lib, expected, user, c, "IN", Doc(p, JsonArray([w]))) == Val(EqualFold(lib, TrimSpace(w), TrimSpace(u))) {
      ArrayDecodes([w], p);
      assert [w][0] == w && forall e | e in [w] :: e == w;
    }
  }

  /** Containment looks for the lower-cased word anywhere in the lower-cased value. */
  lemma ContainsMeans(lib: Lib, expected: map<string, Raw>, user: Option<map<string, Raw>>, c: RuleCondition, u: string,
                      w: string, p: bool)
    requires Checks(c, "Text", user, JString(u)) && Plain(lib, w)
    ensures Says(lib, expected, user, c, "CONTAINS", Doc(p, JString(w))) ==
            Val(exists front, back :: lib.lower(TrimSpace(u)) == front + lib.lower(TrimSpace(w)) + back)
  {
    SubstringIs(lib.lower(TrimSpace(u)), lib.lower(TrimSpace(w)));
  }

  lemma SubstringIs(s: string, t: string)
    ensures HasSubstring(s, t) <==> exists front, back :: s == front + t + back
  {
    if HasSubstring(s, t) {
      var i :| 0 <= i <= |s| && t <= s[i..];
      assert s == s[..i] + t + s[i..][|t|..];
    }
    if front, back :| s == front + t + back {
      assert s[|front|..] == t + back;
    }
  }

  // ------------------------------------------------------------- numbers and dates

  /** The six order operators on two points, given what each says. */
  predicate Ordered(x: int, n: int, eq: Verdict, ne: Verdict, lt: Verdict, le: Verdict, gt: Verdict, ge: Verdict) {
    && eq == Val(x == n) && lt == Val(x < n)
    && Opposite(eq, ne) && Opposite(lt, ge) && Opposite(gt, le)
    && le == Val(eq == Val(true) || lt == Val(true))
  }

  /** Numbers compare as numbers: of <, = and > exactly one holds, the others are their opposites. */
  lemma NumberOrder(lib: Lib, expected: map<string, Raw>, user: Option<map<string, Raw>>, c: RuleCondition, x: int, n: int, p: bool)
    requires Checks(c, "Number", user, JNumber(x))
    ensures var e := Doc(p, JNumber(n));
            Ordered(x, n, Says(lib, expected, user, c, "=", e), Says(lib, expected, user, c, "!=", e),
                    Says(lib, expected, user, c, "<", e), Says(lib, expected, user, c, "<=", e),
                    Says(lib, expected, user, c, ">", e), Says(lib, expected, user, c, ">=", e))
  {}

  /** Dates compare as the instants they parse to. */
  lemma DateOrder(lib: Lib, expected: map<string, Raw>, user: Option<map<string, Raw>>, c: RuleCondition, u: string, w: string, p: bool)
    requires Checks(c, "Date", user, JString(u)) && lib.parseDate(u).Some? && lib.parseDate(w).Some?
    ensures var e := Doc(p, JString(w));
            Ordered(lib.parseDate(u).value, lib.parseDate(w).value,
                    Says(lib, expected, user, c, "=", e), Says(lib, expected, user, c, "!=", e),
                    Says(lib, expected, user, c, "<", e), Says(lib, expected, user, c, "<=", e),
                    Says(lib, expected, user, c, ">", e), Says(lib, expected, user, c, ">=", e))
  {}

  /** BETWEEN two numbers is >= the first and <= the second. */
  lemma NumberBetween(lib: Lib, expected: map<string, Raw>, user: Option<map<string, Raw>>, c: RuleCondition, x: int,
                      a: int, b: int, p: bool)
    requires Checks(c, "Number", user, JNumber(x))
    ensures Says(lib, expected, user, c, "BETWEEN", Doc(p, JArray([JNumber(a), JNumber(b)]))) ==
            Val(Says(lib, expected, user, c, ">=", Doc(p, JNumber(a))) == Val(true)
                && Says(lib, expected, user, c, "<=", Doc(p, JNumber(b))) == Val(true))
  {
    NumbersDecode([a, b], p);
    assert JsonNumbers([a, b]).items == [JNumber(a), JNumber(b)];
  }

  lemma DateBetween(lib: Lib, expected: map<string, Raw>, user: Option<map<string, Raw>>, c: RuleCondition, u: string,
                    a: string, b: string, p: bool)
    requires Checks(c, "Date", user, JString(u))
    requires lib.parseDate(u).Some? && lib.parseDate(a).Some? && lib.parseDate(b).Some?
    ensures Says(lib, expected, user, c, "BETWEEN", Doc(p, JsonArray([a, b]))) ==
            Val(Says(lib, expected, user, c, ">=", Doc(p, JString(a))) == Val(true)
                && Says(lib, expected, user, c, "<=", Doc(p, JString(b))) == Val(true))
  {
    ArrayDecodes([a, b], p);
  }

  function JsonNumbers(ns: seq<int>): Json {
    JArray(seq(|ns|, i requires 0 <= i < |ns| => JNumber(ns[i])))
  }

  lemma NumbersDecode(ns: seq<int>, p: bool)
    ensures DecodeNumbers(Doc(p, JsonNumbers(ns))) == Decoded(ns, true)
  {
    var items := JsonNumbers(ns).items;
    assert forall i | 0 <= i < |items| :: DecodeNumber(Doc(false, items[i])) == Decoded(ns[i], true);
    assert DecodeNumbers(Doc(p, JsonNumbers(ns))).value == ns;
  }

  /** A list of numbers holds the value exactly when the value equals one of them. */
  lemma NumberListIsSome(lib: Lib, expected: map<string, Raw>, user: Option<map<string, Raw>>, c: RuleCondition, x: int,
                         ns: seq<int>, p: bool)
    requires Checks(c, "Number", user, JNumber(x))
    ensures Says(lib, expected, user, c, "IN", Doc(p, JsonNumbers(ns))) ==
            Val(exists n :: n in ns && Says(lib, expected, user, c, "=", Doc(p, JNumber(n))) == Val(true))
  {
    NumbersDecode(ns, p);
    forall n ensures Says(lib, expected, user, c, "=", Doc(p, JNumber(n))) == Val(x == n) {
      NumberOrder(lib, expected, user, c, x, n, p);
    }
  }

  lemma BooleanEquality(lib: Lib, expected: map<string, Raw>, user: Option<map<string, Raw>>, c: RuleCondition, x: bool,
                        b: bool, p: bool)
    requires Checks(c, "Boolean", user, JBool(x))
    ensures Says(lib, expected, user, c, "=", Doc(p, JBool(b))) == Val(x == b)
    ensures Opposite(Says(lib, expected, user, c, "=", Doc(p, JBool(b))), Says(lib, expected, user, c, "!=", Doc(p, JBool(b))))
  {}

  // -------------------------------------------------------------------- sentinels

  predicate Listed(c: RuleCondition) {
    c.attributeId.Some? && c.dataType in {Some("Text"), Some("Number")}
  }

  /** ANY holds of every user, under every operator, whether or not the value is there. */
  lemma AnyHolds(lib: Lib, expected: map<string, Raw>, user: map<string, Raw>, c: RuleCondition, op: string, w: string, p: bool)
    requires Listed(c) && EqualFold(lib, TrimSpace(w), "ANY")
    ensures Says(lib, expected, Some(user), c, op, Doc(p, JString(w))) == Val(true)
  {}

  /** = NULL asks that the value is absent, empty or null, != NULL that it is not; no other operator holds. */
  lemma NullHolds(lib: Lib, expected: map<string, Raw>, user: map<string, Raw>, c: RuleCondition, op: string, w: string, p: bool)
    requires Listed(c) && EqualFold(lib, TrimSpace(w), "NULL")
    ensures var attr := c.attributeId.value;
            var there := attr in user && user[attr] != Empty && !(user[attr].Doc? && user[attr].json == JNull);
            Says(lib, expected, Some(user), c, op, Doc(p, JString(w))) == Val((op == "=" && !there) || (op == "!=" && there))
  {}

  /** The numbers a list of words reads as. */
  function NumbersOf(lib: Lib, tokens: seq<string>): (ns: seq<int>)
    ensures |ns| == |tokens|
  {
    seq(|tokens|, i requires 0 <= i < |tokens| => lib.parseFloat(TrimSpace(tokens[i])).GetOr(0))
  }

  /** The same list of numbers, joined by carets or as an array; an absent value fails either way. */
  lemma NumberCaretList(lib: Lib, tokens: seq<string>, expected: map<string, Raw>, user: map<string, Raw>, c: RuleCondition,
                        op: string, p: bool, q: bool)
    requires CaretLaw(lib) && Listable(tokens) && c.attributeId.Some? && c.dataType == Some("Number") && op in {"=", "IN"}
    requires forall t | t in tokens :: lib.parseFloat(TrimSpace(t)).Some?
    requires c.attributeId.value in user ==> DecodeNumber(user[c.attributeId.value]).ok
    ensures Says(lib, expected, Some(user), c, op, Doc(p, JString(Join(tokens, "^")))) ==
            Says(lib, expected, Some(user), c, "IN", Doc(q, JsonNumbers(NumbersOf(lib, tokens))))
  {
    var attr, ns := c.attributeId.value, NumbersOf(lib, tokens);
    NumberListAnswer(lib, tokens, op, user, attr, p);
    NumbersDecode(ns, q);
  }

  lemma NumberListAnswer(lib: Lib, tokens: seq<string>, op: string, user: map<string, Raw>, attr: string, p: bool)
    requires CaretLaw(lib) && Listable(tokens) && forall t | t in tokens :: lib.parseFloat(TrimSpace(t)).Some?
    ensures var a := DecodeNumber(RawOf(user, attr));
            SentinelAnswer(lib, "Number", op, Doc(p, JString(Join(tokens, "^"))), user, attr) ==
            Some(a.ok && ListVerdict(op, a.value in NumbersOf(lib, tokens)))
  {
    JoinedIsCaretList(lib, tokens, p);
    CaretNumbersAre(lib, tokens);
  }

  lemma CaretNumbersAre(lib: Lib, tokens: seq<string>)
    requires Listable(tokens) && forall t | t in tokens :: lib.parseFloat(TrimSpace(t)).Some?
    ensures TrimParts(tokens) != [] && CaretNumbers(lib, TrimParts(tokens)) == Some(NumbersOf(lib, tokens))
  {
    TrimPartsOfWords(tokens);
    var parts := TrimParts(tokens);
    forall t | t in parts ensures lib.parseFloat(t).Some? {
      var i :| 0 <= i < |tokens| && parts[i] == t;
      assert tokens[i] in tokens;
    }
    assert CaretNumbers(lib, parts).value == NumbersOf(lib, tokens);
  }

  /**
   * On a caret list = is IN and != is NOT IN, opposite for a user whose value can be read; every
   * other operator fails. So for texts, and for numbers that all parse.
   */
  lemma CaretListOperators(lib: Lib, tokens: seq<string>, expected: map<string, Raw>, user: map<string, Raw>, c: RuleCondition,
                           op: string, p: bool)
    requires CaretLaw(lib) && Listable(tokens) && Listed(c)
    requires c.dataType == Some("Number") ==> forall t | t in tokens :: lib.parseFloat(TrimSpace(t)).Some?
    ensures var e := Doc(p, JString(Join(tokens, "^")));
            && Says(lib, expected, Some(user), c, "=", e) == Says(lib, expected, Some(user), c, "IN", e)
            && Says(lib, expected, Some(user), c, "!=", e) == Says(lib, expected, Some(user), c, "NOT IN", e)
            && (op !in {"=", "IN", "!=", "NOT IN"} ==> Says(lib, expected, Some(user), c, op, e) == Val(false))
    ensures var e, raw := Doc(p, JString(Join(tokens, "^"))), RawOf(user, c.attributeId.value);
            (if c.dataType == Some("Text") then IsText(raw) else IsNumber(raw)) ==>
            Opposite(Says(lib, expected, Some(user), c, "=", e), Says(lib, expected, Some(user), c, "!=", e))
  {
    var attr := c.attributeId.value;
    CaretAnswer(lib, tokens, expected, user, c, "=", p);
    CaretAnswer(lib, tokens, expected, user, c, "IN", p);
    CaretAnswer(lib, tokens, expected, user, c, "!=", p);
    CaretAnswer(lib, tokens, expected, user, c, "NOT IN", p);
    CaretAnswer(lib, tokens, expected, user, c, op, p);
  }

  /** The user's value can be read, and is one of the listed ones. */
  ghost predicate CaretReads(user: map<string, Raw>, c: RuleCondition)
    requires c.attributeId.Some?
  {
    var raw := RawOf(user, c.attributeId.value);
    if c.dataType == Some("Text") then DecodeString(raw).ok else DecodeNumber(raw).ok
  }

  ghost predicate CaretHolds(lib: Lib, tokens: seq<string>, user: map<string, Raw>, c: RuleCondition)
    requires c.attributeId.Some?
  {
    var raw := RawOf(user, c.attributeId.value);
    if c.dataType == Some("Text") then exists t | t in tokens :: EqualFold(lib, TrimSpace(t), DecodeString(raw).value)
    else DecodeNumber(raw).value in NumbersOf(lib, tokens)
  }

  lemma CaretAnswer(lib: Lib, tokens: seq<string>, expected: map<string, Raw>, user: map<string, Raw>, c: RuleCondition,
                    op: string, p: bool)
    requires CaretLaw(lib) && Listable(tokens) && Listed(c)
    requires c.dataType == Some("Number") ==> forall t | t in tokens :: lib.parseFloat(TrimSpace(t)).Some?
    ensures Says(lib, expected, Some(user), c, op, Doc(p, JString(Join(tokens, "^")))) ==
            Val(CaretReads(user, c) && ListVerdict(op, CaretHolds(lib, tokens, user, c)))
  {
    if c.dataType == Some("Text") {
      JoinedVerdict(lib, tokens, op, user, c.attributeId.value, p);
    } else {
      NumberListAnswer(lib, tokens, op, user, c.attributeId.value, p);
    }
  }

  /** A list of numbers with one that does not parse holds of nobody. */
  lemma BadNumberFails(lib: Lib, tokens: seq<string>, expected: map<string, Raw>, user: map<string, Raw>, c: RuleCondition,
                       op: string, t: string, p: bool)
    requires CaretLaw(lib) && Listable(tokens) && c.attributeId.Some? && c.dataType == Some("Number")
    requires t in tokens && lib.parseFloat(TrimSpace(t)).None?
    ensures Says(lib, expected, Some(user), c, op, Doc(p, JString(Join(tokens, "^")))) == Val(false)
  {
    JoinedIsCaretList(lib, tokens, p);
    SomeTokenBad(lib, tokens, t);
    assert Listed(c);
  }

  lemma SomeTokenBad(lib: Lib, tokens: seq<string>, t: string)
    requires Listable(tokens) && t in tokens && lib.parseFloat(TrimSpace(t)).None?
    ensures TrimParts(tokens) != [] && CaretNumbers(lib, TrimParts(tokens)).None?
  {
    TrimPartsOfWords(tokens);
    var i :| 0 <= i < |tokens| && tokens[i] == t;
    assert TrimParts(tokens)[i] in TrimParts(tokens);
  }

  /** A list of carets and blanks alone holds of nobody. */
  lemma EmptyCaretListFails(lib: Lib, expected: map<string, Raw>, user: map<string, Raw>, c: RuleCondition, op: string, p: bool)
    requires CaretLaw(lib) && Listed(c)
    ensures Says(lib, expected, Some(user), c, op, Doc(p, JString("^"))) == Val(false)
  {
    assert TrimSpace("^") == "^" && '^' in TrimSpace("^");
    SentinelIsList(lib, "^", p);
    NoTokens();
  }

  lemma NoTokens()
    ensures CaretTokens("^") == []
  {
    assert "^"[1..] == "";
    assert Split("", '^') == [""];
    assert Split("^", '^') == [""] + [""];
    assert TrimSpace("") == "";
    assert TrimParts([""] + [""]) == TrimParts([""]) by {
      assert ([""] + [""])[1..] == [""];
    }
    assert [""][1..] == [];
  }

  /** A user value of null compares like the empty text, zero or false, unless the expected one is a sentinel. */
  lemma NullReadsAsZero(lib: Lib, expected: map<string, Raw>, user: map<string, Raw>, c: RuleCondition, op: string, e: Raw, p: bool)
    requires c.attributeId.Some? && c.dataType.Some? && !IsSentinel(lib, c.dataType.value, e)
    ensures var attr := c.attributeId.value;
            var zero := if c.dataType.value == "Number" then JNumber(0) else if c.dataType.value == "Boolean" then JBool(false) else JString("");
            Says(lib, expected, Some(user[attr := Doc(p, JNull)]), c, op, e) == Says(lib, expected, Some(user[attr := Doc(p, zero)]), c, op, e)
  {
    var attr := c.attributeId.value;
    SentinelsAre(lib, c.dataType.value, op, e, user[attr := Doc(p, JNull)], attr);
    SentinelsAre(lib, c.dataType.value, op, e, user[attr := Doc(p, JString(""))], attr);
    SentinelsAre(lib, c.dataType.value, op, e, user[attr := Doc(p, JNumber(0))], attr);
    SentinelsAre(lib, c.dataType.value, op, e, user[attr := Doc(p, JBool(false))], attr);
  }

  // ------------------------------------------------------------------ what can err

  predicate IsText(raw: Raw) { raw.Doc? && (raw.json.JString? || raw.json.JNull?) }
  predicate IsNumber(raw: Raw) { raw.Doc? && (raw.json.JNumber? || raw.json.JNull?) }
  predicate IsFlag(raw: Raw) { raw.Doc? && (raw.json.JBool? || raw.json.JNull?) }

  predicate IsTexts(raw: Raw) {
    raw.Doc? && (raw.json.JNull? || (raw.json.JArray? && forall j | j in raw.json.items :: j.JString? || j.JNull?))
  }

  predicate IsNumbers(raw: Raw) {
    raw.Doc? && (raw.json.JNull? || (raw.json.JArray? && forall j | j in raw.json.items :: j.JNumber? || j.JNull?))
  }

  /** The text that stands for a value: null reads as the empty one. */
  function TextIn(j: Json): string {
    if j.JString? then j.text else ""
  }

  predicate IsDate(lib: Lib, raw: Raw) {
    IsText(raw) && lib.parseDate(TextIn(raw.json)).Some?
  }

  predicate IsBounds(lib: Lib, raw: Raw) {
    && IsTexts(raw) && raw.json.JArray? && |raw.json.items| == 2
    && lib.parseDate(TextIn(raw.json.items[0])).Some? && lib.parseDate(TextIn(raw.json.items[1])).Some?
  }

  const ORDERS := {"=", "!=", "<", "<=", ">", ">="}

  /** The type has the operator, and both values have the form it needs. */
  predicate Comparable(lib: Lib, dataType: string, op: string, actual: Raw, e: Raw) {
    match dataType
    case "Text" => IsText(actual) && ((op in {"=", "!=", "CONTAINS"} && IsText(e)) || (op in {"IN", "NOT IN"} && IsTexts(e)))
    case "Number" =>
      && IsNumber(actual)
      && (|| (op in ORDERS && IsNumber(e)) || (op == "IN" && IsNumbers(e))
          || (op == "BETWEEN" && IsNumbers(e) && e.json.JArray? && |e.json.items| == 2))
    case "Date" => IsDate(lib, actual) && ((op in ORDERS && IsDate(lib, e)) || (op == "BETWEEN" && IsBounds(lib, e)))
    case "Boolean" => IsFlag(actual) && IsFlag(e) && op in {"=", "!="}
    case _ => false
  }

  /** The expected value of a Text or Number check is ANY, NULL or a caret list. */
  predicate IsSentinel(lib: Lib, dataType: string, e: Raw) {
    dataType in {"Text", "Number"} && e.Doc? && e.json.JString? && !Plain(lib, e.json.text)
  }

  /**
   * Exactly when a leaf check errs: it has an expected value and a user to look at, and either its
   * type is not loaded, or there is no sentinel, the user has a value and the two cannot be compared.
   */
  lemma ErrsExactly(lib: Lib, expected: map<string, Raw>, user: Option<map<string, Raw>>, c: RuleCondition)
    requires c.attributeId.Some?
    ensures var attr := c.attributeId.value;
            LeafVerdict(lib, expected, user, c).Fail? <==>
            && attr in expected && user.Some?
            && (|| c.dataType.None?
                || (!IsSentinel(lib, c.dataType.value, expected[attr]) && attr in user.value
                    && !Comparable(lib, c.dataType.value, c.op, user.value[attr], expected[attr])))
  {
    var attr := c.attributeId.value;
    if attr in expected && user.Some? && c.dataType.Some? {
      SentinelsAre(lib, c.dataType.value, c.op, expected[attr], user.value, attr);
      if attr in user.value {
        ComparableMeans(lib, c.dataType.value, c.op, user.value[attr], attr, expected[attr]);
      }
    }
  }

  lemma SentinelsAre(lib: Lib, dataType: string, op: string, e: Raw, user: map<string, Raw>, attr: string)
    ensures SentinelAnswer(lib, dataType, op, e, user, attr).Some? <==> IsSentinel(lib, dataType, e)
  {}

  lemma ComparableMeans(lib: Lib, dataType: string, op: string, actual: Raw, attr: Uuid, e: Raw)
    ensures CompareVerdict(lib, dataType, op, actual, attr, e).Val? <==> Comparable(lib, dataType, op, actual, e)
  {
    TextsDecode(e);
    NumbersDecodeExactly(e);
  }

  lemma TextsDecode(raw: Raw)
    ensures DecodeStrings(raw).ok <==> IsTexts(raw)
    ensures raw.Doc? && raw.json.JArray? ==>
              var b := DecodeStrings(raw).value;
              |b| == |raw.json.items| && forall i | 0 <= i < |b| :: b[i] == TextIn(raw.json.items[i])
  {}

  lemma NumbersDecodeExactly(raw: Raw)
    ensures DecodeNumbers(raw).ok <==> IsNumbers(raw)
    ensures raw.Doc? && raw.json.JArray? ==> |DecodeNumbers(raw).value| == |raw.json.items|
  {}

  /** Once expected values are stamped, a check whose value is absent, empty or null holds of nobody. */
  lemma NullExpectationFails(lib: Lib, expected: map<string, Raw>, user: Option<map<string, Raw>>, c: RuleCondition)
    requires c.attributeId.Some?
    ensures var attr := c.attributeId.value;
            (attr !in expected || expected[attr] == Empty || expected[attr] == Doc(false, JNull) ==>
               LeafVerdict(lib, CanonicalMeaning.Stamp(expected), user, c) == Val(false))
            && (attr in expected && expected[attr] != Empty && expected[attr] != Doc(false, JNull) ==>
                  LeafVerdict(lib, CanonicalMeaning.Stamp(expected), user, c) == LeafVerdict(lib, expected, user, c))
  {}

  /** Without an expected value, without a user, or without the user's value and a sentinel, a check fails. */
  lemma NothingToCompare(lib: Lib, expected: map<string, Raw>, user: Option<map<string, Raw>>, c: RuleCondition)
    requires c.attributeId.Some?
    requires var attr := c.attributeId.value;
             || attr !in expected || user.None?
             || (c.dataType.Some? && !IsSentinel(lib, c.dataType.value, expected[attr]) && attr !in user.value)
    ensures LeafVerdict(lib, expected, user, c) == Val(false)
  {
    var attr := c.attributeId.value;
    if attr in expected && user.Some? {
      SentinelsAre(lib, c.dataType.value, c.op, expected[attr], user.value, attr);
    }
  }
}

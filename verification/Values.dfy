/**
 * Raw JSON attribute values, their decoders, the sentinels and the comparators: the pure
 * reading of one leaf check. Numbers are integers in units of the smallest float64 quantum,
 * so that order and equality are those of finite float64 values.
 */
module Values {
  import opened Wrappers
  import opened Text
  import opened Conditions
  import opened Semantics

  datatype Json =
    | JNull
    | JString(text: string)
    | JNumber(number: int)
    | JBool(flag: bool)
    | JArray(items: seq<Json>)
    | JObject(fields: map<string, Json>)

  /** A json.RawMessage: no bytes, bytes that are not JSON, or a document, perhaps space-padded. */
  datatype Raw = Empty | Malformed | Doc(padded: bool, json: Json)

  /** Library behaviour the rules depend on but the repository does not define. */
  datatype Lib = Lib(
    fold: char -> char,
    lower: string -> string,
    parseDate: string -> Option<int>,
    parseFloat: string -> Option<int>)

  /** strings.EqualFold: equal up to simple case folding, character by character. */
  predicate EqualFold(lib: Lib, a: string, b: string) {
    |a| == |b| && forall i | 0 <= i < |a| :: lib.fold(a[i]) == lib.fold(b[i])
  }

  /** What json.Unmarshal leaves in the target, and whether it returned nil. */
  datatype Decoded<+T> = Decoded(value: T, ok: bool)

  function DecodeString(raw: Raw): Decoded<string> {
    match raw
    case Doc(_, JString(s)) => Decoded(s, true)
    case Doc(_, JNull) => Decoded("", true)
    case _ => Decoded("", false)
  }

  function DecodeNumber(raw: Raw): Decoded<int> {
    match raw
    case Doc(_, JNumber(n)) => Decoded(n, true)
    case Doc(_, JNull) => Decoded(0, true)
    case _ => Decoded(0, false)
  }

  function DecodeBool(raw: Raw): Decoded<bool> {
    match raw
    case Doc(_, JBool(b)) => Decoded(b, true)
    case Doc(_, JNull) => Decoded(false, true)
    case _ => Decoded(false, false)
  }

  /** A mismatched element is left zero and reported, but decoding goes on past it. */
  function DecodeStrings(raw: Raw): Decoded<seq<string>> {
    match raw
    case Doc(_, JArray(items)) =>
      Decoded(seq(|items|, i requires 0 <= i < |items| => DecodeString(Doc(false, items[i])).value),
              forall i | 0 <= i < |items| :: DecodeString(Doc(false, items[i])).ok)
    case Doc(_, JNull) => Decoded([], true)
    case _ => Decoded([], false)
  }

  function DecodeNumbers(raw: Raw): Decoded<seq<int>> {
    match raw
    case Doc(_, JArray(items)) =>
      Decoded(seq(|items|, i requires 0 <= i < |items| => DecodeNumber(Doc(false, items[i])).value),
              forall i | 0 <= i < |items| :: DecodeNumber(Doc(false, items[i])).ok)
    case Doc(_, JNull) => Decoded([], true)
    case _ => Decoded([], false)
  }

  function DecodeDate(lib: Lib, raw: Raw): Decoded<int> {
    var s := DecodeString(raw);
    if s.ok && lib.parseDate(s.value).Some? then Decoded(lib.parseDate(s.value).value, true)
    else Decoded(0, false)
  }

  function DecodeDateBounds(lib: Lib, raw: Raw): Decoded<(int, int)> {
    var b := DecodeStrings(raw);
    if b.ok && |b.value| == 2 && lib.parseDate(b.value[0]).Some? && lib.parseDate(b.value[1]).Some?
    then Decoded((lib.parseDate(b.value[0]).value, lib.parseDate(b.value[1]).value), true)
    else Decoded((0, 0), false)
  }

  // ------------------------------------------------------------------ sentinels

  datatype Sentinel = NoSentinel | AnyValue | NullValue | CaretList(payload: string)

  function ExtractSentinel(lib: Lib, raw: Raw): Sentinel {
    var s := DecodeString(raw);
    var trimmed := TrimSpace(s.value);
    if !s.ok || trimmed == "" then NoSentinel
    else if EqualFold(lib, trimmed, "ANY") then AnyValue
    else if EqualFold(lib, trimmed, "NULL") then NullValue
    else if '^' in trimmed then CaretList(trimmed)
    else NoSentinel
  }

  /** Trim every part and drop the blank ones. */
  function TrimParts(parts: seq<string>): seq<string> {
    if parts == [] then []
    else (if TrimSpace(parts[0]) == "" then [] else [TrimSpace(parts[0])]) + TrimParts(parts[1..])
  }

  function CaretTokens(payload: string): seq<string> {
    TrimParts(Split(payload, '^'))
  }

  /** All tokens as numbers, or nothing when any of them does not parse. */
  function CaretNumbers(lib: Lib, tokens: seq<string>): Option<seq<int>> {
    if forall t | t in tokens :: lib.parseFloat(t).Some?
    then Some(seq(|tokens|, i requires 0 <= i < |tokens| => lib.parseFloat(tokens[i]).GetOr(0)))
    else None
  }

  predicate TextListed(lib: Lib, texts: seq<string>, actual: string) {
    exists t | t in texts :: EqualFold(lib, t, actual)
  }

  /** Membership under an operator that EQ/IN and NEQ/NOT IN may carry; any other never matches. */
  predicate ListVerdict(op: string, listed: bool) {
    if op in {"=", "IN"} then listed else if op in {"!=", "NOT IN"} then !listed else false
  }

  /** Absent, empty or literally null. */
  predicate IsNullFor(user: map<string, Raw>, attr: string) {
    attr !in user || user[attr] == Empty || (user[attr].Doc? && user[attr].json == JNull)
  }

  /** The user's raw value; a missing attribute decodes like no bytes at all. */
  function RawOf(values: map<string, Raw>, attr: string): Raw {
    if attr in values then values[attr] else Empty
  }

  /** The sentinel's answer, or None when the ordinary comparator must decide. */
  function SentinelAnswer(lib: Lib, dataType: string, op: string, expected: Raw,
                          user: map<string, Raw>, attr: string): Option<bool> {
    if dataType !in {"Text", "Number"} then None else
    match ExtractSentinel(lib, expected)
    case NoSentinel => None
    case AnyValue => Some(true)
    case NullValue =>
      Some(if op == "=" then IsNullFor(user, attr) else op == "!=" && !IsNullFor(user, attr))
    case CaretList(payload) =>
      var tokens := CaretTokens(payload);
      if tokens == [] then Some(false)
      else if dataType == "Text" then
        var actual := DecodeString(RawOf(user, attr));
        Some(actual.ok && ListVerdict(op, TextListed(lib, tokens, actual.value)))
      else
        var nums := CaretNumbers(lib, tokens);
        var actual := DecodeNumber(RawOf(user, attr));
        Some(nums.Some? && actual.ok && ListVerdict(op, actual.value in nums.value))
  }

  // ---------------------------------------------------------------- comparators

  const ORDER_OPS := {"=", "!=", "<", "<=", ">", ">="}

  predicate Compares(op: string, a: int, b: int) {
    match op
    case "=" => a == b
    case "!=" => a != b
    case "<" => a < b
    case "<=" => a <= b
    case ">" => a > b
    case _ => a >= b
  }

  function TextVerdict(lib: Lib, op: string, actual: string, attr: Uuid, expected: Raw): Verdict {
    var a := TrimSpace(actual);
    if op in {"=", "!=", "CONTAINS"} then
      var e := DecodeString(expected);
      if !e.ok then Fail(BadExpected(attr))
      else if op == "CONTAINS" then Val(HasSubstring(lib.lower(a), lib.lower(TrimSpace(e.value))))
      else Val(EqualFold(lib, a, TrimSpace(e.value)) == (op == "="))
    else if op in {"IN", "NOT IN"} then
      var es := DecodeStrings(expected);
      if !es.ok then Fail(BadExpected(attr))
      else Val((exists e | e in es.value :: EqualFold(lib, TrimSpace(e), a)) == (op == "IN"))
    else Fail(BadOperator(op))
  }

  function NumberVerdict(op: string, actual: int, attr: Uuid, expected: Raw): Verdict {
    if op in ORDER_OPS then
      var e := DecodeNumber(expected);
      if !e.ok then Fail(BadExpected(attr)) else Val(Compares(op, actual, e.value))
    else if op == "IN" then
      var es := DecodeNumbers(expected);
      if !es.ok then Fail(BadExpected(attr)) else Val(actual in es.value)
    else if op == "BETWEEN" then
      var es := DecodeNumbers(expected);
      if !es.ok then Fail(BadExpected(attr))
      else if |es.value| != 2 then Fail(BadBounds(|es.value|, attr))
      else Val(es.value[0] <= actual <= es.value[1])
    else Fail(BadOperator(op))
  }

  function DateVerdict(lib: Lib, op: string, actual: int, attr: Uuid, expected: Raw): Verdict {
    if op in ORDER_OPS then
      var e := DecodeDate(lib, expected);
      if !e.ok then Fail(BadExpected(attr)) else Val(Compares(op, actual, e.value))
    else if op == "BETWEEN" then
      var b := DecodeDateBounds(lib, expected);
      if !b.ok then Fail(BadExpected(attr)) else Val(b.value.0 <= actual <= b.value.1)
    else Fail(BadOperator(op))
  }

  function BooleanVerdict(op: string, actual: bool, attr: Uuid, expected: Raw): Verdict {
    var e := DecodeBool(expected);
    if !e.ok then Fail(BadExpected(attr))
    else if op == "=" then Val(actual == e.value)
    else if op == "!=" then Val(actual != e.value)
    else Fail(BadOperator(op))
  }

  function CompareVerdict(lib: Lib, dataType: string, op: string, actual: Raw, attr: Uuid, expected: Raw): Verdict {
    match dataType
    case "Text" =>
      var a := DecodeString(actual);
      if a.ok then TextVerdict(lib, op, a.value, attr, expected) else Fail(BadActual(attr))
    case "Number" =>
      var a := DecodeNumber(actual);
      if a.ok then NumberVerdict(op, a.value, attr, expected) else Fail(BadActual(attr))
    case "Date" =>
      var a := DecodeDate(lib, actual);
      if a.ok then DateVerdict(lib, op, a.value, attr, expected) else Fail(BadActual(attr))
    case "Boolean" =>
      var a := DecodeBool(actual);
      if a.ok then BooleanVerdict(op, a.value, attr, expected) else Fail(BadActual(attr))
    case _ => Fail(BadDataType(dataType))
  }

  /** One leaf check of `c` for one user (None: the caller passed a nil attribute map). */
  function LeafVerdict(lib: Lib, expected: map<string, Raw>, user: Option<map<string, Raw>>, c: RuleCondition): Verdict
    requires c.attributeId.Some?
  {
    var attr := c.attributeId.value;
    if attr !in expected || user.None? then Val(false)
    else if c.dataType.None? then Fail(NotPreloaded(c.id))
    else
      var sentinel := SentinelAnswer(lib, c.dataType.value, c.op, expected[attr], user.value, attr);
      if sentinel.Some? then Val(sentinel.value)
      else if attr !in user.value then Val(false)
      else CompareVerdict(lib, c.dataType.value, c.op, user.value[attr], attr, expected[attr])
  }

  /** LeafVerdict as a checker; conditions without an own check are never passed to it. */
  function LeafChecker(lib: Lib, expected: map<string, Raw>, user: Option<map<string, Raw>>): Checker {
    (c: RuleCondition) => if c.attributeId.Some? then LeafVerdict(lib, expected, user, c) else Val(true)
  }
}

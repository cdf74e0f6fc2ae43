/** Sentinel expected values, evaluated through the lazy caches. */
module Sentinels {
  import opened Wrappers
  import opened Text
  import opened Values
  import opened LazyCache

  method SplitCaretTokens(payload: string) returns (out: seq<string>)
    ensures out == CaretTokens(payload)
  {
    var parts := Split(payload, '^');
    out := [];
    for i := 0 to |parts|
      invariant out + TrimParts(parts[i..]) == TrimParts(parts)
    {
      var t := TrimSpace(parts[i]);
      assert parts[i..][1..] == parts[i + 1..];
      if t == "" {
        continue;
      }
      out := out + [t];
    }
  }

  method ParseCaretNumbers(lib: Lib, tokens: seq<string>) returns (out: Option<seq<int>>)
    ensures out == CaretNumbers(lib, tokens)
  {
    var nums := [];
    for i := 0 to |tokens|
      invariant |nums| == i
      invariant forall j | 0 <= j < i :: lib.parseFloat(tokens[j]) == Some(nums[j])
    {
      var n := lib.parseFloat(tokens[i]);
      if n == None {
        return None;
      }
      nums := nums + [n.value];
    }
    assert nums == seq(|tokens|, i requires 0 <= i < |tokens| => lib.parseFloat(tokens[i]).GetOr(0));
    out := Some(nums);
  }

  method ContainsFold(lib: Lib, tokens: seq<string>, actual: string) returns (found: bool)
    ensures found == TextListed(lib, tokens, actual)
  {
    for i := 0 to |tokens|
      invariant forall j | 0 <= j < i :: !EqualFold(lib, tokens[j], actual)
    {
      if EqualFold(lib, tokens[i], actual) {
        return true;
      }
    }
    found := false;
  }

  method MatchTextList(op: string, tokens: seq<string>, user: ParsedValues, attr: string) returns (b: bool)
    requires user.Valid()
    modifies user.Repr
    ensures user.Valid() && fresh(user.Repr - old(user.Repr))
    ensures var a := DecodeString(RawOf(user.raw, attr));
            b == (a.ok && ListVerdict(op, TextListed(user.lib, tokens, a.value)))
  {
    var actual := user.GetString(attr);
    if !actual.ok {
      return false;
    }
    var found := ContainsFold(user.lib, tokens, actual.value);
    b := ListVerdict(op, found);
  }

  method MatchNumberList(op: string, nums: seq<int>, user: ParsedValues, attr: string) returns (b: bool)
    requires user.Valid()
    modifies user.Repr
    ensures user.Valid() && fresh(user.Repr - old(user.Repr))
    ensures var a := DecodeNumber(RawOf(user.raw, attr));
            b == (a.ok && ListVerdict(op, a.value in nums))
  {
    var actual := user.GetNumber(attr);
    b := actual.ok && ListVerdict(op, actual.value in nums);
  }

  /** Answers a sentinel comparison; None means the ordinary comparator must run. */
  method ApplySentinel(dataType: string, op: string, expected: Raw, user: ParsedValues, attr: string)
    returns (answer: Option<bool>)
    requires user.Valid()
    modifies user.Repr
    ensures user.Valid() && fresh(user.Repr - old(user.Repr))
    ensures answer == SentinelAnswer(user.lib, dataType, op, expected, user.raw, attr)
  {
    if dataType !in {"Text", "Number"} {
      return None;
    }
    match ExtractSentinel(user.lib, expected)
    case NoSentinel =>
      answer := None;
    case AnyValue =>
      answer := Some(true);
    case NullValue =>
      answer := Some(if op == "=" then IsNullFor(user.raw, attr) else op == "!=" && !IsNullFor(user.raw, attr));
    case CaretList(payload) =>
      var tokens := SplitCaretTokens(payload);
      if tokens == [] {
        answer := Some(false);
      } else if dataType == "Text" {
        var b := MatchTextList(op, tokens, user, attr);
        answer := Some(b);
      } else {
        var nums := ParseCaretNumbers(user.lib, tokens);
        if nums.None? {
          answer := Some(false);
        } else {
          var b := MatchNumberList(op, nums.value, user, attr);
          answer := Some(b);
        }
      }
  }
}

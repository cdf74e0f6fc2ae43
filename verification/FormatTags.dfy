/**
 * The struct-tag formatter: a parser and a printer for struct tags, and the two passes that
 * align the tags of one struct. Quoting is a parameter with the laws the round trip rests on.
 */
module FormatTags {
  import opened Wrappers
  import Text

  datatype Tag = Tag(key: string, value: string)

  /** strconv.Quote and strconv.Unquote. */
  datatype Quoting = Quoting(quote: string -> string, unquote: string -> Option<string>)

  /** A quoted text unquotes to its value, and its first unescaped inner quote is its last character. */
  ghost predicate QuotingLaws(q: Quoting) {
    forall v ::
      && q.unquote(q.quote(v)) == Some(v)
      && |q.quote(v)| >= 2 && q.quote(v)[0] == '"'
      && CloseQuote(q.quote(v)[1..], false) == |q.quote(v)| - 2
  }

  // ------------------------------------------------------------------- parsing

  function TrimLeft(s: string): string {
    if s != "" && s[0] == '`' then TrimLeft(s[1..]) else s
  }

  function TrimRight(s: string): string {
    if s != "" && s[|s| - 1] == '`' then TrimRight(s[..|s| - 1]) else s
  }

  /** strings.Trim with the backquote as cutset. */
  function Trim(s: string): string {
    TrimRight(TrimLeft(s))
  }

  function SkipSpaces(s: string): (r: string)
    ensures |r| <= |s|
  {
    if s != "" && s[0] == ' ' then SkipSpaces(s[1..]) else s
  }

  /** How many characters precede the first colon or space. */
  function KeyLength(s: string): (n: nat)
    ensures n <= |s|
  {
    if s == "" || s[0] == ':' || s[0] == ' ' then 0 else 1 + KeyLength(s[1..])
  }

  /** Where the first unescaped quote is; the length when there is none. */
  function CloseQuote(s: string, escaped: bool): (n: nat)
    ensures n <= |s|
    ensures n < |s| ==> s[n] == '"'
  {
    if s == "" then 0
    else if escaped then 1 + CloseQuote(s[1..], false)
    else if s[0] == '\\' then 1 + CloseQuote(s[1..], true)
    else if s[0] == '"' then 0
    else 1 + CloseQuote(s[1..], false)
  }

  /** The quoted value behind a key's colon, and what follows it; None where the parser gives up. */
  function ValueOf(q: Quoting, u: string): (r: Option<(string, string)>)
    ensures r.Some? ==> |r.value.1| < |u|
  {
    if |u| < 2 || u[0] != ':' || u[1] != '"' then None
    else
      var n := CloseQuote(u[2..], false);
      if n + 2 == |u| then None
      else
        match q.unquote(u[1..n + 3])
        case None => None
        case Some(v) => Some((v, u[n + 3..]))
  }

  /** The first tag of a text and what follows it. */
  function NextTag(q: Quoting, s: string): (r: Option<(Tag, string)>)
    ensures r.Some? ==> |r.value.1| < |s|
  {
    var t := SkipSpaces(s);
    var k := KeyLength(t);
    Named(t[..k], ValueOf(q, t[k..]))
  }

  function Named(key: string, r: Option<(string, string)>): Option<(Tag, string)> {
    match r
    case None => None
    case Some(r) => Some((Tag(key, r.0), r.1))
  }

  function TagsOf(q: Quoting, s: string): seq<Tag>
    decreases |s|
  {
    match NextTag(q, s)
    case None => []
    case Some(r) => [r.0] + TagsOf(q, r.1)
  }

  function Parse(q: Quoting, tagStr: string): seq<Tag> {
    TagsOf(q, Trim(tagStr))
  }

  /** The parser: an index into the trimmed text, and a flag for the character after a backslash. */
  method ParseTags(q: Quoting, tagStr: string) returns (tags: seq<Tag>)
    ensures tags == Parse(q, tagStr)
  {
    var s := Trim(tagStr);
    tags := [];
    var i := 0;
    while i < |s|
      invariant i <= |s|
      invariant Parse(q, tagStr) == tags + TagsOf(q, s[i..])
    {
      var next := ParseOne(q, s, i);
      if next.None? {
        return;
      }
      tags, i := tags + [next.value.0], next.value.1;
    }
    assert s[i..] == "";
  }

  /** One round of the parser's loop: the tag at `i` and the index after it. */
  method ParseOne(q: Quoting, s: string, start: nat) returns (r: Option<(Tag, nat)>)
    requires start < |s|
    ensures r.None? ==> NextTag(q, s[start..]).None?
    ensures r.Some? ==> start < r.value.1 <= |s| && NextTag(q, s[start..]) == Some((r.value.0, s[r.value.1..]))
  {
    var keyStart := PassSpaces(s, start);
    if keyStart >= |s| {
      NextTagAt(q, s, start, keyStart, |s|);
      return None;
    }
    var colon := PassKey(s, keyStart);
    NextTagAt(q, s, start, keyStart, colon);
    var value := ParseValue(q, s, colon);
    if value.None? {
      return None;
    }
    r := Some((Tag(s[keyStart..colon], value.value.0), value.value.1));
  }

  /** The first tag from `start` on, in terms of positions. */
  lemma NextTagAt(q: Quoting, s: string, start: nat, keyStart: nat, colon: nat)
    requires start <= keyStart <= colon <= |s|
    requires s[keyStart..] == SkipSpaces(s[start..]) && colon == keyStart + KeyLength(s[keyStart..])
    ensures NextTag(q, s[start..]) == Named(s[keyStart..colon], ValueOf(q, s[colon..]))
  {
    var t := s[keyStart..];
    var k := KeyLength(t);
    NextTagBehindSpaces(q, s[start..], t);
    Slices(s, keyStart, colon);
    assert t[k..] == s[colon..] && t[..k] == s[keyStart..colon];
  }

  lemma NextTagBehindSpaces(q: Quoting, s: string, t: string)
    requires t == SkipSpaces(s)
    ensures NextTag(q, s) == Named(t[..KeyLength(t)], ValueOf(q, t[KeyLength(t)..]))
  {}

  lemma Slices(s: string, base: nat, i: nat)
    requires base <= i <= |s|
    ensures s[base..][i - base..] == s[i..] && s[base..][..i - base] == s[base..i]
  {}

  /** The value behind a key that ends at `colon`, and the index after it. */
  method ParseValue(q: Quoting, s: string, colon: nat) returns (r: Option<(string, nat)>)
    requires colon <= |s|
    ensures r.None? ==> ValueOf(q, s[colon..]).None?
    ensures r.Some? ==> colon < r.value.1 <= |s| && ValueOf(q, s[colon..]) == Some((r.value.0, s[r.value.1..]))
  {
    ghost var u := s[colon..];
    if colon >= |s| || s[colon] != ':' {
      return None;
    }
    var i := colon + 1;
    if i >= |s| || s[i] != '"' {
      return None;
    }
    var close := PassValue(s, i + 1);
    assert u[2..] == s[i + 1..];
    if close >= |s| {
      return None;
    }
    assert u[1..close + 1 - colon] == s[i..close + 1];
    var value := q.unquote(s[i..close + 1]);
    if value.None? {
      return None;
    }
    assert u[close + 1 - colon..] == s[close + 1..];
    r := Some((value.value, close + 1));
  }

  method PassSpaces(s: string, start: nat) returns (i: nat)
    requires start <= |s|
    ensures start <= i <= |s| && s[i..] == SkipSpaces(s[start..])
  {
    i := start;
    while i < |s| && s[i] == ' '
      invariant start <= i <= |s| && SkipSpaces(s[i..]) == SkipSpaces(s[start..])
    {
      assert s[i..][1..] == s[i + 1..];
      i := i + 1;
    }
  }

  method PassKey(s: string, start: nat) returns (i: nat)
    requires start <= |s|
    ensures start <= i <= |s| && i == start + KeyLength(s[start..])
  {
    i := start;
    while i < |s| && s[i] != ':' && s[i] != ' '
      invariant start <= i <= |s| && i + KeyLength(s[i..]) == start + KeyLength(s[start..])
    {
      assert s[i..][1..] == s[i + 1..];
      i := i + 1;
    }
  }

  /** Looks for the closing quote; `escaped` is set by a backslash and cleared by what follows it. */
  method PassValue(s: string, start: nat) returns (i: nat)
    requires start <= |s|
    ensures start <= i <= |s| && i == start + CloseQuote(s[start..], false)
  {
    i := start;
    var escaped := false;
    while i < |s|
      invariant start <= i <= |s| && i + CloseQuote(s[i..], escaped) == start + CloseQuote(s[start..], false)
    {
      assert s[i..][1..] == s[i + 1..];
      if escaped {
        escaped := false;
      } else if s[i] == '\\' {
        escaped := true;
      } else if s[i] == '"' {
        return;
      }
      i := i + 1;
    }
  }

  // ------------------------------------------------------------------ printing

  function Spaces(n: nat): string {
    if n == 0 then "" else " " + Spaces(n - 1)
  }

  function Part(q: Quoting, t: Tag): string {
    t.key + ":" + q.quote(t.value)
  }

  type Widths = map<string, nat>

  function Padded(part: string, key: string, widths: Widths): string {
    if key in widths && widths[key] > |part| then part + Spaces(widths[key] - |part|) else part
  }

  /** Every tag but the last is padded to its key's width. */
  function Parts(q: Quoting, tags: seq<Tag>, widths: Widths): seq<string> {
    seq(|tags|, i requires 0 <= i < |tags| =>
      if i < |tags| - 1 then Padded(Part(q, tags[i]), tags[i].key, widths) else Part(q, tags[i]))
  }

  function Print(q: Quoting, tags: seq<Tag>, widths: Widths): string {
    Text.Join(Parts(q, tags, widths), " ")
  }

  function Format(q: Quoting, tagStr: string, widths: Widths): string {
    if tagStr == "" then ""
    else if Parse(q, tagStr) == [] then tagStr
    else "`" + Print(q, Parse(q, tagStr), widths) + "`"
  }

  method FormatTag(q: Quoting, tagStr: string, maxTagLen: Widths) returns (r: string)
    ensures r == Format(q, tagStr, maxTagLen)
  {
    if tagStr == "" {
      return "";
    }
    var tags := ParseTags(q, tagStr);
    if |tags| == 0 {
      return tagStr;
    }
    var resultParts := [];
    ghost var parts := Parts(q, tags, maxTagLen);
    for i := 0 to |tags|
      invariant resultParts == parts[..i]
    {
      var part := Part(q, tags[i]);
      if i < |tags| - 1 {
        part := PadPart(part, tags[i].key, maxTagLen);
      }
      PrefixGrows(parts, i);
      resultParts := resultParts + [part];
    }
    assert parts[..|tags|] == parts;
    r := "`" + Text.Join(resultParts, " ") + "`";
  }

  lemma PrefixGrows<T>(s: seq<T>, i: nat)
    requires i < |s|
    ensures s[..i + 1] == s[..i] + [s[i]]
  {}

  method PadPart(part: string, key: string, maxTagLen: Widths) returns (padded: string)
    ensures padded == Padded(part, key, maxTagLen)
  {
    padded := part;
    if key in maxTagLen && maxTagLen[key] > |part| {
      padded := part + Spaces(maxTagLen[key] - |part|);
    }
  }

  lemma PrintCons(q: Quoting, tags: seq<Tag>, widths: Widths)
    requires |tags| > 1
    ensures Print(q, tags, widths) ==
            Padded(Part(q, tags[0]), tags[0].key, widths) + " " + Print(q, tags[1..], widths)
  {
    assert Parts(q, tags, widths)[1..] == Parts(q, tags[1..], widths);
  }

  // ---------------------------------------------------------------- round trip

  /** A key as the parser delimits it. */
  predicate PlainKey(key: string) {
    forall i | 0 <= i < |key| :: key[i] != ':' && key[i] != ' '
  }

  ghost predicate PlainKeys(tags: seq<Tag>) {
    forall t | t in tags :: PlainKey(t.key)
  }

  lemma {:induction false} KeyLengthPlain(s: string)
    ensures PlainKey(s[..KeyLength(s)])
  {
    if KeyLength(s) > 0 {
      KeyLengthPlain(s[1..]);
      assert forall i | 0 < i < KeyLength(s) :: s[i] == s[1..][i - 1];
    }
  }

  lemma {:induction false} ParsedKeysArePlain(q: Quoting, s: string)
    ensures PlainKeys(TagsOf(q, s))
    decreases |s|
  {
    if NextTag(q, s).Some? {
      KeyLengthPlain(SkipSpaces(s));
      ParsedKeysArePlain(q, NextTag(q, s).value.1);
    }
  }

  lemma {:induction false} KeyLengthStops(key: string, rest: string)
    requires PlainKey(key)
    ensures KeyLength(key + ":" + rest) == |key|
  {
    var s := key + ":" + rest;
    if key != "" {
      assert s[1..] == key[1..] + ":" + rest;
      KeyLengthStops(key[1..], rest);
    }
  }

  lemma {:induction false} CloseQuoteStops(s: string, rest: string, escaped: bool)
    requires CloseQuote(s, escaped) < |s|
    ensures CloseQuote(s + rest, escaped) == CloseQuote(s, escaped)
  {
    assert (s + rest)[1..] == s[1..] + rest;
    if escaped {
      CloseQuoteStops(s[1..], rest, false);
    } else if s[0] != '"' {
      CloseQuoteStops(s[1..], rest, s[0] == '\\');
    }
  }

  /** The parser reads back a printed tag and stops right behind it. */
  lemma PartParses(q: Quoting, t: Tag, rest: string)
    requires QuotingLaws(q) && PlainKey(t.key)
    ensures NextTag(q, Part(q, t) + rest) == Some((t, rest))
  {
    var s, u := Part(q, t) + rest, ":" + q.quote(t.value) + rest;
    assert s == t.key + u;
    KeyLengthStops(t.key, q.quote(t.value) + rest);
    assert s == t.key + ":" + (q.quote(t.value) + rest);
    assert s[..|t.key|] == t.key && s[|t.key|..] == u;
    ValueParses(q, t.value, rest);
  }

  lemma ValueParses(q: Quoting, v: string, rest: string)
    requires QuotingLaws(q)
    ensures ValueOf(q, ":" + q.quote(v) + rest) == Some((v, rest))
  {
    var quoted := q.quote(v);
    var u := ":" + quoted + rest;
    assert u[2..] == quoted[1..] + rest;
    CloseQuoteStops(quoted[1..], rest, false);
    assert u[1..1 + |quoted|] == quoted;
    assert u[1 + |quoted|..] == rest;
  }

  lemma {:induction false} SpacesSkip(n: nat, s: string)
    ensures SkipSpaces(Spaces(n) + s) == SkipSpaces(s)
  {
    if n > 0 {
      assert (Spaces(n) + s)[1..] == Spaces(n - 1) + s;
      SpacesSkip(n - 1, s);
    } else {
      assert Spaces(n) + s == s;
    }
  }

  /** Padding between tags does not matter to the parser. */
  lemma PaddingSkips(q: Quoting, n: nat, s: string)
    ensures TagsOf(q, Spaces(n) + s) == TagsOf(q, s)
  {
    SpacesSkip(n, s);
  }

  /** A printed tag, padded to any width, followed by a separator and more text. */
  lemma PaddedParses(q: Quoting, t: Tag, n: nat, rest: string)
    requires QuotingLaws(q) && PlainKey(t.key)
    ensures TagsOf(q, Part(q, t) + Spaces(n) + " " + rest) == [t] + TagsOf(q, rest)
  {
    var tail := Spaces(n) + (Spaces(1) + rest);
    assert Spaces(1) == " " by {
      assert Spaces(0) == "";
    }
    assert Part(q, t) + Spaces(n) + " " + rest == Part(q, t) + tail;
    PartParses(q, t, tail);
    PaddingSkips(q, n, Spaces(1) + rest);
    PaddingSkips(q, 1, rest);
  }

  lemma LastParses(q: Quoting, t: Tag)
    requires QuotingLaws(q) && PlainKey(t.key)
    ensures TagsOf(q, Part(q, t)) == [t]
  {
    PartParses(q, t, "");
    assert Part(q, t) + "" == Part(q, t);
  }

  /** Padding, written out. */
  function Pad(q: Quoting, t: Tag, widths: Widths): nat {
    if t.key in widths && widths[t.key] > |Part(q, t)| then widths[t.key] - |Part(q, t)| else 0
  }

  lemma PaddedIs(q: Quoting, t: Tag, widths: Widths)
    ensures Padded(Part(q, t), t.key, widths) == Part(q, t) + Spaces(Pad(q, t, widths))
  {
    assert Part(q, t) + "" == Part(q, t);
  }

  /** What follows the first printed tag. */
  function Tail(q: Quoting, tags: seq<Tag>, widths: Widths): string
    requires tags != []
  {
    if |tags| == 1 then "" else Spaces(Pad(q, tags[0], widths)) + " " + Print(q, tags[1..], widths)
  }

  lemma PrintIs(q: Quoting, tags: seq<Tag>, widths: Widths)
    requires tags != []
    ensures Print(q, tags, widths) == Part(q, tags[0]) + Tail(q, tags, widths)
  {
    if |tags| > 1 {
      PrintCons(q, tags, widths);
      PaddedIs(q, tags[0], widths);
      Regroup(Part(q, tags[0]), Spaces(Pad(q, tags[0], widths)), Print(q, tags[1..], widths));
    }
  }

  lemma Regroup(a: string, b: string, c: string)
    ensures a + b + " " + c == a + (b + " " + c)
  {}

  /** Parsing what was printed from tags with plain keys gives the tags, whatever the widths. */
  lemma {:induction false} PrintParses(q: Quoting, tags: seq<Tag>, widths: Widths)
    requires QuotingLaws(q) && PlainKeys(tags) && tags != []
    ensures TagsOf(q, Print(q, tags, widths)) == tags
    decreases |tags|, 1
  {
    PrintIs(q, tags, widths);
    TailParses(q, tags[0], tags, widths);
    assert tags == [tags[0]] + tags[1..];
  }

  /** The same with another plain key in the first tag's place. */
  lemma {:induction false} TailParses(q: Quoting, first: Tag, tags: seq<Tag>, widths: Widths)
    requires QuotingLaws(q) && PlainKeys(tags) && tags != [] && PlainKey(first.key)
    ensures TagsOf(q, Part(q, first) + Tail(q, tags, widths)) == [first] + tags[1..]
    decreases |tags|, 0
  {
    if |tags| == 1 {
      LastParses(q, first);
      assert Part(q, first) + "" == Part(q, first);
    } else {
      var n, rest := Pad(q, tags[0], widths), Print(q, tags[1..], widths);
      PrintParses(q, tags[1..], widths);
      PaddedParses(q, first, n, rest);
      Regroup(Part(q, first), Spaces(n), rest);
    }
  }

  // ----------------------------------------------------- the enclosing backquotes

  lemma {:induction false} TrimLeftKey(key: string, rest: string)
    ensures TrimLeft(key + ":" + rest) == TrimLeft(key) + ":" + rest
  {
    var s := key + ":" + rest;
    if key != "" {
      assert s[1..] == key[1..] + ":" + rest;
      TrimLeftKey(key[1..], rest);
    }
  }

  lemma {:induction false} TrimLeftPlain(key: string)
    requires PlainKey(key)
    ensures PlainKey(TrimLeft(key)) && |TrimLeft(key)| <= |key|
    ensures TrimLeft(key) == key <==> key == "" || key[0] != '`'
    ensures TrimLeft(key) == "" || TrimLeft(key)[0] != '`'
  {
    if key != "" {
      TrimLeftPlain(key[1..]);
    }
  }

  /** A printed tag list ends in a quote, so only its front can be trimmed. */
  lemma {:induction false} PrintEnds(q: Quoting, tags: seq<Tag>, widths: Widths)
    requires QuotingLaws(q) && tags != []
    ensures var s := Print(q, tags, widths); s != "" && s[|s| - 1] == '"'
  {
    var quoted := q.quote(tags[0].value);
    assert quoted[1..][|quoted| - 2] == '"';
    if |tags| > 1 {
      PrintEnds(q, tags[1..], widths);
      PrintCons(q, tags, widths);
    }
  }

  lemma {:induction false} TrimLeftEnds(s: string)
    requires s != "" && s[|s| - 1] == '"'
    ensures TrimLeft(s) != "" && TrimLeft(s)[|TrimLeft(s)| - 1] == '"'
    ensures TrimLeft(s + "`") == TrimLeft(s) + "`"
  {
    assert (s + "`")[1..] == s[1..] + "`";
    if s[0] == '`' {
      TrimLeftEnds(s[1..]);
    }
  }

  lemma EnclosedTrims(s: string)
    requires s != "" && s[|s| - 1] == '"'
    ensures Trim("`" + s + "`") == TrimLeft(s)
  {
    assert ("`" + s + "`")[1..] == s + "`";
    TrimLeftEnds(s);
    var t := TrimLeft(s);
    assert (t + "`")[..|t|] == t;
    assert TrimRight(t) == t;
  }

  /** What a formatted tag parses to: the same tags, the first key without leading backquotes. */
  lemma FormattedParses(q: Quoting, tagStr: string, widths: Widths)
    requires QuotingLaws(q) && tagStr != "" && Parse(q, tagStr) != []
    ensures var tags := Parse(q, tagStr);
            Parse(q, Format(q, tagStr, widths)) == [tags[0].(key := TrimLeft(tags[0].key))] + tags[1..]
  {
    var tags := Parse(q, tagStr);
    ParsedKeysArePlain(q, Trim(tagStr));
    PrintEnds(q, tags, widths);
    EnclosedTrims(Print(q, tags, widths));
    TrimmedPrintParses(q, tags, widths);
  }

  lemma TrimmedPrintParses(q: Quoting, tags: seq<Tag>, widths: Widths)
    requires QuotingLaws(q) && PlainKeys(tags) && tags != []
    ensures TagsOf(q, TrimLeft(Print(q, tags, widths))) == [tags[0].(key := TrimLeft(tags[0].key))] + tags[1..]
  {
    var first := tags[0].(key := TrimLeft(tags[0].key));
    TrimmedPrint(q, tags, widths);
    TrimLeftPlain(tags[0].key);
    TailParses(q, first, tags, widths);
  }

  lemma TrimmedPrint(q: Quoting, tags: seq<Tag>, widths: Widths)
    requires tags != []
    ensures TrimLeft(Print(q, tags, widths)) ==
            Part(q, tags[0].(key := TrimLeft(tags[0].key))) + Tail(q, tags, widths)
  {
    var t := tags[0];
    var rest := q.quote(t.value) + Tail(q, tags, widths);
    PrintIs(q, tags, widths);
    assert Print(q, tags, widths) == t.key + ":" + rest;
    TrimLeftKey(t.key, rest);
  }

  /** Nothing was parsed, or the first key does not start with a backquote. */
  predicate Clean(q: Quoting, tagStr: string) {
    Parse(q, tagStr) == [] || Parse(q, tagStr)[0].key == "" || Parse(q, tagStr)[0].key[0] != '`'
  }

  /** In terms of the text: once the enclosing backquotes and then the spaces are gone, no backquote follows. */
  lemma CleanMeans(q: Quoting, tagStr: string)
    ensures Clean(q, tagStr) <==>
            var s := SkipSpaces(Trim(tagStr)); Parse(q, tagStr) == [] || s == "" || s[0] != '`'
  {}

  /** Formatting keeps the tags, exactly for clean input. */
  lemma FormatKeepsTags(q: Quoting, tagStr: string, widths: Widths)
    requires QuotingLaws(q)
    ensures Parse(q, Format(q, tagStr, widths)) == Parse(q, tagStr) <==> Clean(q, tagStr)
  {
    if tagStr != "" && Parse(q, tagStr) != [] {
      var tags := Parse(q, tagStr);
      FormattedParses(q, tagStr, widths);
      ParsedKeysArePlain(q, Trim(tagStr));
      TrimLeftPlain(tags[0].key);
      assert tags == [tags[0]] + tags[1..];
    }
  }

  /** How a formatted tag starts: its own backquote, then the first key or its colon. */
  lemma FormattedStart(q: Quoting, tagStr: string, widths: Widths)
    requires tagStr != "" && Parse(q, tagStr) != []
    ensures var r, key := Format(q, tagStr, widths), Parse(q, tagStr)[0].key;
            |r| >= 2 && r[1] == if key == "" then ':' else key[0]
  {
    PrintIs(q, Parse(q, tagStr), widths);
  }

  /** Formatting a formatted tag again: a fixed point exactly for clean input. */
  lemma FormatTwice(q: Quoting, tagStr: string, widths: Widths, again: Widths)
    requires QuotingLaws(q)
    ensures Clean(q, tagStr) ==> Format(q, Format(q, tagStr, widths), again) == Format(q, tagStr, again)
    ensures !Clean(q, tagStr) ==> Format(q, Format(q, tagStr, widths), again) != Format(q, tagStr, widths)
  {
    FormatKeepsTags(q, tagStr, widths);
    if tagStr != "" && Parse(q, tagStr) != [] && !Clean(q, tagStr) {
      var r, tags := Format(q, tagStr, widths), Parse(q, tagStr);
      FormattedParses(q, tagStr, widths);
      ParsedKeysArePlain(q, Trim(tagStr));
      TrimLeftPlain(tags[0].key);
      FormattedStart(q, tagStr, widths);
      FormattedStart(q, r, again);
    }
  }

  /** Formatting is idempotent exactly on clean input. */
  lemma FormatIdempotent(q: Quoting, tagStr: string, widths: Widths)
    requires QuotingLaws(q)
    ensures Format(q, Format(q, tagStr, widths), widths) == Format(q, tagStr, widths) <==> Clean(q, tagStr)
  {
    FormatTwice(q, tagStr, widths, widths);
  }

  // ---------------------------------------------------- quoting of plain texts

  /** Quotes and backslashes are escaped; other printable ASCII stands for itself. */
  function Escape(v: string): string {
    if v == "" then ""
    else (if v[0] == '"' || v[0] == '\\' then "\\" + [v[0]] else [v[0]]) + Escape(v[1..])
  }

  function Unescape(s: string): Option<string> {
    if s == "" then Some("")
    else if s[0] == '"' then None
    else if s[0] != '\\' then Prefixed(s[0], Unescape(s[1..]))
    else if |s| > 1 && (s[1] == '"' || s[1] == '\\') then Prefixed(s[1], Unescape(s[2..]))
    else None
  }

  function Prefixed(c: char, r: Option<string>): Option<string> {
    if r.None? then None else Some([c] + r.value)
  }

  function PlainUnquote(s: string): Option<string> {
    if |s| >= 2 && s[0] == '"' && s[|s| - 1] == '"' then Unescape(s[1..|s| - 1]) else None
  }

  const PLAIN := Quoting((v: string) => "\"" + Escape(v) + "\"", (s: string) => PlainUnquote(s))

  lemma {:induction false} EscapeInverts(v: string)
    ensures Unescape(Escape(v)) == Some(v)
    ensures CloseQuote(Escape(v) + "\"", false) == |Escape(v)|
  {
    if v != "" {
      EscapeInverts(v[1..]);
      assert [v[0]] + v[1..] == v;
      if v[0] == '"' || v[0] == '\\' {
        EscapedChar(v[0], Escape(v[1..]));
      } else {
        PlainChar(v[0], Escape(v[1..]));
      }
    }
  }

  lemma EscapedChar(c: char, e: string)
    requires c == '"' || c == '\\'
    ensures var s := "\\" + [c] + e;
            && Unescape(s) == Prefixed(c, Unescape(e))
            && CloseQuote(s + "\"", false) == 2 + CloseQuote(e + "\"", false)
  {
    var s := "\\" + [c] + e;
    assert s[2..] == e;
    assert (s + "\"")[1..] == [c] + (e + "\"") && ([c] + (e + "\""))[1..] == e + "\"";
  }

  lemma PlainChar(c: char, e: string)
    requires c != '"' && c != '\\'
    ensures Unescape([c] + e) == Prefixed(c, Unescape(e))
    ensures CloseQuote([c] + e + "\"", false) == 1 + CloseQuote(e + "\"", false)
  {
    assert ([c] + e)[1..] == e && ([c] + e + "\"")[1..] == e + "\"";
  }

  /** The quoting of plain texts obeys the laws the round trip rests on. */
  lemma PlainQuotingLaws()
    ensures QuotingLaws(PLAIN)
  {
    forall v
      ensures PLAIN.unquote(PLAIN.quote(v)) == Some(v)
      ensures |PLAIN.quote(v)| >= 2 && PLAIN.quote(v)[0] == '"'
      ensures CloseQuote(PLAIN.quote(v)[1..], false) == |PLAIN.quote(v)| - 2
    {
      EscapeInverts(v);
      var s := "\"" + Escape(v) + "\"";
      assert s[1..|s| - 1] == Escape(v) && s[1..] == Escape(v) + "\"";
    }
  }
}

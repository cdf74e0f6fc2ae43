/** A caret-separated expected value means the same list as a JSON array of its tokens. */
module CaretLists {
  import opened Wrappers
  import opened Text
  import opened Conditions
  import opened Semantics
  import opened Values

  // -------------------------------------------------------- split undoes join

  lemma {:induction false} SplitToken(t: string, sep: char, rest: string)
    requires sep !in t
    ensures Split(t + [sep] + rest, sep) == [t] + Split(rest, sep)
    ensures Split(t, sep) == [t]
  {
    if t == [] {
      assert t + [sep] + rest == [sep] + rest;
    } else {
      SplitToken(t[1..], sep, rest);
      assert (t + [sep] + rest)[1..] == t[1..] + [sep] + rest;
      assert t == [t[0]] + t[1..];
    }
  }

  lemma {:induction false} SplitUndoesJoin(tokens: seq<string>, sep: char)
    requires tokens != [] && forall t | t in tokens :: sep !in t
    ensures Split(Join(tokens, [sep]), sep) == tokens
  {
    assert tokens[0] in tokens;
    if |tokens| == 1 {
      SplitToken(tokens[0], sep, "");
    } else {
      SplitUndoesJoin(tokens[1..], sep);
      SplitToken(tokens[0], sep, Join(tokens[1..], [sep]));
    }
  }

  // ------------------------------------- trimming the whole list trims its tokens

  lemma TrimIgnoresLeadingSpace(c: char, s: string)
    requires IsSpace(c)
    ensures TrimSpace([c] + s) == TrimSpace(s)
  {
    assert ([c] + s)[1..] == s;
  }

  lemma {:induction false} TrimLeftSnoc(s: string, c: char)
    requires IsSpace(c)
    ensures TrimLeft(s + [c]) == if TrimLeft(s) == "" then "" else TrimLeft(s) + [c]
  {
    if s == [] {
      assert s + [c] == [c] && [c][1..] == "";
    } else if IsSpace(s[0]) {
      assert (s + [c])[1..] == s[1..] + [c];
      TrimLeftSnoc(s[1..], c);
    }
  }

  lemma TrimIgnoresTrailingSpace(s: string, c: char)
    requires IsSpace(c)
    ensures TrimSpace(s + [c]) == TrimSpace(s)
  {
    TrimLeftSnoc(s, c);
    var t := TrimLeft(s);
    assert (t + [c])[..|t + [c]| - 1] == t;
  }

  function AddToLast(parts: seq<string>, c: char): seq<string>
    requires parts != []
  {
    parts[..|parts| - 1] + [parts[|parts| - 1] + [c]]
  }

  lemma AddToLastOfTail(x: string, rest: seq<string>, c: char)
    requires rest != []
    ensures AddToLast([x] + rest, c) == [x] + AddToLast(rest, c)
  {}

  /** A character put in front of the first part. */
  function AddToFirst(c: char, parts: seq<string>): seq<string>
    requires parts != []
  {
    [[c] + parts[0]] + parts[1..]
  }

  lemma AddBothEnds(c: char, parts: seq<string>, d: char)
    requires parts != []
    ensures AddToLast(AddToFirst(c, parts), d) == AddToFirst(c, AddToLast(parts, d))
  {
    if |parts| == 1 {
      assert [c] + parts[0] + [d] == [c] + (parts[0] + [d]);
    }
  }

  lemma {:induction false} SplitSnoc(s: string, sep: char, c: char)
    requires c != sep
    ensures Split(s + [c], sep) == AddToLast(Split(s, sep), c)
  {
    if s == [] {
      assert s + [c] == [c] && [c][1..] == "" && [c] + "" == [c] && "" + [c] == [c];
      assert Split([c], sep) == [[c]];
    } else {
      SplitSnoc(s[1..], sep, c);
      assert (s + [c])[1..] == s[1..] + [c];
      var rest := Split(s[1..], sep);
      AddToLastOfTail("", rest, c);
      AddBothEnds(s[0], rest, c);
    }
  }

  lemma {:induction false} TrimPartsConcat(a: seq<string>, b: seq<string>)
    ensures TrimParts(a + b) == TrimParts(a) + TrimParts(b)
  {
    if a == [] {
      assert a + b == b;
    } else {
      assert (a + b)[1..] == a[1..] + b;
      TrimPartsConcat(a[1..], b);
    }
  }

  lemma TrimPartsLast(init: seq<string>, x: string, y: string)
    requires TrimSpace(x) == TrimSpace(y)
    ensures TrimParts(init + [x]) == TrimParts(init + [y])
  {
    TrimPartsConcat(init, [x]);
    TrimPartsConcat(init, [y]);
  }

  lemma {:induction false} TokensIgnoreLeft(s: string)
    ensures CaretTokens(TrimLeft(s)) == CaretTokens(s)
  {
    if s != [] && IsSpace(s[0]) {
      TokensIgnoreLeft(s[1..]);
      TrimIgnoresLeadingSpace(s[0], Split(s[1..], '^')[0]);
    }
  }

  lemma {:induction false} TokensIgnoreRight(s: string)
    ensures CaretTokens(TrimRight(s)) == CaretTokens(s)
  {
    if s != [] && IsSpace(s[|s| - 1]) {
      var t, c := s[..|s| - 1], s[|s| - 1];
      TokensIgnoreRight(t);
      assert s == t + [c];
      SplitSnoc(t, '^', c);
      var parts := Split(t, '^');
      var init, last := parts[..|parts| - 1], parts[|parts| - 1];
      TrimIgnoresTrailingSpace(last, c);
      TrimPartsLast(init, last + [c], last);
      assert parts == init + [last];
    }
  }

  lemma {:induction false} TrimKeeps(s: string, c: char)
    requires c in s && !IsSpace(c)
    ensures c in TrimLeft(s) && c in TrimRight(s)
    decreases |s|
  {
    if IsSpace(s[0]) {
      TrimKeeps(s[1..], c);
    }
    if IsSpace(s[|s| - 1]) {
      TrimKeeps(s[..|s| - 1], c);
    }
  }

  lemma {:induction false} TrimPartsOfWords(tokens: seq<string>)
    requires forall t | t in tokens :: TrimSpace(t) != ""
    ensures |TrimParts(tokens)| == |tokens|
    ensures forall i | 0 <= i < |tokens| :: TrimParts(tokens)[i] == TrimSpace(tokens[i])
  {
    if tokens != [] {
      assert tokens[0] in tokens;
      TrimPartsOfWords(tokens[1..]);
    }
  }

  // ------------------------------------------------------------- the equivalence

  /** The caret folds to itself alone. */
  ghost predicate CaretLaw(lib: Lib) {
    forall c: char :: lib.fold(c) == lib.fold('^') ==> c == '^'
  }

  /** Words that may be listed: at least two, not blank, without a caret. */
  predicate Listable(tokens: seq<string>) {
    |tokens| >= 2 && forall t | t in tokens :: '^' !in t && TrimSpace(t) != ""
  }

  lemma JoinedHasCaret(tokens: seq<string>)
    requires |tokens| >= 2
    ensures '^' in Join(tokens, "^")
  {
    var s := Join(tokens, "^");
    assert s == (tokens[0] + "^") + Join(tokens[1..], "^");
    assert s[|tokens[0]|] == '^';
  }

  lemma FoldedCaret(lib: Lib, s: string, w: string)
    requires CaretLaw(lib) && '^' in s && EqualFold(lib, s, w)
    ensures '^' in w
  {
    var i :| 0 <= i < |s| && s[i] == '^';
    assert lib.fold(w[i]) == lib.fold('^');
    assert w[i] == '^';
  }

  lemma SentinelIsList(lib: Lib, s: string, padded: bool)
    requires CaretLaw(lib) && '^' in TrimSpace(s)
    ensures ExtractSentinel(lib, Doc(padded, JString(s))) == CaretList(TrimSpace(s))
  {
    if EqualFold(lib, TrimSpace(s), "ANY") {
      FoldedCaret(lib, TrimSpace(s), "ANY");
    }
    if EqualFold(lib, TrimSpace(s), "NULL") {
      FoldedCaret(lib, TrimSpace(s), "NULL");
    }
  }

  /** A joined list is recognised as a list and reads back as its trimmed tokens. */
  lemma JoinedIsCaretList(lib: Lib, tokens: seq<string>, padded: bool)
    requires CaretLaw(lib) && Listable(tokens)
    ensures ExtractSentinel(lib, Doc(padded, JString(Join(tokens, "^")))) ==
            CaretList(TrimSpace(Join(tokens, "^")))
    ensures CaretTokens(TrimSpace(Join(tokens, "^"))) == TrimParts(tokens)
  {
    var s := Join(tokens, "^");
    JoinedHasCaret(tokens);
    TrimKeeps(s, '^');
    TrimKeeps(TrimLeft(s), '^');
    SentinelIsList(lib, s, padded);
    TokensIgnoreLeft(s);
    TokensIgnoreRight(TrimLeft(s));
    SplitUndoesJoin(tokens, '^');
  }

  function JsonArray(tokens: seq<string>): Json {
    JArray(seq(|tokens|, i requires 0 <= i < |tokens| => JString(tokens[i])))
  }

  lemma ArrayDecodes(tokens: seq<string>, padded: bool)
    ensures DecodeStrings(Doc(padded, JsonArray(tokens))) == Decoded(tokens, true)
  {
    var items := JsonArray(tokens).items;
    assert forall i | 0 <= i < |items| :: DecodeString(Doc(false, items[i])) == Decoded(tokens[i], true);
    assert DecodeStrings(Doc(padded, JsonArray(tokens))).value == tokens;
  }

  lemma ListedAlike(lib: Lib, tokens: seq<string>, actual: string)
    requires forall t | t in tokens :: TrimSpace(t) != ""
    ensures TextListed(lib, TrimParts(tokens), actual) <==>
            exists t | t in tokens :: EqualFold(lib, TrimSpace(t), actual)
  {
    TrimPartsOfWords(tokens);
    if TextListed(lib, TrimParts(tokens), actual) {
      var i :| 0 <= i < |tokens| && EqualFold(lib, TrimParts(tokens)[i], actual);
      assert tokens[i] in tokens;
    }
    if t :| t in tokens && EqualFold(lib, TrimSpace(t), actual) {
      var i :| 0 <= i < |tokens| && tokens[i] == t;
      assert TrimParts(tokens)[i] in TrimParts(tokens);
    }
  }

  lemma JoinedVerdict(lib: Lib, tokens: seq<string>, op: string, user: map<string, Raw>, attr: string, p: bool)
    requires CaretLaw(lib) && Listable(tokens)
    ensures var a := DecodeString(RawOf(user, attr));
            SentinelAnswer(lib, "Text", op, Doc(p, JString(Join(tokens, "^"))), user, attr) ==
            Some(a.ok && ListVerdict(op, exists t | t in tokens :: EqualFold(lib, TrimSpace(t), a.value)))
  {
    var a := DecodeString(RawOf(user, attr));
    JoinedIsCaretList(lib, tokens, p);
    TrimPartsOfWords(tokens);
    ListedAlike(lib, tokens, a.value);
  }

  lemma ArrayVerdict(lib: Lib, tokens: seq<string>, op: string, user: map<string, Raw>, attr: Uuid, q: bool)
    requires op in {"IN", "NOT IN"} && attr in user
    requires var a := DecodeString(user[attr]); a.ok && TrimSpace(a.value) == a.value
    ensures SentinelAnswer(lib, "Text", op, Doc(q, JsonArray(tokens)), user, attr) == None
    ensures CompareVerdict(lib, "Text", op, user[attr], attr, Doc(q, JsonArray(tokens))) ==
            Val(ListVerdict(op, exists t | t in tokens :: EqualFold(lib, TrimSpace(t), DecodeString(user[attr]).value)))
  {
    ArrayDecodes(tokens, q);
  }

  /** What a list decides for one user value; an absent value fails. */
  ghost function ListAnswer(lib: Lib, tokens: seq<string>, op: string, user: map<string, Raw>, attr: string): Verdict {
    var a := DecodeString(RawOf(user, attr));
    Val(a.ok && ListVerdict(op, exists t | t in tokens :: EqualFold(lib, TrimSpace(t), a.value)))
  }

  lemma JoinedLeaf(lib: Lib, tokens: seq<string>, c: RuleCondition, user: map<string, Raw>, p: bool)
    requires CaretLaw(lib) && Listable(tokens)
    requires c.attributeId.Some? && c.dataType == Some("Text")
    ensures var attr := c.attributeId.value;
            LeafVerdict(lib, map[attr := Doc(p, JString(Join(tokens, "^")))], Some(user), c) ==
            ListAnswer(lib, tokens, c.op, user, attr)
  {
    JoinedVerdict(lib, tokens, c.op, user, c.attributeId.value, p);
  }

  lemma ArrayLeaf(lib: Lib, tokens: seq<string>, c: RuleCondition, user: map<string, Raw>, q: bool)
    requires c.attributeId.Some? && c.dataType == Some("Text") && c.op in {"IN", "NOT IN"}
    requires c.attributeId.value in user ==>
               var a := DecodeString(user[c.attributeId.value]); a.ok && TrimSpace(a.value) == a.value
    ensures var attr := c.attributeId.value;
            LeafVerdict(lib, map[attr := Doc(q, JsonArray(tokens))], Some(user), c) ==
            ListAnswer(lib, tokens, c.op, user, attr)
  {
    var attr := c.attributeId.value;
    if attr in user {
      ArrayVerdict(lib, tokens, c.op, user, attr, q);
    }
  }

  /**
   * For a user whose value is absent or a trimmed string, the joined list under = or IN (!= or
   * NOT IN) answers as the array under IN (NOT IN), errors included.
   */
  lemma CaretListIsArray(lib: Lib, tokens: seq<string>, c: RuleCondition, op: string, user: map<string, Raw>,
                         p: bool, q: bool)
    requires CaretLaw(lib) && Listable(tokens)
    requires c.attributeId.Some? && c.dataType == Some("Text")
    requires op in {"=", "IN", "!=", "NOT IN"}
    requires c.attributeId.value in user ==>
               var a := DecodeString(user[c.attributeId.value]); a.ok && TrimSpace(a.value) == a.value
    ensures var attr := c.attributeId.value;
            LeafVerdict(lib, map[attr := Doc(p, JString(Join(tokens, "^")))], Some(user), c.(op := op)) ==
            LeafVerdict(lib, map[attr := Doc(q, JsonArray(tokens))], Some(user),
                        c.(op := if op in {"=", "IN"} then "IN" else "NOT IN"))
  {
    var attr := c.attributeId.value;
    var listOp := if op in {"=", "IN"} then "IN" else "NOT IN";
    JoinedLeaf(lib, tokens, c.(op := op), user, p);
    ArrayLeaf(lib, tokens, c.(op := listOp), user, q);
  }
}

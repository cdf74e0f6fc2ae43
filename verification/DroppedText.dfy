/**
 * What the formatter drops: the parser stops at the first thing that is no tag, and everything
 * from there on is missing from the printed text.
 */
module DroppedText {
  import opened Wrappers
  import opened FormatTags

  /** The text left, behind spaces, where the parser stops. */
  function Behind(q: Quoting, s: string): (rest: string)
    ensures |rest| <= |s|
    decreases |s|
  {
    match NextTag(q, s)
    case None => SkipSpaces(s)
    case Some(r) => Behind(q, r.1)
  }

  /** The text in front of that. */
  function Front(q: Quoting, s: string): string {
    s[..|s| - |Behind(q, s)|]
  }

  // ------------------------------------------------- the text behind decides nothing

  lemma {:induction false} SpacesOnly(s: string)
    ensures var n := |s| - |SkipSpaces(s)|; s == s[..n] + SkipSpaces(s) && SkipSpaces(s[..n]) == ""
  {
    if s != "" && s[0] == ' ' {
      SpacesOnly(s[1..]);
      var n := |s| - |SkipSpaces(s)|;
      assert s[..n][1..] == s[1..][..n - 1];
    }
  }

  lemma {:induction false} SkipThenMore(s: string, x: string)
    requires SkipSpaces(s) != ""
    ensures SkipSpaces(s + x) == SkipSpaces(s) + x
  {
    assert (s + x)[1..] == s[1..] + x;
    if s[0] == ' ' {
      SkipThenMore(s[1..], x);
    }
  }

  lemma {:induction false} KeyThenMore(s: string, x: string)
    requires KeyLength(s) < |s|
    ensures KeyLength(s + x) == KeyLength(s)
  {
    assert (s + x)[1..] == s[1..] + x;
    if s[0] != ':' && s[0] != ' ' {
      KeyThenMore(s[1..], x);
    }
  }

  /** Reading a value looks at nothing behind its closing quote. */
  lemma ValueThenMore(q: Quoting, u: string, x: string)
    requires ValueOf(q, u).Some?
    ensures var r := ValueOf(q, u).value;
            u == u[..|u| - |r.1|] + r.1 && ValueOf(q, u[..|u| - |r.1|] + x) == Some((r.0, x))
  {
    var n := CloseQuote(u[2..], false);
    var c := u[..n + 3];
    assert u[2..] == u[2..n + 3] + u[n + 3..];
    CloseQuoteWithin(u[2..n + 3], u[n + 3..], false);
    CloseQuoteStops(u[2..n + 3], x, false);
    assert (c + x)[2..] == u[2..n + 3] + x;
    assert (c + x)[1..n + 3] == u[1..n + 3] && (c + x)[n + 3..] == x;
  }

  lemma {:induction false} CloseQuoteWithin(s: string, rest: string, escaped: bool)
    requires CloseQuote(s + rest, escaped) < |s|
    ensures CloseQuote(s, escaped) == CloseQuote(s + rest, escaped)
  {
    assert (s + rest)[1..] == s[1..] + rest;
    if escaped {
      CloseQuoteWithin(s[1..], rest, false);
    } else if s[0] != '"' {
      CloseQuoteWithin(s[1..], rest, s[0] == '\\');
    }
  }

  /** A tag at the very start of a text. */
  ghost function TagAt(q: Quoting, t: string): Option<(Tag, string)> {
    Named(t[..KeyLength(t)], ValueOf(q, t[KeyLength(t)..]))
  }

  lemma TagAtThenMore(q: Quoting, t: string, x: string)
    requires TagAt(q, t).Some?
    ensures var r := TagAt(q, t).value; var c := t[..|t| - |r.1|];
            KeyLength(t) < |c| && t == c + r.1 && TagAt(q, c + x) == Some((r.0, x))
  {
    var k, r := KeyLength(t), TagAt(q, t).value;
    var v, m := ValueOf(q, t[k..]).value.0, |t| - |r.1|;
    ValueThenMore(q, t[k..], x);
    Sliced(t, k, m, x);
    KeyStays(t, m, x);
    TagFrom(q, t[..m] + x, k, v, x);
  }

  /** A tag from its key's length and its value. */
  lemma TagFrom(q: Quoting, t: string, k: nat, v: string, x: string)
    requires k == KeyLength(t) && ValueOf(q, t[k..]) == Some((v, x))
    ensures TagAt(q, t) == Some((Tag(t[..k], v), x))
  {}

  lemma KeyStays(t: string, m: nat, x: string)
    requires KeyLength(t) < m <= |t|
    ensures KeyLength(t[..m] + x) == KeyLength(t)
  {
    KeyFront(t, m);
    KeyThenMore(t[..m], x);
  }

  lemma Sliced(t: string, k: nat, m: nat, x: string)
    requires k <= m <= |t|
    ensures (t[..m] + x)[..k] == t[..k] && (t[..m] + x)[k..] == t[k..][..m - k] + x
    ensures t[..m] + t[m..] == t && t[k..][m - k..] == t[m..]
  {}

  /** Reading a tag looks at nothing behind it. */
  lemma TagThenMore(q: Quoting, s: string, x: string)
    requires NextTag(q, s).Some?
    ensures var r := NextTag(q, s).value; var c := s[..|s| - |r.1|];
            s == c + r.1 && NextTag(q, c + x) == Some((r.0, x))
  {
    var t := SkipSpaces(s);
    TagIsAt(q, s);
    TagAtThenMore(q, t, x);
    var rest := TagAt(q, t).value.1;
    var c := s[..|s| - |rest|];
    SkipsAlike(s, |rest|, x);
    TagIsAt(q, c + x);
  }

  lemma TagIsAt(q: Quoting, s: string)
    ensures NextTag(q, s) == TagAt(q, SkipSpaces(s))
  {}

  /** Replacing the end of a text behind its spaces. */
  lemma SkipsAlike(s: string, n: nat, x: string)
    requires n < |SkipSpaces(s)|
    ensures var t := SkipSpaces(s);
            SkipSpaces(s[..|s| - n] + x) == t[..|t| - n] + x && s == s[..|s| - n] + t[|t| - n..]
  {
    SpacesOnly(s);
    SkipFront(s, n);
    SkipThenMore(s[..|s| - n], x);
    SameEnd(s, SkipSpaces(s), n);
  }

  lemma SameEnd(s: string, t: string, n: nat)
    requires n <= |t| <= |s| && s[|s| - |t|..] == t
    ensures s[|s| - n..] == t[|t| - n..] && s == s[..|s| - n] + t[|t| - n..]
  {
    assert s[|s| - n..] == s[|s| - |t|..][|t| - n..];
  }

  /** Cutting a text behind its spaces and then skipping them. */
  lemma {:induction false} SkipFront(s: string, n: nat)
    requires n <= |SkipSpaces(s)|
    ensures SkipSpaces(s[..|s| - n]) == SkipSpaces(s)[..|SkipSpaces(s)| - n]
  {
    if s != "" && s[0] == ' ' {
      SkipFront(s[1..], n);
      assert s[..|s| - n][1..] == s[1..][..|s| - 1 - n];
    }
  }

  lemma {:induction false} KeyFront(t: string, n: nat)
    requires KeyLength(t) < n <= |t|
    ensures KeyLength(t[..n]) == KeyLength(t)
  {
    if t[0] != ':' && t[0] != ' ' {
      KeyFront(t[1..], n - 1);
      assert t[..n][1..] == t[1..][..n - 1];
    }
  }

  /** The front has all the tags, and nothing behind it: what follows it does not matter. */
  lemma {:induction false} FrontHasTheTags(q: Quoting, s: string)
    ensures s == Front(q, s) + Behind(q, s)
    ensures TagsOf(q, Front(q, s)) == TagsOf(q, s) && Behind(q, Front(q, s)) == ""
    decreases |s|
  {
    if NextTag(q, s).None? {
      SpacesOnly(s);
    } else {
      var rest := NextTag(q, s).value.1;
      FrontHasTheTags(q, rest);
      TagThenMore(q, s, Front(q, rest));
      assert Front(q, s) == s[..|s| - |rest|] + Front(q, rest);
    }
  }

  // ---------------------------------------------------- nothing is behind a printed text

  lemma BehindPadding(q: Quoting, n: nat, s: string)
    ensures Behind(q, Spaces(n) + s) == Behind(q, s)
  {
    SpacesSkip(n, s);
  }

  lemma BehindTail(q: Quoting, tags: seq<Tag>, widths: Widths)
    requires |tags| > 1
    ensures Behind(q, Tail(q, tags, widths)) == Behind(q, Print(q, tags[1..], widths))
  {
    var n, rest := Pad(q, tags[0], widths), Print(q, tags[1..], widths);
    assert Spaces(1) == " " by {
      assert Spaces(0) == "";
    }
    assert Spaces(n) + " " + rest == Spaces(n) + (Spaces(1) + rest);
    BehindPadding(q, n, Spaces(1) + rest);
    BehindPadding(q, 1, rest);
  }

  lemma BehindPart(q: Quoting, t: Tag, rest: string)
    requires QuotingLaws(q) && PlainKey(t.key)
    ensures Behind(q, Part(q, t) + rest) == Behind(q, rest)
  {
    PartParses(q, t, rest);
  }

  lemma {:induction false} NothingBehindPrint(q: Quoting, first: Tag, tags: seq<Tag>, widths: Widths)
    requires QuotingLaws(q) && PlainKeys(tags) && tags != [] && PlainKey(first.key)
    ensures Behind(q, Part(q, first) + Tail(q, tags, widths)) == ""
    decreases |tags|
  {
    BehindPart(q, first, Tail(q, tags, widths));
    if |tags| > 1 {
      BehindTail(q, tags, widths);
      PrintIs(q, tags[1..], widths);
      assert PlainKeys(tags[1..]) by {
        assert forall t | t in tags[1..] :: t in tags;
      }
      NothingBehindPrint(q, tags[1], tags[1..], widths);
    } else {
      assert NextTag(q, "").None?;
    }
  }

  /** A formatted text holds its tags and nothing else. */
  lemma NothingBehindFormatted(q: Quoting, tagStr: string, widths: Widths)
    requires QuotingLaws(q) && tagStr != "" && Parse(q, tagStr) != []
    ensures Behind(q, Trim(Format(q, tagStr, widths))) == ""
  {
    var tags := Parse(q, tagStr);
    ParsedKeysArePlain(q, Trim(tagStr));
    PrintEnds(q, tags, widths);
    EnclosedTrims(Print(q, tags, widths));
    TrimmedPrint(q, tags, widths);
    TrimLeftPlain(tags[0].key);
    NothingBehindPrint(q, tags[0].(key := TrimLeft(tags[0].key)), tags, widths);
  }

  /** Exactly when text is lost: some tag was parsed and something is left behind the last one. */
  lemma FormatLosesText(q: Quoting, tagStr: string, widths: Widths)
    requires QuotingLaws(q)
    ensures Behind(q, Trim(Format(q, tagStr, widths))) != Behind(q, Trim(tagStr)) <==>
            Parse(q, tagStr) != [] && Behind(q, Trim(tagStr)) != ""
  {
    if tagStr != "" && Parse(q, tagStr) != [] {
      NothingBehindFormatted(q, tagStr, widths);
    }
  }

  /** Two texts with the same front are formatted alike, whatever stands behind it. */
  lemma FrontDecidesFormat(q: Quoting, a: string, b: string, widths: Widths)
    requires a != "" && b != "" && Parse(q, a) != [] && Front(q, Trim(a)) == Front(q, Trim(b))
    ensures Format(q, a, widths) == Format(q, b, widths)
  {
    FrontHasTheTags(q, Trim(a));
    FrontHasTheTags(q, Trim(b));
  }

  /** An option without quotes behind a tag is dropped: `name:text` after one key and value. */
  lemma UnquotedOptionIsDropped(q: Quoting, t: Tag, name: string, text: string, widths: Widths)
    requires QuotingLaws(q) && PlainKey(t.key) && t.key != "" && t.key[0] != '`'
    requires PlainKey(name) && name != "" && text != "" && text[0] != '"' && text[|text| - 1] != '`'
    ensures Format(q, "`" + Part(q, t) + " " + name + ":" + text + "`", widths) == "`" + Part(q, t) + "`"
  {
    var option := name + ":" + text;
    var body := Part(q, t) + (" " + option);
    TrimsTo(body);
    assert "`" + Part(q, t) + " " + name + ":" + text + "`" == "`" + body + "`";
    PartParses(q, t, " " + option);
    OptionIsNoTag(q, name, text);
    assert Parse(q, "`" + body + "`") == [t];
    assert Parts(q, [t], widths) == [Part(q, t)];
  }

  lemma OptionIsNoTag(q: Quoting, name: string, text: string)
    requires PlainKey(name) && name != "" && text != "" && text[0] != '"'
    ensures TagsOf(q, " " + (name + ":" + text)) == []
  {
    var option := name + ":" + text;
    assert (" " + option)[1..] == option && option[0] == name[0];
    KeyLengthStops(name, text);
    NextTagBehindSpaces(q, " " + option, option);
    assert option[|name|..] == ":" + text;
  }

  lemma TrimsTo(s: string)
    requires s != "" && s[0] != '`' && s[|s| - 1] != '`'
    ensures Trim("`" + s + "`") == s
  {
    var t := s + "`";
    assert "`" + s + "`" == "`" + t && ("`" + t)[1..] == t;
    assert TrimLeft(t) == t;
    assert t[..|s|] == s && TrimRight(t) == TrimRight(s);
  }
}

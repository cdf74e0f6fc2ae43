/**
 * The formatter on what it is really given: Go string literals. On those it keeps the tags and is
 * idempotent; what it writes is a literal again exactly when no quoted value holds a backquote.
 */
module TagLiterals {
  import opened Wrappers
  import opened FormatTags
  import opened StructTags

  /** A raw string literal: backquotes around text without any. */
  predicate IsRaw(s: string) {
    |s| >= 2 && s[0] == '`' && s[|s| - 1] == '`' && '`' !in s[1..|s| - 1]
  }

  /** An interpreted string literal: its first unescaped inner quote is its last character. */
  predicate IsInterpreted(s: string) {
    |s| >= 2 && s[0] == '"' && CloseQuote(s[1..], false) == |s| - 2
  }

  predicate IsLiteral(s: string) {
    IsRaw(s) || IsInterpreted(s)
  }

  lemma RawTrims(s: string)
    requires IsRaw(s)
    ensures Trim(s) == s[1..|s| - 1]
  {
    var body := s[1..|s| - 1];
    var t := s[1..];
    assert t == body + "`";
    if body == "" {
      assert TrimLeft(t) == TrimLeft(t[1..]);
    } else {
      assert t[0] == body[0] && body[0] in body && body[|body| - 1] in body;
      assert TrimLeft(s) == TrimLeft(t) == t && t[..|t| - 1] == body;
      assert TrimRight(body) == body;
    }
  }

  lemma {:induction false} SkippedWithin(s: string, c: char)
    requires c !in s
    ensures c !in SkipSpaces(s)
  {
    if s != "" && s[0] == ' ' {
      SkippedWithin(s[1..], c);
    }
  }

  /** Keys and what follows a tag are parts of the text. */
  lemma {:induction false} KeysWithin(q: Quoting, s: string, c: char)
    requires c !in s
    ensures forall t | t in TagsOf(q, s) :: c !in t.key
    decreases |s|
  {
    SkippedWithin(s, c);
    if NextTag(q, s).Some? {
      var rest := NextTag(q, s).value.1;
      assert c !in rest by {
        NextWithin(q, s, c);
      }
      NextWithin(q, s, c);
      KeysWithin(q, rest, c);
    }
  }

  lemma NextWithin(q: Quoting, s: string, c: char)
    requires c !in s && NextTag(q, s).Some?
    ensures c !in NextTag(q, s).value.0.key && c !in NextTag(q, s).value.1
  {
    var t := SkipSpaces(s);
    SkippedWithin(s, c);
    var k := KeyLength(t);
    assert forall i | 0 <= i < |t[k..]| :: t[k..][i] == t[k + i];
  }

  /** A colon and a quote in a text closed only at its end are its end. */
  lemma {:induction false} QuoteAfterColonCloses(s: string, k: nat, escaped: bool)
    requires s != "" && CloseQuote(s, escaped) == |s| - 1
    requires k + 1 < |s| && s[k] == ':' && s[k + 1] == '"'
    ensures k + 1 == |s| - 1
  {
    if k > 0 {
      QuoteAfterColonCloses(s[1..], k - 1, !escaped && s[0] == '\\');
    }
  }

  lemma {:induction false} EndsInQuoteTrims(s: string)
    requires s != "" && s[0] == '"' && s[|s| - 1] == '"'
    ensures Trim(s) == s
  {}

  /** The parser finds no tag in an interpreted literal: inside it every quote is escaped. */
  lemma InterpretedHasNoTags(q: Quoting, s: string)
    requires IsInterpreted(s)
    ensures Parse(q, s) == []
  {
    var k := KeyLength(s);
    assert s[1..][|s| - 2] == s[|s| - 1];
    EndsInQuoteTrims(s);
    if k + 1 < |s| && s[k] == ':' && s[k + 1] == '"' {
      QuoteAfterColonCloses(s[1..], k - 1, false);
      assert s[k..][2..] == "";
    }
  }

  /** Every literal is clean. */
  lemma LiteralsAreClean(q: Quoting, s: string)
    requires IsLiteral(s)
    ensures Clean(q, s)
  {
    if IsRaw(s) {
      RawTrims(s);
      SkippedWithin(Trim(s), '`');
      CleanMeans(q, s);
    } else {
      InterpretedHasNoTags(q, s);
    }
  }

  /** On literals formatting keeps the tags and is idempotent, without condition. */
  lemma FormattingLiterals(q: Quoting, s: string, widths: Widths)
    requires QuotingLaws(q) && IsLiteral(s)
    ensures Parse(q, Format(q, s, widths)) == Parse(q, s)
    ensures Format(q, Format(q, s, widths), widths) == Format(q, s, widths)
  {
    LiteralsAreClean(q, s);
    FormatKeepsTags(q, s, widths);
    FormatIdempotent(q, s, widths);
  }

  /** A tag prints a backquote. */
  predicate Backquoted(q: Quoting, t: Tag) {
    '`' in t.key || '`' in q.quote(t.value)
  }

  lemma {:induction false} NoBackquoteInSpaces(n: nat)
    ensures '`' !in Spaces(n)
  {
    if n > 0 {
      NoBackquoteInSpaces(n - 1);
    }
  }

  lemma {:induction false} PrintedBackquotes(q: Quoting, tags: seq<Tag>, widths: Widths)
    requires tags != []
    ensures '`' in Print(q, tags, widths) <==> exists t :: t in tags && Backquoted(q, t)
  {
    PrintIs(q, tags, widths);
    NoBackquoteInSpaces(Pad(q, tags[0], widths));
    assert tags[0] in tags;
    if |tags| > 1 {
      PrintedBackquotes(q, tags[1..], widths);
      assert forall t :: t in tags <==> t == tags[0] || t in tags[1..];
    }
  }

  /** The formatted text is a literal if and only if no printed key or quoted value holds a backquote. */
  lemma FormattedIsRaw(q: Quoting, s: string, widths: Widths)
    requires s != "" && Parse(q, s) != []
    ensures IsLiteral(Format(q, s, widths)) <==> forall t | t in Parse(q, s) :: !Backquoted(q, t)
  {
    var r, body := Format(q, s, widths), Print(q, Parse(q, s), widths);
    PrintedBackquotes(q, Parse(q, s), widths);
    assert r[1..|r| - 1] == body;
  }

  /** For a literal only its quoted values matter: its keys hold no backquote. */
  lemma FormatStaysLiteral(q: Quoting, s: string, widths: Widths)
    requires IsLiteral(s)
    ensures IsLiteral(Format(q, s, widths)) <==> forall t | t in Parse(q, s) :: '`' !in q.quote(t.value)
  {
    if Parse(q, s) != [] {
      if IsInterpreted(s) {
        InterpretedHasNoTags(q, s);
      } else {
        RawTrims(s);
        KeysWithin(q, Trim(s), '`');
        FormattedIsRaw(q, s, widths);
      }
    }
  }

  /** A backquote, its escaped quoting, its plain quoting, and a raw literal with the escaped one. */
  const BACKQUOTE := "`"
  const ESCAPED := "\"\\x60\""
  const UNESCAPED := "\"`\""
  const ESCAPING_TAG := "`k:\"\\x60\"`"

  /**
   * It can happen: a value written with an escaped backquote is printed with a plain one, so the
   * rewritten file no longer parses. The two premises are what strconv does.
   */
  lemma EscapedCloses()
    ensures CloseQuote("\\x60\"", false) == 4
  {
    var s := "\\x60\"";
    assert s[1..] == "x60\"" && "x60\""[1..] == "60\"" && "60\""[1..] == "0\"" && "0\""[1..] == "\"";
  }

  lemma EscapedBackquoteBreaks(q: Quoting, widths: Widths)
    requires q.unquote(ESCAPED) == Some(BACKQUOTE) && q.quote(BACKQUOTE) == UNESCAPED
    ensures IsLiteral(ESCAPING_TAG) && !IsLiteral(Format(q, ESCAPING_TAG, widths))
  {
    var s, body := ESCAPING_TAG, "k:\"\\x60\"";
    assert s[1..|s| - 1] == body;
    RawTrims(s);
    assert SkipSpaces(body) == body && KeyLength(body) == 1 by {
      assert body[1..][0] == ':';
    }
    var u := body[1..];
    EscapedCloses();
    assert u[2..] == "\\x60\"";
    assert u[1..7] == "\"\\x60\"" && u[7..] == "" && body[..1] == "k";
    assert NextTag(q, body) == Some((Tag("k", "`"), ""));
    var t := Tag("k", "`");
    assert Parse(q, s) == [t] + TagsOf(q, "");
    assert t in Parse(q, s) && q.quote(t.value)[1] == '`';
    FormatStaysLiteral(q, s, widths);
  }

  /** The tags the passes touch are literals, as in every file that parses. */
  ghost predicate AllLiterals(fields: seq<Field>) {
    forall f | f in fields && Selected(f) && f.tag.Some? :: IsLiteral(f.tag.value)
  }

  /** A second run over a struct that parses changes nothing. */
  lemma SecondRunChangesNothing(q: Quoting, fields: seq<Field>)
    requires QuotingLaws(q) && AllLiterals(fields)
    ensures Processed(q, Processed(q, fields)) == Processed(q, fields)
  {
    forall f | f in fields && Selected(f) ensures Clean(q, TagText(f)) {
      if f.tag.Some? {
        LiteralsAreClean(q, f.tag.value);
      } else {
        EmptyHasNoTags(q);
      }
    }
    SecondPassChangesNothing(q, fields);
  }

  /** The field's tag, if any, prints no backquote in a value. */
  predicate Printable(q: Quoting, f: Field) {
    forall t | t in Parse(q, TagText(f)) :: '`' !in q.quote(t.value)
  }

  lemma RewriteStaysLiteral(q: Quoting, f: Field, widths: Widths)
    requires Selected(f) && (f.tag.Some? ==> IsLiteral(f.tag.value))
    ensures var r := Rewrite(q, f, widths);
            (r.tag.Some? ==> IsLiteral(r.tag.value)) <==> Printable(q, f)
  {
    if f.tag.Some? {
      FormatStaysLiteral(q, f.tag.value, widths);
    } else {
      EmptyHasNoTags(q);
    }
  }

  /** The rewritten struct has literals for tags, so that the file can be read again, if and only if no value prints a backquote. */
  lemma RewrittenStaysReadable(q: Quoting, fields: seq<Field>)
    requires AllLiterals(fields)
    ensures AllLiterals(Processed(q, fields)) <==> forall f | f in fields && Selected(f) :: Printable(q, f)
  {
    var once, w := Processed(q, fields), WidthsOf(q, fields);
    forall i | 0 <= i < |fields| && Selected(fields[i])
      ensures Selected(once[i]) && ((once[i].tag.Some? ==> IsLiteral(once[i].tag.value)) <==> Printable(q, fields[i]))
    {
      assert fields[i] in fields;
      RewriteStaysLiteral(q, fields[i], w);
    }
    if AllLiterals(once) {
      forall f | f in fields && Selected(f) ensures Printable(q, f) {
        var i :| 0 <= i < |fields| && fields[i] == f;
        assert once[i] in once;
      }
    }
    if forall f | f in fields && Selected(f) :: Printable(q, f) {
      forall g | g in once && Selected(g) && g.tag.Some? ensures IsLiteral(g.tag.value) {
        var i :| 0 <= i < |once| && once[i] == g;
        assert fields[i] in fields;
      }
    }
  }
}

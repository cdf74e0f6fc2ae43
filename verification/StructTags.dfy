/** The two passes over one struct's fields: measure the tags, then rewrite them aligned. */
module StructTags {
  import opened Wrappers
  import opened FormatTags

  /** A field line: its names (none when embedded) and its tag literal. */
  datatype Field = Field(names: seq<string>, tag: Option<string>)

  /** Upper-case first letter. */
  predicate IsExported(name: string) {
    name != "" && 'A' <= name[0] <= 'Z'
  }

  /** Embedded and unexported fields are left alone. */
  predicate Selected(f: Field) {
    f.names != [] && IsExported(f.names[0])
  }

  function TagText(f: Field): string {
    f.tag.GetOr("")
  }

  // ---------------------------------------------------------------- first pass

  /** The width of a key grows to the longest tag seen. */
  function Widen(widths: Widths, key: string, length: nat): Widths {
    if length > (if key in widths then widths[key] else 0) then widths[key := length] else widths
  }

  /** All tags of a field but its last are measured. */
  function Measured(q: Quoting, tags: seq<Tag>, n: nat, widths: Widths): Widths
    requires n <= |tags|
  {
    if n == 0 then widths
    else
      var w := Measured(q, tags, n - 1, widths);
      if n < |tags| then Widen(w, tags[n - 1].key, |Part(q, tags[n - 1])|) else w
  }

  function WidthsOf(q: Quoting, fields: seq<Field>): Widths {
    if fields == [] then map[]
    else
      var w, f := WidthsOf(q, fields[..|fields| - 1]), fields[|fields| - 1];
      if Selected(f) then var tags := Parse(q, TagText(f)); Measured(q, tags, |tags|, w) else w
  }

  method MeasureField(q: Quoting, f: Field, maxTagLen: Widths) returns (widths: Widths)
    ensures widths == (var tags := Parse(q, TagText(f)); Measured(q, tags, |tags|, maxTagLen))
  {
    widths := maxTagLen;
    var currentTag := "";
    if f.tag.Some? {
      currentTag := f.tag.value;
    }
    var tags := ParseTags(q, currentTag);
    for i := 0 to |tags|
      invariant widths == Measured(q, tags, i, maxTagLen)
    {
      if i < |tags| - 1 {
        var part := Part(q, tags[i]);
        if |part| > (if tags[i].key in widths then widths[tags[i].key] else 0) {
          widths := widths[tags[i].key := |part|];
        }
      }
    }
  }

  method MeasureFields(q: Quoting, fields: array<Field>) returns (maxTagLen: Widths)
    ensures maxTagLen == WidthsOf(q, fields[..])
  {
    maxTagLen := map[];
    for i := 0 to fields.Length
      invariant maxTagLen == WidthsOf(q, fields[..i])
    {
      assert fields[..i + 1][..i] == fields[..i];
      if |fields[i].names| == 0 {
        continue;
      }
      if !IsExported(fields[i].names[0]) {
        continue;
      }
      maxTagLen := MeasureField(q, fields[i], maxTagLen);
    }
    assert fields[..fields.Length] == fields[..];
  }

  // --------------------------------------------------------------- second pass

  function Rewrite(q: Quoting, f: Field, widths: Widths): Field {
    if !Selected(f) then f
    else
      var tag := Format(q, TagText(f), widths);
      f.(tag := if tag == "" then None else Some(tag))
  }

  function Rewritten(q: Quoting, fields: seq<Field>, widths: Widths): seq<Field> {
    seq(|fields|, i requires 0 <= i < |fields| => Rewrite(q, fields[i], widths))
  }

  /** One struct, both passes. */
  function Processed(q: Quoting, fields: seq<Field>): seq<Field> {
    Rewritten(q, fields, WidthsOf(q, fields))
  }

  method RewriteField(q: Quoting, f: Field, maxTagLen: Widths) returns (r: Field, modified: bool)
    requires Selected(f)
    ensures r == Rewrite(q, f, maxTagLen) && modified == (r != f)
  {
    r, modified := f, false;
    var currentTag := "";
    if f.tag.Some? {
      currentTag := f.tag.value;
    }
    var newTag := FormatTag(q, currentTag, maxTagLen);
    if newTag == "" {
      if f.tag.Some? {
        r, modified := f.(tag := None), true;
      }
    } else if f.tag.None? || f.tag.value != newTag {
      r, modified := f.(tag := Some(newTag)), true;
    }
  }

  /** Rewrites the fields in place; the file is written back only when something changed. */
  method ProcessStruct(q: Quoting, fields: array<Field>) returns (modified: bool)
    modifies fields
    ensures fields[..] == Processed(q, old(fields[..]))
    ensures modified <==> fields[..] != old(fields[..])
  {
    var maxTagLen := MeasureFields(q, fields);
    modified := RewriteFields(q, fields, maxTagLen);
  }

  method RewriteFields(q: Quoting, fields: array<Field>, maxTagLen: Widths) returns (modified: bool)
    modifies fields
    ensures fields[..] == Rewritten(q, old(fields[..]), maxTagLen)
    ensures modified <==> fields[..] != old(fields[..])
  {
    modified := false;
    ghost var was := fields[..];
    for i := 0 to fields.Length
      invariant fields[..] == HalfRewritten(q, was, maxTagLen, i)
      invariant modified <==> fields[..] != was
    {
      RewriteStep(q, was, maxTagLen, i);
      assert fields[..][i] == was[i];
      if |fields[i].names| == 0 {
        continue;
      }
      if !IsExported(fields[i].names[0]) {
        continue;
      }
      var field, changed := RewriteField(q, fields[i], maxTagLen);
      StillDiffers(fields[..], was, i, field);
      fields[i] := field;
      modified := modified || changed;
    }
  }

  /** The first `n` fields rewritten. */
  function HalfRewritten(q: Quoting, fields: seq<Field>, widths: Widths, n: nat): seq<Field>
    requires n <= |fields|
  {
    Rewritten(q, fields[..n], widths) + fields[n..]
  }

  lemma RewriteStep(q: Quoting, fields: seq<Field>, widths: Widths, n: nat)
    requires n < |fields|
    ensures HalfRewritten(q, fields, widths, n)[n] == fields[n]
    ensures HalfRewritten(q, fields, widths, n + 1) ==
            HalfRewritten(q, fields, widths, n)[n := Rewrite(q, fields[n], widths)]
    ensures !Selected(fields[n]) ==> HalfRewritten(q, fields, widths, n + 1) == HalfRewritten(q, fields, widths, n)
  {
    OneMoreRewritten(q, fields, widths, n);
  }

  lemma OneMoreRewritten(q: Quoting, fields: seq<Field>, widths: Widths, n: nat)
    requires n < |fields|
    ensures HalfRewritten(q, fields, widths, n + 1) ==
            HalfRewritten(q, fields, widths, n)[n := Rewrite(q, fields[n], widths)]
  {}

  /** Replacing an element that was still the original keeps every earlier difference. */
  lemma StillDiffers(now: seq<Field>, was: seq<Field>, i: nat, field: Field)
    requires |now| == |was| && i < |was| && now[i] == was[i]
    ensures now[i := field] != was <==> now != was || field != was[i]
  {
    if now != was {
      var j :| 0 <= j < |was| && now[j] != was[j];
      assert now[i := field][j] != was[j];
    }
    if field != was[i] {
      assert now[i := field][i] != was[i];
    }
  }

  // --------------------------------------------------------------- the widths

  /** Widths only grow. */
  ghost predicate Wider(a: Widths, b: Widths) {
    forall k | k in a :: k in b && a[k] <= b[k]
  }

  lemma {:induction false} MeasuredCovers(q: Quoting, tags: seq<Tag>, n: nat, widths: Widths)
    requires n <= |tags|
    ensures Wider(widths, Measured(q, tags, n, widths))
    ensures forall j | 0 <= j < n && j < |tags| - 1 ::
              tags[j].key in Measured(q, tags, n, widths) && |Part(q, tags[j])| <= Measured(q, tags, n, widths)[tags[j].key]
  {
    if n > 0 {
      MeasuredCovers(q, tags, n - 1, widths);
      PartNonEmpty(q, tags[n - 1]);
    }
  }

  lemma PartNonEmpty(q: Quoting, t: Tag)
    ensures |Part(q, t)| > 0
  {}

  /** Every tag that gets padded fits the width of its key. */
  lemma {:induction false} WidthsCover(q: Quoting, fields: seq<Field>, f: Field)
    requires f in fields && Selected(f)
    ensures var tags, w := Parse(q, TagText(f)), WidthsOf(q, fields);
            forall j | 0 <= j < |tags| - 1 :: tags[j].key in w && |Part(q, tags[j])| <= w[tags[j].key]
  {
    var n := |fields| - 1;
    var last := fields[n];
    if Selected(last) {
      var tags := Parse(q, TagText(last));
      MeasuredCovers(q, tags, |tags|, WidthsOf(q, fields[..n]));
    }
    if f != last {
      assert fields == fields[..n] + [last];
      WidthsCover(q, fields[..n], f);
    }
  }

  /** Tag `j` of field `f` is one that gets padded, with this key and this length. */
  ghost predicate IsPadded(q: Quoting, f: Field, j: nat, key: string, length: nat) {
    var tags := Parse(q, TagText(f));
    Selected(f) && j < |tags| - 1 && tags[j].key == key && |Part(q, tags[j])| == length
  }

  lemma {:induction false} MeasuredFrom(q: Quoting, tags: seq<Tag>, n: nat, widths: Widths, key: string)
    requires n <= |tags| && key in Measured(q, tags, n, widths)
    ensures || (key in widths && Measured(q, tags, n, widths)[key] == widths[key])
            || exists j | 0 <= j < |tags| - 1 :: tags[j].key == key && |Part(q, tags[j])| == Measured(q, tags, n, widths)[key]
  {
    if n > 0 && key in Measured(q, tags, n - 1, widths) {
      MeasuredFrom(q, tags, n - 1, widths, key);
    }
  }

  /** Every width is the length of a tag that gets padded: with WidthsCover, of the longest. */
  lemma {:induction false} WidthIsMeasured(q: Quoting, fields: seq<Field>, key: string) returns (f: Field, j: nat)
    requires key in WidthsOf(q, fields)
    ensures f in fields && IsPadded(q, f, j, key, WidthsOf(q, fields)[key])
  {
    var n := |fields| - 1;
    var last := fields[n];
    var tags, before := Parse(q, TagText(last)), WidthsOf(q, fields[..n]);
    assert fields == fields[..n] + [last];
    if Selected(last) {
      MeasuredFrom(q, tags, |tags|, before, key);
    }
    if key in before && WidthsOf(q, fields)[key] == before[key] {
      f, j := WidthIsMeasured(q, fields[..n], key);
    } else {
      f := last;
      j :| 0 <= j < |tags| - 1 && tags[j].key == key && |Part(q, tags[j])| == WidthsOf(q, fields)[key];
    }
  }

  /** The widths depend on the fields' tags alone. */
  lemma {:induction false} WidthsFollowTags(q: Quoting, a: seq<Field>, b: seq<Field>)
    requires |a| == |b|
    requires forall i | 0 <= i < |a| :: Selected(a[i]) == Selected(b[i])
    requires forall i | 0 <= i < |a| && Selected(a[i]) :: Parse(q, TagText(a[i])) == Parse(q, TagText(b[i]))
    ensures WidthsOf(q, a) == WidthsOf(q, b)
  {
    if a != [] {
      var n := |a| - 1;
      WidthsFollowTags(q, a[..n], b[..n]);
    }
  }

  // ----------------------------------------------------------------- stability

  lemma RewrittenText(q: Quoting, f: Field, widths: Widths)
    requires Selected(f)
    ensures TagText(Rewrite(q, f, widths)) == Format(q, TagText(f), widths)
    ensures Selected(Rewrite(q, f, widths))
  {}

  /** All the tags the passes touch are clean. */
  ghost predicate AllClean(q: Quoting, fields: seq<Field>) {
    forall f | f in fields && Selected(f) :: Clean(q, TagText(f))
  }

  /** On clean tags the widths of the rewritten fields are those of the original ones. */
  lemma WidthsStay(q: Quoting, fields: seq<Field>)
    requires QuotingLaws(q) && AllClean(q, fields)
    ensures WidthsOf(q, Processed(q, fields)) == WidthsOf(q, fields)
  {
    var w, once := WidthsOf(q, fields), Processed(q, fields);
    forall i | 0 <= i < |fields| && Selected(fields[i])
      ensures Parse(q, TagText(fields[i])) == Parse(q, TagText(once[i]))
    {
      assert fields[i] in fields;
      RewrittenText(q, fields[i], w);
      FormatKeepsTags(q, TagText(fields[i]), w);
    }
    WidthsFollowTags(q, fields, once);
  }

  lemma RewriteTwice(q: Quoting, f: Field, widths: Widths, again: Widths)
    requires QuotingLaws(q) && Selected(f)
    ensures Clean(q, TagText(f)) && again == widths ==> Rewrite(q, Rewrite(q, f, widths), again) == Rewrite(q, f, widths)
    ensures !Clean(q, TagText(f)) ==> Rewrite(q, Rewrite(q, f, widths), again) != Rewrite(q, f, widths)
  {
    RewrittenText(q, f, widths);
    RewrittenText(q, Rewrite(q, f, widths), again);
    FormatTwice(q, TagText(f), widths, again);
  }

  /** A second run over a struct changes nothing, exactly when every tag it touches is clean. */
  lemma SecondPassChangesNothing(q: Quoting, fields: seq<Field>)
    requires QuotingLaws(q)
    ensures Processed(q, Processed(q, fields)) == Processed(q, fields) <==> AllClean(q, fields)
  {
    var once := Processed(q, fields);
    var w, again := WidthsOf(q, fields), WidthsOf(q, once);
    if AllClean(q, fields) {
      WidthsStay(q, fields);
      forall i | 0 <= i < |fields| ensures Processed(q, once)[i] == once[i] {
        assert fields[i] in fields;
        if Selected(fields[i]) {
          RewriteTwice(q, fields[i], w, again);
        }
      }
    } else {
      var f :| f in fields && Selected(f) && !Clean(q, TagText(f));
      var i :| 0 <= i < |fields| && fields[i] == f;
      RewriteTwice(q, f, w, again);
      assert Processed(q, once)[i] != once[i];
    }
  }

  // ------------------------------------------------------------------- columns

  /** The column of the tag after these keys: the opening backquote, then each key's width and a separator. */
  function Column(keys: seq<string>, widths: Widths): nat {
    if keys == [] then 1
    else (if keys[0] in widths then widths[keys[0]] else 0) + 1 + Column(keys[1..], widths)
  }

  function Keys(tags: seq<Tag>): seq<string> {
    seq(|tags|, i requires 0 <= i < |tags| => tags[i].key)
  }

  lemma {:induction false} SpacesLength(n: nat)
    ensures |Spaces(n)| == n
  {
    if n > 0 {
      SpacesLength(n - 1);
    }
  }

  /** A tag that fits its key's width is padded to exactly that width. */
  lemma PaddedLength(q: Quoting, t: Tag, widths: Widths)
    requires t.key in widths && |Part(q, t)| <= widths[t.key]
    ensures |Padded(Part(q, t), t.key, widths)| == widths[t.key]
  {
    PaddedIs(q, t, widths);
    SpacesLength(Pad(q, t, widths));
  }

  /** Where the i-th printed tag starts, when every earlier one fits its key's width. */
  lemma {:induction false} PrintColumn(q: Quoting, tags: seq<Tag>, widths: Widths, i: nat)
    requires i < |tags|
    requires forall j | 0 <= j < i :: tags[j].key in widths && |Part(q, tags[j])| <= widths[tags[j].key]
    ensures var s, c := Print(q, tags, widths), Column(Keys(tags[..i]), widths) - 1;
            0 <= c <= |s| && Part(q, tags[i]) <= s[c..]
  {
    if i == 0 {
      PrintIs(q, tags, widths);
    } else {
      PrintCons(q, tags, widths);
      PaddedLength(q, tags[0], widths);
      PrintColumn(q, tags[1..], widths, i - 1);
      ColumnStep(tags, widths, i);
      BehindHead(Padded(Part(q, tags[0]), tags[0].key, widths), Print(q, tags[1..], widths), Part(q, tags[i]),
                 Column(Keys(tags[1..][..i - 1]), widths) - 1);
    }
  }

  lemma ColumnStep(tags: seq<Tag>, widths: Widths, i: nat)
    requires 0 < i < |tags| && tags[0].key in widths
    ensures Column(Keys(tags[..i]), widths) == widths[tags[0].key] + 1 + Column(Keys(tags[1..][..i - 1]), widths)
  {
    assert Keys(tags[..i])[1..] == Keys(tags[1..][..i - 1]);
  }

  /** A position in the rest, seen from the front. */
  lemma BehindHead(head: string, rest: string, part: string, c: nat)
    requires c <= |rest| && part <= rest[c..]
    ensures part <= (head + " " + rest)[|head| + 1 + c..]
  {
    assert (head + " " + rest)[|head| + 1 + c..] == rest[c..];
  }

  /**
   * Alignment: after the passes, the i-th tag of a field starts at a column that depends only on
   * the keys before it, so fields with the same keys have their tags in the same columns.
   */
  lemma TagsAlign(q: Quoting, fields: seq<Field>, f: Field, i: nat)
    requires f in fields && Selected(f) && i < |Parse(q, TagText(f))|
    ensures var w, tags := WidthsOf(q, fields), Parse(q, TagText(f));
            var s, c := Format(q, TagText(f), w), Column(Keys(tags[..i]), w);
            c <= |s| && Part(q, tags[i]) <= s[c..]
  {
    var w, tags := WidthsOf(q, fields), Parse(q, TagText(f));
    WidthsCover(q, fields, f);
    PrintColumn(q, tags, w, i);
    EmptyHasNoTags(q);
    ShiftPrefix(Print(q, tags, w), Part(q, tags[i]), Column(Keys(tags[..i]), w) - 1);
  }

  lemma ShiftPrefix(s: string, part: string, c: nat)
    requires c <= |s| && part <= s[c..]
    ensures c + 1 <= |"`" + s + "`"| && part <= ("`" + s + "`")[c + 1..]
  {
    assert ("`" + s + "`")[c + 1..] == s[c..] + "`";
  }

  lemma EmptyHasNoTags(q: Quoting)
    ensures Parse(q, "") == []
  {}

  /** Two fields with the same keys so far have their next tags in the same column. */
  lemma SameKeysSameColumn(q: Quoting, fields: seq<Field>, f: Field, g: Field, i: nat) returns (c: nat)
    requires f in fields && g in fields && Selected(f) && Selected(g)
    requires i < |Parse(q, TagText(f))| && i < |Parse(q, TagText(g))|
    requires Keys(Parse(q, TagText(f))[..i]) == Keys(Parse(q, TagText(g))[..i])
    ensures var w := WidthsOf(q, fields);
            var s, t := Format(q, TagText(f), w), Format(q, TagText(g), w);
            c <= |s| && c <= |t| && Part(q, Parse(q, TagText(f))[i]) <= s[c..] && Part(q, Parse(q, TagText(g))[i]) <= t[c..]
  {
    c := Column(Keys(Parse(q, TagText(f))[..i]), WidthsOf(q, fields));
    TagsAlign(q, fields, f, i);
    TagsAlign(q, fields, g, i);
  }

  /** Columns follow each other: past the backquote, each tag takes its key's width and one space. */
  lemma {:induction false} NextColumn(keys: seq<string>, key: string, widths: Widths)
    requires key in widths
    ensures Column([], widths) == 1
    ensures Column(keys + [key], widths) == Column(keys, widths) + widths[key] + 1
  {
    if keys == [] {
      assert keys + [key] == [key] && [key][1..] == [];
    } else {
      assert (keys + [key])[1..] == keys[1..] + [key];
      NextColumn(keys[1..], key, widths);
    }
  }

  /** What becomes of each field: an embedded or unexported one stays; another keeps all but its tag, which is formatted. */
  lemma ProcessedField(q: Quoting, fields: seq<Field>, i: nat)
    requires i < |fields|
    ensures |Processed(q, fields)| == |fields|
    ensures var f, g := fields[i], Processed(q, fields)[i];
            if f.names == [] || f.names[0] == "" || !('A' <= f.names[0][0] <= 'Z') then g == f
            else
              var text := Format(q, f.tag.GetOr(""), WidthsOf(q, fields));
              g.names == f.names && (g.tag.None? <==> text == "") && g.tag.GetOr("") == text
  {}
}

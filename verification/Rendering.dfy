/**
 * The renderers as they walk the index. They have no depth cap: the walk from the roots ends
 * exactly when no descent names an ID twice, which unique condition IDs guarantee.
 */
module Rendering {
  import opened Wrappers
  import opened Sequences
  import opened Text
  import opened Conditions
  import opened Semantics
  import opened Values
  import opened Validation
  import opened Canonical
  import opened CanonicalMeaning

  // ------------------------------------------------------------------- descents

  /** A descent from a root, each row naming the one before it as parent. */
  ghost predicate IsDescent(rows: set<RuleCondition>, path: seq<RuleCondition>) {
    && path != []
    && path[0] in rows && ParentKey(path[0]) == ""
    && forall i | 0 < i < |path| :: path[i] in rows && ParentKey(path[i]) == path[i - 1].id
  }

  /** No ID is named twice on the way. */
  ghost predicate NamesOnce(path: seq<RuleCondition>) {
    forall i, j | 0 <= i < j < |path| :: path[i].id != path[j].id
  }

  /** What the renderers need to end: no descent names an ID twice. */
  ghost predicate Grounded(rows: set<RuleCondition>) {
    forall path: seq<RuleCondition> | IsDescent(rows, path) :: NamesOnce(path)
  }

  function Ids(rows: set<RuleCondition>): set<string> {
    set c | c in rows :: c.id
  }

  /** A descent that names no ID twice is no longer than there are IDs. */
  lemma DescentBound(rows: set<RuleCondition>, path: seq<RuleCondition>)
    requires IsDescent(rows, path) && NamesOnce(path)
    ensures |path| <= |Ids(rows)|
  {
    var ids := seq(|path|, i requires 0 <= i < |path| => path[i].id);
    forall i | 0 <= i < |ids| ensures ids[i] in Ids(rows) {
      assert path[i] in rows;
    }
    forall i, j | 0 <= i < j < |ids| ensures ids[i] != ids[j] {
      assert path[i].id != path[j].id;
    }
    DistinctFit(ids, Ids(rows));
  }

  lemma {:induction false} DistinctFit(s: seq<string>, all: set<string>)
    requires forall i, j | 0 <= i < j < |s| :: s[i] != s[j]
    requires forall i | 0 <= i < |s| :: s[i] in all
    ensures |s| <= |all|
  {
    if s != [] {
      DistinctFit(s[1..], all - {s[0]});
    }
  }

  /** Going once more round the segment between two rows with one ID. */
  lemma RoundOnce(rows: set<RuleCondition>, path: seq<RuleCondition>, i: nat, j: nat)
    requires IsDescent(rows, path) && i < j < |path| && path[i].id == path[j].id
    ensures IsDescent(rows, path[..j + 1] + path[i + 1..])
  {
    var longer := path[..j + 1] + path[i + 1..];
    forall k | 0 < k < |longer| ensures longer[k] in rows && ParentKey(longer[k]) == longer[k - 1].id {
      if k > j {
        assert longer[k] == path[k - j + i];
        assert longer[k - 1].id == path[k - j + i - 1].id;
      }
    }
  }

  /** A repeated ID can be repeated for ever. */
  lemma FurtherRounds(rows: set<RuleCondition>, path: seq<RuleCondition>, i: nat, j: nat, n: nat)
    returns (long: seq<RuleCondition>)
    requires IsDescent(rows, path) && i < j < |path| && path[i].id == path[j].id
    ensures IsDescent(rows, long) && |long| > n
    decreases n - |path|
  {
    if |path| > n {
      return path;
    }
    RoundOnce(rows, path, i, j);
    long := FurtherRounds(rows, path[..j + 1] + path[i + 1..], i, j, n);
  }

  ghost predicate DescentsWithin(rows: set<RuleCondition>, n: nat) {
    forall path: seq<RuleCondition> | IsDescent(rows, path) :: |path| <= n
  }

  /**
   * The uncapped recursion ends, that is, descents from the roots have bounded length, if and
   * only if no descent names an ID twice.
   */
  lemma DescentsEndWhenGrounded(rows: set<RuleCondition>)
    ensures (exists n: nat :: DescentsWithin(rows, n)) <==> Grounded(rows)
  {
    if Grounded(rows) {
      forall path: seq<RuleCondition> | IsDescent(rows, path) ensures |path| <= |Ids(rows)| {
        DescentBound(rows, path);
      }
      assert DescentsWithin(rows, |Ids(rows)|);
    }
    forall n: nat | DescentsWithin(rows, n) ensures Grounded(rows) {
      forall path: seq<RuleCondition> | IsDescent(rows, path) ensures NamesOnce(path) {
        forall i, j | 0 <= i < j < |path| ensures path[i].id != path[j].id {
          if path[i].id == path[j].id {
            var long := FurtherRounds(rows, path, i, j, n);
          }
        }
      }
    }
  }

  /** With unique IDs a descent never revisits a row: its parent would have to be two different rows. */
  lemma {:induction false} DescentNeverRevisits(rows: set<RuleCondition>, path: seq<RuleCondition>, i: nat, j: nat)
    requires forall c, d | c in rows && d in rows && c.id == d.id :: c == d
    requires IsDescent(rows, path) && i < j < |path|
    ensures path[i].id != path[j].id
  {
    assert ParentKey(path[j]) == path[j - 1].id != "";
    if i > 0 {
      DescentNeverRevisits(rows, path, i - 1, j - 1);
      assert ParentKey(path[i]) == path[i - 1].id;
    }
  }

  /** Unique IDs are enough. */
  lemma UniqueIdsGround(conditions: seq<RuleCondition>)
    requires UniqueIds(conditions)
    ensures Grounded(set c | c in conditions)
  {
    var rows := set c | c in conditions;
    forall path: seq<RuleCondition> | IsDescent(rows, path) ensures NamesOnce(path) {
      forall i, j | 0 <= i < j < |path| ensures path[i].id != path[j].id {
        DescentNeverRevisits(rows, path, i, j);
      }
    }
  }

  /** The smallest ungrounded rule: a root, and a child with the root's own ID. */
  lemma DuplicateIdsDescendForever(r: RuleCondition, c: RuleCondition)
    requires r.id == c.id && r.parent == None && c.parent == Some(r.id) && r.id != ""
    ensures !Grounded({r, c}) && forall n: nat :: !DescentsWithin({r, c}, n)
  {
    var path := [r, c];
    assert IsDescent({r, c}, path) && path[0].id == path[1].id;
    DescentsEndWhenGrounded({r, c});
  }

  // ------------------------------------------------------------ the whole forest

  /** Buckets hold their own children, and descents through them end. */
  ghost predicate WellIndexed(byParent: Index, rows: set<RuleCondition>) {
    && (forall key, c | c in Bucket(byParent, key) :: c in rows && ParentKey(c) == key)
    && Grounded(rows)
  }

  lemma GroundedIndexesWell(byParent: Index, conditions: seq<RuleCondition>, less: RowOrder)
    requires IsIndex(byParent, conditions, less) && Grounded(set c | c in conditions)
    ensures WellIndexed(byParent, set c | c in conditions)
  {
    forall key, c | c in Bucket(byParent, key) ensures c in conditions && ParentKey(c) == key {
      BucketMembers(byParent, conditions, less, key);
    }
  }

  /** The siblings that may follow a descent: the roots, or the bucket of its last row. */
  ghost predicate Follow(rows: set<RuleCondition>, path: seq<RuleCondition>, siblings: seq<RuleCondition>) {
    && (path == [] || IsDescent(rows, path))
    && forall c | c in siblings :: IsDescent(rows, path + [c])
  }

  /** The whole forest below a descent, uncut: the renderers' recursion. */
  ghost function Expand(byParent: Index, siblings: seq<RuleCondition>, rows: set<RuleCondition>, path: seq<RuleCondition>)
    : (f: seq<Tree>)
    requires WellIndexed(byParent, rows) && Follow(rows, path, siblings)
    ensures |f| == |siblings|
    ensures forall i | 0 <= i < |f| :: f[i].cond == siblings[i]
    decreases |Ids(rows)| - |path|
  {
    seq(|siblings|, i requires 0 <= i < |siblings| =>
      var c := siblings[i];
      assert c in siblings;
      DescentBound(rows, path + [c]);
      ChildrenDescend(byParent, rows, path + [c]);
      Node(c, Expand(byParent, Bucket(byParent, c.id), rows, path + [c])))
  }

  lemma ChildrenDescend(byParent: Index, rows: set<RuleCondition>, path: seq<RuleCondition>)
    requires WellIndexed(byParent, rows) && IsDescent(rows, path)
    ensures Follow(rows, path, Bucket(byParent, path[|path| - 1].id))
  {
    forall c | c in Bucket(byParent, path[|path| - 1].id) ensures IsDescent(rows, path + [c]) {
      var longer := path + [c];
      forall i | 0 < i < |longer| ensures longer[i] in rows && ParentKey(longer[i]) == longer[i - 1].id {
        if i < |path| {
          assert longer[i] == path[i];
        }
      }
    }
  }

  lemma RootsDescend(byParent: Index, rows: set<RuleCondition>)
    requires WellIndexed(byParent, rows)
    ensures Follow(rows, [], Bucket(byParent, ""))
  {
    forall c | c in Bucket(byParent, "") ensures IsDescent(rows, [] + [c]) {
      assert [] + [c] == [c];
    }
  }

  /** The uncut forest of an index. */
  ghost function WholeForest(byParent: Index, rows: set<RuleCondition>): seq<Tree>
    requires WellIndexed(byParent, rows)
  {
    RootsDescend(byParent, rows);
    Expand(byParent, Bucket(byParent, ""), rows, [])
  }

  ghost function Under(byParent: Index, c: RuleCondition, rows: set<RuleCondition>, path: seq<RuleCondition>): seq<Tree>
    requires WellIndexed(byParent, rows) && IsDescent(rows, path) && path[|path| - 1] == c
  {
    ChildrenDescend(byParent, rows, path);
    Expand(byParent, Bucket(byParent, c.id), rows, path)
  }

  lemma ExpandAt(byParent: Index, siblings: seq<RuleCondition>, rows: set<RuleCondition>, path: seq<RuleCondition>, i: nat)
    requires WellIndexed(byParent, rows) && Follow(rows, path, siblings) && i < |siblings|
    ensures IsDescent(rows, path + [siblings[i]])
    ensures Expand(byParent, siblings, rows, path)[i] ==
            Node(siblings[i], Under(byParent, siblings[i], rows, path + [siblings[i]]))
  {
    assert siblings[i] in siblings;
  }

  // ------------------------------------------------------------------ the renderers

  /** The parts the renderer joins with spaces: nodes with connectors between them. */
  function PartsOf(f: seq<Tree>, leaf: LeafText): seq<string> {
    if f == [] then []
    else if |f| == 1 then [NodeText(f[0], leaf)]
    else [NodeText(f[0], leaf), ConnectorText(f[0].cond.connector)] + PartsOf(f[1..], leaf)
  }

  lemma {:induction false} JoinParts(f: seq<Tree>, leaf: LeafText)
    ensures Text.Join(PartsOf(f, leaf), " ") == ForestText(f, leaf)
    ensures f != [] ==> PartsOf(f, leaf) != []
  {
    if |f| > 1 {
      JoinParts(f[1..], leaf);
      JoinTwo(NodeText(f[0], leaf), ConnectorText(f[0].cond.connector), PartsOf(f[1..], leaf));
    }
  }

  lemma JoinTwo(a: string, b: string, rest: seq<string>)
    requires rest != []
    ensures Text.Join([a, b] + rest, " ") == a + " " + b + " " + Text.Join(rest, " ")
  {
    assert ([a, b] + rest)[1..] == [b] + rest && ([b] + rest)[1..] == rest;
  }

  /** What the loop appends for node i. */
  function StepParts(f: seq<Tree>, leaf: LeafText, i: nat): seq<string>
    requires i < |f|
  {
    if i < |f| - 1 then [NodeText(f[i], leaf), ConnectorText(f[i].cond.connector)] else [NodeText(f[i], leaf)]
  }

  lemma StepPartsAre(f: seq<Tree>, leaf: LeafText, i: nat, done: seq<string>)
    requires i < |f|
    ensures done + StepParts(f, leaf, i) ==
            if i < |f| - 1 then done + [NodeText(f[i], leaf)] + [ConnectorText(f[i].cond.connector)]
            else done + [NodeText(f[i], leaf)]
  {}

  lemma NextParts(f: seq<Tree>, leaf: LeafText, i: nat, done: seq<string>)
    requires i < |f|
    ensures done + PartsOf(f[i..], leaf) == (done + StepParts(f, leaf, i)) + PartsOf(f[i + 1..], leaf)
  {
    assert f[i..][0] == f[i] && f[i..][1..] == f[i + 1..];
    assert PartsOf(f[i..], leaf) == StepParts(f, leaf, i) + PartsOf(f[i + 1..], leaf);
  }

  /** Renders a sibling chain and everything below it. */
  method BuildCanonicalString(byParent: Index, siblings: seq<RuleCondition>, leaf: LeafText,
                              ghost rows: set<RuleCondition>, ghost path: seq<RuleCondition>) returns (s: string)
    requires WellIndexed(byParent, rows) && Follow(rows, path, siblings)
    ensures s == ForestText(Expand(byParent, siblings, rows, path), leaf)
    decreases |Ids(rows)| - |path|, 1
  {
    ghost var f := Expand(byParent, siblings, rows, path);
    var parts := [];
    for i := 0 to |siblings|
      invariant parts + PartsOf(f[i..], leaf) == PartsOf(f, leaf)
    {
      var node := RenderCanonicalNode(byParent, siblings, i, leaf, rows, path);
      NextParts(f, leaf, i, parts);
      StepPartsAre(f, leaf, i, parts);
      parts := parts + [node];
      if i < |siblings| - 1 {
        parts := parts + [ConnectorText(siblings[i].connector)];
      }
    }
    assert f[|siblings|..] == [] && parts == PartsOf(f, leaf);
    JoinParts(f, leaf);
    s := Text.Join(parts, " ");
  }

  /** Renders sibling i: leaf, parenthesised group, or leaf, connector and group. */
  method RenderCanonicalNode(byParent: Index, siblings: seq<RuleCondition>, i: nat, leaf: LeafText,
                             ghost rows: set<RuleCondition>, ghost path: seq<RuleCondition>) returns (s: string)
    requires WellIndexed(byParent, rows) && Follow(rows, path, siblings) && i < |siblings|
    ensures s == NodeText(Expand(byParent, siblings, rows, path)[i], leaf)
    decreases |Ids(rows)| - |path|, 0
  {
    var c := siblings[i];
    ExpandAt(byParent, siblings, rows, path, i);
    DescentBound(rows, path + [c]);
    ChildrenDescend(byParent, rows, path + [c]);
    var children := Bucket(byParent, c.id);
    var hasOwnCheck := c.attributeId.Some?;
    if |children| == 0 {
      return if hasOwnCheck then leaf(c) else "()";
    }
    var kids := BuildCanonicalString(byParent, children, leaf, rows, path + [c]);
    var childrenStr := "(" + kids + ")";
    if !hasOwnCheck {
      return childrenStr;
    }
    s := leaf(c) + " " + ConnectorText(c.childConnector) + " " + childrenStr;
  }

  /** The canonical expression of a rule's rows under its expected values. */
  method BuildLogicExpression(conditions: seq<RuleCondition>, expected: map<string, Raw>, compact: Json -> string)
    returns (expr: string)
    requires Grounded(set c | c in conditions)
    ensures exists byParent ::
              && IsIndex(byParent, conditions, BySequenceThenId()) && WellIndexed(byParent, set c | c in conditions)
              && expr == ForestText(WholeForest(byParent, set c | c in conditions), ValueLeaf(expected, compact))
  {
    BothOrdersAreStrictWeak();
    var index := BuildIndex(conditions, BySequenceThenId());
    GroundedIndexesWell(index, conditions, BySequenceThenId());
    RootsDescend(index, set c | c in conditions);
    var roots := Bucket(index, "");
    if |roots| == 0 {
      return "";
    }
    expr := BuildCanonicalString(index, roots, ValueLeaf(expected, compact), set c | c in conditions, []);
  }

  /** No two siblings have the same sequence and the same ID. */
  ghost predicate DistinctKeys(conditions: seq<RuleCondition>) {
    forall x, y | x in conditions && y in conditions && x != y && ParentKey(x) == ParentKey(y) ::
      x.sequence != y.sequence || x.id != y.id
  }

  /** The expression does not depend on the order in which the rows arrive. */
  lemma ExpressionIgnoresRowOrder(a: Index, b: Index, rowsA: seq<RuleCondition>, rowsB: seq<RuleCondition>, leaf: LeafText)
    requires multiset(rowsA) == multiset(rowsB) && DistinctKeys(rowsA) && Grounded(set c | c in rowsA)
    requires IsIndex(a, rowsA, BySequenceThenId()) && IsIndex(b, rowsB, BySequenceThenId())
    ensures WellIndexed(a, set c | c in rowsA) && WellIndexed(b, set c | c in rowsB)
    ensures ForestText(WholeForest(a, set c | c in rowsA), leaf) == ForestText(WholeForest(b, set c | c in rowsB), leaf)
  {
    SameMembers(rowsA, rowsB);
    assert (set c | c in rowsA) == (set c | c in rowsB);
    GroundedIndexesWell(a, rowsA, BySequenceThenId());
    GroundedIndexesWell(b, rowsB, BySequenceThenId());
    forall x, y | x in rowsA && y in rowsA && x != y && ParentKey(x) == ParentKey(y)
      ensures BySequenceThenId()(x, y) || BySequenceThenId()(y, x)
    {
      TextLessTrichotomy(x.id, y.id);
    }
    IndexIgnoresRowOrder(a, b, rowsA, rowsB, BySequenceThenId());
  }

  /** Nor does the evaluation, once siblings have distinct sequences. */
  lemma EvaluationIgnoresRowOrder(a: Index, b: Index, rowsA: seq<RuleCondition>, rowsB: seq<RuleCondition>, check: Checker)
    requires multiset(rowsA) == multiset(rowsB) && SiblingsSeparated(rowsA, BySequence())
    requires IsIndex(a, rowsA, BySequence()) && IsIndex(b, rowsB, BySequence())
    ensures Meaning(Forest(a, Bucket(a, ""), 1), check) == Meaning(Forest(b, Bucket(b, ""), 1), check)
  {
    IndexIgnoresRowOrder(a, b, rowsA, rowsB, BySequence());
  }
}

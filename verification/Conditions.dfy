/** Rule-condition rows and the parent index every evaluator pass builds first. */
module Conditions {
  import opened Wrappers
  import opened Sequences

  predicate IsUuidChar(c: char) {
    '0' <= c <= '9' || 'a' <= c <= 'f' || c == '-'
  }

  predicate IsUuidText(s: string) {
    |s| == 36 && forall i | 0 <= i < |s| :: IsUuidChar(s[i])
  }

  /** A UUID, represented by its canonical text: `UUID.String` is injective. */
  type Uuid = s: string | IsUuidText(s) witness NIL_UUID

  /** `uuid.Parse` with the error dropped: the nil UUID when the text is not canonical. */
  function ParseUuid(s: string): Uuid {
    if IsUuidText(s) then s else NIL_UUID
  }

  /** One rule_conditions row. `dataType` is the preloaded attribute's type; None means not preloaded. */
  datatype RuleCondition = RuleCondition(
    id: Uuid,
    parent: Option<Uuid>,
    attributeId: Option<Uuid>,
    dataType: Option<string>,
    op: string,
    sequence: int,
    connector: Option<string>,
    childConnector: Option<string>)

  const OR := "OR"
  const AND := "AND"

  function ConnectorValue(p: Option<string>): string {
    p.GetOr("")
  }

  /** The key of a row's bucket: its parent's ID, or "" for a root. */
  function ParentKey(c: RuleCondition): string {
    if c.parent.Some? then c.parent.value else ""
  }

  type Index = map<string, seq<RuleCondition>>

  function InBucket(key: string): RuleCondition -> bool {
    c => ParentKey(c) == key
  }

  /** The rows of one bucket in input order. */
  function Rows(conditions: seq<RuleCondition>, key: string): seq<RuleCondition> {
    Filter(InBucket(key), conditions)
  }

  function Bucket(byParent: Index, key: string): seq<RuleCondition> {
    if key in byParent then byParent[key] else []
  }

  type RowOrder = (RuleCondition, RuleCondition) -> bool

  function BySequence(): RowOrder {
    (a: RuleCondition, b: RuleCondition) => a.sequence < b.sequence
  }

  function BySequenceThenId(): RowOrder {
    (a: RuleCondition, b: RuleCondition) => if a.sequence != b.sequence then a.sequence < b.sequence else TextLess(a.id, b.id)
  }

  /** Go's `<` on strings. */
  predicate TextLess(a: string, b: string) {
    b != [] && (a == [] || a[0] < b[0] || (a[0] == b[0] && TextLess(a[1..], b[1..])))
  }

  lemma {:induction false} TextLessTrichotomy(a: string, b: string)
    ensures a == b || TextLess(a, b) || TextLess(b, a)
    ensures !(TextLess(a, b) && TextLess(b, a))
    ensures !TextLess(a, a)
  {
    if a != [] {
      TextLessTrichotomy(a[1..], a[1..]);
      if b != [] {
        TextLessTrichotomy(a[1..], b[1..]);
        assert a == [a[0]] + a[1..] && b == [b[0]] + b[1..];
      }
    }
  }

  lemma {:induction false} TextLessTransitive(a: string, b: string, c: string)
    requires TextLess(a, b) && TextLess(b, c)
    ensures TextLess(a, c)
  {
    if a != [] && a[0] == b[0] && b[0] == c[0] {
      TextLessTransitive(a[1..], b[1..], c[1..]);
    }
  }

  /** What `sort.Slice` needs of its less function. */
  ghost predicate StrictWeak(less: RowOrder) {
    && (forall x, y | less(x, y) :: !less(y, x))
    && (forall x, y, z | !less(y, x) && !less(z, y) :: !less(z, x))
  }

  lemma BothOrdersAreStrictWeak()
    ensures StrictWeak(BySequence()) && StrictWeak(BySequenceThenId())
  {
    var less := BySequenceThenId();
    forall x, y | less(x, y) ensures !less(y, x) {
      TextLessTrichotomy(x.id, y.id);
    }
    forall x, y, z | !less(y, x) && !less(z, y) ensures !less(z, x) {
      TextLessTrichotomy(x.id, y.id);
      TextLessTrichotomy(y.id, z.id);
      TextLessTrichotomy(x.id, z.id);
      if TextLess(x.id, y.id) && TextLess(y.id, z.id) {
        TextLessTransitive(x.id, y.id, z.id);
      }
    }
  }

  /** `byParent` holds every bucket of `conditions`, each in some order that `less` allows. */
  ghost predicate IsIndex(byParent: Index, conditions: seq<RuleCondition>, less: RowOrder) {
    && (forall k :: k in byParent <==> Rows(conditions, k) != [])
    && (forall k | k in byParent ::
          multiset(byParent[k]) == multiset(Rows(conditions, k)) && Sorted(less, byParent[k]))
  }

  /** Bucketing loop: append every row to its parent's bucket, in input order. */
  method GroupByParent(conditions: seq<RuleCondition>) returns (byParent: Index)
    ensures forall k :: k in byParent <==> Rows(conditions, k) != []
    ensures forall k | k in byParent :: byParent[k] == Rows(conditions, k)
  {
    byParent := map[];
    for i := 0 to |conditions|
      invariant forall k :: k in byParent <==> Rows(conditions[..i], k) != []
      invariant forall k | k in byParent :: byParent[k] == Rows(conditions[..i], k)
    {
      var key := ParentKey(conditions[i]);
      assert conditions[..i + 1] == conditions[..i] + [conditions[i]];
      forall k
        ensures Rows(conditions[..i + 1], k) ==
                Rows(conditions[..i], k) + if k == key then [conditions[i]] else []
      {
        FilterSnoc(InBucket(k), conditions[..i], conditions[i]);
      }
      byParent := byParent[key := Bucket(byParent, key) + [conditions[i]]];
    }
    assert conditions[..|conditions|] == conditions;
  }

  /** The index shared by the evaluator and the renderers: bucket the rows, sort every bucket. */
  method BuildIndex(conditions: seq<RuleCondition>, less: RowOrder) returns (byParent: Index)
    requires StrictWeak(less)
    ensures IsIndex(byParent, conditions, less)
  {
    var raw := GroupByParent(conditions);
    byParent := SortBuckets(raw, less);
  }

  method SortBuckets(raw: Index, less: RowOrder) returns (byParent: Index)
    requires StrictWeak(less)
    ensures byParent.Keys == raw.Keys
    ensures forall k | k in raw :: multiset(byParent[k]) == multiset(raw[k]) && Sorted(less, byParent[k])
  {
    byParent := raw;
    var todo := raw.Keys;
    while todo != {}
      invariant todo <= byParent.Keys == raw.Keys
      invariant forall k | k in raw :: multiset(byParent[k]) == multiset(raw[k])
      invariant forall k | k in raw && k !in todo :: Sorted(less, byParent[k])
      decreases |todo|
    {
      var k :| k in todo;
      var sorted := SortBucket(byParent[k], less);
      byParent := byParent[k := sorted];
      todo := todo - {k};
    }
  }

  method SortBucket(bucket: seq<RuleCondition>, less: RowOrder) returns (sorted: seq<RuleCondition>)
    requires StrictWeak(less)
    ensures multiset(sorted) == multiset(bucket) && Sorted(less, sorted)
  {
    sorted := SortSlice(less, bucket);
  }

  /** A bucket holds exactly the rows that name its key as parent. */
  lemma BucketMembers(byParent: Index, conditions: seq<RuleCondition>, less: RowOrder, key: string)
    requires IsIndex(byParent, conditions, less)
    ensures forall c :: c in Bucket(byParent, key) <==> c in conditions && ParentKey(c) == key
  {
    if key in byParent {
      SameMembers(byParent[key], Rows(conditions, key));
    }
    assert forall c | c in conditions && ParentKey(c) == key :: InBucket(key)(c);
  }

  /** Different rows under one parent never tie under `less`. */
  ghost predicate SiblingsSeparated(conditions: seq<RuleCondition>, less: RowOrder) {
    forall x, y | x in conditions && y in conditions && x != y && ParentKey(x) == ParentKey(y) ::
      less(x, y) || less(y, x)
  }

  /** Permuting the input rows leaves the index unchanged once siblings never tie. */
  lemma IndexIgnoresRowOrder(a: Index, b: Index, rowsA: seq<RuleCondition>, rowsB: seq<RuleCondition>, less: RowOrder)
    requires multiset(rowsA) == multiset(rowsB)
    requires IsIndex(a, rowsA, less) && IsIndex(b, rowsB, less)
    requires SiblingsSeparated(rowsA, less)
    ensures a == b
  {
    forall k ensures k in a <==> k in b {
      FilterPermutation(InBucket(k), rowsA, rowsB);
      SameLength(Rows(rowsA, k), Rows(rowsB, k));
    }
    forall k | k in a ensures a[k] == b[k] {
      FilterPermutation(InBucket(k), rowsA, rowsB);
      BucketMembers(a, rowsA, less, k);
      assert Bucket(a, k) == a[k];
      SortedPermutationUnique(less, a[k], b[k]);
    }
  }

  /** Siblings that differ in sequence are ordered alike by both sort keys. */
  lemma OrdersAgree(a: Index, b: Index, rows: seq<RuleCondition>)
    requires IsIndex(a, rows, BySequence()) && IsIndex(b, rows, BySequenceThenId())
    requires SiblingsSeparated(rows, BySequence())
    ensures a == b
  {
    forall k | k in b ensures Sorted(BySequence(), b[k]) {
      forall i, j | 0 <= i < j < |b[k]| ensures !BySequence()(b[k][j], b[k][i]) {
        assert !BySequenceThenId()(b[k][j], b[k][i]);
      }
    }
    IndexIgnoresRowOrder(a, b, rows, rows, BySequence());
  }
}

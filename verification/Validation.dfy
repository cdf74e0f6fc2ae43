/** The condition-tree validator: its in-place sort, its two rules, and what passing it guarantees. */
module Validation {
  import opened Wrappers
  import opened Sequences
  import opened Conditions

  // ------------------------------------------------- sortConditionsBySequence

  /** Insert `c` behind every row of `s` whose sequence is not greater. */
  function Insert(s: seq<RuleCondition>, c: RuleCondition): seq<RuleCondition> {
    if s == [] || s[|s| - 1].sequence <= c.sequence then s + [c]
    else Insert(s[..|s| - 1], c) + [s[|s| - 1]]
  }

  /** Insertion sort by sequence. */
  function StableSort(s: seq<RuleCondition>): seq<RuleCondition> {
    if s == [] then [] else Insert(StableSort(s[..|s| - 1]), s[|s| - 1])
  }

  /** Where the insertion lands: before a suffix of greater rows. */
  lemma {:induction false} InsertAt(s: seq<RuleCondition>, c: RuleCondition, j: nat)
    requires j <= |s|
    requires forall k | j <= k < |s| :: c.sequence < s[k].sequence
    requires j == 0 || s[j - 1].sequence <= c.sequence
    ensures Insert(s, c) == s[..j] + [c] + s[j..]
  {
    if j < |s| {
      var t := s[..|s| - 1];
      InsertAt(t, c, j);
      assert t[..j] == s[..j] && t[j..] + [s[|s| - 1]] == s[j..];
    }
  }

  lemma {:induction false} InsertPermutes(s: seq<RuleCondition>, c: RuleCondition)
    ensures multiset(Insert(s, c)) == multiset(s) + multiset{c}
  {
    if s != [] {
      InsertPermutes(s[..|s| - 1], c);
      assert s == s[..|s| - 1] + [s[|s| - 1]];
    }
  }

  lemma {:induction false} InsertSorts(s: seq<RuleCondition>, c: RuleCondition)
    requires Sorted(BySequence(), s)
    ensures Sorted(BySequence(), Insert(s, c))
  {
    if s != [] && c.sequence < s[|s| - 1].sequence {
      var t, z := s[..|s| - 1], s[|s| - 1];
      InsertSorts(t, c);
      InsertPermutes(t, c);
      forall x | x in Insert(t, c) ensures x.sequence <= z.sequence {
        assert x in multiset(t) + multiset{c};
        assert forall k | 0 <= k < |t| :: !BySequence()(s[|s| - 1], s[k]);
      }
    }
  }

  /** Rows of equal sequence keep their order. */
  lemma {:induction false} InsertStable(s: seq<RuleCondition>, c: RuleCondition, n: int)
    ensures Filter(WithSequence(n), Insert(s, c)) == Filter(WithSequence(n), s + [c])
  {
    FilterSnoc(WithSequence(n), s, c);
    if s != [] && c.sequence < s[|s| - 1].sequence {
      var t, z := s[..|s| - 1], s[|s| - 1];
      assert s == t + [z];
      InsertStable(t, c, n);
      FilterSnoc(WithSequence(n), Insert(t, c), z);
      FilterApart(WithSequence(n), t, c, z);
    }
  }

  /** Of two rows that are not both kept, the order does not matter to a filter. */
  lemma FilterApart(p: RuleCondition -> bool, t: seq<RuleCondition>, c: RuleCondition, z: RuleCondition)
    requires !(p(c) && p(z))
    ensures Filter(p, t + [z]) + (if p(c) then [c] else []) == Filter(p, t + [c]) + (if p(z) then [z] else [])
  {
    FilterSnoc(p, t, c);
    FilterSnoc(p, t, z);
  }

  function WithSequence(n: int): RuleCondition -> bool {
    (c: RuleCondition) => c.sequence == n
  }

  /** The sort is a stable sorting permutation. */
  lemma {:induction false} StableSortSorts(s: seq<RuleCondition>)
    ensures multiset(StableSort(s)) == multiset(s)
    ensures Sorted(BySequence(), StableSort(s))
    ensures forall n :: Filter(WithSequence(n), StableSort(s)) == Filter(WithSequence(n), s)
  {
    if s != [] {
      var t, z := s[..|s| - 1], s[|s| - 1];
      assert s == t + [z];
      StableSortSorts(t);
      InsertPermutes(StableSort(t), z);
      InsertSorts(StableSort(t), z);
      forall n ensures Filter(WithSequence(n), StableSort(s)) == Filter(WithSequence(n), s) {
        InsertStable(StableSort(t), z, n);
        FilterSnoc(WithSequence(n), StableSort(t), z);
        FilterSnoc(WithSequence(n), t, z);
      }
    }
  }

  /** The same without stability, for proofs that need no more. */
  lemma StableSortPermutes(s: seq<RuleCondition>)
    ensures multiset(StableSort(s)) == multiset(s) && |StableSort(s)| == |s|
    ensures Sorted(BySequence(), StableSort(s))
  {
    StableSortSorts(s);
    SameLength(StableSort(s), s);
  }

  /** The validator's in-place insertion sort. */
  method SortConditionsBySequence(cs: array<RuleCondition>)
    modifies cs
    ensures cs[..] == StableSort(old(cs[..]))
  {
    ghost var rows := cs[..];
    var i := 0;
    while i < cs.Length
      invariant 0 <= i <= cs.Length
      invariant cs[..i] == StableSort(rows[..i])
      invariant cs[i..] == rows[i..]
    {
      assert rows[..i + 1][..i] == rows[..i] && rows[i..][0] == cs[i..][0];
      assert rows[i..][1..] == rows[i + 1..] && cs[i..][1..] == cs[i + 1..];
      SinkIntoPlace(cs, i);
      i := i + 1;
    }
    assert cs[..i] == cs[..] && rows[..i] == rows;
  }

  /** Rows s with c sunk to place j, and the untouched rest: what the inner loop maintains. */
  function Sunk(s: seq<RuleCondition>, c: RuleCondition, j: nat, tail: seq<RuleCondition>): (t: seq<RuleCondition>)
    requires j <= |s|
    ensures |t| == |s| + 1 + |tail| && t[j] == c && (j > 0 ==> t[j - 1] == s[j - 1])
  {
    s[..j] + [c] + s[j..] + tail
  }

  lemma SinkOnce(s: seq<RuleCondition>, c: RuleCondition, j: nat, tail: seq<RuleCondition>)
    requires 0 < j <= |s|
    ensures Sunk(s, c, j, tail)[j - 1 := c][j := s[j - 1]] == Sunk(s, c, j - 1, tail)
  {
    assert s[..j] == s[..j - 1] + [s[j - 1]] && s[j - 1..] == [s[j - 1]] + s[j..];
  }

  /** The inner loop: swap row i down past every greater row before it. */
  method SinkIntoPlace(cs: array<RuleCondition>, i: nat)
    requires i < cs.Length
    modifies cs
    ensures cs[..i + 1] == Insert(old(cs[..i]), old(cs[i]))
    ensures cs[i + 1..] == old(cs[i + 1..])
  {
    ghost var s, c, tail := cs[..i], cs[i], cs[i + 1..];
    var j := i;
    assert cs[..] == Sunk(s, c, i, tail);
    while j > 0 && cs[j - 1].sequence > cs[j].sequence
      invariant 0 <= j <= i
      invariant cs[..] == Sunk(s, c, j, tail)
      invariant forall k | j <= k < i :: c.sequence < s[k].sequence
    {
      ghost var was := cs[..];
      assert was[j - 1] == s[j - 1] && was[j] == c;
      SinkOnce(s, c, j, tail);
      cs[j - 1], cs[j] := cs[j], cs[j - 1];
      assert cs[..] == was[j - 1 := was[j]][j := was[j - 1]];
      j := j - 1;
    }
    assert j > 0 ==> cs[..][j - 1] == s[j - 1];
    assert cs[..][j] == c;
    SunkIsInserted(s, c, j, tail);
    assert cs[..i + 1] == cs[..][..i + 1] && cs[i + 1..] == cs[..][i + 1..];
  }

  lemma SunkIsInserted(s: seq<RuleCondition>, c: RuleCondition, j: nat, tail: seq<RuleCondition>)
    requires j <= |s|
    requires forall k | j <= k < |s| :: c.sequence < s[k].sequence
    requires j == 0 || s[j - 1].sequence <= c.sequence
    ensures Sunk(s, c, j, tail)[..|s| + 1] == Insert(s, c) && Sunk(s, c, j, tail)[|s| + 1..] == tail
  {
    InsertAt(s, c, j);
    SplitTail(Sunk(s, c, j, tail), Insert(s, c), tail);
  }

  lemma SplitTail<T>(t: seq<T>, a: seq<T>, b: seq<T>)
    requires t == a + b
    ensures t[..|a|] == a && t[|a|..] == b
  {}

  // ------------------------------------------------------ ValidateConditionTree

  datatype Violation =
    | MissingChildConnector(condition: Uuid)
    | MissingConnector(condition: Uuid)
    | LastSetsConnector(condition: Uuid)

  /** Some row of the chain comes after row i: greater sequence, or the same and later in the input. */
  ghost predicate HasLater(s: seq<RuleCondition>, i: nat)
    requires i < |s|
  {
    exists j | 0 <= j < |s| :: s[i].sequence < s[j].sequence || (s[i].sequence == s[j].sequence && i < j)
  }

  /** Rule 2 on one sibling chain: exactly the rows with a later sibling carry a connector. */
  ghost predicate ChainOk(s: seq<RuleCondition>) {
    forall i | 0 <= i < |s| :: s[i].connector.Some? <==> HasLater(s, i)
  }

  /** Row i is the one the validator's ID lookup finds. */
  ghost predicate Resolves(conditions: seq<RuleCondition>, i: nat)
    requires i < |conditions|
  {
    forall j | i < j < |conditions| :: conditions[j].id != conditions[i].id
  }

  /** Row i has an own check and children but no connector to join them. */
  ghost predicate LacksChildConnector(conditions: seq<RuleCondition>, i: nat)
    requires i < |conditions|
  {
    && Resolves(conditions, i)
    && Rows(conditions, conditions[i].id) != []
    && conditions[i].attributeId.Some? && conditions[i].childConnector.None?
  }

  /** The declared rules, stated without any sorting or indexing. */
  ghost predicate TreeOk(conditions: seq<RuleCondition>) {
    && (forall i | 0 <= i < |conditions| :: !LacksChildConnector(conditions, i))
    && (forall key :: ChainOk(Rows(conditions, key)))
  }

  /** What a reported violation says about the rows. */
  ghost predicate Violates(conditions: seq<RuleCondition>, v: Violation) {
    match v
    case MissingChildConnector(id) =>
      exists i | 0 <= i < |conditions| :: conditions[i].id == id && LacksChildConnector(conditions, i)
    case _ => exists key :: ChainViolates(Rows(conditions, key), v)
  }

  ghost predicate ChainViolates(s: seq<RuleCondition>, v: Violation) {
    exists i | 0 <= i < |s| ::
      && s[i].id == v.condition
      && if v.MissingConnector? then s[i].connector.None? && HasLater(s, i)
         else v.LastSetsConnector? && s[i].connector.Some? && !HasLater(s, i)
  }

  lemma InsertLast(t: seq<RuleCondition>, z: RuleCondition)
    requires t != []
    ensures var r := Insert(t, z);
            r != [] && r[|r| - 1] == if z.sequence < t[|t| - 1].sequence then t[|t| - 1] else z
  {}

  /** The stable sort puts the one row without a later sibling last. */
  lemma {:induction false} LastOfSort(s: seq<RuleCondition>) returns (m: nat)
    requires s != []
    ensures m < |s| && |StableSort(s)| == |s|
    ensures StableSort(s)[|s| - 1] == s[m]
    ensures forall i | 0 <= i < |s| :: HasLater(s, i) <==> i != m
  {
    var u, z := s[..|s| - 1], s[|s| - 1];
    StableSortPermutes(s);
    if u == [] {
      m := 0;
    } else {
      var k := LastOfSort(u);
      InsertLast(StableSort(u), z);
      if u[k].sequence <= z.sequence {
        m := |u|;
        LaterThanAll(s, k);
      } else {
        m := k;
        StillLast(s, u, k);
      }
    }
  }

  /** The last row of the chain comes after all others. */
  lemma LaterThanAll(s: seq<RuleCondition>, k: nat)
    requires s != [] && k < |s| - 1 && s[k].sequence <= s[|s| - 1].sequence && !HasLater(s[..|s| - 1], k)
    ensures forall i | 0 <= i < |s| :: HasLater(s, i) <==> i != |s| - 1
  {
    forall i | 0 <= i < |s| - 1 ensures s[i].sequence <= s[|s| - 1].sequence {
      NoneLater(s[..|s| - 1], k, i);
    }
  }

  lemma NoneLater(s: seq<RuleCondition>, k: nat, i: nat)
    requires k < |s| && i < |s| && !HasLater(s, k)
    ensures s[i].sequence <= s[k].sequence
  {}

  /** The last row of the chain sorts before row k, which stays without a later sibling. */
  lemma StillLast(s: seq<RuleCondition>, u: seq<RuleCondition>, k: nat)
    requires s != [] && u == s[..|s| - 1] && k < |u| && s[|s| - 1].sequence < s[k].sequence
    requires forall i | 0 <= i < |u| :: HasLater(u, i) <==> i != k
    ensures forall i | 0 <= i < |s| :: HasLater(s, i) <==> i != k
  {
    assert s[|s| - 1].sequence < s[k].sequence && HasLater(s, |s| - 1);
    forall i | 0 <= i < |u| && i != k ensures HasLater(s, i) {
      assert HasLater(u, i);
      var j :| 0 <= j < |u| && (u[i].sequence < u[j].sequence || (u[i].sequence == u[j].sequence && i < j));
      assert s[i] == u[i] && s[j] == u[j];
    }
    assert !HasLater(u, k);
  }

  /** The rows before the last of the sorted chain are the rows other than m. */
  lemma RestOfSort(s: seq<RuleCondition>, m: nat)
    requires m < |s| && |StableSort(s)| == |s| && StableSort(s)[|s| - 1] == s[m]
    ensures multiset(StableSort(s)[..|s| - 1]) == multiset(s[..m] + s[m + 1..])
  {
    StableSortPermutes(s);
    WithoutOne(StableSort(s), |s| - 1);
    WithoutOne(s, m);
  }

  /** A row of `s` other than the one at m. */
  ghost predicate OccursBeside(s: seq<RuleCondition>, m: nat, x: RuleCondition) {
    exists i | 0 <= i < |s| :: i != m && s[i] == x
  }

  lemma BesideIsRest(s: seq<RuleCondition>, m: nat, x: RuleCondition)
    requires m < |s|
    ensures OccursBeside(s, m, x) <==> x in s[..m] + s[m + 1..]
  {
    var rest := s[..m] + s[m + 1..];
    if OccursBeside(s, m, x) {
      var i :| 0 <= i < |s| && i != m && s[i] == x;
      assert rest[if i < m then i else i - 1] == x;
    }
    if x in rest {
      var p :| 0 <= p < |rest| && rest[p] == x;
      assert s[if p < m then p else p + 1] == x;
    }
  }

  /** Sorting moves row m to the end and keeps the others in front of it. */
  lemma SortedFront(s: seq<RuleCondition>, m: nat, x: RuleCondition)
    requires m < |s| && |StableSort(s)| == |s| && StableSort(s)[|s| - 1] == s[m]
    ensures OccursBeside(s, m, x) <==> x in StableSort(s)[..|s| - 1]
  {
    RestOfSort(s, m);
    SameMembers(StableSort(s)[..|s| - 1], s[..m] + s[m + 1..]);
    BesideIsRest(s, m, x);
  }

  /** A chain passes exactly when its sorted form sets every connector but the last. */
  lemma ChainOkWhenSorted(s: seq<RuleCondition>)
    requires s != []
    ensures |StableSort(s)| == |s|
    ensures var t := StableSort(s);
            && (t[|s| - 1].connector.Some? ==> ChainViolates(s, LastSetsConnector(t[|s| - 1].id)))
            && (forall k | 0 <= k < |s| - 1 && t[k].connector.None? :: ChainViolates(s, MissingConnector(t[k].id)))
            && (ChainOk(s) <==> t[|s| - 1].connector.None? && forall k | 0 <= k < |s| - 1 :: t[k].connector.Some?)
  {
    var m := LastOfSort(s);
    var t := StableSort(s);
    forall k | 0 <= k < |s| - 1 ensures OccursBeside(s, m, t[k]) {
      assert t[..|s| - 1][k] == t[k];
      SortedFront(s, m, t[k]);
    }
    forall i | 0 <= i < |s| && i != m ensures exists k | 0 <= k < |s| - 1 :: t[k] == s[i] {
      assert OccursBeside(s, m, s[i]);
      SortedFront(s, m, s[i]);
      var k :| 0 <= k < |s| - 1 && t[..|s| - 1][k] == s[i];
      assert t[k] == s[i];
    }
  }

  lemma SortOfOne(s: seq<RuleCondition>)
    requires |s| == 1
    ensures StableSort(s) == s
  {
    assert StableSort(s[..0]) == [];
  }

  method ValidateSiblingChain(siblings: seq<RuleCondition>) returns (err: Option<Violation>)
    ensures err.None? <==> ChainOk(siblings)
    ensures err.Some? ==> !err.value.MissingChildConnector? && ChainViolates(siblings, err.value)
  {
    if |siblings| == 0 {
      return None;
    }
    ChainOkWhenSorted(siblings);
    if |siblings| == 1 {
      SortOfOne(siblings);
      if siblings[0].connector.Some? {
        return Some(LastSetsConnector(siblings[0].id));
      }
      return None;
    }
    var sorted := new RuleCondition[|siblings|](i requires 0 <= i < |siblings| => siblings[i]);
    assert sorted[..] == siblings;
    SortConditionsBySequence(sorted);
    err := CheckSortedChain(sorted);
  }

  /** Looks for the first row of a sorted chain whose connector is wrong for its place. */
  method CheckSortedChain(sorted: array<RuleCondition>) returns (err: Option<Violation>)
    requires sorted.Length > 0
    ensures var t, last := sorted[..], sorted.Length - 1;
            match err
            case None => t[last].connector.None? && forall k | 0 <= k < last :: t[k].connector.Some?
            case Some(MissingConnector(id)) => exists k | 0 <= k < last :: t[k].connector.None? && t[k].id == id
            case Some(LastSetsConnector(id)) => t[last].connector.Some? && t[last].id == id
            case _ => false
  {
    for i := 0 to sorted.Length
      invariant forall k | 0 <= k < i && k < sorted.Length - 1 :: sorted[k].connector.Some?
      invariant i == sorted.Length ==> sorted[sorted.Length - 1].connector.None?
    {
      var c := sorted[i];
      if i == sorted.Length - 1 {
        if c.connector.Some? {
          return Some(LastSetsConnector(c.id));
        }
      } else if c.connector.None? {
        assert sorted[..][i].connector.None? && sorted[..][i].id == c.id;
        return Some(MissingConnector(c.id));
      }
    }
    err := None;
  }

  /** The ID lookup keeps the last row of each ID. */
  method IndexById(conditions: seq<RuleCondition>) returns (byId: map<string, RuleCondition>)
    ensures forall i | 0 <= i < |conditions| ::
      conditions[i].id in byId && (Resolves(conditions, i) ==> byId[conditions[i].id] == conditions[i])
    ensures forall k | k in byId :: exists i | 0 <= i < |conditions| ::
      Resolves(conditions, i) && conditions[i].id == k && conditions[i] == byId[k]
  {
    byId := map[];
    for n := 0 to |conditions|
      invariant forall i | 0 <= i < n ::
        && conditions[i].id in byId
        && ((forall j | i < j < n :: conditions[j].id != conditions[i].id) ==> byId[conditions[i].id] == conditions[i])
      invariant forall k | k in byId :: exists i | 0 <= i < n ::
        && (forall j | i < j < n :: conditions[j].id != conditions[i].id)
        && conditions[i].id == k && conditions[i] == byId[k]
    {
      byId := byId[conditions[n].id := conditions[n]];
    }
  }

  /** Accepts exactly the row lists that satisfy the declared rules; a refusal names a true violation. */
  method ValidateConditionTree(conditions: seq<RuleCondition>) returns (err: Option<Violation>)
    ensures err.None? <==> TreeOk(conditions)
    ensures err.Some? ==> Violates(conditions, err.value)
  {
    if |conditions| == 0 {
      return None;
    }
    var byParent := GroupByParent(conditions);
    var byId := IndexById(conditions);
    err := CheckChildConnectors(conditions, byParent, byId);
    if err.Some? {
      return;
    }
    err := CheckChains(conditions, byParent);
  }

  method CheckChildConnectors(conditions: seq<RuleCondition>, byParent: Index, byId: map<string, RuleCondition>)
    returns (err: Option<Violation>)
    requires forall k :: k in byParent <==> Rows(conditions, k) != []
    requires forall k | k in byParent :: byParent[k] == Rows(conditions, k)
    requires forall i | 0 <= i < |conditions| ::
      conditions[i].id in byId && (Resolves(conditions, i) ==> byId[conditions[i].id] == conditions[i])
    requires forall k | k in byId :: exists i | 0 <= i < |conditions| ::
      Resolves(conditions, i) && conditions[i].id == k && conditions[i] == byId[k]
    ensures err.None? <==> forall i | 0 <= i < |conditions| :: !LacksChildConnector(conditions, i)
    ensures err.Some? ==> err.value.MissingChildConnector? && Violates(conditions, err.value)
  {
    var todo := byParent.Keys;
    while todo != {}
      invariant todo <= byParent.Keys
      invariant forall i | 0 <= i < |conditions| && conditions[i].id !in todo :: !LacksChildConnector(conditions, i)
      decreases |todo|
    {
      var parentKey :| parentKey in todo;
      todo := todo - {parentKey};
      if parentKey == "" || |byParent[parentKey]| == 0 {
        continue;
      }
      if parentKey in byId {
        var parent := byId[parentKey];
        if parent.attributeId.Some? && parent.childConnector.None? {
          ghost var i :| 0 <= i < |conditions| && Resolves(conditions, i)
            && conditions[i].id == parentKey && conditions[i] == parent;
          assert LacksChildConnector(conditions, i);
          return Some(MissingChildConnector(parent.id));
        }
      }
    }
    err := None;
  }

  method CheckChains(conditions: seq<RuleCondition>, byParent: Index) returns (err: Option<Violation>)
    requires forall k :: k in byParent <==> Rows(conditions, k) != []
    requires forall k | k in byParent :: byParent[k] == Rows(conditions, k)
    ensures err.None? <==> forall key :: ChainOk(Rows(conditions, key))
    ensures err.Some? ==> !err.value.MissingChildConnector? && Violates(conditions, err.value)
  {
    var todo := byParent.Keys;
    while todo != {}
      invariant todo <= byParent.Keys
      invariant forall k | k in byParent && k !in todo :: ChainOk(Rows(conditions, k))
      decreases |todo|
    {
      var k :| k in todo;
      todo := todo - {k};
      err := ValidateSiblingChain(byParent[k]);
      if err.Some? {
        return;
      }
    }
    forall key ensures ChainOk(Rows(conditions, key)) {
      assert key in byParent || Rows(conditions, key) == [];
    }
    err := None;
  }

  // ------------------------------------------------- what a validated tree promises

  ghost predicate UniqueIds(conditions: seq<RuleCondition>) {
    forall i, j | 0 <= i < j < |conditions| :: conditions[i].id != conditions[j].id
  }

  /** The greatest sequence of the chain is attained by one row only. */
  ghost predicate OneGreatest(s: seq<RuleCondition>) {
    forall i, j | 0 <= i < j < |s| && s[i].sequence == s[j].sequence ::
      exists k | 0 <= k < |s| :: s[k].sequence > s[i].sequence
  }

  /** A chain's forward links are set: every connector between two siblings is there. */
  ghost predicate LinksSet(t: seq<RuleCondition>) {
    forall i | 0 <= i < |t| - 1 :: t[i].connector.Some?
  }

  /** Rows occurring twice in an arrangement occur at two places of the original. */
  lemma TwoPlaces(t: seq<RuleCondition>, s: seq<RuleCondition>, i: nat, j: nat) returns (p: nat, q: nat)
    requires multiset(t) == multiset(s) && i < j < |t|
    ensures p < |s| && q < |s| && p != q && s[p] == t[i] && s[q] == t[j]
  {
    SameMembers(t, s);
    assert t[i] in t;
    p :| 0 <= p < |s| && s[p] == t[i];
    q := OtherPlace(t, s, i, j, p);
  }

  lemma OtherPlace(t: seq<RuleCondition>, s: seq<RuleCondition>, i: nat, j: nat, p: nat) returns (q: nat)
    requires multiset(t) == multiset(s) && i < j < |t| && p < |s| && s[p] == t[i]
    ensures q < |s| && p != q && s[q] == t[j]
  {
    var rest := t[..i] + t[i + 1..];
    WithoutOne(t, i);
    WithoutOne(s, p);
    SameMembers(rest, s[..p] + s[p + 1..]);
    assert rest[j - 1] == t[j];
    BesideIsRest(s, p, t[j]);
    q :| 0 <= q < |s| && q != p && s[q] == t[j];
  }

  /** No row of a chain comes after its last in sequence. */
  lemma GreatestRow(s: seq<RuleCondition>, t: seq<RuleCondition>) returns (m: nat)
    requires s != [] && ChainOk(s) && multiset(t) == multiset(s) && Sorted(BySequence(), t)
    ensures m < |s| && s[m].connector.None? && |t| == |s|
    ensures forall i | 0 <= i < |s| :: s[i].sequence <= s[m].sequence && (s[i].connector.None? ==> i == m)
    ensures t[|t| - 1].sequence == s[m].sequence
  {
    m := LastOfSort(s);
    SameLength(t, s);
    SameMembers(t, s);
    forall i | 0 <= i < |s| ensures s[i].sequence <= s[m].sequence {
      NoneLater(s, m, i);
    }
    var last := t[|t| - 1];
    assert last in t && s[m] in s && s[m] in t;
    var q :| 0 <= q < |t| && t[q] == s[m];
    assert q == |t| - 1 || !BySequence()(last, t[q]);
  }

  /** With one greatest row, every sort of an accepted chain leaves exactly the last row without a connector. */
  lemma OneGreatestSetsLinks(s: seq<RuleCondition>, t: seq<RuleCondition>)
    requires ChainOk(s) && OneGreatest(s) && multiset(t) == multiset(s) && Sorted(BySequence(), t)
    ensures forall i | 0 <= i < |t| :: t[i].connector.Some? <==> i < |t| - 1
  {
    SameLength(t, s);
    if s != [] {
      var m := GreatestRow(s, t);
      LastRowIsGreatest(s, t, m);
      forall i | 0 <= i < |t| - 1 ensures t[i].connector.Some? {
        EarlierRowIsNot(s, t, m, i);
      }
    }
  }

  lemma LastRowIsGreatest(s: seq<RuleCondition>, t: seq<RuleCondition>, m: nat)
    requires m < |s| && OneGreatest(s) && multiset(t) == multiset(s) && t != []
    requires forall i | 0 <= i < |s| :: s[i].sequence <= s[m].sequence
    requires t[|t| - 1].sequence == s[m].sequence
    ensures t[|t| - 1] == s[m]
  {
    var last := t[|t| - 1];
    SameMembers(t, s);
    assert last in t;
    var p :| 0 <= p < |s| && s[p] == last;
    if p != m {
      TwiceGreatest(s, m, p);
    }
  }

  lemma EarlierRowIsNot(s: seq<RuleCondition>, t: seq<RuleCondition>, m: nat, i: nat)
    requires m < |s| && OneGreatest(s) && multiset(t) == multiset(s) && i < |t| - 1
    requires forall j | 0 <= j < |s| :: s[j].sequence <= s[m].sequence && (s[j].connector.None? ==> j == m)
    requires t[|t| - 1].sequence == s[m].sequence
    ensures t[i].connector.Some?
  {
    var p, q := TwoPlaces(t, s, i, |t| - 1);
    if p == m {
      TwiceGreatest(s, m, q);
    }
  }

  lemma TwiceGreatest(s: seq<RuleCondition>, m: nat, q: nat)
    requires m < |s| && q < |s| && q != m && s[q].sequence == s[m].sequence
    requires forall i | 0 <= i < |s| :: s[i].sequence <= s[m].sequence
    ensures !OneGreatest(s)
  {
    var i, j := if m < q then m else q, if m < q then q else m;
    assert s[i].sequence == s[j].sequence;
  }

  /** Otherwise some sort of it puts the row without a connector before another. */
  lemma TiedGreatestDefaultsALink(s: seq<RuleCondition>) returns (t: seq<RuleCondition>)
    requires ChainOk(s) && !OneGreatest(s)
    ensures multiset(t) == multiset(s) && Sorted(BySequence(), t) && !LinksSet(t)
  {
    var m := LastOfSort(s);
    var other := TiedWith(s, m);
    SortedFront(s, m, s[other]);
    StableSortPermutes(s);
    NoneLater(s, m, other);
    t := Untie(StableSort(s), s[other]);
    assert s[m].connector.None?;
  }

  /** A tie for the greatest sequence leaves a row besides m that is as great as any. */
  lemma TiedWith(s: seq<RuleCondition>, m: nat) returns (other: nat)
    requires m < |s| && !OneGreatest(s)
    ensures other < |s| && other != m && OccursBeside(s, m, s[other])
    ensures forall k | 0 <= k < |s| :: s[k].sequence <= s[other].sequence
  {
    var i, j :| 0 <= i < j < |s| && s[i].sequence == s[j].sequence
                && forall k | 0 <= k < |s| :: s[k].sequence <= s[i].sequence;
    other := if i == m then j else i;
  }

  lemma Untie(u: seq<RuleCondition>, other: RuleCondition) returns (t: seq<RuleCondition>)
    requires u != [] && Sorted(BySequence(), u) && other in u[..|u| - 1]
    requires u[|u| - 1].sequence <= other.sequence
    ensures multiset(t) == multiset(u) && |t| == |u| >= 2 && t[|u| - 2] == u[|u| - 1]
    ensures Sorted(BySequence(), t)
  {
    LastButOneTies(u, other);
    t := SwapLast(u);
  }

  /** Another row as great as the last leaves the last two rows with equal sequence. */
  lemma LastButOneTies(u: seq<RuleCondition>, other: RuleCondition)
    requires u != [] && Sorted(BySequence(), u) && other in u[..|u| - 1]
    requires u[|u| - 1].sequence <= other.sequence
    ensures |u| >= 2 && u[|u| - 2].sequence == u[|u| - 1].sequence
  {
    var n := |u| - 1;
    var k :| 0 <= k < n && u[..n][k] == other;
    assert u[k] == other;
    assert k == n - 1 || !BySequence()(u[n - 1], u[k]);
    assert !BySequence()(u[n], u[n - 1]);
  }

  /** The last two rows exchanged; nothing else can tell when their sequences are equal. */
  lemma SwapLast(u: seq<RuleCondition>) returns (t: seq<RuleCondition>)
    requires |u| >= 2 && Sorted(BySequence(), u) && u[|u| - 2].sequence == u[|u| - 1].sequence
    ensures multiset(t) == multiset(u) && |t| == |u| && t[|u| - 2] == u[|u| - 1]
    ensures Sorted(BySequence(), t)
  {
    var n := |u| - 2;
    t := u[..n] + [u[n + 1], u[n]];
    assert u == u[..n] + [u[n], u[n + 1]];
    forall i, j | 0 <= i < j < |t| ensures !BySequence()(t[j], t[i]) {
      var a, b := if i < n then i else 2 * n + 1 - i, if j < n then j else 2 * n + 1 - j;
      assert t[i] == u[a] && t[j] == u[b];
      assert a < b ==> !BySequence()(u[b], u[a]);
    }
  }

  /**
   * On a validated tree with unique IDs whose every chain has one greatest sequence, no connector
   * the evaluator reads is a default: forward links are set on every sibling but the last, and
   * joined children always come with a child connector.
   */
  lemma ValidatedConnectorsAreSet(conditions: seq<RuleCondition>, byParent: Index)
    requires TreeOk(conditions) && UniqueIds(conditions)
    requires IsIndex(byParent, conditions, BySequence()) && forall key :: OneGreatest(Rows(conditions, key))
    ensures forall key, i | key in byParent && 0 <= i < |byParent[key]| ::
              byParent[key][i].connector.Some? <==> i < |byParent[key]| - 1
    ensures forall c | c in conditions && c.attributeId.Some? && Bucket(byParent, c.id) != [] ::
              c.childConnector.Some?
  {
    forall key, i | key in byParent && 0 <= i < |byParent[key]|
      ensures byParent[key][i].connector.Some? <==> i < |byParent[key]| - 1
    {
      assert ChainOk(Rows(conditions, key));
      OneGreatestSetsLinks(Rows(conditions, key), byParent[key]);
    }
    forall c | c in conditions && c.attributeId.Some? && Bucket(byParent, c.id) != []
      ensures c.childConnector.Some?
    {
      BucketMembers(byParent, conditions, BySequence(), c.id);
      var i :| 0 <= i < |conditions| && conditions[i] == c;
      assert Resolves(conditions, i);
      assert !LacksChildConnector(conditions, i);
    }
  }

  ghost predicate AllLinksSet(byParent: Index) {
    forall key | key in byParent :: LinksSet(byParent[key])
  }

  /**
   * Exactly when validation protects the forward links: on a validated tree every index the
   * evaluator may build has all of them set if and only if each chain has one greatest sequence.
   */
  lemma LinksSetUnlessGreatestTied(conditions: seq<RuleCondition>)
    requires TreeOk(conditions)
    ensures (forall byParent | IsIndex(byParent, conditions, BySequence()) :: AllLinksSet(byParent)) <==>
            forall key :: OneGreatest(Rows(conditions, key))
  {
    if forall key :: OneGreatest(Rows(conditions, key)) {
      forall byParent | IsIndex(byParent, conditions, BySequence()) ensures AllLinksSet(byParent) {
        forall key | key in byParent ensures LinksSet(byParent[key]) {
          assert ChainOk(Rows(conditions, key));
          OneGreatestSetsLinks(Rows(conditions, key), byParent[key]);
        }
      }
    } else {
      var key :| !OneGreatest(Rows(conditions, key));
      assert ChainOk(Rows(conditions, key));
      var t := TiedGreatestDefaultsALink(Rows(conditions, key));
      var byParent := IndexWith(conditions, key, t);
      assert !LinksSet(byParent[key]);
    }
  }

  /** Any sort of one bucket is part of some index. */
  lemma IndexWith(conditions: seq<RuleCondition>, key: string, t: seq<RuleCondition>) returns (byParent: Index)
    requires t != [] && multiset(t) == multiset(Rows(conditions, key)) && Sorted(BySequence(), t)
    ensures IsIndex(byParent, conditions, BySequence()) && key in byParent && byParent[key] == t
  {
    var keys := set c | c in conditions :: ParentKey(c);
    byParent := map k | k in keys :: if k == key then t else StableSort(Rows(conditions, k));
    SameLength(t, Rows(conditions, key));
    forall k ensures k in keys <==> Rows(conditions, k) != [] {
      if c :| c in conditions && ParentKey(c) == k {
        assert InBucket(k)(c);
        assert c in Rows(conditions, k);
      }
      if Rows(conditions, k) != [] {
        var c := Rows(conditions, k)[0];
        assert c in Rows(conditions, k) && InBucket(k)(c);
      }
    }
    forall k | k in byParent
      ensures multiset(byParent[k]) == multiset(Rows(conditions, k)) && Sorted(BySequence(), byParent[k])
    {
      StableSortSorts(Rows(conditions, k));
    }
  }

  /**
   * The smallest such tree: the contract of sort.Slice lets two tied roots be sorted the other way
   * round. Its implementation sorts up to 12 elements by stable insertion, so that only a longer
   * chain with a tie at its end can really meet this.
   */
  lemma TiesMayDefaultAConnector(a: RuleCondition, b: RuleCondition)
    requires a.id != b.id && a.parent == b.parent == None && a.sequence == b.sequence
    requires a.attributeId == b.attributeId == None && a.connector == Some(AND) && b.connector == None
    requires a.id != "" && b.id != ""
    ensures TreeOk([a, b]) && UniqueIds([a, b])
    ensures IsIndex(map["" := [b, a]], [a, b], BySequence())
  {
    BucketsOfPair(a, b);
    TiedPairAccepted(a, b);
    TiedPairSwapped(a, b);
  }

  /** Two roots share the one bucket. */
  lemma BucketsOfPair(a: RuleCondition, b: RuleCondition)
    requires a.parent == b.parent == None
    ensures forall key :: Rows([a, b], key) == if key == "" then [a, b] else []
  {
    forall key ensures Rows([a, b], key) == if key == "" then [a, b] else [] {
      assert InBucket(key)(a) == InBucket(key)(b) == (key == "");
      FilterPair(InBucket(key), a, b);
    }
  }

  lemma TiedPairAccepted(a: RuleCondition, b: RuleCondition)
    requires a.attributeId == b.attributeId == None && a.sequence == b.sequence && a.connector.Some? && b.connector.None?
    requires forall key :: Rows([a, b], key) == if key == "" then [a, b] else []
    ensures TreeOk([a, b])
  {
    OnlyFirstHasLater(a, b);
    assert ChainOk([]);
  }

  lemma TiedPairSwapped(a: RuleCondition, b: RuleCondition)
    requires a.sequence == b.sequence
    requires forall key :: Rows([a, b], key) == if key == "" then [a, b] else []
    ensures IsIndex(map["" := [b, a]], [a, b], BySequence())
  {
    Swapped(a, b);
  }

  lemma OnlyFirstHasLater(a: RuleCondition, b: RuleCondition)
    requires a.sequence == b.sequence && a.connector.Some? && b.connector.None?
    ensures ChainOk([a, b])
  {
    var rows := [a, b];
    assert rows[0].sequence == rows[1].sequence;
    assert HasLater(rows, 0);
  }

  lemma FilterPair(p: RuleCondition -> bool, a: RuleCondition, b: RuleCondition)
    ensures Filter(p, [a, b]) == (if p(a) then [a] else []) + (if p(b) then [b] else [])
  {
    assert [a, b][1..] == [b] && [b][1..] == [];
    assert Filter(p, [b]) == (if p(b) then [b] else []) + Filter(p, [b][1..]);
  }

  lemma Swapped<T>(a: T, b: T)
    ensures multiset([b, a]) == multiset([a, b])
  {}
}

/**
 * A row whose attribute is not loaded comes back from text with the empty data type. Pure groups,
 * which have no attribute, are such rows; nothing but a row's own check reads the type, so giving
 * every such row the empty type changes neither validation nor meaning.
 */
module Retyping {
  import opened Wrappers
  import opened Sequences
  import opened Conditions
  import opened Semantics
  import opened Validation

  function Retype(c: RuleCondition): RuleCondition {
    c.(dataType := Some(c.dataType.GetOr("")))
  }

  function RetypeAll(s: seq<RuleCondition>): seq<RuleCondition> {
    Map((c: RuleCondition) => Retype(c), s)
  }

  function RetypeIndex(byParent: Index): Index {
    map key | key in byParent :: RetypeAll(byParent[key])
  }

  function RetypeForest(f: seq<Tree>): (g: seq<Tree>)
    ensures |g| == |f|
    decreases f
  {
    seq(|f|, i requires 0 <= i < |f| => RetypeNode(f[i]))
  }

  function RetypeNode(t: Tree): Tree {
    Node(Retype(t.cond), RetypeForest(t.children))
  }

  // ------------------------------------------------------------- rows and indexes

  lemma {:induction false} RowsRetype(rows: seq<RuleCondition>, key: string)
    ensures Rows(RetypeAll(rows), key) == RetypeAll(Rows(rows, key))
  {
    if rows != [] {
      assert RetypeAll(rows)[1..] == RetypeAll(rows[1..]);
      RowsRetype(rows[1..], key);
      assert InBucket(key)(Retype(rows[0])) == InBucket(key)(rows[0]);
      if InBucket(key)(rows[0]) {
        assert RetypeAll([rows[0]] + Rows(rows[1..], key)) == [Retype(rows[0])] + RetypeAll(Rows(rows[1..], key));
      }
    }
  }

  lemma SortedRetypes(s: seq<RuleCondition>)
    ensures Sorted(BySequence(), RetypeAll(s)) <==> Sorted(BySequence(), s)
  {
    var t := RetypeAll(s);
    forall i, j | 0 <= i < j < |s| ensures BySequence()(t[j], t[i]) == BySequence()(s[j], s[i]) {}
  }

  /** An index of the rows is, retyped, an index of the retyped rows. */
  lemma IndexRetypes(byParent: Index, rows: seq<RuleCondition>)
    requires IsIndex(byParent, rows, BySequence())
    ensures IsIndex(RetypeIndex(byParent), RetypeAll(rows), BySequence())
  {
    forall key ensures key in RetypeIndex(byParent) <==> Rows(RetypeAll(rows), key) != [] {
      RowsRetype(rows, key);
    }
    forall key | key in RetypeIndex(byParent)
      ensures multiset(RetypeIndex(byParent)[key]) == multiset(Rows(RetypeAll(rows), key))
      ensures Sorted(BySequence(), RetypeIndex(byParent)[key])
    {
      RowsRetype(rows, key);
      MapPermutation((c: RuleCondition) => Retype(c), byParent[key], Rows(rows, key));
      SortedRetypes(byParent[key]);
    }
  }

  /** An arrangement of retyped rows is, retyped, an arrangement of the rows. */
  lemma {:induction false} Unretype(t: seq<RuleCondition>, s: seq<RuleCondition>) returns (u: seq<RuleCondition>)
    requires multiset(t) == multiset(RetypeAll(s))
    ensures multiset(u) == multiset(s) && RetypeAll(u) == t
  {
    SameLength(t, RetypeAll(s));
    if t == [] {
      u := [];
    } else {
      var k := PlaceOf(t, s);
      var v := Unretype(t[1..], s[..k] + s[k + 1..]);
      u := [s[k]] + v;
      PutBack(s, k, v);
      assert RetypeAll(u) == [t[0]] + RetypeAll(v);
    }
  }

  /** The row a first retyped row comes from; the others come from the other rows. */
  lemma PlaceOf(t: seq<RuleCondition>, s: seq<RuleCondition>) returns (k: nat)
    requires t != [] && multiset(t) == multiset(RetypeAll(s))
    ensures k < |s| && Retype(s[k]) == t[0]
    ensures multiset(t[1..]) == multiset(RetypeAll(s[..k] + s[k + 1..]))
  {
    SameMembers(t, RetypeAll(s));
    assert t[0] in RetypeAll(s);
    k :| 0 <= k < |s| && RetypeAll(s)[k] == t[0];
    TailMultiset(t);
    RetypeWithout(s, k);
  }

  lemma RetypeWithout(s: seq<RuleCondition>, k: nat)
    requires k < |s|
    ensures multiset(RetypeAll(s[..k] + s[k + 1..])) == multiset(RetypeAll(s)) - multiset{Retype(s[k])}
  {
    var r := RetypeAll(s);
    WithoutOne(r, k);
    assert r[..k] + r[k + 1..] == RetypeAll(s[..k] + s[k + 1..]);
  }

  lemma PutBack(s: seq<RuleCondition>, k: nat, v: seq<RuleCondition>)
    requires k < |s| && multiset(v) == multiset(s[..k] + s[k + 1..])
    ensures multiset([s[k]] + v) == multiset(s)
  {
    assert s == s[..k] + ([s[k]] + s[k + 1..]);
  }

  /** One arrangement that Unretype finds. */
  ghost function Unretyped(t: seq<RuleCondition>, s: seq<RuleCondition>): (u: seq<RuleCondition>)
    requires multiset(t) == multiset(RetypeAll(s))
    ensures multiset(u) == multiset(s) && RetypeAll(u) == t
  {
    assert exists u: seq<RuleCondition> :: multiset(u) == multiset(s) && RetypeAll(u) == t by {
      var v := Unretype(t, s);
    }
    var u: seq<RuleCondition> :| multiset(u) == multiset(s) && RetypeAll(u) == t;
    u
  }

  /** Each bucket arranges the retyped rows of its key. */
  ghost predicate Arranges(retyped: Index, rows: seq<RuleCondition>) {
    forall key | key in retyped :: multiset(retyped[key]) == multiset(RetypeAll(Rows(rows, key)))
  }

  /** Every index of the retyped rows comes from one of the rows themselves. */
  lemma EveryIndexIsRetyped(retyped: Index, rows: seq<RuleCondition>) returns (byParent: Index)
    requires IsIndex(retyped, RetypeAll(rows), BySequence())
    ensures IsIndex(byParent, rows, BySequence()) && RetypeIndex(byParent) == retyped
  {
    forall key | key in retyped ensures multiset(retyped[key]) == multiset(RetypeAll(Rows(rows, key))) {
      RowsRetype(rows, key);
    }
    assert Arranges(retyped, rows);
    byParent := map key | key in retyped :: Unretyped(retyped[key], Rows(rows, key));
    RetypedFrom(retyped, rows, byParent);
  }

  lemma RetypedFrom(retyped: Index, rows: seq<RuleCondition>, byParent: Index)
    requires IsIndex(retyped, RetypeAll(rows), BySequence()) && byParent.Keys == retyped.Keys
    requires forall key | key in byParent ::
               && RetypeAll(byParent[key]) == retyped[key] && multiset(byParent[key]) == multiset(Rows(rows, key))
    ensures IsIndex(byParent, rows, BySequence()) && RetypeIndex(byParent) == retyped
  {
    forall key ensures key in byParent <==> Rows(rows, key) != [] {
      RowsRetype(rows, key);
    }
    forall key | key in byParent ensures Sorted(BySequence(), byParent[key]) {
      SortedRetypes(byParent[key]);
    }
  }

  // ---------------------------------------------------------------- validation

  lemma ChainRetypes(s: seq<RuleCondition>)
    ensures ChainOk(RetypeAll(s)) <==> ChainOk(s)
  {
    var t := RetypeAll(s);
    forall i | 0 <= i < |s| ensures HasLater(t, i) <==> HasLater(s, i) {
      LaterRetypes(s, i);
    }
    assert forall i | 0 <= i < |s| :: t[i].connector == s[i].connector;
  }

  lemma LaterRetypes(s: seq<RuleCondition>, i: nat)
    requires i < |s|
    ensures HasLater(RetypeAll(s), i) <==> HasLater(s, i)
  {
    var t := RetypeAll(s);
    assert forall j | 0 <= j < |s| :: t[j].sequence == s[j].sequence;
  }

  lemma TreeRetypes(rows: seq<RuleCondition>)
    ensures TreeOk(RetypeAll(rows)) <==> TreeOk(rows)
  {
    var t := RetypeAll(rows);
    forall i | 0 <= i < |rows| ensures LacksChildConnector(t, i) <==> LacksChildConnector(rows, i) {
      LacksRetypes(rows, i);
    }
    forall key ensures ChainOk(Rows(t, key)) <==> ChainOk(Rows(rows, key)) {
      RowsRetype(rows, key);
      ChainRetypes(Rows(rows, key));
    }
  }

  lemma LacksRetypes(rows: seq<RuleCondition>, i: nat)
    requires i < |rows|
    ensures LacksChildConnector(RetypeAll(rows), i) <==> LacksChildConnector(rows, i)
  {
    var t := RetypeAll(rows);
    RowsRetype(rows, rows[i].id);
    assert forall j | 0 <= j < |rows| :: t[j].id == rows[j].id;
    assert Resolves(t, i) <==> Resolves(rows, i);
  }

  // ------------------------------------------------------------------- meaning

  lemma BucketRetypes(byParent: Index, key: string)
    ensures Bucket(RetypeIndex(byParent), key) == RetypeAll(Bucket(byParent, key))
  {}

  lemma {:induction false} ForestRetypes(byParent: Index, siblings: seq<RuleCondition>, depth: nat)
    ensures Forest(RetypeIndex(byParent), RetypeAll(siblings), depth) == RetypeForest(Forest(byParent, siblings, depth))
    decreases MAX_CONDITION_DEPTH - depth, 1
  {
    var f, g := Forest(byParent, siblings, depth), Forest(RetypeIndex(byParent), RetypeAll(siblings), depth);
    forall i | 0 <= i < |siblings| ensures g[i] == RetypeNode(f[i]) {
      NodeRetypes(byParent, siblings[i], depth);
      ForestAt(byParent, siblings, depth, i);
      ForestAt(RetypeIndex(byParent), RetypeAll(siblings), depth, i);
    }
  }

  lemma NodeRetypes(byParent: Index, c: RuleCondition, depth: nat)
    ensures Unfold(RetypeIndex(byParent), Retype(c), depth) == RetypeNode(Unfold(byParent, c, depth))
    decreases MAX_CONDITION_DEPTH - depth, 0
  {
    if depth < MAX_CONDITION_DEPTH {
      BucketRetypes(byParent, c.id);
      ForestRetypes(byParent, Bucket(byParent, c.id), depth + 1);
    }
  }

  /** Every own check of the forest has its attribute's type loaded. */
  ghost predicate ChecksTyped(f: seq<Tree>) {
    forall c | c in Checks(f) :: c.dataType.Some?
  }

  lemma PartsTyped(f: seq<Tree>)
    requires f != [] && ChecksTyped(f)
    ensures ChecksTyped(f[0].children) && ChecksTyped(f[1..])
    ensures f[0].cond.attributeId.Some? ==> Retype(f[0].cond) == f[0].cond
  {
    var own := OwnCheck(f[0].cond);
    assert Checks(f) == Checks(f[0].children) + own + Checks(f[1..]);
    if f[0].cond.attributeId.Some? {
      assert own[0] in Checks(f);
    }
  }

  /** Retyping leaves the checks as they are, and with them every node's truth. */
  lemma {:induction false} ChecksStay(f: seq<Tree>)
    requires ChecksTyped(f)
    ensures Checks(RetypeForest(f)) == Checks(f)
    decreases f
  {
    if f != [] {
      PartsTyped(f);
      assert RetypeForest(f)[1..] == RetypeForest(f[1..]);
      ChecksStay(f[0].children);
      ChecksStay(f[1..]);
    }
  }

  /** The same, tree by tree. */
  predicate TreeTyped(t: Tree) {
    (t.cond.attributeId.Some? ==> t.cond.dataType.Some?) && forall u | u in t.children :: TreeTyped(u)
  }

  lemma {:induction false} TreesAreTyped(f: seq<Tree>)
    requires ChecksTyped(f)
    ensures forall t | t in f :: TreeTyped(t)
    decreases f
  {
    if f != [] {
      PartsTyped(f);
      TreesAreTyped(f[0].children);
      TreesAreTyped(f[1..]);
    }
  }

  lemma {:induction false} TruthStays(t: Tree, check: Checker)
    requires TreeTyped(t)
    ensures Truth(RetypeNode(t), check) == Truth(t, check)
  {
    forall u | u in t.children ensures Truth(RetypeNode(u), check) == Truth(u, check) {
      TruthStays(u, check);
    }
    TruthsStay(t.children, check);
    assert t.cond.attributeId.Some? ==> Retype(t.cond) == t.cond;
  }

  lemma TruthsStay(f: seq<Tree>, check: Checker)
    requires forall t | t in f :: Truth(RetypeNode(t), check) == Truth(t, check)
    ensures Truths(RetypeForest(f), check) == Truths(f, check) && Ors(RetypeForest(f)) == Ors(f)
  {
    var g := RetypeForest(f);
    forall i | 0 <= i < |f| ensures Truths(g, check)[i] == Truths(f, check)[i] {
      assert f[i] in f && g[i] == RetypeNode(f[i]);
    }
  }

  lemma MeaningStays(f: seq<Tree>, check: Checker)
    requires ChecksTyped(f)
    ensures Meaning(RetypeForest(f), check) == Meaning(f, check)
  {
    ChecksStay(f);
    TreesAreTyped(f);
    forall t | t in f ensures Truth(RetypeNode(t), check) == Truth(t, check) {
      TruthStays(t, check);
    }
    TruthsStay(f, check);
  }
}

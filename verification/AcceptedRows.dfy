/** What validation accepts, told on the rows themselves instead of on their sibling chains. */
module AcceptedRows {
  import opened Wrappers
  import opened Sequences
  import opened Conditions
  import opened Validation

  /** Where a row of the list stands in its bucket. */
  function Place(rows: seq<RuleCondition>, i: nat): nat
    requires i < |rows|
  {
    |Rows(rows[..i], ParentKey(rows[i]))|
  }

  lemma RowStands(rows: seq<RuleCondition>, i: nat)
    requires i < |rows|
    ensures var s := Rows(rows, ParentKey(rows[i])); Place(rows, i) < |s| && s[Place(rows, i)] == rows[i]
  {
    var p := InBucket(ParentKey(rows[i]));
    assert rows == rows[..i] + ([rows[i]] + rows[i + 1..]);
    FilterConcat(p, rows[..i], [rows[i]] + rows[i + 1..]);
    FilterConcat(p, [rows[i]], rows[i + 1..]);
    assert Filter(p, [rows[i]]) == [rows[i]] + Filter(p, [rows[i]][1..]);
  }

  lemma PlacesFollow(rows: seq<RuleCondition>, i: nat, j: nat)
    requires i < j < |rows| && ParentKey(rows[i]) == ParentKey(rows[j])
    ensures Place(rows, i) < Place(rows, j)
  {
    RowStands(rows[..j], i);
    assert rows[..j][..i] == rows[..i];
  }

  /** Every member of a bucket is a row standing there. */
  lemma {:induction false} RowOfPlace(rows: seq<RuleCondition>, key: string, k: nat) returns (i: nat)
    requires k < |Rows(rows, key)|
    ensures i < |rows| && ParentKey(rows[i]) == key && Place(rows, i) == k && rows[i] == Rows(rows, key)[k]
  {
    var n := |rows| - 1;
    assert rows == rows[..n] + [rows[n]];
    FilterSnoc(InBucket(key), rows[..n], rows[n]);
    if k < |Rows(rows[..n], key)| {
      i := RowOfPlace(rows[..n], key, k);
      assert rows[..n][..i] == rows[..i];
    } else {
      i := n;
    }
  }

  /** A later sibling: greater sequence, or the same and further down the list. */
  ghost predicate FollowedBy(rows: seq<RuleCondition>, i: nat, j: nat)
    requires i < |rows| && j < |rows|
  {
    && rows[j].parent == rows[i].parent
    && (rows[i].sequence < rows[j].sequence || (rows[i].sequence == rows[j].sequence && i < j))
  }

  ghost predicate HasFollower(rows: seq<RuleCondition>, i: nat)
    requires i < |rows|
  {
    exists j | 0 <= j < |rows| :: FollowedBy(rows, i, j)
  }

  lemma SameParent(a: RuleCondition, b: RuleCondition)
    ensures a.parent == b.parent <==> ParentKey(a) == ParentKey(b)
  {
    assert a.parent.Some? ==> IsUuidText(a.parent.value) && a.parent.value != "";
    assert b.parent.Some? ==> IsUuidText(b.parent.value) && b.parent.value != "";
  }

  lemma LaterIsFollower(rows: seq<RuleCondition>, i: nat)
    requires i < |rows|
    ensures var s := Rows(rows, ParentKey(rows[i])); Place(rows, i) < |s| && (HasLater(s, Place(rows, i)) <==> HasFollower(rows, i))
  {
    var key := ParentKey(rows[i]);
    var s, p := Rows(rows, key), Place(rows, i);
    RowStands(rows, i);
    if HasLater(s, p) {
      var k :| 0 <= k < |s| && (s[p].sequence < s[k].sequence || (s[p].sequence == s[k].sequence && p < k));
      var j := RowOfPlace(rows, key, k);
      SameParent(rows[i], rows[j]);
      if j < i {
        PlacesFollow(rows, j, i);
      }
      assert FollowedBy(rows, i, j);
    }
    if j :| 0 <= j < |rows| && FollowedBy(rows, i, j) {
      SameParent(rows[i], rows[j]);
      RowStands(rows, j);
      if i < j {
        PlacesFollow(rows, i, j);
      }
      assert s[p].sequence < s[Place(rows, j)].sequence || (s[p].sequence == s[Place(rows, j)].sequence && p < Place(rows, j));
    }
  }

  /** Row `j` hangs under row `i`, which is the last with its ID. */
  ghost predicate IsChildOf(rows: seq<RuleCondition>, j: nat, i: nat)
    requires i < |rows| && j < |rows|
  {
    rows[j].parent == Some(rows[i].id) && forall k | i < k < |rows| :: rows[k].id != rows[i].id
  }

  lemma HasChild(rows: seq<RuleCondition>, i: nat)
    requires i < |rows|
    ensures Rows(rows, rows[i].id) != [] <==> exists j | 0 <= j < |rows| :: rows[j].parent == Some(rows[i].id)
  {
    var id := rows[i].id;
    assert IsUuidText(id) && id != "";
    if Rows(rows, id) != [] {
      var j := RowOfPlace(rows, id, 0);
      assert rows[j].parent == Some(id);
    }
    if j :| 0 <= j < |rows| && rows[j].parent == Some(id) {
      RowStands(rows, j);
    }
  }

  lemma ChainsAre(rows: seq<RuleCondition>)
    ensures (forall key :: ChainOk(Rows(rows, key))) <==>
            forall i | 0 <= i < |rows| :: rows[i].connector.Some? <==> HasFollower(rows, i)
  {
    if forall key :: ChainOk(Rows(rows, key)) {
      forall i | 0 <= i < |rows| ensures rows[i].connector.Some? <==> HasFollower(rows, i) {
        RowStands(rows, i);
        LaterIsFollower(rows, i);
        assert ChainOk(Rows(rows, ParentKey(rows[i])));
      }
    }
    if forall i | 0 <= i < |rows| :: rows[i].connector.Some? <==> HasFollower(rows, i) {
      forall key ensures ChainOk(Rows(rows, key)) {
        var s := Rows(rows, key);
        forall k | 0 <= k < |s| ensures s[k].connector.Some? <==> HasLater(s, k) {
          var i := RowOfPlace(rows, key, k);
          LaterIsFollower(rows, i);
        }
      }
    }
  }

  /**
   * Exactly what validation accepts: a row carries a connector if and only if it has a later
   * sibling, and every row with an own check and a child says how to join them.
   */
  lemma AcceptedExactly(rows: seq<RuleCondition>)
    ensures TreeOk(rows) <==>
            && (forall i | 0 <= i < |rows| :: rows[i].connector.Some? <==> HasFollower(rows, i))
            && (forall i, j | 0 <= i < |rows| && 0 <= j < |rows| && IsChildOf(rows, j, i) && rows[i].attributeId.Some? ::
                  rows[i].childConnector.Some?)
  {
    ChainsAre(rows);
    forall i | 0 <= i < |rows|
      ensures LacksChildConnector(rows, i) <==>
              rows[i].attributeId.Some? && rows[i].childConnector.None? && exists j | 0 <= j < |rows| :: IsChildOf(rows, j, i)
    {
      HasChild(rows, i);
      if j :| 0 <= j < |rows| && rows[j].parent == Some(rows[i].id) && Resolves(rows, i) {
        assert IsChildOf(rows, j, i);
      }
    }
  }
}

/** Sequence facts used across the project: filters, sorted permutations, concatenation. */
module Sequences {

  /** The elements of `s` that satisfy `p`, in order. */
  function Filter<T>(p: T -> bool, s: seq<T>): (r: seq<T>)
    ensures forall x | x in r :: x in s && p(x)
    ensures forall x | x in s && p(x) :: x in r
  {
    if s == [] then []
    else if p(s[0]) then [s[0]] + Filter(p, s[1..])
    else Filter(p, s[1..])
  }

  lemma {:induction false} FilterConcat<T>(p: T -> bool, a: seq<T>, b: seq<T>)
    ensures Filter(p, a + b) == Filter(p, a) + Filter(p, b)
  {
    if a == [] {
      assert a + b == b;
    } else {
      assert (a + b)[1..] == a[1..] + b;
      FilterConcat(p, a[1..], b);
    }
  }

  lemma FilterSnoc<T>(p: T -> bool, s: seq<T>, x: T)
    ensures Filter(p, s + [x]) == Filter(p, s) + (if p(x) then [x] else [])
  {
    FilterConcat(p, s, [x]);
  }

  lemma {:induction false} FilterNone<T>(p: T -> bool, s: seq<T>)
    requires forall x | x in s :: !p(x)
    ensures Filter(p, s) == []
  {
    if s != [] {
      FilterNone(p, s[1..]);
    }
  }

  /** Two lists of one length related position by position. */
  ghost predicate Each<T, U>(p: (T, U) -> bool, s: seq<T>, t: seq<U>) {
    |s| == |t| && forall i | 0 <= i < |s| :: p(s[i], t[i])
  }

  lemma EachConcat<T, U>(p: (T, U) -> bool, a: seq<T>, b: seq<T>, x: seq<U>, y: seq<U>)
    requires Each(p, a, x) && Each(p, b, y)
    ensures Each(p, a + b, x + y)
  {}

  lemma EachSnoc<T, U>(p: (T, U) -> bool, s: seq<T>, t: seq<U>, last: U)
    requires s != [] && Each(p, s[..|s| - 1], t) && p(s[|s| - 1], last)
    ensures Each(p, s, t + [last])
  {
    EachConcat(p, s[..|s| - 1], [s[|s| - 1]], t, [last]);
    assert s[..|s| - 1] + [s[|s| - 1]] == s;
  }

  /** Filtering commutes with permuting. */
  lemma {:induction false} FilterCount<T>(p: T -> bool, s: seq<T>, x: T)
    ensures multiset(Filter(p, s))[x] == if p(x) then multiset(s)[x] else 0
  {
    if s != [] {
      assert s == [s[0]] + s[1..];
      FilterCount(p, s[1..], x);
    }
  }

  lemma FilterPermutation<T(!new)>(p: T -> bool, a: seq<T>, b: seq<T>)
    requires multiset(a) == multiset(b)
    ensures multiset(Filter(p, a)) == multiset(Filter(p, b))
  {
    forall x ensures multiset(Filter(p, a))[x] == multiset(Filter(p, b))[x] {
      FilterCount(p, a, x);
      FilterCount(p, b, x);
    }
  }

  /** No later element is smaller than an earlier one: what `sort.Slice` promises. */
  ghost predicate Sorted<T>(less: (T, T) -> bool, s: seq<T>) {
    forall i, j | 0 <= i < j < |s| :: !less(s[j], s[i])
  }

  /** Any two different elements of `s` are ordered one way. */
  ghost predicate Separated<T>(less: (T, T) -> bool, s: seq<T>) {
    forall x, y | x in s && y in s && x != y :: less(x, y) || less(y, x)
  }

  lemma SortedHeadsAgree<T>(less: (T, T) -> bool, a: seq<T>, b: seq<T>)
    requires a != [] && b != [] && a[0] in b && b[0] in a
    requires Sorted(less, a) && Sorted(less, b) && Separated(less, a)
    ensures a[0] == b[0]
  {
    var i :| 0 <= i < |a| && a[i] == b[0];
    var j :| 0 <= j < |b| && b[j] == a[0];
    assert i == 0 || !less(a[i], a[0]);
    assert j == 0 || !less(b[j], b[0]);
  }

  lemma TailMultiset<T>(a: seq<T>)
    requires a != []
    ensures multiset(a[1..]) == multiset(a) - multiset{a[0]}
  {
    assert a == [a[0]] + a[1..];
  }

  /** Two sorted arrangements of the same rows coincide when the order separates the rows. */
  lemma {:induction false} SortedPermutationUnique<T>(less: (T, T) -> bool, a: seq<T>, b: seq<T>)
    requires multiset(a) == multiset(b)
    requires Sorted(less, a) && Sorted(less, b)
    requires Separated(less, a)
    ensures a == b
  {
    SameLength(a, b);
    if a != [] {
      SameMembers(a, b);
      assert a[0] in a && b[0] in b;
      SortedHeadsAgree(less, a, b);
      TailMultiset(a);
      TailMultiset(b);
      SortedPermutationUnique(less, a[1..], b[1..]);
      assert a == [a[0]] + a[1..] && b == [b[0]] + b[1..];
    }
  }

  lemma SameLength<T>(a: seq<T>, b: seq<T>)
    requires multiset(a) == multiset(b)
    ensures |a| == |b|
  {
    assert |multiset(a)| == |a| && |multiset(b)| == |b|;
  }

  lemma SameMembers<T>(a: seq<T>, b: seq<T>)
    requires multiset(a) == multiset(b)
    ensures forall x | x in a :: x in b
    ensures forall x | x in b :: x in a
  {
    forall x | x in a ensures x in b {
      assert x in multiset(a);
    }
    forall x | x in b ensures x in a {
      assert x in multiset(b);
    }
  }

  /** Go's `sort.Slice`: a sorted permutation, nothing promised about ties. */
  method SortSlice<T>(less: (T, T) -> bool, s: seq<T>) returns (r: seq<T>)
    requires forall x, y | x in s && y in s && less(x, y) :: !less(y, x)
    requires forall x, y, z | x in s && y in s && z in s && !less(y, x) && !less(z, y) :: !less(z, x)
    ensures multiset(r) == multiset(s)
    ensures Sorted(less, r)
  {
    r := [];
    for i := 0 to |s|
      invariant multiset(r) == multiset(s[..i])
      invariant Sorted(less, r)
    {
      SameMembers(r, s[..i]);
      var j := InsertionPoint(less, r, s[i]);
      InsertKeepsSorted(less, r, j, s[i], s);
      InsertAdds(r, j, s[i]);
      assert s[..i + 1] == s[..i] + [s[i]];
      r := r[..j] + [s[i]] + r[j..];
    }
    assert s[..|s|] == s;
  }

  /** Behind the last element that is not greater. */
  method InsertionPoint<T>(less: (T, T) -> bool, r: seq<T>, x: T) returns (j: nat)
    ensures j <= |r| && (forall k | j <= k < |r| :: less(x, r[k])) && (j > 0 ==> !less(x, r[j - 1]))
  {
    j := |r|;
    while 0 < j && less(x, r[j - 1])
      invariant 0 <= j <= |r|
      invariant forall k | j <= k < |r| :: less(x, r[k])
    {
      j := j - 1;
    }
  }

  lemma InsertAdds<T>(r: seq<T>, j: nat, x: T)
    requires j <= |r|
    ensures multiset(r[..j] + [x] + r[j..]) == multiset(r) + multiset{x}
  {
    assert r == r[..j] + r[j..];
  }

  lemma InsertKeepsSorted<T>(less: (T, T) -> bool, r: seq<T>, j: int, x: T, s: seq<T>)
    requires forall x, y | x in s && y in s && less(x, y) :: !less(y, x)
    requires forall x, y, z | x in s && y in s && z in s && !less(y, x) && !less(z, y) :: !less(z, x)
    requires Sorted(less, r) && 0 <= j <= |r| && x in s && (forall y | y in r :: y in s)
    requires forall k | j <= k < |r| :: less(x, r[k])
    requires j > 0 ==> !less(x, r[j - 1])
    ensures Sorted(less, r[..j] + [x] + r[j..])
  {
    var t := r[..j] + [x] + r[j..];
    forall a, b | 0 <= a < b < |t| ensures !less(t[b], t[a]) {
      if b == j {
        assert t[a] == r[a] && r[a] in r && r[j - 1] in r;
        assert a == j - 1 || !less(r[j - 1], r[a]);
        if a < j - 1 {
          assert !less(x, r[j - 1]);
        }
      } else if a == j {
        assert t[b] == r[b - 1] && r[b - 1] in r;
      } else {
        assert t[a] == r[if a < j then a else a - 1];
        assert t[b] == r[if b < j then b else b - 1];
      }
    }
  }

  lemma WithoutOne<T>(s: seq<T>, m: nat)
    requires m < |s|
    ensures multiset(s[..m] + s[m + 1..]) == multiset(s) - multiset{s[m]}
    ensures m == |s| - 1 ==> s[..m] + s[m + 1..] == s[..m]
  {
    assert s == s[..m] + ([s[m]] + s[m + 1..]);
    assert multiset(s) == multiset(s[..m]) + (multiset{s[m]} + multiset(s[m + 1..]));
  }

  function Map<T, U>(f: T -> U, s: seq<T>): (r: seq<U>)
    ensures |r| == |s|
    ensures forall i | 0 <= i < |s| :: r[i] == f(s[i])
  {
    seq(|s|, i requires 0 <= i < |s| => f(s[i]))
  }

  /** Mapping commutes with permuting. */
  lemma {:induction false} MapPermutation<T, U>(f: T -> U, a: seq<T>, b: seq<T>)
    requires multiset(a) == multiset(b)
    ensures multiset(Map(f, a)) == multiset(Map(f, b))
  {
    SameLength(a, b);
    if a != [] {
      SameMembers(a, b);
      assert a[0] in b;
      var k :| 0 <= k < |b| && b[k] == a[0];
      var rest := b[..k] + b[k + 1..];
      TailMultiset(a);
      WithoutOne(b, k);
      MapPermutation(f, a[1..], rest);
      MapWithout(f, a, b, k);
    }
  }

  lemma MapWithout<T, U>(f: T -> U, a: seq<T>, b: seq<T>, k: nat)
    requires a != [] && k < |b| && a[0] == b[k]
    requires multiset(Map(f, a[1..])) == multiset(Map(f, b[..k] + b[k + 1..]))
    ensures multiset(Map(f, a)) == multiset(Map(f, b))
  {
    var fa, fb := Map(f, a), Map(f, b);
    TailMultiset(fa);
    WithoutOne(fb, k);
    assert fa[1..] == Map(f, a[1..]);
    assert fb[..k] + fb[k + 1..] == Map(f, b[..k] + b[k + 1..]);
    RestoreOne(fa, fb, k);
  }

  lemma RestoreOne<T>(a: seq<T>, b: seq<T>, k: nat)
    requires a != [] && k < |b| && a[0] == b[k]
    requires multiset(a) - multiset{a[0]} == multiset(b) - multiset{b[k]}
    ensures multiset(a) == multiset(b)
  {
    assert a[0] in multiset(a) && b[k] in multiset(b);
    assert multiset(a) == (multiset(a) - multiset{a[0]}) + multiset{a[0]};
    assert multiset(b) == (multiset(b) - multiset{b[k]}) + multiset{b[k]};
  }
}

/**
 * Stable sorting by a comparator, as `Array.prototype.sort` does it: an insertion sort
 * specified as a function on sequences and carried out in place on an array.
 */
module Sorting {

  /** `le` orders every pair and is transitive. */
  ghost predicate TotalPreorder<T(!new)>(le: (T, T) -> bool)
  {
    && (forall a, b :: le(a, b) || le(b, a))
    && (forall a, b, c :: le(a, b) && le(b, c) ==> le(a, c))
  }

  predicate SortedBy<T>(s: seq<T>, le: (T, T) -> bool)
  {
    forall i, j :: 0 <= i < j < |s| ==> le(s[i], s[j])
  }

  /** Inserts `x` right after the last element of `s` that `le` puts at or before `x`. */
  function Insert<T>(x: T, s: seq<T>, le: (T, T) -> bool): seq<T>
  {
    if s == [] then [x]
    else if le(s[|s| - 1], x) then s + [x]
    else Insert(x, s[..|s| - 1], le) + [s[|s| - 1]]
  }

  /** Inserting adds exactly one element and loses none. */
  lemma {:induction false} InsertPermutes<T>(x: T, s: seq<T>, le: (T, T) -> bool)
    ensures |Insert(x, s, le)| == |s| + 1
    ensures multiset(Insert(x, s, le)) == multiset(s) + multiset{x}
  {
    if s != [] && !le(s[|s| - 1], x) {
      assert s == s[..|s| - 1] + [s[|s| - 1]];
      InsertPermutes(x, s[..|s| - 1], le);
    }
  }

  lemma {:induction false} InsertSorted<T(!new)>(x: T, s: seq<T>, le: (T, T) -> bool)
    requires TotalPreorder(le) && SortedBy(s, le)
    ensures SortedBy(Insert(x, s, le), le)
  {
    if s != [] {
      var init, last := s[..|s| - 1], s[|s| - 1];
      if !le(last, x) {
        InsertSorted(x, init, le);
        InsertPermutes(x, init, le);
        var r := Insert(x, init, le);
        forall i | 0 <= i < |r| ensures le(r[i], last) {
          assert r[i] in multiset(r);
          if r[i] != x {
            var k :| 0 <= k < |init| && init[k] == r[i];
          }
        }
      }
    }
  }

  /** Insertion sort: the sequence a stable sort by `le` produces. */
  function SortBy<T>(s: seq<T>, le: (T, T) -> bool): (r: seq<T>)
    ensures multiset(r) == multiset(s)
  {
    if s == [] then []
    else
      var sorted := SortBy(s[..|s| - 1], le);
      InsertPermutes(s[|s| - 1], sorted, le);
      assert s == s[..|s| - 1] + [s[|s| - 1]];
      Insert(s[|s| - 1], sorted, le)
  }

  /** With a total preorder the result is ordered. */
  lemma {:induction false} SortBySorted<T(!new)>(s: seq<T>, le: (T, T) -> bool)
    requires TotalPreorder(le)
    ensures SortedBy(SortBy(s, le), le)
  {
    if s != [] {
      SortBySorted(s[..|s| - 1], le);
      InsertSorted(s[|s| - 1], SortBy(s[..|s| - 1], le), le);
    }
  }

  /** The elements whose key is `k`, in their order in `s`. */
  function OfKey<T, K(==)>(s: seq<T>, key: T -> K, k: K): seq<T>
  {
    if s == [] then []
    else OfKey(s[..|s| - 1], key, k) + (if key(s[|s| - 1]) == k then [s[|s| - 1]] else [])
  }

  lemma {:induction false} OfKeyConcat<T, K>(a: seq<T>, b: seq<T>, key: T -> K, k: K)
    ensures OfKey(a + b, key, k) == OfKey(a, key, k) + OfKey(b, key, k)
    decreases |b|
  {
    if b == [] {
      assert a + b == a;
    } else {
      var b' := b[..|b| - 1];
      assert (a + b)[..|a + b| - 1] == a + b';
      assert (a + b)[|a + b| - 1] == b[|b| - 1];
      OfKeyConcat(a, b', key, k);
    }
  }

  /** `le` puts elements with equal keys in either order, so it never moves one past another. */
  ghost predicate KeyCompatible<T(!new), K>(le: (T, T) -> bool, key: T -> K)
  {
    forall a, b :: key(a) == key(b) ==> le(a, b)
  }

  lemma {:induction false} InsertStable<T(!new), K>(x: T, s: seq<T>, le: (T, T) -> bool, key: T -> K, k: K)
    requires KeyCompatible(le, key)
    ensures OfKey(Insert(x, s, le), key, k) == OfKey(s, key, k) + OfKey([x], key, k)
  {
    assert [x][..0] == [];
    if s == [] {
      assert Insert(x, s, le) == [] + [x];
    } else {
      var init, last := s[..|s| - 1], s[|s| - 1];
      assert s == init + [last];
      assert [last][..0] == [];
      if le(last, x) {
        OfKeyConcat(s, [x], key, k);
      } else {
        assert key(last) != key(x);
        InsertStable(x, init, le, key, k);
        OfKeyConcat(Insert(x, init, le), [last], key, k);
        OfKeyConcat(init, [last], key, k);
      }
    }
  }

  /** Elements with equal keys keep their relative order. */
  lemma {:induction false} SortStable<T(!new), K>(s: seq<T>, le: (T, T) -> bool, key: T -> K, k: K)
    requires KeyCompatible(le, key)
    ensures OfKey(SortBy(s, le), key, k) == OfKey(s, key, k)
  {
    if s != [] {
      var init, last := s[..|s| - 1], s[|s| - 1];
      assert s == init + [last];
      SortStable(init, le, key, k);
      InsertStable(last, SortBy(init, le), le, key, k);
      OfKeyConcat(init, [last], key, k);
    }
  }

  /** Where `Insert` puts `x`: right after position `j - 1` when everything from `j` on comes after `x`. */
  lemma {:induction false} InsertPosition<T>(x: T, p: seq<T>, j: nat, le: (T, T) -> bool)
    requires j <= |p| && (j == 0 || le(p[j - 1], x))
    requires forall k :: j <= k < |p| ==> !le(p[k], x)
    ensures Insert(x, p, le) == p[..j] + [x] + p[j..]
    decreases |p|
  {
    if |p| > j {
      var init := p[..|p| - 1];
      assert init[..j] == p[..j];
      InsertPosition(x, init, j, le);
      assert p[j..] == init[j..] + [p[|p| - 1]];
    } else {
      assert p[..j] == p;
    }
  }

  /** The array contents after one shift of the insertion loop, as sequences. */
  lemma ShiftStep<T>(b: seq<T>, prefix: seq<T>, j: nat, i: nat)
    requires 0 < j <= i < |b| && |prefix| == i
    requires b[..j] == prefix[..j] && b[j + 1..i + 1] == prefix[j..]
    ensures b[j := b[j - 1]][..j - 1] == prefix[..j - 1]
    ensures b[j := b[j - 1]][j..i + 1] == prefix[j - 1..]
    ensures b[j := b[j - 1]][i + 1..] == b[i + 1..]
  {
    var c := b[j := b[j - 1]];
    assert c[j..i + 1] == [b[j - 1]] + b[j + 1..i + 1];
    assert prefix[j - 1..] == [prefix[j - 1]] + prefix[j..];
  }

  /** The array contents once `x` is written where the insertion loop stopped. */
  lemma PlaceStep<T>(b: seq<T>, prefix: seq<T>, x: T, j: nat, i: nat)
    requires j <= i < |b| && |prefix| == i
    requires b[..j] == prefix[..j] && b[j + 1..i + 1] == prefix[j..]
    ensures b[j := x][..i + 1] == prefix[..j] + [x] + prefix[j..]
    ensures b[j := x][i + 1..] == b[i + 1..]
  {
    var c := b[j := x];
    assert c[..i + 1] == c[..j] + [x] + c[j + 1..i + 1];
  }

  /** Moves `a[i]` left past the elements of `a[..i]` that `le` puts after it: one insertion step. */
  method InsertAt<T>(a: array<T>, i: nat, le: (T, T) -> bool)
    requires i < a.Length
    modifies a
    ensures a[..i + 1] == Insert(old(a[i]), old(a[..i]), le)
    ensures a[i + 1..] == old(a[i + 1..])
  {
    var x := a[i];
    ghost var prefix := a[..i];
    ghost var rest := a[i + 1..];
    assert prefix[..i] == prefix && prefix[i..] == [];
    var j := i;
    while j > 0 && !le(a[j - 1], x)
      invariant 0 <= j <= i
      invariant a[..j] == prefix[..j]
      invariant a[j + 1..i + 1] == prefix[j..]
      invariant a[i + 1..] == rest
      invariant forall k :: j <= k < i ==> !le(prefix[k], x)
    {
      ShiftStep(a[..], prefix, j, i);
      a[j] := a[j - 1];
      j := j - 1;
    }
    InsertPosition(x, prefix, j, le);
    PlaceStep(a[..], prefix, x, j, i);
    a[j] := x;
  }

  /** Sorting one more element inserts it into the sorted prefix. */
  lemma SortBySnoc<T>(s: seq<T>, i: nat, le: (T, T) -> bool)
    requires i < |s|
    ensures SortBy(s[..i + 1], le) == Insert(s[i], SortBy(s[..i], le), le)
  {
    assert s[..i + 1][..i] == s[..i];
  }

  /** Sorts the array in place, stably by `le`. */
  method SortInPlace<T(!new)>(a: array<T>, le: (T, T) -> bool)
    modifies a
    ensures a[..] == SortBy(old(a[..]), le)
  {
    ghost var orig := a[..];
    var i := 0;
    while i < a.Length
      invariant 0 <= i <= a.Length
      invariant a[..i] == SortBy(orig[..i], le)
      invariant a[i..] == orig[i..]
    {
      assert a[i] == a[i..][0] == orig[i..][0] == orig[i];
      assert a[i + 1..] == a[i..][1..] == orig[i..][1..] == orig[i + 1..];
      SortBySnoc(orig, i, le);
      InsertAt(a, i, le);
      i := i + 1;
    }
    assert a[..] == a[..a.Length];
    assert orig == orig[..a.Length];
  }
}

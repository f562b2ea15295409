/** Small shared building blocks: an optional value and order-preserving filtering. */
module Common {

  datatype Option<+T> = None | Some(value: T)

  /** The elements of `s` that satisfy `p`, in their original order (JavaScript's `Array.prototype.filter`). */
  function Filter<T(!new)>(s: seq<T>, p: T -> bool): (r: seq<T>)
    ensures |r| <= |s|
    ensures forall x :: x in r <==> x in s && p(x)
    ensures forall i :: 0 <= i < |r| ==> p(r[i])
    ensures multiset(r) <= multiset(s)
  {
    if s == [] then []
    else
      var init := Filter(s[..|s| - 1], p);
      assert s == s[..|s| - 1] + [s[|s| - 1]];
      if p(s[|s| - 1]) then init + [s[|s| - 1]] else init
  }

  lemma {:induction false} FilterConcat<T(!new)>(a: seq<T>, b: seq<T>, p: T -> bool)
    ensures Filter(a + b, p) == Filter(a, p) + Filter(b, p)
    decreases |b|
  {
    if b == [] {
      assert a + b == a;
    } else {
      var b' := b[..|b| - 1];
      assert (a + b)[..|a + b| - 1] == a + b';
      assert (a + b)[|a + b| - 1] == b[|b| - 1];
      FilterConcat(a, b', p);
    }
  }

  /** Filtering keeps the whole sequence exactly when every element passes. */
  lemma {:induction false} FilterKeepsAll<T(!new)>(s: seq<T>, p: T -> bool)
    ensures (forall x :: x in s ==> p(x)) <==> Filter(s, p) == s
  {
    if s != [] && forall x :: x in s ==> p(x) {
      var init, last := s[..|s| - 1], s[|s| - 1];
      assert s == init + [last];
      assert p(last);
      assert forall x :: x in init ==> p(x);
      FilterKeepsAll(init, p);
    }
  }

  /** Filtering twice by the same test is the same as filtering once. */
  lemma FilterIdempotent<T(!new)>(s: seq<T>, p: T -> bool)
    ensures Filter(Filter(s, p), p) == Filter(s, p)
  {
    FilterKeepsAll(Filter(s, p), p);
  }

  /** No element occurs twice. */
  predicate Distinct<T(==)>(s: seq<T>)
  {
    forall i, j :: 0 <= i < j < |s| ==> s[i] != s[j]
  }

  lemma {:induction false} DistinctAtMostOnce<T>(s: seq<T>, v: T)
    requires Distinct(s)
    ensures multiset(s)[v] <= 1
  {
    if s != [] {
      var init, last := s[..|s| - 1], s[|s| - 1];
      assert s == init + [last];
      assert Distinct(init);
      DistinctAtMostOnce(init, v);
      if v == last {
        forall k | 0 <= k < |init| ensures init[k] != v {
          assert init[k] == s[k];
        }
      }
    }
  }

  lemma RepeatCountsTwice<T>(s: seq<T>, i: nat, j: nat)
    requires i < j < |s| && s[i] == s[j]
    ensures multiset(s)[s[i]] >= 2
  {
    assert s == s[..j] + [s[j]] + s[j + 1..];
    assert s[..j][i] == s[i];
  }

  /** Sequences with the same multiset hold the same elements. */
  lemma SameElements<T>(s: seq<T>, r: seq<T>)
    requires multiset(s) == multiset(r)
    ensures forall v :: v in s <==> v in r
  {
    forall v ensures v in s <==> v in r {
      assert v in s <==> v in multiset(s);
      assert v in r <==> v in multiset(r);
    }
  }

  /** A rearrangement of a sequence without repeats has none either. */
  lemma DistinctPermutation<T>(s: seq<T>, r: seq<T>)
    requires Distinct(s) && multiset(s) == multiset(r)
    ensures Distinct(r)
  {
    forall i, j | 0 <= i < j < |r| ensures r[i] != r[j] {
      if r[i] == r[j] {
        RepeatCountsTwice(r, i, j);
        DistinctAtMostOnce(s, r[i]);
      }
    }
  }
}

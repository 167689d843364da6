/**
 * The array combinators the store is written with (`filter`, `map`, `find`),
 * as functions on sequences, with the facts the store's contracts rest on.
 */
module Seqs {
  import opened Types

  /** `r` is `s` with some elements left out, the rest in their original order. */
  predicate IsSubsequence<T(==)>(r: seq<T>, s: seq<T>)
    decreases |s|
  {
    if r == [] then true
    else if s == [] then false
    else if r[0] == s[0] then IsSubsequence(r[1..], s[1..])
    else IsSubsequence(r, s[1..])
  }

  /** No element occurs twice. */
  predicate Distinct<T(==)>(s: seq<T>) {
    forall i, j :: 0 <= i < j < |s| ==> s[i] != s[j]
  }

  /**
   * `s.filter(p)`: every element of `s` satisfying `p`, each as often as it
   * occurs in `s`, in the order of `s`, and nothing else.
   */
  function Filter<T(==,!new)>(s: seq<T>, p: T -> bool): (r: seq<T>)
    ensures |r| <= |s|
    ensures forall x :: x in r <==> x in s && p(x)
  {
    if s == [] then []
    else
      var rest := Filter(s[1..], p);
      assert s == [s[0]] + s[1..];
      if p(s[0]) then [s[0]] + rest else rest
  }

  /**
   * The filtered sequence keeps exactly the occurrences that satisfy `p`, in
   * their original order: a subsequence with the right multiplicities.
   */
  lemma {:induction false} FilterExact<T(!new)>(s: seq<T>, p: T -> bool)
    ensures IsSubsequence(Filter(s, p), s)
    ensures forall x :: multiset(Filter(s, p))[x] == if p(x) then multiset(s)[x] else 0
  {
    if s != [] {
      FilterExact(s[1..], p);
      assert s == [s[0]] + s[1..];
    }
  }

  /** `s.map(f)`: same length, each position transformed by `f`. */
  function Map<T, U>(s: seq<T>, f: T -> U): (r: seq<U>)
    ensures |r| == |s|
    ensures forall i :: 0 <= i < |s| ==> r[i] == f(s[i])
  {
    if s == [] then [] else [f(s[0])] + Map(s[1..], f)
  }

  /** `s.findIndex(p)`, as an option: the first position whose element satisfies `p`. */
  function FindFirst<T>(s: seq<T>, p: T -> bool): (r: Option<nat>)
    ensures r.Some? ==> r.value < |s| && p(s[r.value])
    ensures r.Some? ==> forall j :: 0 <= j < r.value ==> !p(s[j])
    ensures r.None? ==> forall j :: 0 <= j < |s| ==> !p(s[j])
  {
    if s == [] then None
    else if p(s[0]) then Some(0)
    else match FindFirst(s[1..], p)
      case None => None
      case Some(i) => Some(i + 1)
  }

  /** `s.filter(x => x !== u)`: every occurrence of `u` taken out. */
  function Without<T(==,!new)>(s: seq<T>, u: T): seq<T> {
    Filter(s, x => x != u)
  }

  /** Filtering with a predicate every element satisfies keeps the sequence whole. */
  lemma {:induction false} FilterKeepsAll<T(!new)>(s: seq<T>, p: T -> bool)
    requires forall x :: x in s ==> p(x)
    ensures Filter(s, p) == s
  {
    if s != [] {
      FilterKeepsAll(s[1..], p);
    }
  }

  /** Filtering distributes over concatenation. */
  lemma {:induction false} FilterConcat<T(!new)>(a: seq<T>, b: seq<T>, p: T -> bool)
    ensures Filter(a + b, p) == Filter(a, p) + Filter(b, p)
  {
    if a == [] {
      assert a + b == b;
    } else {
      assert (a + b)[1..] == a[1..] + b;
      FilterConcat(a[1..], b, p);
    }
  }

  /** Taking out `u` keeps every other occurrence, in order, and no occurrence of `u`. */
  lemma WithoutExact<T(!new)>(s: seq<T>, u: T)
    ensures IsSubsequence(Without(s, u), s)
    ensures forall x :: multiset(Without(s, u))[x] == if x != u then multiset(s)[x] else 0
  {
    FilterExact(s, x => x != u);
  }

  /** The tail of a sequence without repetitions has none either, and lacks the head. */
  lemma DistinctTail<T>(s: seq<T>)
    requires Distinct(s) && s != []
    ensures Distinct(s[1..]) && s[0] !in s[1..]
  {
    forall i, j | 0 <= i < j < |s[1..]| ensures s[1..][i] != s[1..][j] {
      assert s[1..][i] == s[i + 1] && s[1..][j] == s[j + 1];
    }
    forall j | 0 <= j < |s[1..]| ensures s[1..][j] != s[0] {
      assert s[1..][j] == s[j + 1];
    }
  }

  /** Prepending an absent element to a sequence without repetitions keeps it so. */
  lemma DistinctCons<T>(x: T, s: seq<T>)
    requires Distinct(s) && x !in s
    ensures Distinct([x] + s)
  {
    var r := [x] + s;
    forall i, j | 0 <= i < j < |r| ensures r[i] != r[j] {
      assert r[j] == s[j - 1];
      if i > 0 {
        assert r[i] == s[i - 1];
      }
    }
  }

  /** Removing every occurrence of a value that occurs exactly once shortens the sequence by one. */
  lemma {:induction false} FilterOutDistinct<T(!new)>(s: seq<T>, u: T)
    requires Distinct(s)
    ensures Distinct(Without(s, u))
    ensures u in s ==> |Without(s, u)| == |s| - 1
    ensures u !in s ==> Without(s, u) == s
  {
    if s != [] {
      DistinctTail(s);
      FilterOutDistinct(s[1..], u);
      var rest := Without(s[1..], u);
      assert s == [s[0]] + s[1..];
      if s[0] != u {
        DistinctCons(s[0], rest);
      }
    }
  }

  /** Appending an absent element to a sequence without repetitions keeps it so. */
  lemma DistinctSnoc<T>(s: seq<T>, x: T)
    requires Distinct(s) && x !in s
    ensures Distinct(s + [x])
  {
  }

  /** Taking out an element that was just appended, and occurred nowhere else, restores the sequence. */
  lemma WithoutAppended<T(!new)>(s: seq<T>, u: T)
    requires u !in s
    ensures Without(s + [u], u) == s
  {
    FilterConcat(s, [u], x => x != u);
    FilterKeepsAll(s, x => x != u);
    assert Filter([u], x => x != u) == [];
  }
}

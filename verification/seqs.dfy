/** Sequence operations shared by the query model and the supply ranking:
    filtering, a `limit`/`slice(0, n)` prefix and a sort in descending order
    of an integer key. */
module Seqs {

  function Min(a: int, b: int): int {
    if a <= b then a else b
  }

  /** `s.filter(p)`: the elements of `s` satisfying `p`, in their original order. */
  function Filter<T>(s: seq<T>, p: T -> bool): (r: seq<T>)
    ensures |r| <= |s|
    ensures forall x :: x in r ==> x in s && p(x)
    ensures forall x :: x in s && p(x) ==> x in r
    ensures forall x :: x in multiset(s) && p(x) ==> multiset(r)[x] == multiset(s)[x]
  {
    if s == [] then []
    else
      assert s == [s[0]] + s[1..];
      if p(s[0]) then [s[0]] + Filter(s[1..], p) else Filter(s[1..], p)
  }

  /** `s.slice(0, n)` and `limit(n)`: the first `n` elements, or all of them if fewer. */
  function Take<T>(s: seq<T>, n: nat): (r: seq<T>)
    ensures |r| == Min(n, |s|)
    ensures forall k :: 0 <= k < |r| ==> r[k] == s[k]
  {
    if n <= |s| then s[..n] else s
  }

  /** `s` is in non-increasing order of `key`. */
  ghost predicate SortedDescBy<T>(s: seq<T>, key: T -> int) {
    forall i, j :: 0 <= i < j < |s| ==> key(s[i]) >= key(s[j])
  }

  /** No element of `s` occurs twice. */
  ghost predicate NoDuplicates<T>(s: seq<T>) {
    forall i, j :: 0 <= i < j < |s| ==> s[i] != s[j]
  }

  /** No element of `s` has a key above `k`. */
  ghost predicate KeysAtMost<T>(s: seq<T>, k: int, key: T -> int) {
    forall i :: 0 <= i < |s| ==> key(s[i]) <= k
  }

  /** A bound on the keys survives any rearrangement. */
  lemma PermutationKeepsKeysAtMost<T>(a: seq<T>, b: seq<T>, k: int, key: T -> int)
    requires multiset(a) == multiset(b) && KeysAtMost(b, k, key)
    ensures KeysAtMost(a, k, key)
  {
    forall i | 0 <= i < |a| ensures key(a[i]) <= k {
      assert a[i] in multiset(b);
      var j :| 0 <= j < |b| && b[j] == a[i];
    }
  }

  /** Inserts `x` into a sorted sequence, ahead of the elements whose key it
      does not exceed. */
  function InsertDescBy<T>(x: T, s: seq<T>, key: T -> int): (r: seq<T>)
    requires SortedDescBy(s, key)
    ensures SortedDescBy(r, key)
    ensures multiset(r) == multiset(s) + multiset{x}
  {
    if s == [] then [x]
    else if key(x) >= key(s[0]) then [x] + s
    else
      var tail := s[1..];
      var rest := InsertDescBy(x, tail, key);
      assert s == [s[0]] + tail;
      assert KeysAtMost(tail + [x], key(s[0]), key);
      PermutationKeepsKeysAtMost(rest, tail + [x], key(s[0]), key);
      [s[0]] + rest
  }

  /** `s.sort((a, b) => key(b) - key(a))`: the elements of `s` rearranged in
      non-increasing order of `key`. */
  function SortDescBy<T>(s: seq<T>, key: T -> int): (r: seq<T>)
    ensures SortedDescBy(r, key)
    ensures multiset(r) == multiset(s)
    ensures |r| == |s|
  {
    if s == [] then []
    else
      assert s == [s[0]] + s[1..];
      InsertDescBy(s[0], SortDescBy(s[1..], key), key)
  }

  /** An element occurring at two positions has multiplicity at least two. */
  lemma RepeatedElementCount<T>(s: seq<T>, i: int, j: int)
    requires 0 <= i < j < |s| && s[i] == s[j]
    ensures multiset(s)[s[i]] >= 2
  {
    assert s == s[..i] + [s[i]] + s[i + 1..j] + [s[j]] + s[j + 1..];
  }

  /** Without repeats, every element has multiplicity at most one. */
  lemma {:induction false} NoDuplicatesCount<T>(s: seq<T>, x: T)
    requires NoDuplicates(s)
    ensures multiset(s)[x] <= 1
  {
    if s != [] {
      assert s == [s[0]] + s[1..];
      assert NoDuplicates(s[1..]);
      NoDuplicatesCount(s[1..], x);
      if x == s[0] {
        assert x !in s[1..];
      }
    }
  }

  /** Rearranging a sequence without repeats cannot create one. */
  lemma PermutationKeepsNoDuplicates<T>(s: seq<T>, r: seq<T>)
    requires NoDuplicates(s) && multiset(s) == multiset(r)
    ensures NoDuplicates(r)
  {
    forall i, j | 0 <= i < j < |r| ensures r[i] != r[j] {
      if r[i] == r[j] {
        RepeatedElementCount(r, i, j);
        NoDuplicatesCount(s, r[i]);
      }
    }
  }
}

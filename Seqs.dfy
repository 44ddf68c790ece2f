/** Sequence helpers shared by the components: an optional value, element-wise mapping,
    distinctness, and the facts that mapping and distinctness survive a permutation. */
module Seqs {

  datatype Option<+T> = None | Some(value: T)

  /** The integers 1, 2, ..., n in ascending order. */
  function OneTo(n: nat): (r: seq<int>)
    ensures |r| == n
    ensures forall i :: 0 <= i < n ==> r[i] == i + 1
  {
    if n == 0 then [] else OneTo(n - 1) + [n]
  }

  /** No element occurs twice. */
  predicate Distinct<T(==)>(s: seq<T>) {
    forall i, j :: 0 <= i < j < |s| ==> s[i] != s[j]
  }

  /** Every element of s, in order, passed through f (JavaScript's Array.prototype.map). */
  function Map<T, U>(s: seq<T>, f: T -> U): (r: seq<U>)
    ensures |r| == |s|
  {
    if s == [] then [] else [f(s[0])] + Map(s[1..], f)
  }

  /** Element i of the mapped sequence is f of element i. */
  lemma {:induction false} MapAt<T, U>(s: seq<T>, f: T -> U)
    ensures forall i :: 0 <= i < |s| ==> Map(s, f)[i] == f(s[i])
  {
    if s != [] {
      MapAt(s[1..], f);
    }
  }

  lemma MultisetRemove<T>(b: seq<T>, k: nat)
    requires k < |b|
    ensures multiset(b) == multiset(b[..k] + b[k + 1..]) + multiset{b[k]}
  {
    assert b == b[..k] + [b[k]] + b[k + 1..];
  }

  /** Taking one element out of a sequence takes its image out of the mapped sequence. */
  lemma {:induction false} MapRemove<T, U>(b: seq<T>, k: nat, f: T -> U)
    requires k < |b|
    ensures multiset(Map(b, f)) == multiset(Map(b[..k] + b[k + 1..], f)) + multiset{f(b[k])}
    decreases k
  {
    var rest := b[..k] + b[k + 1..];
    MapHead(b, f);
    if k == 0 {
      assert rest == b[1..];
    } else {
      var tail := b[1..];
      MapRemove(tail, k - 1, f);
      RemoveAfterHead(b, k);
      MapHead(rest, f);
      assert tail[k - 1] == b[k];
    }
  }

  /** The multiset of a mapped non-empty sequence: the image of the head plus the mapped tail. */
  lemma MapHead<T, U>(s: seq<T>, f: T -> U)
    requires s != []
    ensures multiset(Map(s, f)) == multiset{f(s[0])} + multiset(Map(s[1..], f))
  {
    assert Map(s, f) == [f(s[0])] + Map(s[1..], f);
  }

  /** Two permutations of each other stay so once one copy of a shared element leaves each. */
  lemma PermutationRemove<T>(a: seq<T>, b: seq<T>, k: nat)
    requires multiset(a) == multiset(b)
    requires a != [] && k < |b| && b[k] == a[0]
    ensures multiset(a[1..]) == multiset(b[..k] + b[k + 1..])
  {
    var rest := b[..k] + b[k + 1..];
    MultisetRemove(a, 0);
    MultisetRemove(b, k);
    assert a[..0] + a[1..] == a[1..];
    assert multiset(a[1..]) + multiset{a[0]} == multiset(rest) + multiset{a[0]};
    forall y
      ensures multiset(a[1..])[y] == multiset(rest)[y]
    {
      assert (multiset(a[1..]) + multiset{a[0]})[y] == (multiset(rest) + multiset{a[0]})[y];
    }
  }

  /** Removing element k > 0 keeps the head and removes element k - 1 of the tail. */
  lemma RemoveAfterHead<T>(b: seq<T>, k: nat)
    requires 0 < k < |b|
    ensures var rest := b[..k] + b[k + 1..];
      && rest[0] == b[0]
      && rest[1..] == b[1..][..k - 1] + b[1..][k..]
  {
    var rest := b[..k] + b[k + 1..];
    assert rest == [b[0]] + (b[1..][..k - 1] + b[1..][k..]);
  }

  /** Mapping two permutations of each other gives two permutations of each other. */
  lemma {:induction false} MapPermutation<T, U>(a: seq<T>, b: seq<T>, f: T -> U)
    requires multiset(a) == multiset(b)
    ensures multiset(Map(a, f)) == multiset(Map(b, f))
    decreases |a|
  {
    if a != [] {
      assert a[0] in multiset(b);
      var k :| 0 <= k < |b| && b[k] == a[0];
      PermutationRemove(a, b, k);
      MapPermutation(a[1..], b[..k] + b[k + 1..], f);
      MapRemove(b, k, f);
      MapRemove(a, 0, f);
      assert a[..0] + a[1..] == a[1..];
    }
  }

  /** A sequence is distinct exactly when no element occurs more than once in its multiset. */
  lemma {:induction false} DistinctIffSingleOccurrences<T>(s: seq<T>)
    ensures Distinct(s) <==> forall x :: multiset(s)[x] <= 1
  {
    if Distinct(s) {
      DistinctHasSingleOccurrences(s);
    } else {
      var i, j :| 0 <= i < j < |s| && s[i] == s[j];
      assert s == s[..i] + [s[i]] + s[i + 1..j] + [s[j]] + s[j + 1..];
      assert multiset(s)[s[i]] >= 2;
    }
  }

  lemma {:induction false} DistinctHasSingleOccurrences<T>(s: seq<T>)
    requires Distinct(s)
    ensures forall x :: multiset(s)[x] <= 1
  {
    if s != [] {
      assert s == [s[0]] + s[1..];
      DistinctHasSingleOccurrences(s[1..]);
      assert s[0] !in s[1..];
    }
  }

  /** A permutation of a distinct sequence is distinct. */
  lemma PermutationKeepsDistinct<T>(a: seq<T>, b: seq<T>)
    requires multiset(a) == multiset(b)
    requires Distinct(a)
    ensures Distinct(b)
  {
    DistinctIffSingleOccurrences(a);
    DistinctIffSingleOccurrences(b);
  }
}

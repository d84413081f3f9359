/**
 * The part of Go's `sort` package that the core relies on: `sort.Sort` on a
 * slice ordered by a string key (SortedMap.Sort) and `sort.Strings` (which is
 * `sort.Sort` on a string slice). Both promise only that the slice ends up a
 * permutation of itself, ordered by `Less`; neither promises stability. One
 * in-place insertion sort stands for both, parameterised by the key.
 */
module GoSort {
  import Strings

  /** Keys never decrease along `s`. */
  ghost predicate SortedBy<E>(s: seq<E>, key: E -> string)
  {
    forall i, j :: 0 <= i < j < |s| ==> !Strings.Less(key(s[j]), key(s[i]))
  }

  /** No two elements of `s` share a key. */
  ghost predicate DistinctBy<E>(s: seq<E>, key: E -> string)
  {
    forall i, j :: 0 <= i < j < |s| ==> key(s[i]) != key(s[j])
  }

  /** Keys strictly increase along `s`. */
  ghost predicate StrictlySortedBy<E>(s: seq<E>, key: E -> string)
  {
    forall i, j :: 0 <= i < j < |s| ==> Strings.Less(key(s[i]), key(s[j]))
  }

  /** Exchanges positions `i` and `j` of `a`; every other position is unchanged. */
  method Swap<E>(a: array<E>, i: int, j: int)
    requires 0 <= i < a.Length && 0 <= j < a.Length
    modifies a
    ensures a[..] == old(a[..])[i := old(a[j])][j := old(a[i])]
    ensures multiset(a[..]) == old(multiset(a[..]))
  {
    a[i], a[j] := a[j], a[i];
  }

  /** Sorts `a` in place by `key`: a permutation of the old contents, keys non-decreasing. */
  method Sort<E>(a: array<E>, key: E -> string)
    modifies a
    ensures SortedBy(a[..], key)
    ensures multiset(a[..]) == old(multiset(a[..]))
  {
    var i := 0;
    while i < a.Length
      invariant 0 <= i <= a.Length
      invariant forall p, q :: 0 <= p < q < i ==> !Strings.Less(key(a[q]), key(a[p]))
      invariant multiset(a[..]) == old(multiset(a[..]))
    {
      var j := i;
      while j > 0 && Strings.Less(key(a[j]), key(a[j - 1]))
        invariant 0 <= j <= i
        invariant multiset(a[..]) == old(multiset(a[..]))
        // a[..i+1] is in order except that a[j] may be below its left neighbours
        invariant forall p, q :: 0 <= p < q <= i && q != j ==> !Strings.Less(key(a[q]), key(a[p]))
      {
        Strings.Asymmetric(key(a[j]), key(a[j - 1]));
        Swap(a, j - 1, j);
        j := j - 1;
      }
      forall p | 0 <= p < j - 1
        ensures !Strings.Less(key(a[j]), key(a[p]))
      {
        Strings.NotAboveTransitive(key(a[p]), key(a[j - 1]), key(a[j]));
      }
      i := i + 1;
    }
  }

  /** Occurrences of an element of a key-distinct sequence: at most one. */
  lemma {:induction false} DistinctCount<E>(s: seq<E>, key: E -> string, x: E)
    requires DistinctBy(s, key)
    ensures multiset(s)[x] <= 1
  {
    if s != [] {
      var rest := s[1..];
      assert s == [s[0]] + rest;
      assert DistinctBy(rest, key) by {
        forall i, j | 0 <= i < j < |rest| ensures key(rest[i]) != key(rest[j]) {
          assert rest[i] == s[i + 1] && rest[j] == s[j + 1];
        }
      }
      DistinctCount(rest, key, x);
      if s[0] == x {
        forall k | 0 <= k < |rest| ensures rest[k] != x {
          assert key(s[0]) != key(s[k + 1]);
        }
        assert x !in rest;
      }
    }
  }

  /** An element that stands at two positions occurs at least twice. */
  lemma TwiceCount<E>(t: seq<E>, i: int, j: int)
    requires 0 <= i < j < |t| && t[i] == t[j]
    ensures multiset(t)[t[i]] >= 2
  {
    assert t == t[..j] + t[j..];
    assert t[i] in t[..j];
    assert t[j] == t[j..][0];
    assert multiset(t) == multiset(t[..j]) + multiset(t[j..]);
  }

  /** A permutation of a key-distinct sequence is key-distinct. */
  lemma PermutationKeepsDistinct<E>(s: seq<E>, t: seq<E>, key: E -> string)
    requires multiset(s) == multiset(t)
    requires DistinctBy(s, key)
    ensures DistinctBy(t, key)
  {
    forall i, j | 0 <= i < j < |t|
      ensures key(t[i]) != key(t[j])
    {
      assert t[i] in multiset(s) && t[j] in multiset(s);
      var p :| 0 <= p < |s| && s[p] == t[i];
      var q :| 0 <= q < |s| && s[q] == t[j];
      if p == q {
        TwiceCount(t, i, j);
        DistinctCount(s, key, t[i]);
        assert false;
      }
      assert if p < q then key(s[p]) != key(s[q]) else key(s[q]) != key(s[p]);
    }
  }

  /** Sorted and key-distinct means strictly sorted. */
  lemma SortedDistinctIsStrict<E>(s: seq<E>, key: E -> string)
    requires SortedBy(s, key) && DistinctBy(s, key)
    ensures StrictlySortedBy(s, key)
  {
    forall i, j | 0 <= i < j < |s|
      ensures Strings.Less(key(s[i]), key(s[j]))
    {
      Strings.NotAboveAndDifferent(key(s[i]), key(s[j]));
    }
  }
}

/**
 * Package sortedmap: a slice of key/value pairs that can be sorted by key.
 * Keys are strings here, the only key type the logging core instantiates it with
 * (`Fields.Sorted`).
 */
module SortedMap {
  import Strings
  import GoSort

  /** One entry of a SortedMap. */
  datatype KeyValuePair<T> = KeyValuePair(key: string, value: T)

  /** A SortedMap is a slice of pairs; as a value it is a sequence. */
  type SortedMap<T> = seq<KeyValuePair<T>>

  function Key<T>(p: KeyValuePair<T>): string { p.key }

  /** Keys strictly increase along `s`. */
  ghost predicate StrictlyAscending<T>(s: SortedMap<T>)
  {
    forall i, j :: 0 <= i < j < |s| ==> Strings.Less(s[i].key, s[j].key)
  }

  /** `Len()`: the number of pairs. */
  function Len<T>(s: SortedMap<T>): (n: int)
    ensures n == |s|
  {
    |s|
  }

  /** `Less(i, j)`: the key at `i` is below the key at `j` (a strict order on positions). */
  function Less<T>(s: SortedMap<T>, i: int, j: int): (r: bool)
    requires 0 <= i < |s| && 0 <= j < |s|
    ensures r <==> Strings.Less(s[i].key, s[j].key)
    ensures r ==> !Strings.Less(s[j].key, s[i].key) && s[i].key != s[j].key
  {
    var r := Strings.Less(s[i].key, s[j].key);
    if r then
      Strings.Asymmetric(s[i].key, s[j].key);
      Strings.Irreflexive(s[i].key);
      r
    else r
  }

  /** `Swap(i, j)`: exchanges positions i and j of the slice in place. */
  method Swap<T>(s: array<KeyValuePair<T>>, i: int, j: int)
    requires 0 <= i < s.Length && 0 <= j < s.Length
    modifies s
    ensures s[i] == old(s[j]) && s[j] == old(s[i])
    ensures forall k :: 0 <= k < s.Length && k != i && k != j ==> s[k] == old(s[k])
  {
    s[i], s[j] := s[j], s[i];
  }

  /** `Sort()`: sorts the slice in place by key (not stable). */
  method Sort<T>(s: array<KeyValuePair<T>>)
    modifies s
    ensures forall i, j :: 0 <= i < j < s.Length ==> !Less(s[..], j, i)
    ensures multiset(s[..]) == old(multiset(s[..]))
  {
    GoSort.Sort(s, Key);
  }

  /** `Add(k, v)`: the old pairs in their order, followed by the new one; no re-sorting. */
  function Add<T>(s: SortedMap<T>, key: string, value: T): (r: SortedMap<T>)
    ensures |r| == |s| + 1
    ensures r[..|s|] == s
    ensures r[|s|] == KeyValuePair(key, value)
  {
    s + [KeyValuePair(key, value)]
  }

  /** `Keys()`: the keys, position by position. */
  method Keys<T>(s: SortedMap<T>) returns (keys: seq<string>)
    ensures |keys| == |s|
    ensures forall i :: 0 <= i < |s| ==> keys[i] == s[i].key
  {
    keys := [];
    for i := 0 to |s|
      invariant |keys| == i
      invariant forall k :: 0 <= k < i ==> keys[k] == s[k].key
    {
      keys := keys + [s[i].key];
    }
  }

  /** `Values()`: the values, position by position. */
  method Values<T>(s: SortedMap<T>) returns (values: seq<T>)
    ensures |values| == |s|
    ensures forall i :: 0 <= i < |s| ==> values[i] == s[i].value
  {
    values := [];
    for i := 0 to |s|
      invariant |values| == i
      invariant forall k :: 0 <= k < i ==> values[k] == s[k].value
    {
      values := values + [s[i].value];
    }
  }

  /** The pairs of `m` in the unspecified order in which Go's `range` visits them. */
  method Collect<T>(m: map<string, T>) returns (pairs: SortedMap<T>)
    ensures |pairs| == |m|
    ensures forall i :: 0 <= i < |pairs| ==> pairs[i].key in m && m[pairs[i].key] == pairs[i].value
    ensures forall k :: k in m ==> exists i :: 0 <= i < |pairs| && pairs[i].key == k
    ensures GoSort.DistinctBy(pairs, Key)
  {
    pairs := [];
    var rest := m.Keys;
    while rest != {}
      invariant rest <= m.Keys
      invariant |pairs| + |rest| == |m|
      invariant forall i :: 0 <= i < |pairs| ==> pairs[i].key in m && pairs[i].key !in rest && m[pairs[i].key] == pairs[i].value
      invariant forall k :: k in m && k !in rest ==> exists i :: 0 <= i < |pairs| && pairs[i].key == k
      invariant GoSort.DistinctBy(pairs, Key)
      decreases rest
    {
      var k :| k in rest;
      ghost var before := pairs;
      pairs := pairs + [KeyValuePair(k, m[k])];
      rest := rest - {k};
      forall k' | k' in m && k' !in rest
        ensures exists i :: 0 <= i < |pairs| && pairs[i].key == k'
      {
        if k' == k {
          assert pairs[|before|].key == k';
        } else {
          var i :| 0 <= i < |before| && before[i].key == k';
          assert pairs[i].key == k';
        }
      }
    }
  }

  /**
   * `AsSortedMap(m)`: one pair per entry of `m`, in ascending key order. Go ranges
   * over a map in an unspecified order (Collect), then sorts the slice in place.
   */
  method AsSortedMap<T>(m: map<string, T>) returns (s: SortedMap<T>)
    ensures |s| == |m|
    ensures forall i :: 0 <= i < |s| ==> s[i].key in m && m[s[i].key] == s[i].value
    ensures forall k :: k in m ==> exists i :: 0 <= i < |s| && s[i].key == k
    ensures StrictlyAscending(s)
  {
    var pairs := Collect(m);
    var a := new KeyValuePair<T>[|pairs|](i requires 0 <= i < |pairs| => pairs[i]);
    assert a[..] == pairs;
    Sort(a);
    s := a[..];
    assert GoSort.SortedBy(s, Key) by {
      forall i, j | 0 <= i < j < |s| ensures !Strings.Less(s[j].key, s[i].key) {
        assert !Less(s, j, i);
      }
    }
    GoSort.PermutationKeepsDistinct(pairs, s, Key);
    GoSort.SortedDistinctIsStrict(s, Key);
    assert |s| == |pairs| by {
      assert |multiset(s)| == |multiset(pairs)|;
    }
    forall i | 0 <= i < |s|
      ensures s[i].key in m && m[s[i].key] == s[i].value
    {
      assert s[i] in multiset(pairs);
    }
    forall k | k in m
      ensures exists i :: 0 <= i < |s| && s[i].key == k
    {
      var p :| 0 <= p < |pairs| && pairs[p].key == k;
      assert pairs[p] in multiset(s);
      var i :| 0 <= i < |s| && s[i] == pairs[p];
    }
  }
}

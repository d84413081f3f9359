/**
 * The field maps attached to log entries (logger.go, interface.go): Go's
 * `Fields map[string]interface{}`, the `Fielder` capability, error values that
 * may carry their own fields, and the last-write-wins flattening of a stack of
 * field maps that every finalized entry goes through.
 */
module Fields {
  import opened Wrappers
  import Strings
  import GoSort
  import SortedMap

  /**
   * A field value: Go's `interface{}`. Only the kinds the core itself creates or
   * inspects are told apart; `Any` stands for every other Go value.
   */
  datatype Value =
    | Nil                    // the nil interface value
    | Int(i: int)            // an int64, e.g. the "duration" in milliseconds
    | Str(s: string)
    | Err(failure: Failure)  // an `error`, e.g. the "error" field
    | Any(id: nat)

  /**
   * A non-nil Go `error`: its `Error()` text and, when its type also implements
   * `Fielder`, the fields it exposes.
   */
  datatype Failure = Failure(text: string, context: Option<map<string, Value>>)

  /** Go's `Fields`: a string-keyed map of values. A nil map behaves as the empty map. */
  type Fields = map<string, Value>

  /** Anything implementing `Fielder`: a `Fields` map itself, or an error type that exposes fields. */
  datatype Fielder = Plain(fields: Fields) | Structured(failure: Failure) {
    /** An error is a Fielder only when its type provides `Fields()`. */
    predicate Valid() { Structured? ==> failure.context.Some? }
  }

  /** `Fielder.Fields()`: the identity on a `Fields` map; an error's own fields otherwise. */
  function FieldsOf(f: Fielder): (r: Fields)
    requires f.Valid()
    ensures f.Plain? ==> r == f.fields
    ensures f.Structured? ==> r == f.failure.context.value
  {
    match f
    case Plain(m) => m
    case Structured(e) => e.context.value
  }

  /** `Fields.Get(name)`: the stored value, or nil when the name is absent. */
  function Get(f: Fields, name: string): (v: Value)
    ensures name in f ==> v == f[name]
    ensures name !in f ==> v == Nil
  {
    if name in f then f[name] else Nil
  }

  /** `Fields.Names()`: every key exactly once, in ascending order. */
  method Names(f: Fields) returns (names: seq<string>)
    ensures |names| == |f|
    ensures forall i :: 0 <= i < |names| ==> names[i] in f
    ensures forall k :: k in f ==> k in names
    ensures forall i, j :: 0 <= i < j < |names| ==> Strings.Less(names[i], names[j])
  {
    var collected: seq<string> := [];
    var rest := f.Keys;
    while rest != {}
      invariant rest <= f.Keys
      invariant |collected| + |rest| == |f|
      invariant forall i :: 0 <= i < |collected| ==> collected[i] in f && collected[i] !in rest
      invariant forall k :: k in f && k !in rest ==> k in collected
      invariant GoSort.DistinctBy(collected, Identity)
      decreases rest
    {
      var k :| k in rest;
      collected := collected + [k];
      rest := rest - {k};
    }
    var a := new string[|collected|](i requires 0 <= i < |collected| => collected[i]);
    assert a[..] == collected;
    GoSort.Sort(a, Identity);
    names := a[..];
    GoSort.PermutationKeepsDistinct(collected, names, Identity);
    GoSort.SortedDistinctIsStrict(names, Identity);
    assert |names| == |collected| by {
      assert |multiset(names)| == |multiset(collected)|;
    }
    forall i | 0 <= i < |names|
      ensures names[i] in f
    {
      assert names[i] in multiset(collected);
    }
    forall k | k in f
      ensures k in names
    {
      assert k in multiset(collected);
    }
  }

  /** The key by which `Names` sorts: the string itself. */
  function Identity(s: string): string { s }

  /** `Fields.Sorted()`: one pair per field, in ascending key order. */
  method Sorted(f: Fields) returns (s: SortedMap.SortedMap<Value>)
    ensures |s| == |f|
    ensures forall i :: 0 <= i < |s| ==> s[i].key in f && f[s[i].key] == s[i].value
    ensures forall k :: k in f ==> exists i :: 0 <= i < |s| && s[i].key == k
    ensures SortedMap.StrictlyAscending(s)
  {
    s := SortedMap.AsSortedMap(f);
  }

  /**
   * The flattening of a field stack: layers are applied in order and a later
   * layer overrides an earlier one on a shared key (`mergedFields`).
   */
  function Merge(stack: seq<Fields>): Fields
  {
    if stack == [] then map[]
    else Merge(stack[..|stack| - 1]) + stack[|stack| - 1]
  }

  /** Pushing a layer merges it on top. */
  lemma MergePush(stack: seq<Fields>, layer: Fields)
    ensures Merge(stack + [layer]) == Merge(stack) + layer
  {
    assert (stack + [layer])[..|stack|] == stack;
  }

  /** A key is in the flattened map iff some layer holds it. */
  lemma {:induction false} MergeKeys(stack: seq<Fields>, k: string)
    ensures k in Merge(stack) <==> exists i :: 0 <= i < |stack| && k in stack[i]
  {
    if stack != [] {
      var init := stack[..|stack| - 1];
      MergeKeys(init, k);
      if k in Merge(stack) && k !in stack[|stack| - 1] {
        var i :| 0 <= i < |init| && k in init[i];
        assert stack[i] == init[i];
      }
      if exists i :: 0 <= i < |stack| && k in stack[i] {
        var i :| 0 <= i < |stack| && k in stack[i];
        if i < |init| {
          assert init[i] == stack[i];
        }
      }
    }
  }

  /** The flattened value of a key is the one in the last layer holding it. */
  lemma {:induction false} MergeLastWins(stack: seq<Fields>, i: int, k: string)
    requires 0 <= i < |stack| && k in stack[i]
    requires forall j :: i < j < |stack| ==> k !in stack[j]
    ensures k in Merge(stack) && Merge(stack)[k] == stack[i][k]
  {
    var init := stack[..|stack| - 1];
    if i < |stack| - 1 {
      assert init[i] == stack[i];
      forall j | i < j < |init| ensures k !in init[j] {
        assert init[j] == stack[j];
      }
      MergeLastWins(init, i, k);
    }
  }

  /** A key that no layer holds is missing from the flattened map. */
  lemma {:induction false} MergeAbsent(stack: seq<Fields>, k: string)
    requires forall j :: 0 <= j < |stack| ==> k !in stack[j]
    ensures k !in Merge(stack)
  {
    if stack != [] {
      var init := stack[..|stack| - 1];
      forall j | 0 <= j < |init| ensures k !in init[j] {
        assert init[j] == stack[j];
      }
      MergeAbsent(init, k);
    }
  }

  /** An empty layer changes nothing, wherever it stands. */
  lemma {:induction false} MergeEmptyLayer(front: seq<Fields>, back: seq<Fields>)
    ensures Merge(front + [map[]] + back) == Merge(front + back)
  {
    if back == [] {
      MergePush(front, map[]);
      assert front + [map[]] + back == front + [map[]];
      assert front + back == front;
    } else {
      var b := back[..|back| - 1];
      var l := back[|back| - 1];
      MergeEmptyLayer(front, b);
      assert front + [map[]] + back == (front + [map[]] + b) + [l];
      assert front + back == (front + b) + [l];
      MergePush(front + [map[]] + b, l);
      MergePush(front + b, l);
    }
  }

  /** The layers `WithError` pushes for a non-nil error: "error", then the error's own fields. */
  function ErrorLayers(e: Failure): (r: seq<Fields>)
    ensures |r| == if e.context.Some? then 2 else 1
    ensures r[0] == map["error" := Err(e)]
    ensures e.context.Some? ==> r[1] == e.context.value
  {
    [map["error" := Err(e)]] + if e.context.Some? then [e.context.value] else []
  }

  /**
   * Flattening after `WithError(e)`: the "error" key holds `e` unless the error's
   * own fields also name "error", in which case those win; every other key of
   * the error's fields is present with its value.
   */
  lemma ErrorLayersMerge(stack: seq<Fields>, e: Failure)
    ensures Merge(stack + ErrorLayers(e)) ==
            Merge(stack)["error" := Err(e)] + (if e.context.Some? then e.context.value else map[])
  {
    var one := stack + [map["error" := Err(e)]];
    MergePush(stack, map["error" := Err(e)]);
    if e.context.Some? {
      assert stack + ErrorLayers(e) == one + [e.context.value];
      MergePush(one, e.context.value);
    } else {
      assert stack + ErrorLayers(e) == one;
    }
  }
}

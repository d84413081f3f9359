/**
 * Go's ordering of strings. Go compares strings byte by byte. For valid UTF-8,
 * the encoding preserves the order of code points, so comparing the characters of
 * a `string` (a sequence of Unicode scalar values) lexicographically gives the
 * same order. A Go string may hold bytes that are not valid UTF-8; a Dafny string
 * cannot, so such strings are outside this model. Dafny's own `<` on sequences
 * means "proper prefix", so the order is defined here.
 */
module Strings {

  /**
   * Strict lexicographic order: Go's `a < b` on strings. Only different strings
   * are related, and a proper prefix is below the longer string.
   */
  function Less(a: string, b: string): (r: bool)
    ensures r ==> a != b
    ensures |a| < |b| && a == b[..|a|] ==> r
    decreases |a|
  {
    if |a| == 0 then |b| > 0
    else if |b| == 0 then false
    else if a[0] < b[0] then true
    else if a[0] == b[0] then Less(a[1..], b[1..])
    else false
  }

  /** No string is below itself. */
  lemma {:induction false} Irreflexive(a: string)
    ensures !Less(a, a)
    decreases |a|
  {
    if |a| > 0 {
      Irreflexive(a[1..]);
    }
  }

  /** Less is transitive. */
  lemma {:induction false} Transitive(a: string, b: string, c: string)
    requires Less(a, b) && Less(b, c)
    ensures Less(a, c)
    decreases |a|
  {
    if |a| > 0 && a[0] == b[0] && b[0] == c[0] {
      Transitive(a[1..], b[1..], c[1..]);
    }
  }

  /** Any two different strings are ordered one way or the other. */
  lemma {:induction false} Total(a: string, b: string)
    requires a != b
    ensures Less(a, b) || Less(b, a)
    decreases |a|
  {
    if |a| > 0 && |b| > 0 && a[0] == b[0] {
      assert a == [a[0]] + a[1..] && b == [b[0]] + b[1..];
      Total(a[1..], b[1..]);
    }
  }

  /** Less is asymmetric: two strings are never below each other. */
  lemma Asymmetric(a: string, b: string)
    requires Less(a, b)
    ensures !Less(b, a)
  {
    if Less(b, a) {
      Transitive(a, b, a);
      Irreflexive(a);
    }
  }

  /** "Not above" is transitive: the non-strict order a sort produces chains. */
  lemma NotAboveTransitive(a: string, b: string, c: string)
    requires !Less(b, a) && !Less(c, b)
    ensures !Less(c, a)
  {
    if Less(c, a) {
      if a == b {
      } else {
        Total(a, b);
        Transitive(c, a, b);
      }
    }
  }

  /** Non-strict and different means strictly below. */
  lemma NotAboveAndDifferent(a: string, b: string)
    requires !Less(b, a) && a != b
    ensures Less(a, b)
  {
    Total(a, b);
  }
}

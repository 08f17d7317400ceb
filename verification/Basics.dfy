/** Values that may be missing, Go's int64, and what several modules need of sequences and sets. */
module Basics {

  datatype Option<T> = None | Some(value: T)

  type Int64 = n: int | -0x8000_0000_0000_0000 <= n < 0x8000_0000_0000_0000

  const MAX_INT64: Int64 := 0x7FFF_FFFF_FFFF_FFFF

  lemma Associates<T>(a: seq<T>, b: seq<T>, c: seq<T>)
    ensures a + b + c == a + (b + c)
  {
  }

  lemma Fewer<T>(a: set<T>, b: set<T>)
    requires a <= b
    ensures |a| <= |b| && (a < b ==> |a| < |b|)
  {
    assert b == a + (b - a);
    assert a < b ==> b - a != {};
  }

  /** The first place of x in s from i on, or the length of s. */
  function IndexFrom<T(==)>(s: seq<T>, x: T, i: nat): (k: nat)
    requires i <= |s|
    ensures i <= k <= |s| && (k < |s| ==> s[k] == x) && forall j | i <= j < k :: s[j] != x
    decreases |s| - i
  {
    if i == |s| || s[i] == x then i else IndexFrom(s, x, i + 1)
  }
}

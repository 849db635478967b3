/** Vocabulary shared by the models: options, bytes and subsequences. */
module Prelude {

  datatype Option<+T> = None | Some(value: T)

  type byte = x: int | 0 <= x < 256

  type Bytes = seq<byte>

  /** The last element of a sequence, if there is one. */
  function Last<T>(s: seq<T>): (r: Option<T>) {
    if s == [] then None else Some(s[|s| - 1])
  }

  /** `a` is `b` with some elements left out, the order kept. */
  ghost predicate IsSubsequence<T>(a: seq<T>, b: seq<T>)
    decreases |b|
  {
    || a == []
    || (b != [] && IsSubsequence(a, b[..|b| - 1]))
    || (b != [] && a[|a| - 1] == b[|b| - 1] && IsSubsequence(a[..|a| - 1], b[..|b| - 1]))
  }

  /** Appending one element to the whole, and optionally to the part, keeps the relation. */
  lemma SubsequenceExtends<T>(a: seq<T>, b: seq<T>, x: T)
    requires IsSubsequence(a, b)
    ensures IsSubsequence(a, b + [x])
    ensures IsSubsequence(a + [x], b + [x])
  {
    assert (b + [x])[..|b + [x]| - 1] == b;
    assert (a + [x])[..|a + [x]| - 1] == a;
  }

  /** A subsequence is never longer, and one of full length is the whole. */
  lemma {:induction false} SubsequenceLength<T>(a: seq<T>, b: seq<T>)
    requires IsSubsequence(a, b)
    ensures |a| <= |b|
    ensures |a| == |b| ==> a == b
    decreases |b|
  {
    if a != [] {
      var b0 := b[..|b| - 1];
      if IsSubsequence(a, b0) {
        SubsequenceLength(a, b0);
      } else {
        SubsequenceLength(a[..|a| - 1], b0);
        assert a == a[..|a| - 1] + [a[|a| - 1]];
        assert b == b0 + [b[|b| - 1]];
      }
    }
  }

  /** Every element of a subsequence is an element of the whole. */
  lemma {:induction false} SubsequenceMembers<T>(a: seq<T>, b: seq<T>)
    requires IsSubsequence(a, b)
    ensures forall x :: x in a ==> x in b
    decreases |b|
  {
    if a != [] {
      var b0 := b[..|b| - 1];
      if IsSubsequence(a, b0) {
        SubsequenceMembers(a, b0);
      } else {
        SubsequenceMembers(a[..|a| - 1], b0);
        assert a == a[..|a| - 1] + [a[|a| - 1]];
      }
    }
  }
}

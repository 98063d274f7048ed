/** Small shared vocabulary: an optional value and the subsequence order. */
module Wrappers {
  /** A value that may be absent (Python's `None`). */
  datatype Option<+T> = None | Some(value: T)
}

module Sequences {
  /** `a` can be obtained from `b` by deleting elements, keeping the order of the rest. */
  predicate IsSubsequence<T(==)>(a: seq<T>, b: seq<T>)
    decreases |b|
  {
    if a == [] then true
    else if b == [] then false
    else (a[0] == b[0] && IsSubsequence(a[1..], b[1..])) || IsSubsequence(a, b[1..])
  }

  /** Taking a prefix of `s + [x]` no longer than `s` is taking it of `s`. */
  lemma PrefixOfSnoc<T>(s: seq<T>, x: T, k: nat)
    requires k <= |s|
    ensures (s + [x])[..k] == s[..k]
  {
  }
}

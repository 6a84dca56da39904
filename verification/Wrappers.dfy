// A value that may be missing, and elements that occur twice.

module Wrappers {
  datatype Option<+T> = None | Some(value: T)

  // An element at two places is counted twice.
  lemma TwiceIn<T>(t: seq<T>, i: nat, j: nat)
    requires i < j < |t| && t[i] == t[j]
    ensures multiset(t)[t[i]] >= 2
  {
    assert t == t[..j] + t[j..];
    assert t[..j][i] == t[i] && t[j..][0] == t[i];
  }
}

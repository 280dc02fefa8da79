/** Absence of a value: a NULL result or a failed lookup of the C code. */
module Basics {
  datatype Option<+T> = None | Some(value: T)

  /** STUN_VALID_CHANNEL */
  predicate ValidChannel(n: nat) {
    0x4000 <= n <= 0x7FFF
  }

  /** A subset is no larger, and of the same size only if it is the whole set. */
  lemma SubsetSize<T>(a: set<T>, b: set<T>)
    requires a <= b
    ensures |a| <= |b| && (|a| == |b| ==> a == b)
  {
    assert b == a + (b - a);
  }
}


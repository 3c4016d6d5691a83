/** Facts about sequences that several modules' proofs share. */
module Sequences {
  /** Appending sequences is associative; stated once so that proofs do not rediscover it. */
  lemma AppendAssociative<T>(a: seq<T>, b: seq<T>, c: seq<T>)
    ensures (a + b) + c == a + (b + c)
  {
  }

  /** Sequences that append the same tail to equal heads are equal. */
  lemma AppendSameTail<T>(l: seq<T>, r: seq<T>, l0: seq<T>, r0: seq<T>, t: seq<T>)
    requires l == l0 + t && r == r0 + t && l0 == r0
    ensures l == r
  {
  }
}

/** Facts about sequences that several proofs spell out. */
module Sequences {
  lemma Regroup<T>(a: seq<T>, b: seq<T>, c: seq<T>)
    ensures a + b + c == a + (b + c)
    ensures a + ([] + c) == a + c
  {}
}

/** An optional value, and a fact about sequences that proofs name instead of searching for it. */
module Wrappers {
  datatype Option<+T> = None | Some(value: T)

  lemma Associative<T>(a: seq<T>, b: seq<T>, c: seq<T>)
    ensures a + b + c == a + (b + c)
  {
  }
}

/** Small facts about sequences that the proofs elsewhere rely on. */
module Sequences {
  /** Regrouping a concatenation; output and traces are built up by it. */
  lemma Regroup<T>(a: seq<T>, b: seq<T>, c: seq<T>)
    ensures a + b + c == a + (b + c)
  {
  }
}

/** A helper for all modules that build lists and texts from parts: the same concatenation, grouped in another way. */
module Sequences {
  lemma {:induction false} Associate<T>(a: seq<T>, b: seq<T>, c: seq<T>)
    ensures a + (b + c) == a + b + c
  {
  }
}

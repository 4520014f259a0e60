/**
 * Facts about sequences that the proofs about the loop over lines rely on,
 * kept apart so that each is proved once, away from the loop's definitions.
 */
module Seqs {

  lemma AppendAssoc<T>(a: seq<T>, b: seq<T>, c: seq<T>)
    ensures a + b + c == a + (b + c)
  {
  }

  /** The empty sequence is neutral on both sides. */
  lemma AppendEmpty<T>(xs: seq<T>)
    ensures [] + xs == xs && xs + [] == xs
  {
  }

  /** The head and the tail of `xs + ys` when `xs` is not empty. */
  lemma ConsAppend<T>(xs: seq<T>, ys: seq<T>)
    requires xs != []
    ensures xs + ys != [] && (xs + ys)[0] == xs[0] && (xs + ys)[1..] == xs[1..] + ys
  {
  }

  /** The head and the tail of `[x] + rest`. */
  lemma HeadTail<T>(x: T, rest: seq<T>)
    ensures ([x] + rest)[0] == x && ([x] + rest)[1..] == rest
  {
  }

  // Every way of cutting a short display in two.

  lemma Split2<T>(a: T, b: T)
    ensures [a, b] == [a] + [b]
  {
  }

  lemma Split3<T>(a: T, b: T, c: T)
    ensures [a, b, c] == [a] + [b, c] && [a, b, c] == [a, b] + [c]
  {
  }

  lemma Split4<T>(a: T, b: T, c: T, d: T)
    ensures [a, b, c, d] == [a] + [b, c, d]
    ensures [a, b, c, d] == [a, b] + [c, d]
    ensures [a, b, c, d] == [a, b, c] + [d]
  {
  }

  lemma Split5<T>(a: T, b: T, c: T, d: T, e: T)
    ensures [a, b, c, d, e] == [a] + [b, c, d, e]
    ensures [a, b, c, d, e] == [a, b] + [c, d, e]
    ensures [a, b, c, d, e] == [a, b, c] + [d, e]
    ensures [a, b, c, d, e] == [a, b, c, d] + [e]
  {
  }

  lemma Split6<T>(a: T, b: T, c: T, d: T, e: T, f: T)
    ensures [a, b, c, d, e, f] == [a] + [b, c, d, e, f]
  {
  }
}

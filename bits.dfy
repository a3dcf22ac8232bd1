/**
 * Flag words. A C flags word (`guint`, a 32-bit mask) is modelled as the set
 * of positions of its set bits: `a | b` is union, `a & !b` is difference,
 * `a & b != 0` is a nonempty intersection and the word 0 is the empty set.
 */
module Bits {

  type Bit = i: nat | i < 32

  type Word = set<Bit>

  /** The word `1 << i`. */
  function Flag(i: Bit): (w: Word)
    ensures |w| == 1 && i in w
  {
    {i}
  }

  /** `a & b != 0`. */
  predicate Intersects(a: Word, b: Word) { a * b != {} }
}

/**
 * The doubles the model computes with: a finite value is a real, and every
 * result IEEE-754 makes non-finite (NaN from 0/0, an infinity from x/0)
 * is one value that compares false with everything under `>`.
 */
module Doubles {
  datatype Double = Finite(value: real) | NonFinite

  /** `a * b`; non-finite as soon as one factor is. */
  function Mul(a: Double, b: Double): Double {
    if a.Finite? && b.Finite? then Finite(a.value * b.value) else NonFinite
  }

  /** Multiplication is associative, non-finite values included. */
  lemma MulAssoc(a: Double, b: Double, c: Double)
    ensures Mul(Mul(a, b), c) == Mul(a, Mul(b, c))
  {
    if a.Finite? && b.Finite? && c.Finite? {
      assert (a.value * b.value) * c.value == a.value * (b.value * c.value);
    }
  }

  /** 1.0 is the unit of multiplication. */
  lemma MulOne(a: Double)
    ensures Mul(a, Finite(1.0)) == a
  {
  }

  /** `a / b` for finite operands; non-finite when b is 0. */
  function Div(a: real, b: real): Double {
    if b == 0.0 then NonFinite else Finite(a / b)
  }

  /** C#'s `a > b`: false whenever one side is NaN. */
  predicate Greater(a: Double, b: Double) {
    a.Finite? && b.Finite? && a.value > b.value
  }
}

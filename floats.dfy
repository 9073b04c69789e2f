/**
 * The two float constants the code base relies on, as exact reals.
 * Measurements are modelled as reals; IEEE rounding is not modelled.
 */
module Floats {

  /**
   * Float.MIN_VALUE, that is 2^-149: the smallest POSITIVE float. The code
   * uses it as the "measurement absent" sentinel and as the start value of
   * the running maximum.
   */
  const MIN_VALUE: real := 0.00000000000000000000000000000000000000000000140129846432481707092372958328991613128026194187651577175706828388979108268586060148663818836212158203125

  /** Float.MAX_VALUE, that is (2 - 2^-23) * 2^127: the start value of the running minimum. */
  const MAX_VALUE: real := 340282346638528859811704183484516925440.0

  /** Sum of a sequence of reals, left to right. */
  function Sum(s: seq<real>): real
  {
    if s == [] then 0.0 else Sum(s[..|s| - 1]) + s[|s| - 1]
  }

  /** Summing a sequence extended by one element adds that element. */
  lemma {:induction false} SumAppend(s: seq<real>, x: real)
    ensures Sum(s + [x]) == Sum(s) + x
  {
    assert (s + [x])[..|s + [x]| - 1] == s;
  }
}

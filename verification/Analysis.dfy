/** What is assumed of the two real functions the scores use. */
module Analysis {
  /** Zero at 1 and strictly increasing. */
  ghost predicate IsLn(ln: real -> real) {
    ln(1.0) == 0.0 && forall x, y :: 0.0 < x < y ==> ln(x) < ln(y)
  }

  /** The non-negative root of a non-negative number. */
  ghost predicate IsSqrt(sqrt: real -> real) {
    forall x :: x >= 0.0 ==> sqrt(x) >= 0.0 && sqrt(x) * sqrt(x) == x
  }
}

/** The few facts of real arithmetic the limiter's proofs rest on. */
module RealArithmetic {
  function Min(a: real, b: real): real {
    if a <= b then a else b
  }

  lemma MulNonNeg(a: real, b: real)
    requires a >= 0.0 && b >= 0.0
    ensures a * b >= 0.0
  {
  }

  lemma Distribute(x: real, y: real, r: real)
    ensures (x - y) * r == x * r - y * r
  {
  }
}

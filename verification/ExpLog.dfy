/** What is assumed of the exponential and the logarithm: both are parameters, so every
    result holds for any functions that satisfy these laws. */
module ExpLog {

  ghost predicate Exponential(exp: real -> real) {
    && exp(0.0) == 1.0
    && (forall a, b, c {:trigger exp(a), exp(b), exp(c)} :: c == a + b ==> exp(c) == exp(a) * exp(b))
  }

  lemma ExpZero(exp: real -> real, a: real)
    requires Exponential(exp) && a == 0.0
    ensures exp(a) == 1.0
  {}

  lemma ExpSum(exp: real -> real, a: real, b: real, c: real)
    requires Exponential(exp) && c == a + b
    ensures exp(c) == exp(a) * exp(b)
  {}
}

/** Declarations that several modules share. */
module Common {

  datatype Option<T> = None | Some(value: T)

  type Byte = x: int | 0 <= x < 256

  /** The tolerance of controller/ratio_sync.go for prices and ratios. */
  const EPSILON := 0.000000001

  predicate NearlyEqual(a: real, b: real) {
    if a > b then a - b < EPSILON else b - a < EPSILON
  }

  /** Less than a billionth apart. */
  lemma NearlyEqualIff(a: real, b: real)
    ensures NearlyEqual(a, b) <==> -0.000000001 < a - b < 0.000000001
  {
  }
}

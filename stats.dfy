/** Sums and arithmetic means over exact reals (the model's stand-in for float tensors). */
module Stats {

  function Sum(xs: seq<real>): real
  {
    if xs == [] then 0.0 else xs[0] + Sum(xs[1..])
  }

  /** The arithmetic mean, as `tensor.mean()` computes it; undefined for an empty list. */
  function Mean(xs: seq<real>): real
    requires xs != []
  {
    Sum(xs) / |xs| as real
  }

  lemma {:induction false} SumBounds(xs: seq<real>, lo: real, hi: real)
    requires forall i :: 0 <= i < |xs| ==> lo <= xs[i] <= hi
    ensures lo * |xs| as real <= Sum(xs) <= hi * |xs| as real
  {
    if xs != [] {
      SumBounds(xs[1..], lo, hi);
    }
  }

  /** A mean lies between any lower and upper bound of the values averaged. */
  lemma MeanBounds(xs: seq<real>, lo: real, hi: real)
    requires xs != []
    requires forall i :: 0 <= i < |xs| ==> lo <= xs[i] <= hi
    ensures lo <= Mean(xs) <= hi
  {
    SumBounds(xs, lo, hi);
    var n := |xs| as real;
    ScaledBound(lo, Sum(xs), n);
    ScaledBound(-hi, -Sum(xs), n);
    assert -Sum(xs) / n == -(Sum(xs) / n);
  }

  /** Dividing `b * n <= s` by a positive n. */
  lemma ScaledBound(b: real, s: real, n: real)
    requires n > 0.0 && b * n <= s
    ensures b <= s / n
  {
    assert s / n - b == (s - b * n) / n;
  }

  /** The mean of n copies of c is c. */
  lemma MeanOfCopies(xs: seq<real>, c: real)
    requires xs != []
    requires forall i :: 0 <= i < |xs| ==> xs[i] == c
    ensures Mean(xs) == c
  {
    MeanBounds(xs, c, c);
  }

  /** A ratio of a part to a positive whole lies in [0, 1]. */
  lemma FractionInUnit(part: real, whole: real)
    requires 0.0 <= part <= whole && whole > 0.0
    ensures 0.0 <= part / whole <= 1.0
  {
    assert part / whole * whole == part;
  }
}

/** The random draws of the source (`Math.random()`), supplied from outside
    as numbers in [0, 1). */
module Oracle {

  /** A value `Math.random()` can return. */
  predicate IsUnit(u: real) {
    0.0 <= u < 1.0
  }

  /** `Math.floor(Math.random() * n)`: an index into a list of length `n`. */
  function RandomIndex(u: real, n: nat): (k: nat)
    requires IsUnit(u) && n > 0
    ensures k < n
  {
    ScaledBelow(u, n);
    (u * n as real).Floor
  }

  lemma ScaledBelow(u: real, n: nat)
    requires IsUnit(u) && n > 0
    ensures 0.0 <= u * n as real < n as real
  {
    assert u * n as real <= u * n as real + (1.0 - u) * n as real;
  }

  lemma MulNonnegative(a: real, b: real)
    requires a >= 0.0 && b >= 0.0
    ensures a * b >= 0.0
  {
  }

  /** A draw scaled by a non-negative total stays within [0, total]. */
  lemma ScaledAtMost(u: real, t: real)
    requires IsUnit(u) && t >= 0.0
    ensures 0.0 <= u * t <= t
  {
    MulNonnegative(u, t);
    MulNonnegative(1.0 - u, t);
    assert (1.0 - u) * t == t - u * t;
  }

  /** Index `k` is drawn exactly when the draw falls in [k/n, (k+1)/n): each
      index of the list is equally likely. */
  lemma RandomIndexInterval(u: real, n: nat, k: nat)
    requires IsUnit(u) && n > 0
    ensures RandomIndex(u, n) == k <==> k as real <= u * n as real < (k + 1) as real
  {
  }
}

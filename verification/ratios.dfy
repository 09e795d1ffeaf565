/**
  Facts about the ratios `part / whole` that the classifiers and the
  monitors compute: accuracies, match fractions and success rates.
*/
module Ratios {
  /** A real whose product with a positive number is non-negative is non-negative. */
  lemma NonNegativeFactor(a: real, n: real)
    requires n > 0.0 && a * n >= 0.0
    ensures a >= 0.0
  {
    assert a == (a * n) / n;
  }

  /**
    A part of a positive whole is a fraction in [0, 1]; it is 1 exactly when
    the part is the whole, 0 exactly when the part is empty, and positive
    otherwise.
  */
  lemma FractionBounds(part: nat, whole: nat)
    requires 0 < whole && part <= whole
    ensures 0.0 <= part as real / whole as real <= 1.0
    ensures part as real / whole as real == 1.0 <==> part == whole
    ensures part as real / whole as real == 0.0 <==> part == 0
    ensures 0 < part ==> 0.0 < part as real / whole as real
  {
    var q := part as real / whole as real;
    assert q * whole as real == part as real;
    assert (1.0 - q) * whole as real == whole as real - part as real;
    NonNegativeFactor(1.0 - q, whole as real);
    NonNegativeFactor(q, whole as real);
  }

  /** A part that is at least 30% of a positive whole, in whole numbers, is a fraction of at least 0.3. */
  lemma AtLeastThreeTenths(part: nat, whole: nat)
    requires 0 < whole && 10 * part >= 3 * whole
    ensures part as real / whole as real >= 3.0 / 10.0
  {
    var q := part as real / whole as real;
    assert q * whole as real == part as real;
    assert (10.0 * q - 3.0) * whole as real == 10.0 * part as real - 3.0 * whole as real;
    NonNegativeFactor(10.0 * q - 3.0, whole as real);
  }
}

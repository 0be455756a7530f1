/**
 * Material model: the steel modulus, the Whitney stress-block factor beta1 as a
 * function of the concrete strength f'c, and the strength-reduction factor phi as
 * a function of the net tensile strain at the extreme tension steel.
 * All quantities are exact reals.
 */
module MaterialModel {
  import opened Arith

  /** Modulus of elasticity of the reinforcing steel, in ksi. */
  const Es: real := 29000.0

  /**
   * Stress-block depth factor beta1. The breakpoints 4000 and 8000 are applied to
   * whatever number the caller passes as `fc`.
   */
  function Beta1(fc: real): (r: real)
    ensures 0.65 <= r <= 0.85
    ensures fc <= 4000.0 ==> r == 0.85
    // The code tests `fc > 8000`, but the interpolation already reaches 0.65 at 8000.
    ensures fc >= 8000.0 ==> r == 0.65
    ensures 4000.0 < fc < 8000.0 ==> 0.65 < r < 0.85
  {
    if fc <= 4000.0 then 0.85
    else if fc > 8000.0 then 0.65
    else 0.85 - 0.05 * (fc - 4000.0) / 1000.0
  }

  /** A stronger concrete never has a larger beta1. */
  lemma Beta1NonIncreasing(fc1: real, fc2: real)
    requires fc1 <= fc2
    ensures Beta1(fc2) <= Beta1(fc1)
  {
  }

  /**
   * beta1 is Lipschitz-continuous with constant 0.05 per 1000: in particular it is
   * continuous at both breakpoints, so no jump occurs at 4000 or at 8000.
   */
  lemma Beta1Lipschitz(fc1: real, fc2: real)
    ensures Abs(Beta1(fc1) - Beta1(fc2)) <= Abs(fc1 - fc2) / 20000.0
  {
  }

  /** Strength-reduction factor phi from the net tensile strain. */
  function StrengthReductionFactor(epsilonT: real): (r: real)
    ensures 0.65 <= r <= 0.9
    ensures epsilonT >= 0.005 ==> r == 0.9
    ensures epsilonT <= 0.002 ==> r == 0.65
    ensures 0.002 < epsilonT < 0.005 ==> 0.65 < r < 0.9
  {
    if epsilonT >= 0.005 then 0.9
    else if epsilonT <= 0.002 then 0.65
    else 0.65 + (epsilonT - 0.002) * (0.9 - 0.65) / (0.005 - 0.002)
  }

  /** A larger net tensile strain never gives a smaller phi. */
  lemma StrengthReductionNonDecreasing(eps1: real, eps2: real)
    requires eps1 <= eps2
    ensures StrengthReductionFactor(eps1) <= StrengthReductionFactor(eps2)
  {
  }

  /**
   * phi is Lipschitz-continuous with constant 0.25 / 0.003: the interpolation
   * meets both plateaus, at 0.002 and at 0.005.
   */
  lemma StrengthReductionLipschitz(eps1: real, eps2: real)
    ensures Abs(StrengthReductionFactor(eps1) - StrengthReductionFactor(eps2))
            <= Abs(eps1 - eps2) * 250.0 / 3.0
  {
  }
}

/**
 * Section solver, closed-form part: the cover selector, the error kinds shared by
 * both solvers, and the singly reinforced section (force equilibrium, strain
 * compatibility and statics in one pass).
 *
 * Units follow the source: lengths in inches, stresses in ksi, areas in square
 * inches, forces in kips; moments are returned in kip-ft.
 */
module SectionSolver {
  import opened Arith
  import opened MaterialModel

  /**
   * The divisions the source performs without checking. In the source each of them
   * raises ZeroDivisionError; the model returns the kind instead.
   */
  datatype Error =
    | ZeroBlockDenominator  // 0.85 * fc * b is zero when the block depth is computed
    | ZeroNeutralAxis       // the neutral-axis depth c is zero when a strain is computed
    | ZeroResistingForce    // Cc + Cs is zero when the trial depth is corrected

  datatype Result<T> = Ok(value: T) | Err(error: Error)

  /** Depth from the top face to the extreme tension layer is always h - 2.5. */
  const ExtremeTensionCover: real := 2.5

  /** Concrete cover to the tension-steel centroid, from the number of tension layers. */
  function Cover(layers: int): (r: real)
    ensures r == 3.5 <==> layers == 2
    ensures r == 2.5 <==> layers != 2
  {
    if layers == 2 then 3.5 else 2.5
  }

  /** Force of the Whitney block: a uniform stress 0.85 * fc over width b and depth a. */
  function BlockForce(fc: real, b: real, a: real): real {
    0.85 * fc * b * a
  }

  /**
   * Depth of the Whitney block from force equilibrium: the concrete block force
   * 0.85 * fc * b * a balances the yielded steel force As * fy.
   */
  function BlockDepth(As: real, fy: real, fc: real, b: real): (a: real)
    requires fc * b != 0.0
    ensures BlockForce(fc, b, a) == As * fy
  {
    (As * fy) / (0.85 * fc * b)
  }

  /** Neutral-axis depth c from the block depth, since a = beta1 * c. */
  function NeutralAxisDepth(a: real, fc: real): (c: real)
    ensures a == Beta1(fc) * c
    ensures c == 0.0 <==> a == 0.0
  {
    a / Beta1(fc)
  }

  /**
   * Strain at depth dT from linear strain compatibility: 0.003 at the top face,
   * zero at the neutral axis c.
   */
  function NetTensileStrain(dT: real, c: real): (e: real)
    requires c != 0.0
    ensures e * c == 0.003 * (dT - c)
  {
    0.003 * (dT - c) / c
  }

  /** The source's 6-tuple (Mn, epsilon_t, c, a, phi, phi*Mn), moments in kip-ft. */
  datatype SinglyResult = SinglyResult(
    mn: real, epsilonT: real, c: real, a: real, phi: real, mnReduced: real)

  /** Force equilibrium: the concrete block force balances the yielded steel force. */
  predicate ForceEquilibrium(b: real, fc: real, fy: real, As: real, a: real) {
    BlockForce(fc, b, a) == As * fy
  }

  /** The Whitney block depth is beta1 times the neutral-axis depth. */
  predicate StressBlock(fc: real, a: real, c: real) {
    a == Beta1(fc) * c
  }

  /** Linear strain compatibility: 0.003 at the top face, zero at depth c, e at depth dT. */
  predicate StrainCompatibility(dT: real, c: real, e: real) {
    e * c == 0.003 * (dT - c)
  }

  /**
   * Capacity of a section with tension steel only: block depth from equilibrium,
   * neutral axis from the block, strain at h - 2.5, moment at h - Cover(layers).
   * The source divides by 0.85 * fc * b and by c without checking; both are error
   * results here.
   */
  function SinglyReinforced(b: real, h: real, fc: real, fy: real, As: real, layers: int)
    : (r: Result<SinglyResult>)
    ensures r == Err(ZeroBlockDenominator) <==> fc * b == 0.0
    ensures r == Err(ZeroNeutralAxis) <==> fc * b != 0.0 && As * fy == 0.0
    ensures r.Ok? <==> fc * b != 0.0 && As * fy != 0.0
    ensures r.Ok? ==> ForceEquilibrium(b, fc, fy, As, r.value.a)
    ensures r.Ok? ==> StressBlock(fc, r.value.a, r.value.c)
    ensures r.Ok? ==> StrainCompatibility(h - ExtremeTensionCover, r.value.c, r.value.epsilonT)
    // moment of the steel force about the concrete resultant, kip-in reported in kip-ft
    ensures r.Ok? ==> 12.0 * r.value.mn == As * fy * (h - Cover(layers) - r.value.a / 2.0)
    ensures r.Ok? ==> r.value.phi == StrengthReductionFactor(r.value.epsilonT)
    ensures r.Ok? ==> r.value.mnReduced == r.value.phi * r.value.mn
  {
    if fc * b == 0.0 then Err(ZeroBlockDenominator)
    else
      var a := BlockDepth(As, fy, fc, b);
      var c := NeutralAxisDepth(a, fc);
      if c == 0.0 then Err(ZeroNeutralAxis)
      else
        var epsilonT := NetTensileStrain(h - ExtremeTensionCover, c);
        var mn := As * fy * (h - Cover(layers) - a / 2.0);
        var phi := StrengthReductionFactor(epsilonT);
        Ok(SinglyResult(mn / 12.0, epsilonT, c, a, phi, (mn / 12.0) * phi))
  }

  /**
   * With positive width, strengths and steel area the section has a result, its
   * block depth is positive and the neutral axis lies strictly below the block,
   * because beta1 < 1.
   */
  lemma SinglyDepthsPositive(b: real, h: real, fc: real, fy: real, As: real, layers: int)
    requires b > 0.0 && fc > 0.0 && fy > 0.0 && As > 0.0
    ensures SinglyReinforced(b, h, fc, fy, As, layers).Ok?
    ensures var s := SinglyReinforced(b, h, fc, fy, As, layers).value;
      0.0 < s.a < s.c
  {
    MulPositive(fc, b);
    MulPositive(As, fy);
    DepthsPositive(b, fc, fy, As, SinglyReinforced(b, h, fc, fy, As, layers).value);
  }

  lemma DepthsPositive(b: real, fc: real, fy: real, As: real, s: SinglyResult)
    requires b > 0.0 && fc > 0.0 && fy > 0.0 && As > 0.0
    requires ForceEquilibrium(b, fc, fy, As, s.a) && StressBlock(fc, s.a, s.c)
    ensures 0.0 < s.a < s.c
  {
    MulPositive(0.85 * fc, b);
    MulPositive(As, fy);
    QuotientPositive(As * fy, 0.85 * fc * b, s.a);
    BlockBelowAxis(Beta1(fc), s.a, s.c);
  }

  /**
   * A 12 x 24 in section, f'c = 4 ksi, fy = 60 ksi, As = 1.5 in^2 in one layer:
   * a = 90 / 40.8 in, c = a / 0.85, and the section is tension-controlled (phi = 0.9).
   */
  lemma SinglyExample()
    ensures SinglyReinforced(12.0, 24.0, 4.0, 60.0, 1.5, 1).Ok?
    ensures var s := SinglyReinforced(12.0, 24.0, 4.0, 60.0, 1.5, 1).value;
      && s.a == 90.0 / 40.8 && s.c == s.a / 0.85 && s.epsilonT >= 0.005
      && s.phi == 0.9 && 12.0 * s.mn == 90.0 * (21.5 - s.a / 2.0)
  {
  }

  /**
   * phi lies in [0.65, 0.9], so the reduced moment lies between 0.65 and 0.9
   * times a non-negative Mn.
   */
  lemma SinglyReducedBounds(b: real, h: real, fc: real, fy: real, As: real, layers: int)
    requires SinglyReinforced(b, h, fc, fy, As, layers).Ok?
    requires SinglyReinforced(b, h, fc, fy, As, layers).value.mn >= 0.0
    ensures var s := SinglyReinforced(b, h, fc, fy, As, layers).value;
      0.65 * s.mn <= s.mnReduced <= 0.9 * s.mn
  {
    var s := SinglyReinforced(b, h, fc, fy, As, layers).value;
    MulNonNegative(s.phi - 0.65, s.mn);
    MulNonNegative(0.9 - s.phi, s.mn);
  }

  /**
   * More tension steel, everything else fixed, gives a deeper stress block and a
   * deeper neutral axis.
   */
  lemma SinglyDeeperWithSteel(
    b: real, h: real, fc: real, fy: real, As1: real, As2: real, layers: int)
    requires b > 0.0 && fc > 0.0 && fy > 0.0 && 0.0 < As1 < As2
    ensures SinglyReinforced(b, h, fc, fy, As1, layers).Ok?
    ensures SinglyReinforced(b, h, fc, fy, As2, layers).Ok?
    ensures var s1 := SinglyReinforced(b, h, fc, fy, As1, layers).value;
      var s2 := SinglyReinforced(b, h, fc, fy, As2, layers).value;
      s1.a < s2.a && s1.c < s2.c
  {
    MulPositive(fc, b);
    MulPositive(As1, fy);
    MulPositive(As2, fy);
    DepthsIncrease(b, fc, fy, As1, As2,
      SinglyReinforced(b, h, fc, fy, As1, layers).value,
      SinglyReinforced(b, h, fc, fy, As2, layers).value);
  }

  lemma DepthsIncrease(b: real, fc: real, fy: real, As1: real, As2: real,
                       s1: SinglyResult, s2: SinglyResult)
    requires b > 0.0 && fc > 0.0 && fy > 0.0 && 0.0 < As1 < As2
    requires ForceEquilibrium(b, fc, fy, As1, s1.a) && StressBlock(fc, s1.a, s1.c)
    requires ForceEquilibrium(b, fc, fy, As2, s2.a) && StressBlock(fc, s2.a, s2.c)
    ensures s1.a < s2.a && s1.c < s2.c
  {
    MulPositive(0.85 * fc, b);
    MulIncreasing(As1, As2, fy);
    ChainIncreasing(0.85 * fc * b, Beta1(fc), As1 * fy, As2 * fy, s1.a, s2.a, s1.c, s2.c);
  }

  /** k * a == p and a == beta * c with positive k and beta: p, a and c rise together. */
  lemma ChainIncreasing(k: real, beta: real, p1: real, p2: real,
                        a1: real, a2: real, c1: real, c2: real)
    requires k > 0.0 && beta > 0.0 && p1 < p2
    requires k * a1 == p1 && k * a2 == p2 && a1 == beta * c1 && a2 == beta * c2
    ensures a1 < a2 && c1 < c2
  {
    ScaledIncreasing(k, a1, a2, p1, p2);
    ScaledIncreasing(beta, c1, c2, a1, a2);
  }

  /**
   * More tension steel, everything else fixed and the extreme layer below the top
   * face, gives a strictly smaller net tensile strain and a phi that is not larger.
   */
  lemma SinglyLessStrainWithSteel(
    b: real, h: real, fc: real, fy: real, As1: real, As2: real, layers: int)
    requires b > 0.0 && fc > 0.0 && fy > 0.0 && 0.0 < As1 < As2
    requires h > ExtremeTensionCover
    ensures SinglyReinforced(b, h, fc, fy, As1, layers).Ok?
    ensures SinglyReinforced(b, h, fc, fy, As2, layers).Ok?
    ensures var s1 := SinglyReinforced(b, h, fc, fy, As1, layers).value;
      var s2 := SinglyReinforced(b, h, fc, fy, As2, layers).value;
      s2.epsilonT < s1.epsilonT && s2.phi <= s1.phi
  {
    SinglyDeeperWithSteel(b, h, fc, fy, As1, As2, layers);
    SinglyDepthsPositive(b, h, fc, fy, As1, layers);
    StrainDecreases(h,
      SinglyReinforced(b, h, fc, fy, As1, layers).value,
      SinglyReinforced(b, h, fc, fy, As2, layers).value);
  }

  lemma StrainDecreases(h: real, s1: SinglyResult, s2: SinglyResult)
    requires h > ExtremeTensionCover && 0.0 < s1.c < s2.c
    requires StrainCompatibility(h - ExtremeTensionCover, s1.c, s1.epsilonT)
    requires StrainCompatibility(h - ExtremeTensionCover, s2.c, s2.epsilonT)
    requires s1.phi == StrengthReductionFactor(s1.epsilonT)
    requires s2.phi == StrengthReductionFactor(s2.epsilonT)
    ensures s2.epsilonT < s1.epsilonT && s2.phi <= s1.phi
  {
    StrainDecreasing(h - ExtremeTensionCover, s1.c, s2.c, s1.epsilonT, s2.epsilonT);
    StrengthReductionNonDecreasing(s2.epsilonT, s1.epsilonT);
  }

  /** a == beta * c with 0 < beta < 1 and a > 0 puts c strictly beyond a. */
  lemma BlockBelowAxis(beta: real, a: real, c: real)
    requires 0.0 < beta < 1.0 && a > 0.0 && a == beta * c
    ensures 0.0 < a < c
  {
    QuotientPositive(a, beta, c);
    MulPositive(1.0 - beta, c);
    BlockGap(beta, a, c);
  }

  lemma BlockGap(beta: real, a: real, c: real)
    requires (1.0 - beta) * c > 0.0 && a == beta * c
    ensures c > a
  {
  }

  /** The compatibility strain 0.003 * (dT - c) / c strictly decreases as c grows. */
  lemma StrainDecreasing(dT: real, c1: real, c2: real, e1: real, e2: real)
    requires dT > 0.0 && 0.0 < c1 < c2
    requires e1 * c1 == 0.003 * (dT - c1) && e2 * c2 == 0.003 * (dT - c2)
    ensures e2 < e1
  {
    var g1, g2 := e1 + 0.003, e2 + 0.003;
    QuotientPositive(0.003 * dT, c1, g1);
    MulPositive(g1, c2 - c1);
    // g2 * c2 == g1 * c1 < g1 * c2, so (g1 - g2) * c2 > 0
    QuotientPositive(g1 * c2 - g2 * c2, c2, g1 - g2);
  }
}

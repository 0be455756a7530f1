/**
 * Section solver, iterative part: the doubly reinforced section. A trial
 * neutral-axis depth c is corrected multiplicatively, c := c * T / (Cc + Cs), until
 * the force imbalance |T - (Cc + Cs)| drops below the tolerance or the iteration
 * budget is spent; strain, moment and phi are then computed from the last state.
 *
 * The loop is the method DoublyReinforcedBeam; the recursive function Run is its
 * specification, and the lemmas below state what the source promises about it.
 */
module DoublySolver {
  import opened Arith
  import opened MaterialModel
  import opened SectionSolver

  /** Force-balance threshold of the convergence test, in kips. */
  const Tolerance: real := 0.001

  /** Upper bound on the number of loop-body executions. */
  const MaxIterations: nat := 100

  /** The quantities the loop body reads but never changes. */
  datatype Inputs = Inputs(
    b: real, fc: real, fy: real, asT: real, asC: real, dPrime: real, beta1: real)

  /**
   * One evaluation of the loop body at the trial depth c: block depth, concrete
   * force, compression-steel strain and stress, compression-steel force (net of the
   * displaced concrete) and the tension force.
   */
  datatype Trial = Trial(
    c: real, a: real, cc: real, epsilonS: real, fsC: real, cs: real, t: real)

  /**
   * What the loop variables hold before the first evaluation. The source leaves them
   * unbound; the first iteration always assigns them before they are read.
   */
  const Unevaluated: Trial := Trial(0.0, 0.0, 0.0, 0.0, 0.0, 0.0, 0.0)

  /** The loop body's evaluation; it divides by c. */
  function Evaluate(c: real, k: Inputs): (tr: Trial)
    requires c != 0.0
    ensures tr.c == c
    ensures tr.a == k.beta1 * c
    ensures tr.cc == BlockForce(k.fc, k.b, tr.a)
    // strain compatibility at the compression steel, depth dPrime
    ensures tr.epsilonS * c == 0.003 * (c - k.dPrime)
    // the steel stress is the elastic stress, capped at yield
    ensures tr.fsC <= k.fy && tr.fsC <= Es * tr.epsilonS
    ensures tr.fsC == k.fy || tr.fsC == Es * tr.epsilonS
    ensures tr.cs == k.asC * (tr.fsC - 0.85 * k.fc)
    ensures tr.t == k.asT * k.fy
  {
    var a := k.beta1 * c;
    var cc := BlockForce(k.fc, k.b, a);
    var epsilonS := 0.003 * (c - k.dPrime) / c;
    var fsC := Min(k.fy, Es * epsilonS);
    var cs := k.asC * (fsC - 0.85 * k.fc);
    var t := k.asT * k.fy;
    Trial(c, a, cc, epsilonS, fsC, cs, t)
  }

  /** The convergence test of the loop. */
  predicate Balanced(tr: Trial) {
    Abs(tr.t - (tr.cc + tr.cs)) < Tolerance
  }

  /**
   * The multiplicative correction of the trial depth: c is scaled by the ratio of
   * the tension force to the resisting force.
   */
  function Corrected(tr: Trial): (c': real)
    requires tr.cc + tr.cs != 0.0
    ensures c' * (tr.cc + tr.cs) == tr.c * tr.t
  {
    tr.c * (tr.t / (tr.cc + tr.cs))
  }

  /**
   * State when the loop ends: the last evaluation, the value of c at that moment
   * (the corrected depth if the budget ran out, the balanced trial depth if the loop
   * broke) and how many evaluations were made.
   */
  datatype LoopExit = LoopExit(last: Trial, c: real, evaluations: nat)

  /**
   * The loop from iteration `iteration`, with trial depth c and the previous
   * evaluation `last`. A zero trial depth and a zero resisting force are the two
   * divisions by zero the loop can reach.
   */
  function Run(iteration: nat, c: real, last: Trial, k: Inputs): Result<LoopExit>
    requires iteration <= MaxIterations
    decreases MaxIterations - iteration
  {
    if iteration == MaxIterations then Ok(LoopExit(last, c, iteration))
    else if c == 0.0 then Err(ZeroNeutralAxis)
    else
      var tr := Evaluate(c, k);
      if Balanced(tr) then Ok(LoopExit(tr, c, iteration + 1))
      else if tr.cc + tr.cs == 0.0 then Err(ZeroResistingForce)
      else Run(iteration + 1, Corrected(tr), tr, k)
  }

  function SolverInputs(b: real, fc: real, fy: real, asT: real, asC: real, dPrime: real)
    : Inputs
  {
    Inputs(b, fc, fy, asT, asC, dPrime, Beta1(fc))
  }

  /** The initial guess is a quarter of the effective depth h - Cover(layers). */
  function InitialDepth(h: real, layers: int): (c0: real)
    ensures 4.0 * c0 == h - Cover(layers)
  {
    (h - Cover(layers)) / 4.0
  }

  /** The whole loop, from the initial guess. */
  function SolveNeutralAxis(
    b: real, h: real, fc: real, fy: real, asT: real, asC: real, dPrime: real, layers: int)
    : Result<LoopExit>
  {
    Run(0, InitialDepth(h, layers), Unevaluated, SolverInputs(b, fc, fy, asT, asC, dPrime))
  }

  /** The source's 9-tuple (Mn, epsilon_t, phi, phi*Mn, c, a, Cc, Cs, T), moments in kip-ft. */
  datatype DoublyResult = DoublyResult(
    mn: real, epsilonT: real, phi: real, mnReduced: real,
    c: real, a: real, cc: real, cs: real, t: real)

  /**
   * After the loop: the net tensile strain at the extreme tension depth dT from the
   * final c, the moment of the last concrete and compression-steel forces about the
   * tension steel at depth d, and phi from the strain. A zero final c is the
   * division by zero of the strain formula.
   */
  function Finish(c: real, a: real, cc: real, cs: real, t: real, dT: real, d: real, dPrime: real)
    : (r: Result<DoublyResult>)
    ensures r.Err? <==> c == 0.0
    ensures r.Err? ==> r.error == ZeroNeutralAxis
    ensures r.Ok? ==> r.value.c == c && r.value.a == a
    ensures r.Ok? ==> r.value.cc == cc && r.value.cs == cs && r.value.t == t
    ensures r.Ok? ==> StrainCompatibility(dT, c, r.value.epsilonT)
    // kip-in reported in kip-ft
    ensures r.Ok? ==> 12.0 * r.value.mn == cc * (d - a / 2.0) + cs * (d - dPrime)
    ensures r.Ok? ==> r.value.phi == StrengthReductionFactor(r.value.epsilonT)
    ensures r.Ok? ==> r.value.mnReduced == r.value.phi * r.value.mn
  {
    if c == 0.0 then Err(ZeroNeutralAxis)
    else
      var epsilonT := NetTensileStrain(dT, c);
      var mn := cc * (d - a / 2.0) + cs * (d - dPrime);
      var phi := StrengthReductionFactor(epsilonT);
      Ok(DoublyResult(mn / 12.0, epsilonT, phi, (mn / 12.0) * phi, c, a, cc, cs, t))
  }

  /** What the doubly reinforced computation returns, as a function of its inputs. */
  function DoublyReinforcedSpec(
    b: real, h: real, fc: real, fy: real, asT: real, asC: real, dPrime: real, layers: int)
    : Result<DoublyResult>
  {
    match SolveNeutralAxis(b, h, fc, fy, asT, asC, dPrime, layers)
    case Err(e) => Err(e)
    case Ok(x) =>
      Finish(x.c, x.last.a, x.last.cc, x.last.cs, x.last.t,
             h - ExtremeTensionCover, h - Cover(layers), dPrime)
  }

  /**
   * The loop body up to the convergence test, one assignment per quantity: block
   * depth, concrete force, compression-steel strain, stress and force, tension force.
   * It repeats Evaluate statement by statement; it exists so that the loop body can
   * be proved equal to Evaluate without the solver unfolding products in the loop.
   */
  method EvaluateTrial(
    c: real, b: real, fc: real, fy: real, asT: real, asC: real, dPrime: real, beta1: real)
    returns (a: real, cc: real, epsilonS: real, fsC: real, cs: real, t: real)
    requires c != 0.0
    ensures Trial(c, a, cc, epsilonS, fsC, cs, t)
         == Evaluate(c, Inputs(b, fc, fy, asT, asC, dPrime, beta1))
    ensures t == asT * fy
  {
    a := beta1 * c;
    cc := 0.85 * fc * b * a;
    epsilonS := 0.003 * (c - dPrime) / c;
    fsC := Min(fy, Es * epsilonS);
    cs := asC * (fsC - 0.85 * fc);
    t := asT * fy;
  }

  /**
   * The doubly reinforced computation as the source runs it: the loop, then strain,
   * moment and phi from the state the loop leaves behind.
   */
  method DoublyReinforcedBeam(
    b: real, h: real, fc: real, fy: real, asT: real, asC: real, dPrime: real, layers: int)
    returns (r: Result<DoublyResult>)
    ensures r == DoublyReinforcedSpec(b, h, fc, fy, asT, asC, dPrime, layers)
  {
    var dT := h - ExtremeTensionCover;
    var d := h - Cover(layers);
    var beta1 := Beta1(fc);
    ghost var k := Inputs(b, fc, fy, asT, asC, dPrime, beta1);

    var c := d / 4.0;
    var iteration: nat := 0;
    // unbound in the source until the first pass of the loop assigns them
    var a, cc, epsilonS, fsC, cs, t := 0.0, 0.0, 0.0, 0.0, 0.0, 0.0;
    // the trial depth the current a, cc, epsilonS, fsC, cs and t were evaluated at
    ghost var evaluatedAt := 0.0;
    ghost var broke := false;

    while iteration < MaxIterations
      invariant iteration <= MaxIterations && !broke
      invariant Run(iteration, c, Trial(evaluatedAt, a, cc, epsilonS, fsC, cs, t), k)
             == SolveNeutralAxis(b, h, fc, fy, asT, asC, dPrime, layers)
    {
      if c == 0.0 {
        SpecError(b, h, fc, fy, asT, asC, dPrime, layers);
        return Err(ZeroNeutralAxis);
      }
      ghost var previous := Trial(evaluatedAt, a, cc, epsilonS, fsC, cs, t);
      a, cc, epsilonS, fsC, cs, t := EvaluateTrial(c, b, fc, fy, asT, asC, dPrime, beta1);
      evaluatedAt := c;

      if Abs(t - (cc + cs)) < Tolerance {
        broke := true;
        break;
      } else {
        if cc + cs == 0.0 {
          SpecError(b, h, fc, fy, asT, asC, dPrime, layers);
          return Err(ZeroResistingForce);
        }
        RunStep(iteration, c, previous, k);
        CorrectedTrial(c, a, cc, epsilonS, fsC, cs, t);
        c := c * (t / (cc + cs));
      }
      iteration := iteration + 1;
    }
    SpecFinish(b, h, fc, fy, asT, asC, dPrime, layers, LoopExit(
      Trial(evaluatedAt, a, cc, epsilonS, fsC, cs, t), c,
      if broke then iteration + 1 else iteration));

    r := Finish(c, a, cc, cs, t, dT, d, dPrime);
  }

  /**
   * A loop that ends in an error makes the whole computation end in that error.
   * This and SpecFinish unfold DoublyReinforcedSpec once; the method calls them so
   * that its postcondition is not re-derived at each exit.
   */
  lemma SpecError(
    b: real, h: real, fc: real, fy: real, asT: real, asC: real, dPrime: real, layers: int)
    requires SolveNeutralAxis(b, h, fc, fy, asT, asC, dPrime, layers).Err?
    ensures DoublyReinforcedSpec(b, h, fc, fy, asT, asC, dPrime, layers)
         == Err(SolveNeutralAxis(b, h, fc, fy, asT, asC, dPrime, layers).error)
  {
  }

  /** A loop that ends in state x is followed by Finish on that state. */
  lemma SpecFinish(
    b: real, h: real, fc: real, fy: real, asT: real, asC: real, dPrime: real, layers: int,
    x: LoopExit)
    requires SolveNeutralAxis(b, h, fc, fy, asT, asC, dPrime, layers) == Ok(x)
    ensures DoublyReinforcedSpec(b, h, fc, fy, asT, asC, dPrime, layers)
         == Finish(x.c, x.last.a, x.last.cc, x.last.cs, x.last.t,
                   h - ExtremeTensionCover, h - Cover(layers), dPrime)
  {
  }

  /**
   * How the loop ends: the last evaluation is a genuine one, at a nonzero depth (the
   * earlier depths are nonzero too, because Evaluate requires it at every call in Run);
   * if its forces balance the loop broke at that depth, otherwise the budget was spent
   * and c holds the corrected depth.
   */
  predicate ExitShape(x: LoopExit, k: Inputs, iteration: nat) {
    && iteration < x.evaluations <= MaxIterations
    && x.last.c != 0.0
    && x.last == Evaluate(x.last.c, k)
    && (Balanced(x.last) ==> x.c == x.last.c)
    && (!Balanced(x.last) ==>
          && x.evaluations == MaxIterations
          && x.last.cc + x.last.cs != 0.0
          && x.c == Corrected(x.last))
  }

  lemma {:induction false} RunExit(iteration: nat, c: real, last: Trial, k: Inputs)
    requires iteration < MaxIterations
    decreases MaxIterations - iteration
    ensures Run(iteration, c, last, k).Ok? ==> ExitShape(Run(iteration, c, last, k).value, k, iteration)
  {
    if c != 0.0 && !Balanced(Evaluate(c, k)) && Evaluate(c, k).cc + Evaluate(c, k).cs != 0.0
       && iteration + 1 < MaxIterations {
      RunStep(iteration, c, last, k);
      RunExit(iteration + 1, Corrected(Evaluate(c, k)), Evaluate(c, k), k);
    }
  }

  /**
   * The loop can only fail at the strain division (a zero trial depth) or at the
   * correction (a zero resisting force); it never divides by 0.85 * fc * b.
   */
  lemma {:induction false} RunErrors(iteration: nat, c: real, last: Trial, k: Inputs)
    requires iteration <= MaxIterations
    decreases MaxIterations - iteration
    ensures Run(iteration, c, last, k).Err? ==>
      Run(iteration, c, last, k).error in {ZeroNeutralAxis, ZeroResistingForce}
  {
    if iteration < MaxIterations && c != 0.0 && !Balanced(Evaluate(c, k))
       && Evaluate(c, k).cc + Evaluate(c, k).cs != 0.0 {
      RunStep(iteration, c, last, k);
      RunErrors(iteration + 1, Corrected(Evaluate(c, k)), Evaluate(c, k), k);
    }
  }

  /**
   * The errors of the doubly reinforced computation: a zero trial or final depth, or
   * a zero resisting force; a zero effective depth fails at the first strain.
   */
  lemma DoublyErrors(
    b: real, h: real, fc: real, fy: real, asT: real, asC: real, dPrime: real, layers: int)
    ensures DoublyReinforcedSpec(b, h, fc, fy, asT, asC, dPrime, layers).Err? ==>
      DoublyReinforcedSpec(b, h, fc, fy, asT, asC, dPrime, layers).error
        in {ZeroNeutralAxis, ZeroResistingForce}
    ensures DoublyReinforcedSpec(b, h, fc, fy, asT, asC, dPrime, layers).Ok? ==>
      DoublyReinforcedSpec(b, h, fc, fy, asT, asC, dPrime, layers).value.c != 0.0
  {
    RunErrors(0, InitialDepth(h, layers), Unevaluated, SolverInputs(b, fc, fy, asT, asC, dPrime));
    match SolveNeutralAxis(b, h, fc, fy, asT, asC, dPrime, layers)
    case Err(e) =>
      SpecError(b, h, fc, fy, asT, asC, dPrime, layers);
    case Ok(x) =>
      SpecFinish(b, h, fc, fy, asT, asC, dPrime, layers, x);
  }

  /** One unbalanced, non-degenerate evaluation is followed by the next iteration. */
  lemma RunStep(iteration: nat, c: real, last: Trial, k: Inputs)
    requires iteration < MaxIterations && c != 0.0
    requires !Balanced(Evaluate(c, k))
    requires Evaluate(c, k).cc + Evaluate(c, k).cs != 0.0
    ensures Run(iteration, c, last, k)
         == Run(iteration + 1, Corrected(Evaluate(c, k)), Evaluate(c, k), k)
  {
  }

  /**
   * The corrected depth of a trial, written with the trial's quantities: the bridge
   * between the loop's update of c and Corrected.
   */
  lemma CorrectedTrial(c: real, a: real, cc: real, epsilonS: real, fsC: real, cs: real, t: real)
    requires cc + cs != 0.0
    ensures Corrected(Trial(c, a, cc, epsilonS, fsC, cs, t)) == c * (t / (cc + cs))
  {
  }

  /**
   * The loop body runs at least once and at most MaxIterations times; a loop that
   * stops before its budget is spent stopped because the forces balanced, at the
   * trial depth it evaluated last.
   */
  lemma LoopBounds(
    b: real, h: real, fc: real, fy: real, asT: real, asC: real, dPrime: real, layers: int)
    requires SolveNeutralAxis(b, h, fc, fy, asT, asC, dPrime, layers).Ok?
    ensures var x := SolveNeutralAxis(b, h, fc, fy, asT, asC, dPrime, layers).value;
      && 1 <= x.evaluations <= MaxIterations
      && (x.evaluations < MaxIterations ==> Balanced(x.last) && x.c == x.last.c)
      && (Balanced(x.last) ==> x.c == x.last.c)
      && (!Balanced(x.last) ==> x.evaluations == MaxIterations)
  {
    RunExit(0, InitialDepth(h, layers), Unevaluated, SolverInputs(b, fc, fy, asT, asC, dPrime));
  }

  /**
   * The forces reported by the doubly reinforced computation: T is the yielded
   * tension steel, Cc the Whitney block at depth a, and Cs never exceeds the force
   * of yielded compression steel net of the displaced concrete. Leaving the loop
   * early means the reported forces balance within the tolerance.
   */
  lemma DoublyForces(
    b: real, h: real, fc: real, fy: real, asT: real, asC: real, dPrime: real, layers: int)
    requires DoublyReinforcedSpec(b, h, fc, fy, asT, asC, dPrime, layers).Ok?
    ensures SolveNeutralAxis(b, h, fc, fy, asT, asC, dPrime, layers).Ok?
    ensures var r := DoublyReinforcedSpec(b, h, fc, fy, asT, asC, dPrime, layers).value;
      && r.t == asT * fy
      && r.cc == BlockForce(fc, b, r.a)
      && (asC >= 0.0 ==> r.cs <= asC * (fy - 0.85 * fc))
    ensures SolveNeutralAxis(b, h, fc, fy, asT, asC, dPrime, layers).value.evaluations
            < MaxIterations ==>
      var r := DoublyReinforcedSpec(b, h, fc, fy, asT, asC, dPrime, layers).value;
      Abs(r.t - (r.cc + r.cs)) < Tolerance
  {
    RunExit(0, InitialDepth(h, layers), Unevaluated, SolverInputs(b, fc, fy, asT, asC, dPrime));
    ExitForces(SolveNeutralAxis(b, h, fc, fy, asT, asC, dPrime, layers).value,
               b, fc, fy, asT, asC, dPrime);
  }

  /**
   * Which way the loop was left, read off the reported forces: forces that balance
   * come from the break, so a is the block depth at the reported c (also when the
   * break happens on the last pass); forces that do not balance mean the budget was
   * spent.
   */
  lemma DoublyBreakExit(
    b: real, h: real, fc: real, fy: real, asT: real, asC: real, dPrime: real, layers: int,
    x: LoopExit, r: DoublyResult)
    requires SolveNeutralAxis(b, h, fc, fy, asT, asC, dPrime, layers) == Ok(x)
    requires DoublyReinforcedSpec(b, h, fc, fy, asT, asC, dPrime, layers) == Ok(r)
    ensures Abs(r.t - (r.cc + r.cs)) < Tolerance ==> StressBlock(fc, r.a, r.c)
    ensures !(Abs(r.t - (r.cc + r.cs)) < Tolerance) ==> x.evaluations == MaxIterations
  {
    var k := SolverInputs(b, fc, fy, asT, asC, dPrime);
    RunExit(0, InitialDepth(h, layers), Unevaluated, k);
    BreakShape(x, k);
    SpecFinish(b, h, fc, fy, asT, asC, dPrime, layers, x);
    assert r.c == x.c && r.a == x.last.a;
    assert r.t == x.last.t && r.cc == x.last.cc && r.cs == x.last.cs;
  }

  /** A balanced last trial was evaluated at the exit depth; otherwise the budget is spent. */
  lemma BreakShape(x: LoopExit, k: Inputs)
    requires ExitShape(x, k, 0) && k.beta1 == Beta1(k.fc)
    ensures Balanced(x.last) ==> StressBlock(k.fc, x.last.a, x.c)
    ensures !Balanced(x.last) ==> x.evaluations == MaxIterations
  {
  }

  /** The forces of the last evaluation, in terms of the section's own quantities. */
  lemma ExitForces(x: LoopExit, b: real, fc: real, fy: real, asT: real, asC: real, dPrime: real)
    requires ExitShape(x, SolverInputs(b, fc, fy, asT, asC, dPrime), 0)
    ensures x.last.t == asT * fy
    ensures x.last.cc == BlockForce(fc, b, x.last.a)
    ensures asC >= 0.0 ==> x.last.cs <= asC * (fy - 0.85 * fc)
  {
    if asC >= 0.0 {
      MulNonNegative(asC, fy - x.last.fsC);
    }
  }

  /**
   * phi lies in [0.65, 0.9], so the reduced moment of the doubly reinforced section
   * lies between 0.65 and 0.9 times a non-negative Mn.
   */
  lemma DoublyReducedBounds(
    b: real, h: real, fc: real, fy: real, asT: real, asC: real, dPrime: real, layers: int)
    requires DoublyReinforcedSpec(b, h, fc, fy, asT, asC, dPrime, layers).Ok?
    requires DoublyReinforcedSpec(b, h, fc, fy, asT, asC, dPrime, layers).value.mn >= 0.0
    ensures var r := DoublyReinforcedSpec(b, h, fc, fy, asT, asC, dPrime, layers).value;
      0.65 * r.mn <= r.mnReduced <= 0.9 * r.mn
  {
    var x := SolveNeutralAxis(b, h, fc, fy, asT, asC, dPrime, layers).value;
    FinishReducedBounds(x.c, x.last.a, x.last.cc, x.last.cs, x.last.t,
                        h - ExtremeTensionCover, h - Cover(layers), dPrime);
  }

  lemma FinishReducedBounds(
    c: real, a: real, cc: real, cs: real, t: real, dT: real, d: real, dPrime: real)
    requires Finish(c, a, cc, cs, t, dT, d, dPrime).Ok?
    requires Finish(c, a, cc, cs, t, dT, d, dPrime).value.mn >= 0.0
    ensures var r := Finish(c, a, cc, cs, t, dT, d, dPrime).value;
      0.65 * r.mn <= r.mnReduced <= 0.9 * r.mn
  {
    var r := Finish(c, a, cc, cs, t, dT, d, dPrime).value;
    MulNonNegative(r.phi - 0.65, r.mn);
    MulNonNegative(0.9 - r.phi, r.mn);
  }

  /** An effective depth of zero makes the initial guess zero: the first strain divides by it. */
  lemma DoublyZeroDepth(
    b: real, h: real, fc: real, fy: real, asT: real, asC: real, dPrime: real, layers: int)
    requires h == Cover(layers)
    ensures DoublyReinforcedSpec(b, h, fc, fy, asT, asC, dPrime, layers) == Err(ZeroNeutralAxis)
  {
  }

  /**
   * Without tension steel (As_t == 0, so T == 0) an unbalanced first trial is
   * corrected to c == 0, and the second pass of the loop divides by it.
   */
  lemma DoublyWithoutTensionSteel(
    b: real, h: real, fc: real, fy: real, asT: real, asC: real, dPrime: real, layers: int)
    requires asT == 0.0 && h != Cover(layers)
    requires !Balanced(Evaluate(InitialDepth(h, layers),
                                SolverInputs(b, fc, fy, asT, asC, dPrime)))
    requires Evaluate(InitialDepth(h, layers), SolverInputs(b, fc, fy, asT, asC, dPrime)).cc
           + Evaluate(InitialDepth(h, layers), SolverInputs(b, fc, fy, asT, asC, dPrime)).cs
          != 0.0
    ensures DoublyReinforcedSpec(b, h, fc, fy, asT, asC, dPrime, layers) == Err(ZeroNeutralAxis)
  {
    var k := SolverInputs(b, fc, fy, asT, asC, dPrime);
    var c0 := InitialDepth(h, layers);
    RunStep(0, c0, Unevaluated, k);
    var tr0 := Evaluate(c0, k);
    assert tr0.t == 0.0;
    ZeroCorrection(tr0);
    assert Run(1, Corrected(tr0), tr0, k) == Err(ZeroNeutralAxis);
  }

  /** A trial without tension force is corrected to a zero depth. */
  lemma ZeroCorrection(tr: Trial)
    requires tr.t == 0.0 && tr.cc + tr.cs != 0.0
    ensures Corrected(tr) == 0.0
  {
    CancelFactor(Corrected(tr), 0.0, tr.cc + tr.cs);
  }

  /**
   * Without compression steel the doubly reinforced computation reproduces the
   * singly reinforced one. The first correction lands exactly on the depth where
   * the block force equals As_t * fy, so the second evaluation balances; only an
   * initial guess that already balances within the tolerance ends elsewhere.
   */
  lemma DoublyWithoutCompressionSteel(
    b: real, h: real, fc: real, fy: real, asT: real, dPrime: real, layers: int)
    requires b > 0.0 && fc > 0.0 && fy > 0.0 && asT > 0.0 && h != Cover(layers)
    requires !Balanced(Evaluate(InitialDepth(h, layers),
                                SolverInputs(b, fc, fy, asT, 0.0, dPrime)))
    ensures SolveNeutralAxis(b, h, fc, fy, asT, 0.0, dPrime, layers).Ok?
    ensures SolveNeutralAxis(b, h, fc, fy, asT, 0.0, dPrime, layers).value.evaluations == 2
    ensures DoublyReinforcedSpec(b, h, fc, fy, asT, 0.0, dPrime, layers).Ok?
    ensures SinglyReinforced(b, h, fc, fy, asT, layers).Ok?
    ensures var r := DoublyReinforcedSpec(b, h, fc, fy, asT, 0.0, dPrime, layers).value;
      var s := SinglyReinforced(b, h, fc, fy, asT, layers).value;
      && r.c == s.c && r.a == s.a && r.epsilonT == s.epsilonT
      && r.mn == s.mn && r.phi == s.phi && r.mnReduced == s.mnReduced
  {
    var k := SolverInputs(b, fc, fy, asT, 0.0, dPrime);
    var c0 := InitialDepth(h, layers);
    SinglyDepthsPositive(b, h, fc, fy, asT, layers);
    var s := SinglyReinforced(b, h, fc, fy, asT, layers).value;
    FirstCorrection(b, fc, fy, asT, dPrime, c0, s);
    RunStep(0, c0, Unevaluated, k);
    var tr0 := Evaluate(c0, k);
    var c1 := Corrected(tr0);
    SecondTrialBalanced(b, fc, fy, asT, dPrime, s);
    var tr1 := Evaluate(c1, k);
    assert Run(1, c1, tr0, k) == Ok(LoopExit(tr1, c1, 2));
    assert SolveNeutralAxis(b, h, fc, fy, asT, 0.0, dPrime, layers) == Ok(LoopExit(tr1, c1, 2));
    SameCapacity(b, h, fc, fy, asT, dPrime, layers);
  }

  /**
   * Without compression steel, an initial guess whose block force is already within
   * the tolerance of As_t * fy ends the loop at once, at that guess. Its depth then
   * differs from the singly reinforced depth by less than 0.001 / BlockStiffness,
   * i.e. 0.001 / (0.85 * fc * b * beta1): the tolerance bounds the force, not the depth.
   */
  lemma DoublyBalancedFirstGuess(
    b: real, h: real, fc: real, fy: real, asT: real, dPrime: real, layers: int,
    s: SinglyResult)
    requires b > 0.0 && fc > 0.0 && fy > 0.0 && asT > 0.0 && h != Cover(layers)
    requires Balanced(Evaluate(InitialDepth(h, layers),
                               SolverInputs(b, fc, fy, asT, 0.0, dPrime)))
    requires SinglyReinforced(b, h, fc, fy, asT, layers) == Ok(s)
    ensures SolveNeutralAxis(b, h, fc, fy, asT, 0.0, dPrime, layers).Ok?
    ensures SolveNeutralAxis(b, h, fc, fy, asT, 0.0, dPrime, layers).value.evaluations == 1
    ensures DoublyReinforcedSpec(b, h, fc, fy, asT, 0.0, dPrime, layers).Ok?
    ensures DoublyReinforcedSpec(b, h, fc, fy, asT, 0.0, dPrime, layers).value.c
         == InitialDepth(h, layers)
    ensures -Tolerance < DepthGapForce(fc, b, InitialDepth(h, layers), s.c) < Tolerance
  {
    var k := SolverInputs(b, fc, fy, asT, 0.0, dPrime);
    var c0 := InitialDepth(h, layers);
    var x := LoopExit(Evaluate(c0, k), c0, 1);
    assert SolveNeutralAxis(b, h, fc, fy, asT, 0.0, dPrime, layers) == Ok(x);
    SpecFinish(b, h, fc, fy, asT, 0.0, dPrime, layers, x);
    FirstGuessGap(b, fc, fy, asT, dPrime, InitialDepth(h, layers), s);
  }

  /**
   * Growth of the block force per unit of neutral-axis depth: Cc == BlockStiffness * c,
   * because a == beta1 * c.
   */
  function BlockStiffness(fc: real, b: real): real {
    0.85 * fc * b * Beta1(fc)
  }

  /**
   * Change of the block force when the neutral axis moves from c2 to c1. A bound
   * |DepthGapForce| < 0.001 means |c1 - c2| < 0.001 / BlockStiffness(fc, b).
   */
  function DepthGapForce(fc: real, b: real, c1: real, c2: real): real {
    (c1 - c2) * BlockStiffness(fc, b)
  }

  /** A balanced first trial without compression steel lies near the singly depth. */
  lemma FirstGuessGap(
    b: real, fc: real, fy: real, asT: real, dPrime: real, c0: real, s: SinglyResult)
    requires c0 != 0.0
    requires ForceEquilibrium(b, fc, fy, asT, s.a) && StressBlock(fc, s.a, s.c)
    requires Balanced(Evaluate(c0, SolverInputs(b, fc, fy, asT, 0.0, dPrime)))
    ensures -Tolerance < DepthGapForce(fc, b, c0, s.c) < Tolerance
  {
    var tr := Evaluate(c0, SolverInputs(b, fc, fy, asT, 0.0, dPrime));
    BalancedRange(tr);
    GapBound(fc, b, c0, tr.a, tr.cc, tr.cs, s.c, s.a, tr.t);
  }

  /** The balance test as a two-sided bound on the force gap. */
  lemma BalancedRange(tr: Trial)
    requires Balanced(tr)
    ensures -Tolerance < tr.t - (tr.cc + tr.cs) < Tolerance
  {
  }

  /**
   * Block forces cc at depth a0 == beta1 * c0 and p at depth a == beta1 * c: the force
   * gap p - cc is the depth gap c - c0 scaled by BlockStiffness.
   */
  lemma GapBound(fc: real, b: real, c0: real, a0: real, cc: real, cs: real,
                 c: real, a: real, p: real)
    requires cs == 0.0
    requires a0 == Beta1(fc) * c0 && BlockForce(fc, b, a0) == cc
    requires a == Beta1(fc) * c && BlockForce(fc, b, a) == p
    requires -Tolerance < p - (cc + cs) < Tolerance
    ensures -Tolerance < DepthGapForce(fc, b, c0, c) < Tolerance
  {
    assert p - (cc + cs) == -DepthGapForce(fc, b, c0, c);
  }

  /**
   * Without compression steel the first trial's resisting force is the concrete
   * block alone, and its correction is the singly reinforced neutral-axis depth.
   */
  lemma FirstCorrection(
    b: real, fc: real, fy: real, asT: real, dPrime: real, c0: real, s: SinglyResult)
    requires b > 0.0 && fc > 0.0 && c0 != 0.0
    requires ForceEquilibrium(b, fc, fy, asT, s.a) && StressBlock(fc, s.a, s.c)
    ensures var tr := Evaluate(c0, SolverInputs(b, fc, fy, asT, 0.0, dPrime));
      tr.cc + tr.cs != 0.0 && Corrected(tr) == s.c
  {
    var tr := Evaluate(c0, SolverInputs(b, fc, fy, asT, 0.0, dPrime));
    var block, beta := 0.85 * fc * b, Beta1(fc);
    MulPositive(0.85 * fc, b);
    MulNonZero(beta, c0);
    MulNonZero(block, beta * c0);
    assert tr.cs == 0.0;
    SameRatio(block, beta, c0, Corrected(tr), s.c, asT * fy);
  }

  /** c1 * (k * (beta * c0)) == c0 * p and k * (beta * c) == p with k * beta * c0 != 0 give c1 == c. */
  lemma SameRatio(k: real, beta: real, c0: real, c1: real, c: real, p: real)
    requires k * (beta * c0) != 0.0
    requires c1 * (k * (beta * c0)) == c0 * p
    requires k * (beta * c) == p
    ensures c1 == c
  {
    assert c1 * (k * (beta * c0)) == c * (k * (beta * c0));
    CancelFactor(c1, c, k * (beta * c0));
  }

  /** At the singly reinforced depth, without compression steel, the forces balance exactly. */
  lemma SecondTrialBalanced(
    b: real, fc: real, fy: real, asT: real, dPrime: real, s: SinglyResult)
    requires s.c != 0.0
    requires ForceEquilibrium(b, fc, fy, asT, s.a) && StressBlock(fc, s.a, s.c)
    ensures var tr := Evaluate(s.c, SolverInputs(b, fc, fy, asT, 0.0, dPrime));
      tr.a == s.a && tr.cc == asT * fy && tr.cs == 0.0 && tr.t == asT * fy && Balanced(tr)
  {
  }

  /**
   * Finishing at the singly reinforced depths, with the block force equal to the
   * steel force and no compression-steel force, gives the singly reinforced strain,
   * moment and phi.
   */
  lemma SameCapacity(b: real, h: real, fc: real, fy: real, asT: real, dPrime: real, layers: int)
    requires SinglyReinforced(b, h, fc, fy, asT, layers).Ok?
    ensures var s := SinglyReinforced(b, h, fc, fy, asT, layers).value;
      var dT, d := h - ExtremeTensionCover, h - Cover(layers);
      && Finish(s.c, s.a, asT * fy, 0.0, asT * fy, dT, d, dPrime).Ok?
      && var r := Finish(s.c, s.a, asT * fy, 0.0, asT * fy, dT, d, dPrime).value;
      && r.c == s.c && r.a == s.a && r.epsilonT == s.epsilonT
      && r.mn == s.mn && r.phi == s.phi && r.mnReduced == s.mnReduced
  {
    var s := SinglyReinforced(b, h, fc, fy, asT, layers).value;
    var r := Finish(s.c, s.a, asT * fy, 0.0, asT * fy,
                    h - ExtremeTensionCover, h - Cover(layers), dPrime).value;
    CancelFactor(r.epsilonT, s.epsilonT, s.c);
  }
}

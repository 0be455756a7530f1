# Reinforced-concrete beam moment capacity

This project models the moment-capacity engine of a small calculator for rectangular
reinforced-concrete beams, found in `app.py`. The engine covers:

- the steel modulus `Es`;
- the Whitney stress-block factor beta1;
- the strength-reduction factor phi;
- the cover selector;
- the closed-form singly reinforced solver;
- the iterative doubly reinforced solver.

Every quantity is an exact `real`. Each division the source performs without a check
is an error result here, because in the source it raises `ZeroDivisionError`. There are
three kinds:

- `ZeroBlockDenominator`: `0.85 * fc * b` is zero.
- `ZeroNeutralAxis`: the trial or final depth `c` is zero.
- `ZeroResistingForce`: `Cc + Cs` is zero when the trial depth is corrected.

The modules are:

- `Arith`: real-arithmetic helpers.
- `MaterialModel`: `Es`, `Beta1`, `StrengthReductionFactor`.
- `SectionSolver`:
  - the cover selector, the error kinds and the singly reinforced solver;
  - the three laws that tie the solvers' outputs together: force equilibrium, the
    stress block and strain compatibility.
- `DoublySolver`: the doubly reinforced solver.

## Doubly reinforced solver

`DoublySolver.DoublyReinforcedBeam` is the source's loop written as a Dafny method.
Structure:

- The loop body is the helper method `EvaluateTrial`.
- The loop carries an invariant tying it to the recursive function `Run`.
- It leaves early with `break` when `|T - (Cc + Cs)| < 0.001`.
- After the loop it computes the strain, the moment and phi from whatever state the
  loop left behind.

Behaviour kept exactly as the code has it:

- The extreme tension depth is always `h - 2.5`, whatever the number of layers.
- The initial guess is `c = d / 4`, where `d = h - Cover(layers)`.
- When the 100 iterations are spent, the returned `c` is the corrected depth. The
  returned `a`, `Cc` and `Cs` belong to the previous trial.

The method is proved equal to the function `DoublyReinforcedSpec`, and the lemmas
about that function state what the computation promises:

- how the loop ends;
- the forces it reports;
- its error cases;
- that without compression steel it agrees exactly with the singly reinforced solver,
  unless the initial guess already balances within 0.001 kips. In that case the loop
  stops at `d / 4`, and the depths differ by less than `0.001 / (0.85 fc b beta1)`.

Other choices of the code that the model keeps:

- The initial guess is `d / 4`, not `d_t / 4`.
- No convergence status is returned.
- There is no per-layer moment breakdown.
- Two tension layers change only the cover (3.5 instead of 2.5).

## Model

| member | source | states |
|---|---|---|
| MaterialModel.Beta1 | app.py:10-16 | beta1 lies in [0.65, 0.85]; it is 0.85 for fc <= 4000 and 0.65 for fc >= 8000 (the interpolation already reaches 0.65 at 8000); it lies strictly between them in between |
| MaterialModel.Beta1NonIncreasing | app.py:10-16 | beta1 never increases as fc grows |
| MaterialModel.Beta1Lipschitz | app.py:10-16 | beta1 is continuous at both breakpoints: it changes by at most \|fc1 - fc2\| / 20000 |
| MaterialModel.StrengthReductionFactor | app.py:19-25 | phi lies in [0.65, 0.9]; it is 0.9 for strain >= 0.005 and 0.65 for strain <= 0.002; it lies strictly between them in between |
| MaterialModel.StrengthReductionNonDecreasing | app.py:19-25 | phi never decreases as the net tensile strain grows |
| MaterialModel.StrengthReductionLipschitz | app.py:19-25 | phi is continuous at both breakpoints: it changes by at most 250/3 times the change in strain |
| SectionSolver.Cover | app.py:28-32 | the cover is 3.5 exactly when layers == 2, and 2.5 exactly otherwise |
| SectionSolver.BlockForce | app.py:60 | definition, no contract: the block force 0.85 fc b a, used by both solvers' equilibrium |
| SectionSolver.BlockDepth | app.py:39 | the block depth a puts the block force 0.85 fc b a in equilibrium with As fy |
| SectionSolver.NeutralAxisDepth | app.py:40 | a == beta1 * c; c is zero exactly when a is |
| SectionSolver.NetTensileStrain | app.py:41 | linear strain compatibility: e * c == 0.003 * (dT - c) |
| SectionSolver.SinglyReinforced | app.py:35-44 | errors exactly when fc b == 0 (block denominator) or As fy == 0 (c == 0); otherwise: force equilibrium, a == beta1 c, strain compatibility at h - 2.5, 12 Mn == As fy (d - a/2), phi from the strain, phi Mn |
| SectionSolver.SinglyExample | app.py:35-44 | b=12, h=24, f'c=4, fy=60, As=1.5, one layer: a = 90/40.8, c = a/0.85, strain >= 0.005, phi = 0.9, 12 Mn = 90 (21.5 - a/2) |
| SectionSolver.SinglyDepthsPositive | app.py:38-40 | with positive b, fc, fy and As there is a result, and 0 < a < c |
| SectionSolver.SinglyReducedBounds | app.py:43-44 | a non-negative Mn gives 0.65 Mn <= phi Mn <= 0.9 Mn |
| SectionSolver.SinglyDeeperWithSteel | app.py:39-40 | more tension steel gives a strictly deeper block and neutral axis |
| SectionSolver.SinglyLessStrainWithSteel | app.py:39-43 | more tension steel gives a strictly smaller net tensile strain and a phi no larger |
| SectionSolver.StrainDecreasing | app.py:41 | the compatibility strain strictly decreases as c grows, for positive dT |
| DoublySolver.Evaluate | app.py:59-68 | one loop body: a == beta1 c; Cc is the block force; strain compatibility at d'; fs_c is the smaller of fy and Es eps_s; Cs == As_c (fs_c - 0.85 fc); T == As_t fy |
| DoublySolver.EvaluateTrial | app.py:59-68 | the loop body's assignments produce exactly the trial Evaluate specifies, and T == As_t fy |
| DoublySolver.Corrected | app.py:74 | the corrected depth c' satisfies c' (Cc + Cs) == c T |
| DoublySolver.InitialDepth | app.py:53 | the initial guess is a quarter of h - Cover(layers) |
| DoublySolver.Finish | app.py:78-88 | errors exactly when the final c is zero; otherwise: strain compatibility at dT, 12 Mn == Cc (d - a/2) + Cs (d - d'), phi from the strain, phi Mn, and the loop's c, a, Cc, Cs, T passed through |
| DoublySolver.DoublyReinforcedBeam | app.py:47-88 | the loop method (start at d/4, evaluate, break on balance within 0.001, else correct c, at most 100 passes, then strain, moment and phi) returns exactly DoublyReinforcedSpec, including its error results; what that function guarantees is stated by the lemmas below |
| DoublySolver.Run | app.py:58-76 | definition, no contract: the loop as a recursive function, in the source's order (budget test, zero trial depth, balance test and break, zero resisting force, correction); RunExit, RunErrors and LoopBounds state how it ends |
| DoublySolver.Balanced | app.py:71 | definition, no contract: the convergence test \|T - (Cc + Cs)\| < 0.001 |
| DoublySolver.SolverInputs | app.py:50 | definition, no contract: the loop's fixed inputs, beta1 = Beta1(fc) as at app.py:50 |
| DoublySolver.SolveNeutralAxis | app.py:50-76 | definition, no contract: the loop run from the initial guess d/4 with the inputs fixed before it; RunExit and RunErrors (at iteration 0) and LoopBounds state its outcomes |
| DoublySolver.DoublyReinforcedSpec | app.py:47-88 | definition, no contract: the loop followed by Finish on the state it leaves, errors passed through; DoublyReinforcedBeam is proved equal to it and the lemmas below state its properties |
| DoublySolver.RunExit | app.py:58-76 | every way the loop leaves without error: between 1 and 100 evaluations, the last one a genuine evaluation at a nonzero depth (earlier depths are nonzero because Evaluate requires it at each call in Run); a balanced last trial means c is that trial's depth; otherwise the budget was spent and c is its correction |
| DoublySolver.RunErrors | app.py:58-76 | the loop fails only with ZeroNeutralAxis (the strain division at app.py:63) or ZeroResistingForce (the correction at app.py:74) |
| DoublySolver.DoublyErrors | app.py:47-88 | the doubly computation fails only with ZeroNeutralAxis or ZeroResistingForce, never at 0.85 fc b; a result always has a nonzero c |
| DoublySolver.RunStep | app.py:70-76 | an unbalanced trial with nonzero resisting force continues the loop at the corrected depth |
| DoublySolver.LoopBounds | app.py:55-76 | the body runs between 1 and 100 times; leaving before 100 means the last trial balanced and c is its depth; a balanced last trial (a break, even on the 100th pass) means c is its depth; an unbalanced one means all 100 passes ran |
| DoublySolver.DoublyForces | app.py:58-72 | reported T == As_t fy; Cc is the block force at a; with As_c >= 0, Cs <= As_c (fy - 0.85 fc); an early exit means the reported forces balance within 0.001 |
| DoublySolver.DoublyBreakExit | app.py:58-88 | read off the reported forces: if they balance within 0.001 the loop broke, so a == beta1 c at the reported c (also for a break on the 100th pass); if they do not, all 100 passes ran |
| DoublySolver.DoublyReducedBounds | app.py:86-88 | a non-negative Mn gives 0.65 Mn <= phi Mn <= 0.9 Mn |
| DoublySolver.DoublyZeroDepth | app.py:49-63 | h == Cover(layers) makes the initial guess zero, and the result is ZeroNeutralAxis |
| DoublySolver.DoublyWithoutTensionSteel | app.py:58-74 | with As_t == 0, an unbalanced first trial with nonzero resisting force is corrected to c == 0, and the result is ZeroNeutralAxis |
| DoublySolver.DoublyWithoutCompressionSteel | app.py:47-88 | with As_c == 0, positive b, fc, fy, As_t and nonzero d, unless the first guess already balances (DoublyBalancedFirstGuess covers that case): the loop stops after exactly 2 evaluations, and c, a, strain, Mn, phi and phi Mn equal the singly reinforced ones |
| DoublySolver.DoublyBalancedFirstGuess | app.py:47-88 | with As_c == 0, when the first guess already balances: the loop stops after 1 evaluation at c = d/4, and the block-force change from the singly depth to that c is under 0.001, so the depths differ by less than 0.001 / (0.85 fc b beta1) |
| DoublySolver.FirstGuessGap | app.py:59-71 | a balanced trial without compression steel is within 0.001 of block force of the singly reinforced depth |
| DoublySolver.FirstCorrection | app.py:59-74 | with As_c == 0 the first correction lands exactly on the singly reinforced neutral-axis depth |
| DoublySolver.SecondTrialBalanced | app.py:59-71 | at the singly reinforced depth with As_c == 0: Cc == T, Cs == 0, and the forces balance |
| DoublySolver.SameCapacity | app.py:78-88 | finishing at the singly reinforced depths with Cc == T and Cs == 0 reproduces the singly reinforced strain, moment and phi |

## Left out

- The Streamlit user interface (app.py:91-145):
  - input widgets, the beam-type dispatch, `round` and display;
  - the imports of streamlit, numpy and matplotlib (app.py:2-4).
- The psi to ksi conversion of f'c at app.py:104 belongs to the user interface. Because
  of it, `compute_beta1` receives ksi values from the application, where every realistic
  strength is below its 4000 threshold. The model specifies `Beta1` as written, with the
  psi breakpoints.
- IEEE floating point: the model uses exact reals, so rounding is not modelled. A float
  balance test that a real computation passes or fails may come out differently.
- Python's dynamic typing: non-numeric arguments are not modelled. `layers` is an `int`;
  any value other than 2 selects the 2.5 cover, as in the code.
- The loop variables are unbound in Python until the first pass assigns them. The model
  starts them at 0.0, and the first pass always overwrites them before any read.
- DoublySolver.DoublyReinforcedBeam: there is no convergence status. The source returns
  none; leaving after 100 iterations is visible only through the lemmas about
  `SolveNeutralAxis`.
- DoublySolver.DoublyWithoutCompressionSteel: excludes an initial guess whose block
  force is already within 0.001 kips of As_t fy. That loop stops at the first trial,
  whose depth differs from the singly depth by less than 0.001 / (0.85 fc b beta1),
  as DoublyBalancedFirstGuess states. Strain, Mn and phi then differ from the singly
  ones, and the model gives no bound on that difference.

/** The closed-form solver of solve_damped_oscillator over exact reals. The square roots
    the solver takes are supplied as witnesses (a value r >= 0 with r * r equal to the
    radicand); exp, cos and sin are not evaluated: a solution is described by the
    coefficients of its closed form, and its position and velocity at t = 0 follow from
    e^0 = 1, cos 0 = 1 and sin 0 = 0. */
module Solver {
  import opened Damping

  /** One parameter set, in the order the app lists it: b, m, k, x0, v0 */
  datatype Params = Params(b: real, m: real, k: real, x0: real, v0: real)

  /** The ranges the input sliders guarantee */
  predicate ValidParams(p: Params)
  {
    p.m > 0.0 && p.k > 0.0 && p.b >= 0.0
  }

  /** r is the non-negative square root of x */
  predicate IsSqrt(r: real, x: real)
  {
    r >= 0.0 && r * r == x
  }

  /** gamma = b / (2m) */
  function Gamma(p: Params): real
    requires p.m > 0.0
  {
    p.b / (2.0 * p.m)
  }

  /** r is a root of the characteristic polynomial m r^2 + b r + k of m x'' + b x' + k x = 0 */
  predicate IsCharacteristicRoot(p: Params, r: real)
  {
    p.m * r * r + p.b * r + p.k == 0.0
  }

  /** The closed form the solver chose, by its coefficients */
  datatype Curve =
    | OverdampedCurve(r1: real, r2: real, coefA: real, coefB: real)
      // x(t) = A e^(r1 t) + B e^(r2 t)
    | CriticalCurve(gamma: real, start: real, slope: real)
      // x(t) = e^(-gamma t) (start + slope t)
    | UnderdampedCurve(gamma: real, omegaD: real, coefC: real, coefD: real)
      // x(t) = e^(-gamma t) (C cos(omegaD t) + D sin(omegaD t))

  /** The damping type the solver reports with its curve */
  function CurveType(c: Curve): DampingType
  {
    match c
    case OverdampedCurve(_, _, _, _) => Overdamped
    case CriticalCurve(_, _, _) => CriticallyDamped
    case UnderdampedCurve(_, _, _, _) => Underdamped
  }

  /** x(0) of the closed form */
  function InitialPosition(c: Curve): real
  {
    match c
    case OverdampedCurve(_, _, a, b) => a + b
    case CriticalCurve(_, start, _) => start
    case UnderdampedCurve(_, _, cc, _) => cc
  }

  /** x'(0) of the closed form: r1 A + r2 B; -gamma start + slope; -gamma C + omegaD D */
  function InitialVelocity(c: Curve): real
  {
    match c
    case OverdampedCurve(r1, r2, a, b) => r1 * a + r2 * b
    case CriticalCurve(g, start, slope) => -g * start + slope
    case UnderdampedCurve(g, w, cc, d) => -g * cc + w * d
  }

  /** The overdamped branch (gamma > omega0): distinct real roots r1, r2 = -gamma +- delta
      of the characteristic polynomial, both negative, and the coefficients A, B that meet
      the initial conditions */
  function OverdampedCoefficients(p: Params, omega0: real, delta: real): (c: Curve)
    requires ValidParams(p) && IsSqrt(omega0, p.k / p.m) && Gamma(p) > omega0
    requires IsSqrt(delta, Gamma(p) * Gamma(p) - omega0 * omega0)
    ensures c.OverdampedCurve? && c.r1 - c.r2 == 2.0 * delta && c.r1 - c.r2 > 0.0
    ensures InitialPosition(c) == p.x0 && InitialVelocity(c) == p.v0
    ensures IsCharacteristicRoot(p, c.r1) && IsCharacteristicRoot(p, c.r2) && c.r2 < c.r1 < 0.0
  {
    var gamma := Gamma(p);
    NaturalFrequency(p, omega0);
    SquaresOrdered(gamma, omega0);
    PositiveRadicandRoot(delta, gamma * gamma - omega0 * omega0);
    OverdampedRoots(p, gamma, omega0 * omega0, delta);
    var r1 := -gamma + delta;
    var r2 := -gamma - delta;
    TwoByTwoSolution(r1, r2, p.x0, p.v0);
    OverdampedCurve(r1, r2, (p.v0 - r2 * p.x0) / (r1 - r2), (r1 * p.x0 - p.v0) / (r1 - r2))
  }

  /** The critically damped branch (gamma == omega0): the repeated root -gamma with the
      linear factor x0 + (v0 + gamma x0) t */
  function CriticalCoefficients(p: Params, omega0: real): (c: Curve)
    requires ValidParams(p) && IsSqrt(omega0, p.k / p.m) && Gamma(p) == omega0
    ensures c.CriticalCurve? && c.gamma == Gamma(p) && c.gamma > 0.0
    ensures InitialPosition(c) == p.x0 && InitialVelocity(c) == p.v0
    ensures IsCharacteristicRoot(p, -c.gamma) && 2.0 * p.m * c.gamma == p.b
  {
    var gamma := Gamma(p);
    NaturalFrequency(p, omega0);
    ShiftedRoot(p, gamma, omega0 * omega0, 0.0, -gamma);
    CriticalCurve(gamma, p.x0, p.v0 + gamma * p.x0)
  }

  /** The underdamped branch (gamma < omega0): C = x0 and D = (v0 + gamma x0) / omegaD,
      with gamma^2 + omegaD^2 = k/m */
  function UnderdampedCoefficients(p: Params, omega0: real, omegaD: real): (c: Curve)
    requires ValidParams(p) && IsSqrt(omega0, p.k / p.m) && Gamma(p) < omega0
    requires IsSqrt(omegaD, omega0 * omega0 - Gamma(p) * Gamma(p))
    ensures c.UnderdampedCurve? && c.gamma == Gamma(p) && c.gamma >= 0.0 && c.omegaD > 0.0
    ensures p.b > 0.0 ==> c.gamma > 0.0
    ensures InitialPosition(c) == p.x0 && InitialVelocity(c) == p.v0
    ensures c.gamma * c.gamma + c.omegaD * c.omegaD == p.k / p.m
  {
    var gamma := Gamma(p);
    NaturalFrequency(p, omega0);
    SquaresOrdered(omega0, gamma);
    PositiveRadicandRoot(omegaD, omega0 * omega0 - gamma * gamma);
    CancelDivision(p.v0 + gamma * p.x0, omegaD);
    UnderdampedCurve(gamma, omegaD, p.x0, (p.v0 + gamma * p.x0) / omegaD)
  }

  /** The inputs solve_damped_oscillator is called with: parameters in the sliders' range
      and the square roots it takes. omega0 is sqrt(k/m); delta is sqrt(gamma^2 - omega0^2),
      needed only when overdamped; omegaD is sqrt(omega0^2 - gamma^2), needed only when
      underdamped. */
  predicate SolveInputs(p: Params, omega0: real, delta: real, omegaD: real)
  {
    ValidParams(p) && IsSqrt(omega0, p.k / p.m) &&
    (Gamma(p) > omega0 ==> IsSqrt(delta, Gamma(p) * Gamma(p) - omega0 * omega0)) &&
    (Gamma(p) < omega0 ==> IsSqrt(omegaD, omega0 * omega0 - Gamma(p) * Gamma(p)))
  }

  /** solve_damped_oscillator: pick the branch by comparing gamma with omega0 and compute
      the coefficients */
  function Solve(p: Params, omega0: real, delta: real, omegaD: real): (c: Curve)
    requires SolveInputs(p, omega0, delta, omegaD)
    ensures InitialPosition(c) == p.x0 && InitialVelocity(c) == p.v0
    ensures CurveType(c) == SidebarDampingType(Discriminant(p.b, p.m, p.k))
    // each closed form solves m x'' + b x' + k x = 0; it decays when b > 0, and for b = 0
    // the underdamped curve is an undamped oscillation (gamma = 0)
    ensures c.OverdampedCurve? ==>
              c.r1 - c.r2 > 0.0 &&
              IsCharacteristicRoot(p, c.r1) && IsCharacteristicRoot(p, c.r2) && c.r2 < c.r1 < 0.0
    ensures c.CriticalCurve? ==>
              c.gamma == Gamma(p) && c.gamma > 0.0 &&
              IsCharacteristicRoot(p, -c.gamma) && 2.0 * p.m * c.gamma == p.b
    ensures c.UnderdampedCurve? ==>
              c.omegaD > 0.0 && c.gamma == Gamma(p) && c.gamma >= 0.0 && (p.b > 0.0 ==> c.gamma > 0.0) &&
              c.gamma * c.gamma + c.omegaD * c.omegaD == p.k / p.m
  {
    BranchMatchesDiscriminant(p, omega0);
    if Gamma(p) > omega0 then
      OverdampedCoefficients(p, omega0, delta)
    else if Gamma(p) == omega0 then
      CriticalCoefficients(p, omega0)
    else
      UnderdampedCoefficients(p, omega0, omegaD)
  }

  /** -gamma - delta < -gamma + delta < 0, and both are roots of m r^2 + b r + k, when
      b = 2 m gamma, k = m w with w > 0, and delta^2 = gamma^2 - w */
  lemma OverdampedRoots(p: Params, gamma: real, w: real, delta: real)
    requires p.m > 0.0 && 2.0 * p.m * gamma == p.b && gamma > 0.0
    requires w > 0.0 && w * p.m == p.k
    requires delta > 0.0 && delta * delta == gamma * gamma - w
    ensures IsCharacteristicRoot(p, -gamma + delta) && IsCharacteristicRoot(p, -gamma - delta)
    ensures -gamma - delta < -gamma + delta < 0.0
  {
    RootBelowDamping(w, gamma, delta);
    ShiftedRoot(p, gamma, w, delta, -gamma + delta);
    ShiftedRoot(p, gamma, w, delta, -gamma - delta);
  }

  /** omega0 is positive and m omega0^2 == k; gamma is non-negative and 2 m gamma == b */
  lemma NaturalFrequency(p: Params, omega0: real)
    requires ValidParams(p) && IsSqrt(omega0, p.k / p.m)
    ensures omega0 > 0.0 && omega0 * omega0 > 0.0 && omega0 * omega0 * p.m == p.k
    ensures Gamma(p) >= 0.0 && 2.0 * p.m * Gamma(p) == p.b
  {
    assert p.k / p.m > 0.0;
    PositiveRadicandRoot(omega0, p.k / p.m);
  }

  /** -gamma +- d is a root of m r^2 + b r + k when b = 2 m gamma, k = m w and
      d^2 = gamma^2 - w */
  lemma ShiftedRoot(p: Params, gamma: real, w: real, d: real, r: real)
    requires p.m > 0.0 && 2.0 * p.m * gamma == p.b && w * p.m == p.k
    requires d * d == gamma * gamma - w
    requires r == -gamma + d || r == -gamma - d
    ensures IsCharacteristicRoot(p, r)
  {
    var e := r + gamma;
    assert e * e == d * d;
    assert p.m * r * r + p.b * r + p.k == p.m * (e * e) - p.m * (gamma * gamma) + p.k;
  }

  /** delta < gamma when delta^2 = gamma^2 - w with w > 0, so -gamma + delta < 0 */
  lemma RootBelowDamping(w: real, gamma: real, delta: real)
    requires w > 0.0 && gamma > 0.0 && delta > 0.0 && delta * delta == gamma * gamma - w
    ensures delta < gamma
  {
    SquaresOrdered(gamma, delta);
  }

  /** For x, y >= 0, comparing x with y is comparing their squares */
  lemma SquaresOrdered(x: real, y: real)
    requires x >= 0.0 && y >= 0.0
    ensures x > y <==> x * x > y * y
    ensures x == y <==> x * x == y * y
  {
    assert x * x - y * y == (x - y) * (x + y);
    if x > y {
      ProductPositive(x - y, x + y);
    } else if x < y {
      ProductPositive(y - x, x + y);
    }
  }

  lemma ProductPositive(a: real, b: real)
    requires a > 0.0 && b > 0.0
    ensures a * b > 0.0
  {
  }

  /** The square root of a positive number is positive */
  lemma PositiveRadicandRoot(r: real, x: real)
    requires IsSqrt(r, x) && x > 0.0
    ensures r > 0.0
  {
  }

  /** (q / w) * w == q for w != 0 */
  lemma CancelDivision(q: real, w: real)
    requires w != 0.0
    ensures w * (q / w) == q
  {
  }

  /** A = (v0 - r2 x0)/(r1 - r2) and B = (r1 x0 - v0)/(r1 - r2) solve A + B = x0 and
      r1 A + r2 B = v0 */
  lemma TwoByTwoSolution(r1: real, r2: real, x0: real, v0: real)
    requires r1 != r2
    ensures var a, b := (v0 - r2 * x0) / (r1 - r2), (r1 * x0 - v0) / (r1 - r2);
            a + b == x0 && r1 * a + r2 * b == v0
  {
  }

  /** gamma^2 - omega0^2 is the discriminant scaled by 4 m^2 */
  lemma ScaledDiscriminant(p: Params, omega0: real)
    requires ValidParams(p) && IsSqrt(omega0, p.k / p.m)
    ensures (Gamma(p) * Gamma(p) - omega0 * omega0) * (4.0 * p.m * p.m) == Discriminant(p.b, p.m, p.k)
  {
  }

  /** With m, k > 0 and b >= 0, the solver's branch tests line up with the sign of the
      discriminant b^2 - 4mk */
  lemma BranchMatchesDiscriminant(p: Params, omega0: real)
    requires ValidParams(p) && IsSqrt(omega0, p.k / p.m)
    ensures Gamma(p) > omega0 <==> Discriminant(p.b, p.m, p.k) > 0.0
    ensures Gamma(p) == omega0 <==> Discriminant(p.b, p.m, p.k) == 0.0
    ensures Gamma(p) < omega0 <==> Discriminant(p.b, p.m, p.k) < 0.0
  {
    var g := Gamma(p);
    var s := 4.0 * p.m * p.m;
    assert s > 0.0;
    SquaresOrdered(g, omega0);
    ScaledDiscriminant(p, omega0);
    var gap := g * g - omega0 * omega0;
    assert gap > 0.0 ==> gap * s > 0.0;
    assert gap < 0.0 ==> gap * s < 0.0;
  }

  /** The solver's curve type agrees with the frozen-trace classification except on the
      band [-ATOL, 0) of the discriminant, where the solver reports underdamped */
  lemma SolverAgreesWithTraceOutsideBand(p: Params, omega0: real, delta: real, omegaD: real)
    requires ValidParams(p)
    requires IsSqrt(omega0, p.k / p.m)
    requires Gamma(p) > omega0 ==> IsSqrt(delta, Gamma(p) * Gamma(p) - omega0 * omega0)
    requires Gamma(p) < omega0 ==> IsSqrt(omegaD, omega0 * omega0 - Gamma(p) * Gamma(p))
    ensures var d := Discriminant(p.b, p.m, p.k);
            CurveType(Solve(p, omega0, delta, omegaD)) == TraceDampingType(d) <==> !(-ATOL <= d < 0.0)
  {
    ClassifiersDisagreeOnlyInBand(Discriminant(p.b, p.m, p.k));
  }

  /** m = 1, k = 4, b = 4 (omega0 = 2): critically damped, with x(0) = 1 */
  lemma CriticalExample()
    ensures var c := Solve(Params(4.0, 1.0, 4.0, 1.0, 0.0), 2.0, 0.0, 0.0);
            c == CriticalCurve(2.0, 1.0, 2.0) && InitialPosition(c) == 1.0
  {
  }

  /** m = 1, k = 4, b = 10: discriminant 84, overdamped; m = 1, k = 4, b = 1: -15, underdamped */
  lemma DiscriminantExamples()
    ensures Discriminant(10.0, 1.0, 4.0) == 84.0 && SidebarDampingType(84.0) == Overdamped
    ensures Discriminant(1.0, 1.0, 4.0) == -15.0 && SidebarDampingType(-15.0) == Underdamped
  {
  }
}

/** Damping regimes of the mass-spring-damper m x'' + b x' + k x = 0, read off the
    discriminant of its characteristic polynomial m r^2 + b r + k. The app classifies
    that discriminant twice: in the sidebar with an exact comparison against zero, and
    when a trace is frozen with numpy's isclose. */
module Damping {

  datatype DampingType = Overdamped | CriticallyDamped | Underdamped

  /** numpy.isclose's default absolute and relative tolerances */
  const ATOL: real := 0.00000001
  const RTOL: real := 0.00001

  function Abs(x: real): (r: real)
    ensures r >= 0.0 && (r == x || r == -x)
  {
    if x < 0.0 then -x else x
  }

  /** numpy.isclose(a, b): the tolerance grows with the magnitude of the SECOND argument */
  predicate IsClose(a: real, b: real)
  {
    Abs(a - b) <= ATOL + RTOL * Abs(b)
  }

  /** b^2 - 4mk */
  function Discriminant(b: real, m: real, k: real): real
  {
    b * b - 4.0 * m * k
  }

  /** The sidebar's classification: exact comparison of the discriminant with zero */
  function SidebarDampingType(delta: real): (t: DampingType)
    ensures t == Overdamped <==> delta > 0.0
    ensures t == CriticallyDamped <==> delta == 0.0
    ensures t == Underdamped <==> delta < 0.0
  {
    if delta > 0.0 then Overdamped
    else if delta == 0.0 then CriticallyDamped
    else Underdamped
  }

  /** The frozen-trace classification: "> 0" first, then isclose(delta, 0) */
  function TraceDampingType(delta: real): (t: DampingType)
    ensures t == Overdamped <==> delta > 0.0
    ensures t == CriticallyDamped <==> -ATOL <= delta <= 0.0
    ensures t == Underdamped <==> delta < -ATOL
  {
    if delta > 0.0 then Overdamped
    else if IsClose(delta, 0.0) then CriticallyDamped
    else Underdamped
  }

  /** isclose against zero is a fixed window of half-width ATOL around zero */
  lemma IsCloseToZero(d: real)
    ensures IsClose(d, 0.0) <==> -ATOL <= d <= ATOL
  {
  }

  /** Every value is close to itself, so an unchanged parameter is never highlighted */
  lemma IsCloseReflexive(a: real)
    ensures IsClose(a, a)
  {
  }

  /** isclose is not symmetric: 0 is close to a value just above ATOL, but that value is not close to 0 */
  lemma IsCloseNotSymmetric()
    ensures IsClose(0.0, 0.00000001000005) && !IsClose(0.00000001000005, 0.0)
  {
  }

  /** The two classifiers disagree exactly on the small negative band [-ATOL, 0), where the
      frozen trace says critically damped and the sidebar says underdamped. */
  lemma ClassifiersDisagreeOnlyInBand(delta: real)
    ensures TraceDampingType(delta) != SidebarDampingType(delta) <==> -ATOL <= delta < 0.0
    ensures TraceDampingType(delta) != SidebarDampingType(delta) ==>
              TraceDampingType(delta) == CriticallyDamped && SidebarDampingType(delta) == Underdamped
  {
  }

  /** The classifiers agree on Overdamped everywhere; an exactly critical discriminant is
      critical for both. */
  lemma ClassifiersAgreeOnOverdampedAndExactCritical(delta: real)
    ensures SidebarDampingType(delta) == Overdamped <==> TraceDampingType(delta) == Overdamped
    ensures SidebarDampingType(delta) == CriticallyDamped ==> TraceDampingType(delta) == CriticallyDamped
    ensures TraceDampingType(delta) == Underdamped ==> SidebarDampingType(delta) == Underdamped
  {
  }
}

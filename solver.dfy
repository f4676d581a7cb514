/**
 * The secant guess that picks a driving potential for a target (battery/diffusion_battery.py):
 * sample the observed quantity at the current boundary value and one volt above it, fit a
 * line through the two samples, and read off where the line meets the target.
 */
module Solver {
  import opened Wrappers
  import opened Diffusion

  /** The exceptions the guess can raise. */
  datatype Error = ZeroDivisionError | AssertionError

  /**
   * `get_slope_intercept`: the line x -> slope * x + intercept through two (x, y) points;
   * a ZeroDivisionError when the two x coordinates coincide.
   */
  function GetSlopeIntercept(pt1: (real, real), pt2: (real, real)): (r: Result<(real, real), Error>)
    ensures r.Err? <==> pt1.0 == pt2.0
    ensures r.Err? ==> r.error == ZeroDivisionError
    ensures r.Ok? ==> pt1.1 == r.value.0 * pt1.0 + r.value.1
    ensures r.Ok? ==> pt2.1 == r.value.0 * pt2.0 + r.value.1
  {
    if pt1.0 - pt2.0 == 0.0 then
      Err(ZeroDivisionError)
    else
      var slope := (pt1.1 - pt2.1) / (pt1.0 - pt2.0);
      assert slope * (pt1.0 - pt2.0) == pt1.1 - pt2.1;
      Ok((slope, pt1.1 - slope * pt1.0))
  }

  /** A quantity observed after one step from a curve under a driving potential. */
  type Observation = (real, Curve) -> real

  /** For a curve, the same quantity as a function of the driving potential alone. */
  type Binder = Curve -> (real -> real)

  /**
   * `guess_drive_pot`. When the boundary value already produces the target it is returned
   * unchanged; otherwise the two ways of observing must agree at the boundary value (an
   * AssertionError if not), and the secant through the samples at p0 and p0 + 1 is solved
   * for the target.
   */
  function GuessDrivePot(curve: Curve, observe: Observation, bind: Binder, target: real): (r: Result<real, Error>)
    ensures var p0 := curve[0];
            var v0 := observe(p0, curve);
            var v1 := observe(p0 + 1.0, curve[0 := p0 + 1.0]);
            && (v0 == target ==> r == Ok(p0))
            && (r == Err(AssertionError) <==> v0 != target && v0 != bind(curve)(p0))
            && (r == Err(ZeroDivisionError) <==> v0 != target && v0 == bind(curve)(p0) && v1 == v0)
            && (r.Ok? && v0 != target ==> (r.value - p0) * (v1 - v0) == target - v0)
  {
    var p0 := curve[0];
    var v0 := observe(p0, curve);
    if v0 == target then
      Ok(p0)
    else if v0 != bind(curve)(p0) then
      Err(AssertionError)
    else
      var p1 := p0 + 1.0;
      var v1 := observe(p1, curve[0 := p1]);
      match GetSlopeIntercept((v0, p0), (v1, p1))
      case Err(e) => Err(e)
      case Ok(line) =>
        var x := line.0 * target + line.1;
        SecantSolves(line.0, line.1, v0, p0, v1, p1, target);
        Ok(x)
  }

  /** On a line through (v0, p0) and (v1, p1), the point above target satisfies the two-point form. */
  lemma SecantSolves(slope: real, intercept: real, v0: real, p0: real, v1: real, p1: real, target: real)
    requires p0 == slope * v0 + intercept && p1 == slope * v1 + intercept
    ensures (slope * target + intercept - p0) * (v1 - v0) == (target - v0) * (p1 - p0)
  {
    assert slope * target + intercept - p0 == slope * (target - v0);
    assert p1 - p0 == slope * (v1 - v0);
  }

  /** The observation and the binder agree: observing p on the curve clamped to p is bind(curve)(p). */
  ghost predicate Paired(curve: Curve, observe: Observation, bind: Binder)
  {
    forall p :: bind(curve)(p) == observe(p, curve[0 := p])
  }

  /** Paired observers never trip the assertion of `guess_drive_pot`. */
  lemma PairedNeverAsserts(curve: Curve, observe: Observation, bind: Binder, target: real)
    requires Paired(curve, observe, bind)
    ensures GuessDrivePot(curve, observe, bind, target) != Err(AssertionError)
  {
    var p0 := curve[0];
    assert curve[0 := p0] == curve;
    assert bind(curve)(p0) == observe(p0, curve[0 := p0]);
  }

  /**
   * For a paired observation that is affine in the driving potential, the guess is exact
   * whenever the line has a slope, and otherwise succeeds only if nothing needs to change.
   */
  lemma GuessExact(curve: Curve, observe: Observation, bind: Binder, target: real)
    requires Paired(curve, observe, bind) && Affine(bind(curve))
    ensures var f, r := bind(curve), GuessDrivePot(curve, observe, bind, target);
            && (f(1.0) != f(0.0) ==> r.Ok? && f(r.value) == target)
            && (f(1.0) == f(0.0) ==> r == if f(curve[0]) == target then Ok(curve[0]) else Err(ZeroDivisionError))
  {
    var f, r := bind(curve), GuessDrivePot(curve, observe, bind, target);
    var p0, p1 := curve[0], curve[0] + 1.0;
    assert curve[0 := p0] == curve;
    var v0, v1 := observe(p0, curve), observe(p1, curve[0 := p1]);
    assert v0 == f(p0) && v1 == f(p1);
    assert Interpolates(f(0.0), f(1.0), f(p0), p0);
    assert Interpolates(f(0.0), f(1.0), f(p1), p1);
    UnitStep(f(0.0), f(1.0), p0, v0, v1);
    PairedNeverAsserts(curve, observe, bind, target);
    if f(1.0) != f(0.0) && v0 != target {
      var x := r.value;
      assert Interpolates(f(0.0), f(1.0), f(x), x);
      HitsTarget(f(0.0), f(1.0), p0, v0, x, f(x), target);
    }
  }

  /** One volt along a line of slope a1 - a0 moves the value by exactly a1 - a0. */
  lemma UnitStep(a0: real, a1: real, p0: real, v0: real, v1: real)
    requires Interpolates(a0, a1, v0, p0) && Interpolates(a0, a1, v1, p0 + 1.0)
    ensures v1 - v0 == a1 - a0
  {
  }

  /** A point whose secant equation holds for a sloped line lands on the target. */
  lemma HitsTarget(a0: real, a1: real, p0: real, v0: real, x: real, fx: real, target: real)
    requires a1 != a0
    requires Interpolates(a0, a1, v0, p0) && Interpolates(a0, a1, fx, x)
    requires (x - p0) * (a1 - a0) == target - v0
    ensures fx == target
  {
    assert fx - v0 == (x - p0) * (a1 - a0);
  }
}

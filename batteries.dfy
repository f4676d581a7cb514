/**
 * The diffusion battery (battery/diffusion_battery.py): its state, the timestep that applies a
 * driving potential, and the solver queries that pick a driving potential for a target
 * current or a target potential.
 */
module Batteries {
  import opened Wrappers
  import opened Diffusion
  import opened Solver

  /** `compute_current` as the solver's first observation. */
  function CurrentObserver(g: Kernel): Observation
  {
    (p: real, y: Curve) => ComputeCurrent(g, p, y)
  }

  /** `get_calc_current` as the solver's second observation. */
  function CurrentBinder(g: Kernel): Binder
  {
    y => CalcCurrent(g, y)
  }

  /** `compute_ocp` as the solver's first observation. */
  function OcpObserver(g: Kernel): Observation
  {
    (p: real, y: Curve) => ComputeOcp(g, p, y)
  }

  /** `get_calc_ocp` as the solver's second observation. */
  function OcpBinder(g: Kernel): Binder
  {
    y => CalcOcp(g, y)
  }

  /** The closures built by `get_calc_current` observe exactly what `compute_current` does. */
  lemma CurrentPaired(g: Kernel, y: Curve)
    ensures Paired(y, CurrentObserver(g), CurrentBinder(g))
  {
    forall p
      ensures CurrentBinder(g)(y)(p) == CurrentObserver(g)(p, y[0 := p])
    {
    }
  }

  /** The closures built by `get_calc_ocp` observe exactly what `compute_ocp` does. */
  lemma OcpPaired(g: Kernel, y: Curve)
    ensures Paired(y, OcpObserver(g), OcpBinder(g))
  {
    forall p
      ensures OcpBinder(g)(y)(p) == OcpObserver(g)(p, y[0 := p])
    {
    }
  }

  /** The exception a timestep can raise. */
  datatype BatteryError = IndexError

  /**
   * A cathode whose charge curve diffuses one timestep at a time. The Gaussian kernel that the
   * source derives from the cathode width is a parameter.
   */
  class DiffusionBattery {
    /** Total charge in the battery. */
    var soc: real
    /** Open-circuit potential after the last timestep. */
    var ocp: real
    /** Charge across the thickness of the cathode. */
    var chargeCurve: Curve
    /** The smoothing kernel of one timestep. */
    const kernel: Kernel

    constructor (soc: real, ocp: real, chargeCurve: Curve, kernel: Kernel)
      ensures this.soc == soc && this.ocp == ocp && this.chargeCurve == chargeCurve && this.kernel == kernel
    {
      this.soc := soc;
      this.ocp := ocp;
      this.chargeCurve := chargeCurve;
      this.kernel := kernel;
    }

    /**
     * `apply_potential`: one timestep under the driving potential. The new curve replaces the
     * old; then the potential is read from index 1 of it (an IndexError, with the curve already
     * replaced, when it has a single point), the charge becomes its total, and the result is
     * the new potential and the change of that total.
     */
    method ApplyPotential(potential: real) returns (r: Result<(real, real), BatteryError>)
      modifies this
      ensures chargeCurve == ComputeChargeCurve(kernel, potential, old(chargeCurve))
      ensures r.Err? <==> |chargeCurve| < 2
      ensures r.Err? ==> r.error == IndexError && ocp == old(ocp) && soc == old(soc)
      ensures r.Ok? ==> ocp == chargeCurve[1] && soc == Sum(chargeCurve) && r.value == (ocp, soc - old(soc))
      ensures r.Ok? && old(soc) == Sum(old(chargeCurve)) ==> r.value.1 == ComputeCurrent(kernel, potential, old(chargeCurve))
    {
      var newChargeCurve := ComputeChargeCurve(kernel, potential, chargeCurve);
      chargeCurve := newChargeCurve;
      if |newChargeCurve| < 2 {
        return Err(IndexError);
      }
      ocp := newChargeCurve[1];
      var priorSoc := soc;
      soc := Sum(chargeCurve);
      var timestepCurrent := soc - priorSoc;
      r := Ok((ocp, timestepCurrent));
    }

    /**
     * `get_driver_for_target_current`. A driving potential is returned exactly when the
     * solver's current reaches the target at it; the boundary value itself when it already
     * does. It fails, with a ZeroDivisionError, only when the current does not depend on the
     * driving potential and misses the target. The step it predicts for the returned
     * potential moves the target charge plus the boundary change it makes.
     */
    function GetDriverForTargetCurrent(target: real): (r: Result<real, Error>)
      reads this
      ensures var f := CalcCurrent(kernel, chargeCurve);
              && (f(chargeCurve[0]) == target ==> r == Ok(chargeCurve[0]))
              && (r.Ok? ==> f(r.value) == target)
              && (r.Err? <==> f(1.0) == f(0.0) && f(chargeCurve[0]) != target)
              && (r.Err? ==> r.error == ZeroDivisionError)
      ensures r.Ok? ==> ComputeCurrent(kernel, r.value, chargeCurve) == target + (r.value - chargeCurve[0])
    {
      var observe, bind := CurrentObserver(kernel), CurrentBinder(kernel);
      CurrentPaired(kernel, chargeCurve);
      SolvedExactly(chargeCurve, observe, bind, target);
      var r := GuessDrivePot(chargeCurve, observe, bind, target);
      if r.Ok? then AppliedCurrentOffset(kernel, chargeCurve, r.value); r else r
    }

    /**
     * `get_driver_for_target_ocp`. As for the current: exact whenever the potential depends on
     * the driving potential, and the step from the returned potential leaves the target at
     * index 0 of the curve.
     */
    function GetDriverForTargetOcp(target: real): (r: Result<real, Error>)
      reads this
      ensures var f := CalcOcp(kernel, chargeCurve);
              && (f(chargeCurve[0]) == target ==> r == Ok(chargeCurve[0]))
              && (r.Ok? ==> f(r.value) == target)
              && (r.Err? <==> f(1.0) == f(0.0) && f(chargeCurve[0]) != target)
              && (r.Err? ==> r.error == ZeroDivisionError)
      ensures r.Ok? ==> ComputeChargeCurve(kernel, r.value, chargeCurve)[0] == target
    {
      var observe, bind := OcpObserver(kernel), OcpBinder(kernel);
      OcpPaired(kernel, chargeCurve);
      SolvedExactly(chargeCurve, observe, bind, target);
      var r := GuessDrivePot(chargeCurve, observe, bind, target);
      if r.Ok? then OcpObserved(kernel, chargeCurve, r.value); r else r
    }
  }

  /** What the secant guess achieves for a paired, affine observation, in one statement. */
  lemma SolvedExactly(curve: Curve, observe: Observation, bind: Binder, target: real)
    requires Paired(curve, observe, bind) && Affine(bind(curve))
    ensures var f, r := bind(curve), GuessDrivePot(curve, observe, bind, target);
            && (f(curve[0]) == target ==> r == Ok(curve[0]))
            && (r.Ok? ==> f(r.value) == target)
            && (r.Err? <==> f(1.0) == f(0.0) && f(curve[0]) != target)
            && (r.Err? ==> r.error == ZeroDivisionError)
  {
    var f, p0 := bind(curve), curve[0];
    assert curve[0 := p0] == curve;
    assert f(p0) == observe(p0, curve[0 := p0]);
    GuessExact(curve, observe, bind, target);
    PairedNeverAsserts(curve, observe, bind, target);
  }

  /**
   * The solver scenario of tests/test_diffusion_battery.py: curve [1, 2, 3], a three-point
   * kernel of positive weights summing to 1, target potential 2. The driving potential found
   * is exactly 2, and observing it reproduces the target.
   */
  lemma TargetOcpScenario(battery: DiffusionBattery)
    requires battery.chargeCurve == [1.0, 2.0, 3.0]
    requires |battery.kernel| == 3 && Sum(battery.kernel) == 1.0
    requires forall m :: 0 <= m < 3 ==> battery.kernel[m] > 0.0
    ensures battery.GetDriverForTargetOcp(2.0) == Ok(2.0)
    ensures CalcOcp(battery.kernel, battery.chargeCurve)(2.0) == 2.0
  {
    var g, y := battery.kernel, battery.chargeCurve;
    assert Sum(g) == g[0] + g[1] + g[2] by {
      assert g[..2][..1] == [g[0]] && [g[0]][..0] == [];
      assert Sum([g[0]]) == g[0];
      assert Sum(g[..2]) == g[0] + g[1];
    }
    var f := CalcOcp(g, y);
    ThreePointOcp(g, 0.0);
    ThreePointOcp(g, 1.0);
    ThreePointOcp(g, 2.0);
    var r := battery.GetDriverForTargetOcp(2.0);
    assert f(1.0) != f(0.0);
    ThreePointOcp(g, r.value);
    assert (r.value - 2.0) * (g[1] + g[2]) == 0.0;
  }

  /** On the curve [1, 2, 3] with a three-point kernel, the observed potential is 2 g0 + p (g1 + g2). */
  lemma ThreePointOcp(g: Kernel, p: real)
    requires |g| == 3
    ensures CalcOcp(g, [1.0, 2.0, 3.0])(p) == 2.0 * g[0] + p * (g[1] + g[2])
  {
    var y := [1.0, 2.0, 3.0];
    var b := Padded(p, y, 3);
    OcpObserved(g, y, p);
    ChargeCurveAt(g, p, y, 0);
    assert b[5] == p && b[6] == p && b[7] == 2.0;
    assert ConvAt(b, g, 7, 1) == g[0] * 2.0;
    assert ConvAt(b, g, 7, 2) == g[0] * 2.0 + g[1] * p;
    assert ConvAt(b, g, 7, 3) == g[0] * 2.0 + g[1] * p + g[2] * p;
  }
}

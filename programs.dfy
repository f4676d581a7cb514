/**
 * The CC/CV cycling program (battery/tester_program.py): five steps visited in a fixed cycle,
 * a program-wide timestep counter and a per-step counter, and a driving potential picked by
 * the battery's solver for the target of the current step.
 */
module Programs {
  import opened Wrappers
  import opened Diffusion
  import opened Solver
  import opened Batteries

  /** The steps of the program. */
  datatype Step = ChargeCC | ChargeCV | Rest | DischargeCC | DischargeCV

  /** The constants that configure a program (battery/config.py). */
  datatype Setpoints = Setpoints(
    chargeCC: real,
    chargeCV: real,
    dischargeCV: real,
    zeroCurrentThreshold: real,
    restTimesteps: int)

  /** The step that each step changes to. */
  function Next(s: Step): Step
  {
    match s
    case ChargeCC => ChargeCV
    case ChargeCV => Rest
    case Rest => DischargeCC
    case DischargeCC => DischargeCV
    case DischargeCV => ChargeCC
  }

  /** The step reached after n changes from s. */
  function Cycle(s: Step, n: nat): Step
    decreases n
  {
    if n == 0 then s else Cycle(Next(s), n - 1)
  }

  /** Position of a step in the cycle, starting from ChargeCC. */
  function Index(s: Step): nat
  {
    match s
    case ChargeCC => 0
    case ChargeCV => 1
    case Rest => 2
    case DischargeCC => 3
    case DischargeCV => 4
  }

  /** How many changes lead from one step to another along the cycle. */
  function Changes(from: Step, to: Step): (n: nat)
    ensures n < 5 && Cycle(from, n) == to
  {
    var n := (Index(to) - Index(from) + 5) % 5;
    CycleIndex(from, n);
    n
  }

  /** n changes move n places along the cycle. */
  lemma {:induction false} CycleIndex(s: Step, n: nat)
    ensures Index(Cycle(s, n)) == (Index(s) + n) % 5
    decreases n
  {
    if n > 0 {
      CycleIndex(Next(s), n - 1);
    }
  }

  /**
   * Whether a step is left: on reaching the charge voltage, when the current falls below the
   * threshold, after the rest period, on reaching the discharge voltage, and when the
   * discharge current dies away. With the discharge voltage below the charge voltage, a
   * potential that ends one constant-current step does not end the other.
   */
  predicate Exits(sp: Setpoints, s: Step, ocp: real, current: real, timestepsInStep: int): (b: bool)
    ensures b && s == ChargeCC && sp.dischargeCV < sp.chargeCV ==> ocp > sp.dischargeCV
    ensures b && s == DischargeCC && sp.dischargeCV < sp.chargeCV ==> ocp < sp.chargeCV
  {
    match s
    case ChargeCC => ocp >= sp.chargeCV
    case ChargeCV => current < sp.zeroCurrentThreshold
    case Rest => timestepsInStep > sp.restTimesteps
    case DischargeCC => ocp <= sp.dischargeCV
    case DischargeCV => current > -sp.zeroCurrentThreshold
  }

  /** What the driving potential of a step aims at. */
  datatype Target = TargetCurrent(current: real) | TargetOcp(potential: real)

  /** The target of each step. Exactly the constant-voltage steps aim at a potential; rest aims at no current. */
  function StepTarget(sp: Setpoints, s: Step): (t: Target)
    ensures t.TargetOcp? <==> s == ChargeCV || s == DischargeCV
    ensures s == Rest ==> t == TargetCurrent(0.0)
  {
    match s
    case ChargeCC => TargetCurrent(sp.chargeCC)
    case ChargeCV => TargetOcp(sp.chargeCV)
    case Rest => TargetCurrent(0.0)
    case DischargeCC => TargetCurrent(-sp.chargeCC)
    case DischargeCV => TargetOcp(sp.dischargeCV)
  }

  /** Whether a driving potential makes the battery's solver observe the target. */
  ghost predicate Meets(battery: DiffusionBattery, t: Target, driver: real)
    reads battery
  {
    match t
    case TargetCurrent(c) => CalcCurrent(battery.kernel, battery.chargeCurve)(driver) == c
    case TargetOcp(v) => CalcOcp(battery.kernel, battery.chargeCurve)(driver) == v
  }

  /** The battery's solver, asked for a driving potential that meets the target. */
  function DriverFor(battery: DiffusionBattery, t: Target): Result<real, Error>
    reads battery
  {
    match t
    case TargetCurrent(c) => battery.GetDriverForTargetCurrent(c)
    case TargetOcp(v) => battery.GetDriverForTargetOcp(v)
  }

  /** The errors of a program advance: the solver's, and a recursion that never ends. */
  datatype AdvanceError = SolverFailed(error: Error) | RecursionError

  /** The fields of a program. */
  datatype ProgramState = ProgramState(step: Step, driver: real, timestep: int, timestepsInStep: int)

  /** The end of a chain of step changes: the step it stops in, or no end at all. */
  datatype Settlement = Settled(step: Step, changes: nat) | Diverged

  /**
   * The chain of step changes within one advance. The first test reads the per-step counter
   * as it was before this advance; every re-entry reads the field, laterTis. Once five
   * changes have led back to the first step and it exits again, every later test repeats
   * an earlier one, so the chain never ends. A chain that ends does so within the five
   * changes, in a step whose test, read at the counter of that entry, does not exit.
   */
  function Settle(sp: Setpoints, s: Step, ocp: real, current: real, tis: int, laterTis: int, changes: nat): (r: Settlement)
    requires changes <= 5
    ensures r.Settled? ==> changes <= r.changes <= 5
    ensures r.Settled? ==> !Exits(sp, r.step, ocp, current, if r.changes == changes then tis else laterTis)
    decreases 5 - changes
  {
    if !Exits(sp, s, ocp, current, tis) then Settled(s, changes)
    else if changes == 5 then Diverged
    else Settle(sp, Next(s), ocp, current, laterTis, laterTis, changes + 1)
  }

  /** The counters after the increment that starts an advance. */
  function Incremented(s: ProgramState, increment: bool): ProgramState
  {
    if increment then s.(timestep := s.timestep + 1, timestepsInStep := s.timestepsInStep + 1) else s
  }

  /**
   * `advance` on the program's fields: the new fields and how the call ends. Both counters
   * move by exactly one on an incrementing call and not at all otherwise, and neither is
   * reset; the driving potential changes only when the call ends without error.
   */
  function AdvanceSpec(sp: Setpoints, s: ProgramState, battery: DiffusionBattery, current: real, increment: bool)
    : (r: (ProgramState, Outcome<AdvanceError>))
    reads battery
    ensures var d := if increment then 1 else 0;
            r.0.timestep == s.timestep + d && r.0.timestepsInStep == s.timestepsInStep + d
    ensures r.1.Fail? ==> r.0.driver == s.driver
    ensures r.1 == Fail(RecursionError) ==> r.0.step == s.step
  {
    var s1 := Incremented(s, increment);
    match Settle(sp, s.step, battery.ocp, current, s.timestepsInStep, s1.timestepsInStep, 0)
    case Diverged => (s1, Fail(RecursionError))
    case Settled(q, _) =>
      match DriverFor(battery, StepTarget(sp, q))
      case Ok(d) => (s1.(step := q, driver := d), Pass)
      case Err(e) => (s1.(step := q), Fail(SolverFailed(e)))
  }

  // ---------------------------------------------------------------------------
  // The chain of step changes

  lemma CycleFive(s: Step)
    ensures Cycle(s, 5) == s
  {
  }

  /** The chain visits the cycle in order; every step it passes exits, the one it stops in does not. */
  lemma {:induction false} SettleTrace(sp: Setpoints, s: Step, ocp: real, current: real, tis: int, laterTis: int, changes: nat)
    requires changes <= 5
    decreases 5 - changes
    ensures match Settle(sp, s, ocp, current, tis, laterTis, changes)
            case Settled(q, n) =>
              && changes <= n <= 5
              && q == Cycle(s, n - changes)
              && !Exits(sp, q, ocp, current, if n == changes then tis else laterTis)
              && forall k :: 0 <= k < n - changes ==> Exits(sp, Cycle(s, k), ocp, current, if k == 0 then tis else laterTis)
            case Diverged =>
              forall k :: 0 <= k <= 5 - changes ==> Exits(sp, Cycle(s, k), ocp, current, if k == 0 then tis else laterTis)
  {
    if Exits(sp, s, ocp, current, tis) && changes < 5 {
      SettleTrace(sp, Next(s), ocp, current, laterTis, laterTis, changes + 1);
      match Settle(sp, s, ocp, current, tis, laterTis, changes)
      case Settled(q, n) =>
        forall k | 0 <= k < n - changes
          ensures Exits(sp, Cycle(s, k), ocp, current, if k == 0 then tis else laterTis)
        {
          if k > 0 {
            assert Cycle(s, k) == Cycle(Next(s), k - 1);
          }
        }
      case Diverged =>
        forall k | 0 <= k <= 5 - changes
          ensures Exits(sp, Cycle(s, k), ocp, current, if k == 0 then tis else laterTis)
        {
          if k > 0 {
            assert Cycle(s, k) == Cycle(Next(s), k - 1);
          }
        }
    }
  }

  /** Any five consecutive steps of the cycle are all five steps. */
  lemma CycleCovers(s: Step, q: Step)
    ensures exists k :: 1 <= k <= 5 && Cycle(s, k) == q
  {
    var k := if Changes(s, q) == 0 then 5 else Changes(s, q);
    if Changes(s, q) == 0 {
      CycleFive(s);
    }
    assert Cycle(s, k) == q;
  }

  /**
   * A chain from a step whose first test fires never ends exactly when every step exits at
   * the counter that the re-entries read.
   */
  lemma DivergedIffEveryExitFires(sp: Setpoints, s: Step, ocp: real, current: real, tis: int, laterTis: int)
    ensures Settle(sp, s, ocp, current, tis, laterTis, 0) == Diverged
        <==> Exits(sp, s, ocp, current, tis) && forall q :: Exits(sp, q, ocp, current, laterTis)
  {
    SettleTrace(sp, s, ocp, current, tis, laterTis, 0);
    if Settle(sp, s, ocp, current, tis, laterTis, 0) == Diverged {
      forall q
        ensures Exits(sp, q, ocp, current, laterTis)
      {
        CycleCovers(s, q);
        var k :| 1 <= k <= 5 && Cycle(s, k) == q;
        assert Exits(sp, Cycle(s, k), ocp, current, laterTis);
      }
    }
  }

  /**
   * When the per-step counter does not go down between the first test and the re-entries,
   * a chain that ends makes at most four changes: the rest test can only become easier to pass.
   */
  lemma SettledWithinFour(sp: Setpoints, s: Step, ocp: real, current: real, tis: int, laterTis: int)
    requires tis <= laterTis
    ensures Settle(sp, s, ocp, current, tis, laterTis, 0).Settled? ==> Settle(sp, s, ocp, current, tis, laterTis, 0).changes <= 4
  {
    SettleTrace(sp, s, ocp, current, tis, laterTis, 0);
    CycleFive(s);
  }

  /** With the discharge voltage below the charge voltage, no potential exits both CC steps, so every chain ends. */
  lemma AtMostFourChanges(sp: Setpoints, s: Step, ocp: real, current: real, tis: int, laterTis: int)
    requires sp.dischargeCV < sp.chargeCV && tis <= laterTis
    ensures Settle(sp, s, ocp, current, tis, laterTis, 0).Settled?
    ensures Settle(sp, s, ocp, current, tis, laterTis, 0).changes <= 4
  {
    DivergedIffEveryExitFires(sp, s, ocp, current, tis, laterTis);
    assert !(Exits(sp, ChargeCC, ocp, current, laterTis) && Exits(sp, DischargeCC, ocp, current, laterTis));
    SettledWithinFour(sp, s, ocp, current, tis, laterTis);
  }

  // ---------------------------------------------------------------------------
  // One advance

  /**
   * An advance that ends walks the cycle from the step it started in: each step it passes
   * exits, at the counter from before the call for the first and the incremented one for the
   * rest, and the step it stops in does not.
   */
  lemma AdvanceWalksCycle(sp: Setpoints, s: ProgramState, battery: DiffusionBattery, current: real, increment: bool)
    ensures var (r, out) := AdvanceSpec(sp, s, battery, current, increment);
            var n := Changes(s.step, r.step);
            out != Fail(RecursionError) ==>
              && n <= 4
              && (forall k :: 0 <= k < n ==> Exits(sp, Cycle(s.step, k), battery.ocp, current, if k == 0 then s.timestepsInStep else r.timestepsInStep))
              && !Exits(sp, r.step, battery.ocp, current, if n == 0 then s.timestepsInStep else r.timestepsInStep)
  {
    var s1 := Incremented(s, increment);
    var st := Settle(sp, s.step, battery.ocp, current, s.timestepsInStep, s1.timestepsInStep, 0);
    SettledWalk(sp, s.step, battery.ocp, current, s.timestepsInStep, s1.timestepsInStep);
    if st.Settled? {
      var r := AdvanceSpec(sp, s, battery, current, increment).0;
      assert r.step == st.step && r.timestepsInStep == s1.timestepsInStep;
    }
  }

  /** A chain that ends has made Changes(s, q) changes to reach the step q it stops in, at most four. */
  lemma SettledWalk(sp: Setpoints, s: Step, ocp: real, current: real, tis: int, laterTis: int)
    requires tis <= laterTis
    ensures var st := Settle(sp, s, ocp, current, tis, laterTis, 0);
            st.Settled? ==>
              && st.changes <= 4 && Changes(s, st.step) == st.changes
              && (forall k :: 0 <= k < st.changes ==> Exits(sp, Cycle(s, k), ocp, current, if k == 0 then tis else laterTis))
              && !Exits(sp, st.step, ocp, current, if st.changes == 0 then tis else laterTis)
  {
    var st := Settle(sp, s, ocp, current, tis, laterTis, 0);
    SettleTrace(sp, s, ocp, current, tis, laterTis, 0);
    SettledWithinFour(sp, s, ocp, current, tis, laterTis);
    if st.Settled? {
      ChangesOfCycle(s, st.changes);
    }
  }

  lemma ChangesOfCycle(s: Step, n: nat)
    requires n < 5
    ensures Changes(s, Cycle(s, n)) == n
  {
    CycleIndex(s, n);
    if Index(s) + n < 5 {
      assert Index(Cycle(s, n)) == Index(s) + n;
    } else {
      assert Index(Cycle(s, n)) == Index(s) + n - 5;
    }
  }

  /** An advance fails with a recursion error exactly when every step exits, so it never stops changing step. */
  lemma AdvanceDiverges(sp: Setpoints, s: ProgramState, battery: DiffusionBattery, current: real, increment: bool)
    ensures var (r, out) := AdvanceSpec(sp, s, battery, current, increment);
            var tis := Incremented(s, increment).timestepsInStep;
            out == Fail(RecursionError)
            <==> Exits(sp, s.step, battery.ocp, current, s.timestepsInStep) && forall q :: Exits(sp, q, battery.ocp, current, tis)
  {
    var s1 := Incremented(s, increment);
    DivergedIffEveryExitFires(sp, s.step, battery.ocp, current, s.timestepsInStep, s1.timestepsInStep);
  }

  /** With the discharge voltage below the charge voltage an advance never recurses without end. */
  lemma AdvanceTerminates(sp: Setpoints, s: ProgramState, battery: DiffusionBattery, current: real, increment: bool)
    requires sp.dischargeCV < sp.chargeCV
    ensures AdvanceSpec(sp, s, battery, current, increment).1 != Fail(RecursionError)
  {
    var s1 := Incremented(s, increment);
    AtMostFourChanges(sp, s.step, battery.ocp, current, s.timestepsInStep, s1.timestepsInStep);
  }

  /**
   * A rest step at the start of an incrementing advance is kept exactly when the per-step
   * counter from before the increment has not passed the rest period.
   */
  lemma RestExitReadsCounter(sp: Setpoints, s: ProgramState, battery: DiffusionBattery, current: real)
    requires s.step == Rest
    ensures var (r, out) := AdvanceSpec(sp, s, battery, current, true);
            out != Fail(RecursionError) ==> (r.step == Rest <==> s.timestepsInStep <= sp.restTimesteps)
  {
    AdvanceWalksCycle(sp, s, battery, current, true);
  }

  /**
   * An advance that ends without error sets the driving potential to one at which the
   * battery's solver observes the target of the step it stopped in, and the solver can only
   * fail by a division by zero.
   */
  lemma AdvanceDriver(sp: Setpoints, s: ProgramState, battery: DiffusionBattery, current: real, increment: bool)
    ensures var (r, out) := AdvanceSpec(sp, s, battery, current, increment);
            && (out == Pass ==> Meets(battery, StepTarget(sp, r.step), r.driver))
            && (out.Fail? && out.error.SolverFailed? ==> out.error.error == ZeroDivisionError)
  {
  }

  // ---------------------------------------------------------------------------
  // The program object

  /** `TesterProgram`: the current step, the driving potential and the two counters. */
  class TesterProgram {
    const setpoints: Setpoints
    var driver: real
    var timestep: int
    var timestepsInStep: int
    var step: Step

    /** A program at its first timestep, in the constant-current charge step. */
    constructor (setpoints: Setpoints, initialDriver: real)
      ensures this.setpoints == setpoints
      ensures State() == ProgramState(ChargeCC, initialDriver, 1, 1)
    {
      this.setpoints := setpoints;
      driver := initialDriver;
      timestep := 1;
      timestepsInStep := 1;
      step := ChargeCC;
    }

    function State(): ProgramState
      reads this
    {
      ProgramState(step, driver, timestep, timestepsInStep)
    }

    /**
     * `advance`: count the timestep, then change step for as long as the current step exits,
     * and set the driving potential from the target of the step that does not. The
     * re-entries of the source are the iterations of the loop.
     */
    method Advance(battery: DiffusionBattery, current: real, incrementTimesteps: bool) returns (outcome: Outcome<AdvanceError>)
      modifies this
      ensures (State(), outcome) == AdvanceSpec(setpoints, old(State()), battery, current, incrementTimesteps)
    {
      var s1 := Incremented(State(), incrementTimesteps);
      var firstStep, firstTis := step, timestepsInStep;
      if incrementTimesteps {
        timestep := timestep + 1;
        timestepsInStep := timestepsInStep + 1;
      }
      var pot := battery.ocp;
      var tis := firstTis;
      var changes := 0;
      while Exits(setpoints, step, pot, current, tis)
        invariant 0 <= changes <= 5
        invariant State() == s1.(step := step)
        invariant step == Cycle(firstStep, changes)
        invariant changes > 0 ==> tis == timestepsInStep
        invariant Settle(setpoints, step, pot, current, tis, timestepsInStep, changes)
               == Settle(setpoints, firstStep, pot, current, firstTis, timestepsInStep, 0)
        decreases 5 - changes
      {
        if changes == 5 {
          CycleFive(firstStep);
          return Fail(RecursionError);
        }
        step := Next(step);
        tis := timestepsInStep;
        changes := changes + 1;
        assert Cycle(firstStep, changes) == Cycle(Cycle(firstStep, changes - 1), 1) by {
          CycleSplit(firstStep, changes - 1, 1);
        }
      }
      var r := DriverFor(battery, StepTarget(setpoints, step));
      assert Settle(setpoints, firstStep, pot, current, firstTis, timestepsInStep, 0) == Settled(step, changes);
      if r.Ok? {
        driver := r.value;
        outcome := Pass;
      } else {
        outcome := Fail(SolverFailed(r.error));
      }
    }
  }

  lemma {:induction false} CycleSplit(s: Step, m: nat, n: nat)
    ensures Cycle(s, m + n) == Cycle(Cycle(s, m), n)
    decreases m
  {
    if m > 0 {
      CycleSplit(Next(s), m - 1, n);
    }
  }
}

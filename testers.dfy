/**
 * The battery tester (battery/tester.py): each timestep it applies the program's driving
 * potential to the battery, records the results in its metric histories, and lets the program
 * choose the next step and driving potential from the current it recorded.
 */
module Testers {
  import opened Wrappers
  import opened Diffusion
  import opened Batteries
  import opened Programs
  import opened Metrics

  /** The x and y values of one metric. */
  type XY = (seq<int>, seq<real>)

  /** One animation frame: a copy of every metric, in the order the tester keeps them. */
  datatype Frame = Frame(charge: XY, soc: XY, influx: XY, driver: XY, potential: XY)

  /** Each history of `later` continues the same history of `earlier`; the charge snapshot is not a history. */
  ghost predicate Extends(earlier: Frame, later: Frame)
  {
    && earlier.soc.0 <= later.soc.0 && earlier.soc.1 <= later.soc.1
    && earlier.influx.0 <= later.influx.0 && earlier.influx.1 <= later.influx.1
    && earlier.driver.0 <= later.driver.0 && earlier.driver.1 <= later.driver.1
    && earlier.potential.0 <= later.potential.0 && earlier.potential.1 <= later.potential.1
  }

  /** Each history of `later` holds n more samples than the same history of `earlier`. */
  ghost predicate Longer(earlier: Frame, later: Frame, n: nat)
  {
    && |later.soc.0| == |earlier.soc.0| + n && |later.soc.1| == |earlier.soc.1| + n
    && |later.influx.0| == |earlier.influx.0| + n && |later.influx.1| == |earlier.influx.1| + n
    && |later.driver.0| == |earlier.driver.0| + n && |later.driver.1| == |earlier.driver.1| + n
    && |later.potential.0| == |earlier.potential.0| + n && |later.potential.1| == |earlier.potential.1| + n
  }

  /**
   * The frames of consecutive timesteps after `start`: frame k holds k + 1 more samples in
   * each history than `start`, and its histories are the first samples of those of `now`.
   */
  ghost predicate FramesUpTo(frames: seq<Frame>, start: Frame, now: Frame)
  {
    forall k :: 0 <= k < |frames| ==> Longer(start, frames[k], k + 1) && Extends(frames[k], now)
  }

  lemma ExtendsTransitive(f: Frame, g: Frame, h: Frame)
    requires Extends(f, g) && Extends(g, h)
    ensures Extends(f, h)
  {
  }

  /** Frames recorded so far stay prefixes of histories that only grow. */
  lemma FramesExtended(frames: seq<Frame>, start: Frame, now: Frame, next: Frame)
    requires FramesUpTo(frames, start, now) && Extends(now, next)
    ensures FramesUpTo(frames, start, next)
  {
    forall k | 0 <= k < |frames|
      ensures Extends(frames[k], next)
    {
      ExtendsTransitive(frames[k], now, next);
    }
  }

  /** A frame of the current histories, one timestep further on, joins the frames. */
  lemma FrameAdded(frames: seq<Frame>, start: Frame, now: Frame)
    requires FramesUpTo(frames, start, now) && Longer(start, now, |frames| + 1)
    ensures FramesUpTo(frames + [now], start, now)
  {
    var all := frames + [now];
    forall k | 0 <= k < |all|
      ensures Longer(start, all[k], k + 1) && Extends(all[k], now)
    {
      if k < |frames| {
        assert all[k] == frames[k];
      }
    }
  }

  /**
   * The samples a completed timestep at t leaves last in its frame: every history's last x is
   * t, the last charge is the total of the snapshot's curve, the last current is the change of
   * that charge, and the last potential is index 0 of the curve.
   */
  ghost predicate Sampled(f: Frame, t: int)
  {
    && |f.soc.0| > 0 && |f.influx.0| > 0 && |f.driver.0| > 0 && |f.potential.0| > 0
    && |f.soc.1| >= 2 && |f.influx.1| > 0 && |f.potential.1| > 0 && |f.charge.1| > 0
    && f.soc.0[|f.soc.0| - 1] == t && f.influx.0[|f.influx.0| - 1] == t
    && f.driver.0[|f.driver.0| - 1] == t && f.potential.0[|f.potential.0| - 1] == t
    && f.soc.1[|f.soc.1| - 1] == Sum(f.charge.1)
    && f.influx.1[|f.influx.1| - 1] == f.soc.1[|f.soc.1| - 1] - f.soc.1[|f.soc.1| - 2]
    && f.potential.1[|f.potential.1| - 1] == f.charge.1[0]
  }

  /** Frame k was taken by the timestep at t0 + k. */
  ghost predicate SampledFrom(frames: seq<Frame>, t0: int)
    decreases |frames|
  {
    |frames| == 0 ||
    (SampledFrom(frames[..|frames| - 1], t0) && Sampled(frames[|frames| - 1], t0 + |frames| - 1))
  }

  /** The frame of the next timestep joins the frames. */
  lemma SampleAdded(frames: seq<Frame>, t0: int, f: Frame)
    requires SampledFrom(frames, t0) && Sampled(f, t0 + |frames|)
    ensures SampledFrom(frames + [f], t0)
  {
    assert (frames + [f])[..|frames|] == frames;
  }

  /** Every frame of `SampledFrom` was taken at its own timestep. */
  lemma {:induction false} SampledEach(frames: seq<Frame>, t0: int, k: nat)
    requires SampledFrom(frames, t0) && k < |frames|
    ensures Sampled(frames[k], t0 + k)
    decreases |frames|
  {
    if k < |frames| - 1 {
      var prefix := frames[..|frames| - 1];
      SampledEach(prefix, t0, k);
      assert prefix[k] == frames[k];
    }
  }

  /**
   * Frame k's samples, read at each history's length at the start plus k: x values t0 + k,
   * the charge the total of its snapshot's curve, the current the change of that charge from
   * the sample before, and the potential index 0 of the curve.
   */
  lemma FrameSamples(frames: seq<Frame>, start: Frame, now: Frame, t0: int, k: nat)
    requires FramesUpTo(frames, start, now) && SampledFrom(frames, t0) && k < |frames|
    ensures var f, i := frames[k], |start.soc.1| + k;
            && f.soc.0[|start.soc.0| + k] == f.influx.0[|start.influx.0| + k] == t0 + k
            && f.driver.0[|start.driver.0| + k] == f.potential.0[|start.potential.0| + k] == t0 + k
            && i >= 1 && f.soc.1[i] == Sum(f.charge.1)
            && f.influx.1[|start.influx.1| + k] == f.soc.1[i] - f.soc.1[i - 1]
            && f.charge.1 != [] && f.potential.1[|start.potential.1| + k] == f.charge.1[0]
  {
    SampledEach(frames, t0, k);
    assert Longer(start, frames[k], k + 1);
  }

  /** The curve y after one timestep under each driving potential recorded from `since` on, in turn. */
  ghost function Evolve(g: Kernel, y: Curve, history: seq<real>, since: nat): (r: Curve)
    ensures |r| == |y|
    decreases |history|
  {
    if |history| <= since then y
    else ComputeChargeCurve(g, history[|history| - 1], Evolve(g, y, history[..|history| - 1], since))
  }

  /** Recording one more driving potential evolves the curve by one more timestep. */
  lemma EvolveRecorded(g: Kernel, y: Curve, history: seq<real>, since: nat, d: real)
    requires since <= |history|
    ensures Evolve(g, y, history + [d], since) == ComputeChargeCurve(g, d, Evolve(g, y, history, since))
  {
    assert (history + [d])[..|history|] == history;
  }

  /**
   * The frame of the timestep that recorded history[j - 1], for each j after `since`, has a
   * charge snapshot that keeps the positions xs and holds the curve y after the driving
   * potentials recorded from `since` up to and including that one.
   */
  ghost predicate ChargesEvolved(frames: seq<Frame>, xs: seq<int>, g: Kernel, y: Curve, history: seq<real>, since: nat)
  {
    && since + |frames| <= |history|
    && forall j {:trigger Evolve(g, y, history[..j], since)} :: since < j <= since + |frames| ==>
         frames[j - since - 1].charge == (xs, Evolve(g, y, history[..j], since))
  }

  /** Recording a further driving potential leaves the earlier frames' curves as they were. */
  lemma ChargesKept(frames: seq<Frame>, xs: seq<int>, g: Kernel, y: Curve, history: seq<real>, since: nat, d: real)
    requires ChargesEvolved(frames, xs, g, y, history, since)
    ensures ChargesEvolved(frames, xs, g, y, history + [d], since)
  {
    forall j | since < j <= since + |frames|
      ensures frames[j - since - 1].charge == (xs, Evolve(g, y, (history + [d])[..j], since))
    {
      assert (history + [d])[..j] == history[..j];
    }
  }

  /** A frame whose snapshot is the curve after every recorded driving potential joins the frames. */
  lemma ChargeAdded(frames: seq<Frame>, xs: seq<int>, g: Kernel, y: Curve, history: seq<real>, since: nat, f: Frame)
    requires ChargesEvolved(frames, xs, g, y, history, since) && |history| == since + |frames| + 1
    requires f.charge == (xs, Evolve(g, y, history, since))
    ensures ChargesEvolved(frames + [f], xs, g, y, history, since)
  {
    var all := frames + [f];
    forall j | since < j <= since + |all|
      ensures all[j - since - 1].charge == (xs, Evolve(g, y, history[..j], since))
    {
      if j <= since + |frames| {
        assert all[j - since - 1] == frames[j - since - 1];
      } else {
        assert history[..j] == history;
      }
    }
  }

  /** The curve after all the driving potentials recorded: the last frame's snapshot, or y before any. */
  lemma LastCharge(frames: seq<Frame>, xs: seq<int>, g: Kernel, y: Curve, history: seq<real>, since: nat)
    requires ChargesEvolved(frames, xs, g, y, history, since) && |history| == since + |frames|
    ensures Evolve(g, y, history, since) == if |frames| == 0 then y else frames[|frames| - 1].charge.1
  {
    if |frames| > 0 {
      var j := |history|;
      assert frames[j - since - 1].charge == (xs, Evolve(g, y, history[..j], since));
      assert history[..j] == history;
    }
  }

  /**
   * Frames recorded since `start`, when the curve was `startCurve` and the driving-potential
   * history had m entries, with the histories now at `now`: the histories have only grown, and
   * each frame holds their first samples and the curve after its timestep.
   */
  ghost predicate ProgressOf(frames: seq<Frame>, start: Frame, startCurve: Curve, m: nat, now: Frame, g: Kernel)
  {
    && Extends(start, now)
    && FramesUpTo(frames, start, now)
    && m == |start.driver.1| <= |now.driver.1|
    && now.charge.0 == start.charge.0
    && ChargesEvolved(frames, start.charge.0, g, startCurve, now.driver.1, m)
  }

  /** A timestep that records driving potential d keeps the frames' progress. */
  lemma TimestepRecorded(frames: seq<Frame>, start: Frame, startCurve: Curve, m: nat, g: Kernel, before: Frame, now: Frame, d: real)
    requires ProgressOf(frames, start, startCurve, m, before, g)
    requires Extends(before, now) && now.driver.1 == before.driver.1 + [d] && now.charge.0 == before.charge.0
    ensures ProgressOf(frames, start, startCurve, m, now, g)
  {
    ExtendsTransitive(start, before, now);
    FramesExtended(frames, start, before, now);
    ChargesKept(frames, start.charge.0, g, startCurve, before.driver.1, m, d);
  }

  /** The frame of a completed timestep, whose snapshot is the evolved curve, joins the frames. */
  lemma FrameRecorded(frames: seq<Frame>, start: Frame, startCurve: Curve, m: nat, g: Kernel, now: Frame)
    requires ProgressOf(frames, start, startCurve, m, now, g)
    requires Longer(start, now, |frames| + 1) && now.charge.1 == Evolve(g, startCurve, now.driver.1, m)
    ensures ProgressOf(frames + [now], start, startCurve, m, now, g)
  {
    FrameAdded(frames, start, now);
    ChargeAdded(frames, start.charge.0, g, startCurve, now.driver.1, m, now);
  }

  /** The exceptions that end a timestep early. */
  datatype TesterError = BatteryFailed(batteryError: BatteryError) | ProgramFailed(programError: AdvanceError)

  /** `Tester`: a battery, the program that cycles it, and the metrics it records. */
  class Tester {
    const battery: DiffusionBattery
    const program: TesterProgram
    const charge: Charge
    const soc: Metric
    const influx: Metric
    const driver: Metric
    const potential: Metric

    /** The four histories are separate objects, each with at least one sample. */
    ghost predicate Valid()
      reads soc, influx, driver, potential
    {
      && soc != influx && soc != driver && soc != potential
      && influx != driver && influx != potential && driver != potential
      && soc.Valid() && influx.Valid() && driver.Valid() && potential.Valid()
    }

    /** The histories have been updated together: they hold the same number of samples. */
    ghost predicate InStep()
      reads soc, influx, driver, potential
    {
      |soc.ys| == |influx.ys| == |driver.ys| == |potential.ys|
    }

    /** The latest recorded charge is the battery's charge, which is the total of its curve. */
    ghost predicate SocTracksBattery()
      reads soc, battery
      requires soc.Valid()
    {
      soc.GetVal() == battery.soc == Sum(battery.chargeCurve)
    }

    /**
     * The charge snapshot starts as positions 0 .. n - 1 and the battery's curve; the four
     * histories start with the one sample (0, 0).
     */
    constructor (battery: DiffusionBattery, program: TesterProgram, n: nat)
      ensures this.battery == battery && this.program == program
      ensures Valid() && InStep()
      ensures fresh(charge) && fresh(soc) && fresh(influx) && fresh(driver) && fresh(potential)
      ensures charge.xs == InitVals(n).0 && charge.ys == battery.chargeCurve
      ensures soc.xs == influx.xs == driver.xs == potential.xs == [0]
      ensures soc.ys == influx.ys == driver.ys == potential.ys == [0.0]
      ensures SocTracksBattery() <==> battery.soc == 0.0 && Sum(battery.chargeCurve) == 0.0
    {
      this.battery := battery;
      this.program := program;
      charge := new Charge(InitVals(n).0, battery.chargeCurve);
      soc := new Metric(0, 0.0);
      influx := new Metric(0, 0.0);
      driver := new Metric(0, 0.0);
      potential := new Metric(0, 0.0);
    }

    /** The frame of the current histories. */
    function CurrentFrame(): Frame
      reads charge, soc, influx, driver, potential
    {
      Frame((charge.xs, charge.ys), (soc.xs, soc.ys), (influx.xs, influx.ys), (driver.xs, driver.ys), (potential.xs, potential.ys))
    }

    /**
     * `advance_timestep`. The driving potential is recorded and applied, which moves the
     * battery's potential to index 1 of the new curve and its charge to the curve's total; the
     * charge snapshot becomes the new curve; its total, the change of that total and index 0
     * of the new curve are recorded, all at the program's timestep as it was on entry; then
     * the program advances on the recorded current. The frame is a copy of every metric. An
     * exception ends the timestep where it is raised, with what happened before it kept: on a
     * one-point curve the battery's potential and charge stay as they were.
     */
    method AdvanceTimestep() returns (r: Result<Frame, TesterError>)
      requires Valid()
      modifies battery, program, charge, soc, influx, driver, potential
      ensures Valid()
      ensures var t, d := old(program.timestep), old(program.driver);
              && driver.xs == old(driver.xs) + [t] && driver.ys == old(driver.ys) + [d]
              && battery.chargeCurve == ComputeChargeCurve(battery.kernel, d, old(battery.chargeCurve))
      ensures r == Err(BatteryFailed(IndexError)) <==> |battery.chargeCurve| < 2
      ensures r == Err(BatteryFailed(IndexError)) ==>
                && unchanged(charge, soc, influx, potential)
                && program.State() == old(program.State())
                && battery.ocp == old(battery.ocp) && battery.soc == old(battery.soc)
      ensures r != Err(BatteryFailed(IndexError)) ==>
                var t, y := old(program.timestep), battery.chargeCurve;
                && battery.ocp == y[1]
                && charge.xs == old(charge.xs) && charge.ys == y
                && soc.xs == old(soc.xs) + [t] && soc.ys == old(soc.ys) + [Sum(y)]
                && influx.xs == old(influx.xs) + [t] && influx.ys == old(influx.ys) + [soc.Delta()]
                && potential.xs == old(potential.xs) + [t] && potential.ys == old(potential.ys) + [y[0]]
                && SocTracksBattery()
                && var (s, out) := AdvanceSpec(program.setpoints, old(program.State()), battery, influx.GetVal(), true);
                   && program.State() == s
                   && (r.Ok? <==> out == Pass)
                   && (r.Ok? ==> r.value == CurrentFrame())
                   && (out.Fail? ==> r == Err(ProgramFailed(out.error)))
      ensures r != Err(BatteryFailed(IndexError)) ==> program.timestep == old(program.timestep) + 1
      ensures r.Ok? ==> Sampled(r.value, old(program.timestep))
      ensures r != Err(BatteryFailed(IndexError)) && old(SocTracksBattery()) ==>
                influx.GetVal() == ComputeCurrent(battery.kernel, old(program.driver), old(battery.chargeCurve))
    {
      var t := program.timestep;
      var stepped := StepBattery(t, program.driver);
      if stepped.Fail? {
        return Err(BatteryFailed(stepped.error));
      }
      var outcome := program.Advance(battery, influx.GetVal(), true);
      if outcome.Fail? {
        return Err(ProgramFailed(outcome.error));
      }
      var frame := GetFrame();
      r := Ok(frame);
    }

    /**
     * The battery half of `advance_timestep`: the driving potential d is recorded at t and
     * applied, then the metrics record the new curve at t, which leaves the current frame
     * sampled at t. On a one-point curve the application raises IndexError and nothing after
     * it happens. When the recorded charge tracked the battery, the recorded current is the
     * current of the step.
     */
    method StepBattery(t: int, d: real) returns (outcome: Outcome<BatteryError>)
      requires Valid()
      modifies battery, charge, soc, influx, driver, potential
      ensures Valid()
      ensures driver.xs == old(driver.xs) + [t] && driver.ys == old(driver.ys) + [d]
      ensures battery.chargeCurve == ComputeChargeCurve(battery.kernel, d, old(battery.chargeCurve))
      ensures outcome.Fail? <==> |battery.chargeCurve| < 2
      ensures outcome.Fail? ==>
                && outcome.error == IndexError
                && unchanged(charge, soc, influx, potential)
                && battery.ocp == old(battery.ocp) && battery.soc == old(battery.soc)
      ensures outcome == Pass ==>
                var y := battery.chargeCurve;
                && battery.ocp == y[1]
                && charge.xs == old(charge.xs) && charge.ys == y
                && soc.xs == old(soc.xs) + [t] && soc.ys == old(soc.ys) + [Sum(y)]
                && influx.xs == old(influx.xs) + [t] && influx.ys == old(influx.ys) + [soc.Delta()]
                && potential.xs == old(potential.xs) + [t] && potential.ys == old(potential.ys) + [y[0]]
                && SocTracksBattery()
                && Sampled(CurrentFrame(), t)
      ensures outcome == Pass && old(SocTracksBattery()) ==>
                influx.GetVal() == ComputeCurrent(battery.kernel, d, old(battery.chargeCurve))
    {
      ghost var tracked, socBefore := SocTracksBattery(), soc.GetVal();
      ghost var expected := ComputeCurrent(battery.kernel, d, battery.chargeCurve);
      driver.Update(t, d);
      var applied := battery.ApplyPotential(d);
      if applied.Err? {
        return Fail(applied.error);
      }
      assert tracked ==> battery.soc - socBefore == expected;
      RecordCurve(t);
      assert influx.GetVal() == battery.soc - socBefore;
      outcome := Pass;
    }

    /** The frame of `advance_timestep`: a copy of each metric's histories. */
    method GetFrame() returns (frame: Frame)
      ensures frame == CurrentFrame()
    {
      var chargeX, chargeY := charge.GetXyCopy();
      var socX, socY := soc.GetXyCopy();
      var influxX, influxY := influx.GetXyCopy();
      var driverX, driverY := driver.GetXyCopy();
      var potentialX, potentialY := potential.GetXyCopy();
      frame := Frame((chargeX, chargeY), (socX, socY), (influxX, influxY), (driverX, driverY), (potentialX, potentialY));
    }

    /**
     * The metric updates of `advance_timestep`: the charge snapshot becomes the battery's
     * curve, and its total, the change of that total and its index 0 are recorded at t.
     */
    method RecordCurve(t: int)
      requires Valid()
      modifies charge, soc, influx, potential
      ensures Valid() && unchanged(driver)
      ensures var y := battery.chargeCurve;
              && charge.xs == old(charge.xs) && charge.ys == y
              && soc.xs == old(soc.xs) + [t] && soc.ys == old(soc.ys) + [Sum(y)]
              && influx.xs == old(influx.xs) + [t] && influx.ys == old(influx.ys) + [soc.Delta()]
              && potential.xs == old(potential.xs) + [t] && potential.ys == old(potential.ys) + [y[0]]
      ensures driver.xs[|driver.xs| - 1] == t ==> Sampled(CurrentFrame(), t)
    {
      charge.Update(charge.xs, battery.chargeCurve);
      soc.Update(t, Sum(charge.ys));
      influx.Update(t, soc.Delta());
      potential.Update(t, charge.ys[0]);
    }

    /** `ProgressOf` the current histories. */
    ghost predicate Progress(frames: seq<Frame>, start: Frame, startCurve: Curve, m: nat)
      reads this, battery, charge, soc, influx, driver, potential
    {
      ProgressOf(frames, start, startCurve, m, CurrentFrame(), battery.kernel)
    }

    /**
     * The state of `generate_frames` after the frames so far, from a start where the program's
     * timestep was t0 and its driving potential d0, and the histories held the same number of
     * samples if inStep0: `Progress`, with the timestep moved on by one per frame, one sample
     * per frame in each history, the last frame the current one, the first driving potential
     * recorded d0, and the histories and the battery's charge in step after any frame.
     */
    ghost predicate Generating(frames: seq<Frame>, start: Frame, startCurve: Curve, m: nat, t0: int, d0: real, inStep0: bool)
      reads this, battery, program, charge, soc, influx, driver, potential
    {
      && Valid() && Progress(frames, start, startCurve, m)
      && program.timestep == t0 + |frames|
      && Longer(start, CurrentFrame(), |frames|)
      && (|frames| == 0 ==> battery.chargeCurve == startCurve)
      && (|frames| > 0 ==> frames[|frames| - 1] == CurrentFrame() && battery.chargeCurve == charge.ys && SocTracksBattery())
      && (|driver.ys| == m ==> program.driver == d0)
      && (|driver.ys| > m ==> driver.ys[m] == d0)
      && (inStep0 ==> InStep())
    }

    /**
     * What `generate_frames` promises, from a start whose histories were `start`, whose curve
     * was startCurve, and where the program's timestep was t0, its driving potential d0 and the
     * histories held the same number of samples if inStep0. All n frames are produced exactly
     * when no timestep fails, and the timestep has then moved on by n. The histories only grow:
     * frame k holds the first samples of the final histories, k + 1 more than at the start, and
     * after a full run the last frame is the final state. One driving potential is recorded per
     * timestep taken, the first of them d0. The battery's curve has evolved under each of them
     * in turn, and frame k's charge snapshot holds the start positions and the curve after the
     * first k + 1 of them. Frame k was taken by the timestep at t0 + k: its last x values are
     * t0 + k, its last charge the total of its snapshot's curve, its last current the change of
     * that charge, and its last potential index 0 of the curve (`FrameSamples` reads these at
     * each history's start length plus k).
     */
    ghost predicate Generated(frames: seq<Frame>, outcome: Outcome<TesterError>, n: nat, start: Frame,
                              startCurve: Curve, t0: int, d0: real, inStep0: bool)
      reads this, battery, program, charge, soc, influx, driver, potential
    {
      && Valid()
      && (outcome == Pass ==> |frames| == n && program.timestep == t0 + n)
      && (outcome.Fail? ==> |frames| < n)
      && Extends(start, CurrentFrame())
      && FramesUpTo(frames, start, CurrentFrame())
      && (outcome == Pass ==> Longer(start, CurrentFrame(), n))
      && (outcome == Pass && n > 0 ==> frames[n - 1] == CurrentFrame())
      && |driver.ys| == |start.driver.1| + |frames| + (if outcome == Pass then 0 else 1)
      && battery.chargeCurve == Evolve(battery.kernel, startCurve, driver.ys, |start.driver.1|)
      && ChargesEvolved(frames, start.charge.0, battery.kernel, startCurve, driver.ys, |start.driver.1|)
      && (|driver.ys| > |start.driver.1| ==> driver.ys[|start.driver.1|] == d0)
      && SampledFrom(frames, t0)
      && (outcome == Pass && inStep0 ==> InStep())
      && (outcome == Pass && n > 0 ==> SocTracksBattery())
    }

    /** A run whose frames are all produced is `Generated`. */
    lemma Finished(frames: seq<Frame>, n: nat, start: Frame, startCurve: Curve, m: nat, t0: int, d0: real, inStep0: bool)
      requires Generating(frames, start, startCurve, m, t0, d0, inStep0) && SampledFrom(frames, t0) && |frames| == n
      ensures Generated(frames, Pass, n, start, startCurve, t0, d0, inStep0)
    {
      LastCharge(frames, start.charge.0, battery.kernel, startCurve, driver.ys, m);
    }

    /** A run stopped by a failing timestep, after the frames so far, is `Generated`. */
    lemma Stopped(frames: seq<Frame>, e: TesterError, n: nat, start: Frame, startCurve: Curve, m: nat, t0: int, d0: real, inStep0: bool)
      requires Valid() && Progress(frames, start, startCurve, m) && SampledFrom(frames, t0) && |frames| < n
      requires |driver.ys| == m + |frames| + 1 && driver.ys[m] == d0
      requires battery.chargeCurve == Evolve(battery.kernel, startCurve, driver.ys, m)
      ensures Generated(frames, Fail(e), n, start, startCurve, t0, d0, inStep0)
    {
    }

    /** One pass of the loop of `generate_frames`: a timestep, and its frame kept if it succeeds. */
    method NextFrame(frames: seq<Frame>, ghost start: Frame, ghost startCurve: Curve, ghost m: nat,
                     ghost t0: int, ghost d0: real, ghost inStep0: bool)
      returns (next: seq<Frame>, r: Result<Frame, TesterError>)
      requires Generating(frames, start, startCurve, m, t0, d0, inStep0)
      modifies battery, program, charge, soc, influx, driver, potential
      ensures Valid() && Progress(next, start, startCurve, m)
      ensures driver.ys == old(driver.ys) + [old(program.driver)] && driver.ys[m] == d0
      ensures r.Ok? ==> next == frames + [r.value] && r.value == CurrentFrame() && Sampled(r.value, t0 + |frames|)
      ensures r.Ok? ==> Generating(next, start, startCurve, m, t0, d0, inStep0)
      ensures r.Err? ==> next == frames && battery.chargeCurve == Evolve(battery.kernel, startCurve, driver.ys, m)
    {
      ghost var before, history, d, t := CurrentFrame(), driver.ys, program.driver, program.timestep;
      LastCharge(frames, start.charge.0, battery.kernel, startCurve, history, m);
      r := AdvanceTimestep();
      EvolveRecorded(battery.kernel, startCurve, history, m, d);
      TimestepRecorded(frames, start, startCurve, m, battery.kernel, before, CurrentFrame(), d);
      if r.Err? {
        return frames, r;
      }
      FrameRecorded(frames, start, startCurve, m, battery.kernel, CurrentFrame());
      next := frames + [r.value];
    }

    /** `generate_frames`: n timesteps, one frame each, stopping at the first exception; see `Generated`. */
    method GenerateFrames(n: nat) returns (frames: seq<Frame>, outcome: Outcome<TesterError>)
      requires Valid()
      modifies battery, program, charge, soc, influx, driver, potential
      ensures Generated(frames, outcome, n, old(CurrentFrame()), old(battery.chargeCurve),
                        old(program.timestep), old(program.driver), old(InStep()))
    {
      ghost var start, startCurve, m := CurrentFrame(), battery.chargeCurve, |driver.ys|;
      ghost var t0, d0, inStep0 := program.timestep, program.driver, InStep();
      frames := [];
      var i := 0;
      while i < n
        invariant 0 <= i <= n && |frames| == i
        invariant Generating(frames, start, startCurve, m, t0, d0, inStep0)
        invariant SampledFrom(frames, t0)
      {
        var r;
        ghost var taken := frames;
        frames, r := NextFrame(frames, start, startCurve, m, t0, d0, inStep0);
        if r.Err? {
          Stopped(frames, r.error, n, start, startCurve, m, t0, d0, inStep0);
          return frames, Fail(r.error);
        }
        SampleAdded(taken, t0, r.value);
        i := i + 1;
      }
      Finished(frames, n, start, startCurve, m, t0, d0, inStep0);
      outcome := Pass;
    }
  }
}

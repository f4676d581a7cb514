# Diffusion battery and CC/CV tester, in Dafny

This project models the core of a small battery simulator. A cathode holds a charge curve. Each
timestep the tester applies a driving potential at index 0 of that curve, and the curve then
diffuses. A cycling program picks the driving potential, stepping through constant-current
charge, constant-voltage charge, rest, constant-current discharge and constant-voltage discharge.

- **Diffusion** (`diffusion.dfy`): one timestep of the charge curve.
  - The curve is clamped to the driving potential at index 0.
  - It is padded with a run of zeros, a run of the driving potential, and a mirrored copy.
  - It is smoothed by a numpy-style "same" convolution with the kernel and cropped back to its
    length.
  - The observed current is the change in total charge; the observed potential is index 0.
  - The lemmas show that the step keeps the curve's length, leaves a flat curve driven at its own
    value unchanged, and that every output is affine in the driving potential.
- **Solver** (`solver.dfy`): the secant guess for a driving potential.
  - It samples at the boundary value and one volt above it, fits a line, and solves it for the
    target.
  - It is proved exact for any paired affine observation with a non-zero slope.
  - It raises ZeroDivisionError only when the slope is zero and the target is missed.
  - Its "paired" assertion can never fire for the two observations the battery uses.
- **Batteries** (`batteries.dfy`): the `DiffusionBattery` class.
  - `ApplyPotential` updates the curve, the open-circuit potential and the state of charge in
    place.
  - Two solver queries pick a driving potential for a target current or a target potential.
- **Programs** (`programs.dfy`): the `TesterProgram` class.
  - `Advance` counts the timestep, then changes step for as long as the current step's exit test
    fires. It then asks the battery for the driving potential that meets the target of the step
    it stops in.
  - The source's self-recursion on a step change is a loop bounded by five changes.
  - A chain that would go on forever is reported as the source's RecursionError.
- **Metrics** (`metrics.dfy`): append-only `(x, y)` histories, and the charge snapshot that is
  replaced instead.
- **Testers** (`testers.dfy`): the `Tester` class.
  - One timestep records the driver, applies it, records charge, state of charge, current and
    potential, and advances the program.
  - `GenerateFrames` repeats that for a fixed number of timesteps.

Behaviour kept as the source has it:

- Three different potentials are read.
  - The battery's open-circuit potential after a step is index 1 of the new curve
    (battery/diffusion_battery.py:52).
  - The solver's target potential is index 0 (battery/diffusion_battery.py:106).
  - The tester records index 0 (battery/tester.py:107).
- The per-step counter `timesteps_in_step` only ever grows. It is never reset on a step change,
  so the rest step's exit test compares a count taken since the start of the program.
- On entry, the rest step's test reads the counter from before this call's increment.
- The current the solver predicts is measured against the curve with index 0 already clamped to
  the driving potential. The charge actually moved by applying that potential is larger by
  `p - y[0]` (`AppliedCurrentOffset`).
  - So in a constant-current step, the tester records the target current plus the change the
    step makes at the boundary.
- With the configured voltages (4 V charge, 0 V discharge; battery/config.py:12-13), no
  potential exits both constant-current steps, so an advance always ends (`AdvanceTerminates`).

Configuration constants (battery/config.py) are parameters: the program's `Setpoints`, the
tester's number of curve points, and the initial driving potential.

## Model

| member | source | states |
|---|---|---|
| Diffusion.ComputeChargeCurve | battery/diffusion_battery.py:78-98 | one timestep returns a curve with as many points as it was given |
| Diffusion.Padded | battery/diffusion_battery.py:89-92 | the array that is convolved has 2k + 2n entries: k zeros, k copies of the driving potential, the curve with index 0 clamped to the driving potential, then that clamped curve mirrored, so the driving potential also closes it |
| Diffusion.SameConvolve | battery/diffusion_battery.py:95 | the "same" convolution has as many outputs as its input, and output i is the full convolution sum at i + (k - 1) / 2 (numpy's definition written out; `SameConvolveAffine` and `FlatWindow` prove what follows from it) |
| Diffusion.ComputeCurrent | battery/diffusion_battery.py:100-102 | a flat curve driven at its own value, with a kernel summing to 1 that fits in the curve, draws no current |
| Diffusion.ComputeOcp | battery/diffusion_battery.py:104-106 | at the same equilibrium the observed potential is the driving potential |
| Diffusion.CalcCurrent | battery/diffusion_battery.py:108-117 | the current closure is affine in the driving potential: its value at p is the line through its values at 0 and 1, which is the linear model the solver assumes |
| Diffusion.CalcOcp | battery/diffusion_battery.py:119-128 | the potential closure is affine in the driving potential |
| Diffusion.ChargeCurveAt | battery/diffusion_battery.py:92-97 | point i of the new curve is the convolution sum centred on padded index 2k + i + (k - 1) / 2 (the crop written out; `FlatAt` and `ThreePointOcp` use it) |
| Diffusion.FlatWindow | battery/diffusion_battery.py:89-95 | for a flat curve driven at its own value, with a kernel summing to 1 that fits in the curve, the convolution sum behind any point reads only that value and equals it |
| Diffusion.FlatAt | battery/diffusion_battery.py:78-97 | under the same conditions every point of the new curve equals the driving potential |
| Diffusion.BoundaryValueOverwritten | battery/diffusion_battery.py:78-79 | the step result does not depend on the value the curve held at index 0 |
| Diffusion.ConvAtFlat | battery/diffusion_battery.py:95 | convolution taps that all read c sum to c times the kernel prefix |
| Diffusion.Equilibrium | battery/diffusion_battery.py:35-37 | for a kernel summing to 1 that fits in the curve, a flat curve driven at its own value comes out of a timestep unchanged |
| Diffusion.ChargeCurveAffine | battery/diffusion_battery.py:78-98 | every point of the new curve is affine in the driving potential |
| Diffusion.SameConvolveAffine | battery/diffusion_battery.py:95 | the convolution maps pointwise-affine arrays to pointwise-affine arrays |
| Diffusion.ConvAtAffine | battery/diffusion_battery.py:95 | a convolution sum over a pointwise-affine array is affine |
| Diffusion.SumAffine | battery/diffusion_battery.py:102 | the total of a pointwise-affine array is affine |
| Diffusion.OcpObserved | battery/diffusion_battery.py:119-128 | the potential closure at p is index 0 of the step from the original curve under p |
| Diffusion.CurrentObserved | battery/diffusion_battery.py:108-117 | the current observed on the curve clamped to p is the total after a step of the original curve minus the total of the clamped curve |
| Diffusion.AppliedCurrentOffset | battery/diffusion_battery.py:49-55 | the charge a step under p moves against the stored curve is the solver's current at p plus (p - y[0]) |
| Solver.GetSlopeIntercept | battery/diffusion_battery.py:200-206 | ZeroDivisionError exactly when the x coordinates coincide; otherwise the line passes through both points |
| Solver.GuessDrivePot | battery/diffusion_battery.py:173-197 | returns the boundary value when it already meets the target; AssertionError exactly when the two observations disagree there; ZeroDivisionError exactly when they agree and the secant is flat; otherwise the result solves the two-point secant equation for the target |
| Solver.SecantSolves | battery/diffusion_battery.py:194-195 | the point read off the fitted line satisfies the two-point form through both samples |
| Solver.PairedNeverAsserts | battery/diffusion_battery.py:183-184 | when the binder observes what the observation does on the clamped curve, the assertion cannot fail |
| Solver.GuessExact | battery/diffusion_battery.py:186-195 | for a paired affine observation with non-zero slope the guess succeeds and meets the target exactly; with zero slope it returns the boundary value or ZeroDivisionError |
| Batteries.CurrentPaired | battery/diffusion_battery.py:130-134 | `compute_current` and `get_calc_current` observe the same value on the clamped curve |
| Batteries.OcpPaired | battery/diffusion_battery.py:148-150 | `compute_ocp` and `get_calc_ocp` observe the same value on the clamped curve |
| Batteries.DiffusionBattery.constructor | battery/diffusion_battery.py:14-26 | stores the charge, potential, curve and kernel given |
| Batteries.DiffusionBattery.ApplyPotential | battery/diffusion_battery.py:28-56 | the curve becomes one step of the old curve; IndexError exactly for a one-point curve, with charge and potential untouched; otherwise the potential is index 1, the charge the new total, and the current the change in charge, which equals the step's current when the old charge was the old total |
| Batteries.DiffusionBattery.GetDriverForTargetCurrent | battery/diffusion_battery.py:130-134 | Ok exactly when the current closure has a slope or already meets the target, and then it meets the target; the boundary value when it already does; the only error is ZeroDivisionError; the applied step then moves target + (p - y[0]) |
| Batteries.DiffusionBattery.GetDriverForTargetOcp | battery/diffusion_battery.py:136-150 | the same for the potential closure; the step under the returned potential puts the target at index 0 |
| Batteries.SolvedExactly | battery/diffusion_battery.py:152-197 | all outcomes of the guess for a paired affine observation in one statement |
| Batteries.TargetOcpScenario | tests/test_diffusion_battery.py:16-26 | on the curve [1, 2, 3] with a positive three-point kernel summing to 1, the driver for target potential 2 is 2 and observing it gives 2 |
| Batteries.ThreePointOcp | tests/test_diffusion_battery.py:20-25 | on [1, 2, 3] the observed potential is 2 g0 + p (g1 + g2) |
| Programs.Changes | battery/tester_program.py:47-88 | fewer than five changes lead from one step to any other along the cycle |
| Programs.Exits | battery/tester_program.py:47-88 | with the discharge voltage below the charge voltage, a potential that ends the charge CC step (at or above the charge voltage) lies above the discharge voltage, and one that ends the discharge CC step lies below the charge voltage, so no potential ends both |
| Programs.StepTarget | battery/tester_program.py:53-88 | exactly the two CV steps aim at a potential; rest aims at zero current |
| Programs.AdvanceSpec | battery/tester_program.py:20-90 | both counters rise by exactly one on an incrementing call and not at all otherwise, with no reset on a step change; a failed advance leaves the driving potential alone, and a RecursionError also leaves the step alone |
| Programs.Settle | battery/tester_program.py:47-88 | the chain of re-entries: the first test reads the counter from before the advance, later ones the incremented field; a chain that ends does so within five changes, in a step whose test at that entry's counter does not exit |
| Programs.SettledWalk | battery/tester_program.py:47-88 | a chain that ends stops after `Changes` changes, at most four when the counter does not fall, having passed only exiting steps, in a step that does not exit |
| Programs.SettleTrace | battery/tester_program.py:47-88 | a chain of changes walks the cycle; every step it passes exits, the step it stops in does not, and a chain that never ends has every step exiting |
| Programs.CycleCovers | battery/tester_program.py:47-88 | every step is reached within five changes |
| Programs.DivergedIffEveryExitFires | battery/tester_program.py:47-88 | the chain never ends exactly when the first test fires and every step's test fires at the re-entry counter |
| Programs.SettledWithinFour | battery/tester_program.py:64-68 | when the counter does not decrease on re-entry, a chain that ends makes at most four changes |
| Programs.AtMostFourChanges | battery/tester_program.py:48-73 | if the discharge voltage is below the charge voltage, every chain ends within four changes |
| Programs.AdvanceWalksCycle | battery/tester_program.py:38-88 | an advance that ends has passed only exiting steps along the cycle, using the pre-increment counter first and the incremented one after, and stops in a step that does not exit |
| Programs.AdvanceDiverges | battery/tester_program.py:47-88 | RecursionError exactly when every step exits |
| Programs.AdvanceTerminates | battery/tester_program.py:48-73 | with the discharge voltage below the charge voltage there is never a RecursionError |
| Programs.RestExitReadsCounter | battery/tester_program.py:64-68 | a rest step on entry is kept exactly when the counter read before the increment is within the rest period |
| Programs.AdvanceDriver | battery/tester_program.py:53-88 | on success the new driving potential meets the target of the step reached; a solver error is a ZeroDivisionError |
| Programs.TesterProgram.constructor | battery/tester_program.py:9-18 | a program starts in constant-current charge at timestep 1 with the given driver |
| Programs.TesterProgram.Advance | battery/tester_program.py:20-90 | the new fields and the outcome are those of `AdvanceSpec` on the old fields |
| Metrics.Metric.constructor | battery/metric.py:39-42 | a history starts with exactly one sample |
| Metrics.Metric.Update | battery/metric.py:44-57 | appends exactly one x and one y and keeps the rest; the latest value is the new y and the delta is y minus the previous latest value |
| Metrics.Metric.GetVal | battery/metric.py:49-50 | the history is its earlier values followed by the value returned |
| Metrics.Metric.Delta | battery/metric.py:55-57 | the second-to-last value plus the change is the latest value |
| Metrics.Metric.GetXyCopy | battery/metric.py:52-53 | returns the two histories |
| Metrics.InitVals | battery/metric.py:75-79 | positions 0 .. n - 1 and n zeros |
| Metrics.Charge.constructor | battery/metric.py:70-73 | the snapshot is the given x and y |
| Metrics.Charge.Update | battery/metric.py:87-90 | replaces both x and y, keeping nothing |
| Metrics.Charge.GetXyCopy | battery/metric.py:52-53 | returns the snapshot |
| Testers.Tester.constructor | battery/tester.py:32-45 | the charge snapshot is positions 0 .. n - 1 with the battery's curve; the four histories each start with the sample (0, 0); the recorded charge tracks the battery exactly when both are 0 |
| Testers.Tester.RecordCurve | battery/tester.py:101-107 | the snapshot becomes the battery's curve; its total, the soc history's last difference and index 0 are appended at t |
| Testers.Tester.GetFrame | battery/tester.py:117 | the frame is a copy of every metric |
| Testers.Tester.AdvanceTimestep | battery/tester.py:85-118 | the pre-advance driver is recorded and applied; IndexError exactly for a one-point curve, with the other metrics, the program and the battery's potential and charge unchanged; otherwise the battery's potential is index 1 of the new curve, one sample is appended to each history at the entry timestep, the recorded charge is the battery's, the program advances on the recorded current, and the frame is the metrics, sampled at the entry timestep; when the recorded charge tracked the battery, the recorded current is the step's current |
| Testers.Tester.StepBattery | battery/tester.py:95-107 | the driver d is recorded at t and applied; IndexError exactly for a one-point curve, with the other metrics and the battery's potential and charge unchanged; otherwise the battery's potential is index 1 of the new curve, the snapshot is the new curve, its total, the change of that total and index 0 are appended at t, so the current frame is sampled at t; when the recorded charge tracked the battery, the recorded current is the step's current |
| Testers.Tester.NextFrame | battery/tester.py:133-135 | one timestep records the program's driving potential; the recorded frames stay prefixes of the histories and their charge snapshots stay the curve evolved under the potentials recorded up to each; a successful timestep appends its frame, sampled at the timestep t0 + k of its position k; a failed one leaves the curve evolved under every recorded potential |
| Testers.Tester.GenerateFrames | battery/tester.py:120-135 | n frames exactly when no timestep fails, fewer otherwise; the program timestep moves on by n; the histories only grow, frame k holds their first samples, k + 1 more than on entry, and the last frame is the final state; one driving potential is recorded per timestep taken, the first the program's on entry; frame k's charge snapshot is the entry positions with the entry curve evolved under the first k + 1 of them, and the battery's curve is the entry curve evolved under all of them; frame k was taken at the entry timestep plus k: its soc, influx and potential samples are the total of its curve, the change of that total and index 0 of its curve, and all its new x values are that timestep; histories of equal length stay equal |
| Testers.EvolveRecorded | battery/tester.py:133-135 | recording one more driving potential evolves the curve by one more timestep under it |
| Testers.LastCharge | battery/tester.py:133-135 | the curve evolved under every recorded driving potential is the last frame's charge snapshot, or the entry curve before any frame |
| Testers.ChargesKept | battery/tester.py:133-135 | the frames' charge snapshots stay the curves evolved under the potentials recorded up to each as more are recorded |
| Testers.ChargeAdded | battery/tester.py:133-135 | a frame whose snapshot is the curve evolved under every recorded potential extends that correspondence |
| Testers.SampleAdded | battery/tester.py:105-107 | a frame sampled at the next timestep extends the frames sampled from t0 |
| Testers.SampledEach | battery/tester.py:105-107 | each frame k of frames sampled from t0 has its last samples taken at t0 + k |
| Testers.FrameSamples | battery/tester.py:105-107 | read at each history's start length plus k, frame k's x values are t0 + k, its charge sample the total of its curve, its current sample the change from the charge before, and its potential sample index 0 of its curve |
| Testers.FramesExtended | battery/tester.py:133-135 | frames that are prefixes of the histories stay prefixes as the histories grow |

## Left out

- The Gaussian kernel (battery/diffusion_battery.py:80-88) is floating-point numerics. It is a parameter of the battery, and nothing assumes it is symmetric.
- Arithmetic is exact real arithmetic. Floating-point rounding and the float equality tests of the solver are not modelled.
- numpy integer arrays are not modelled. The default all-zero curve and the test's `[1, 2, 3]` are integer arrays, so the source truncates the driving potential written into them; the model keeps every curve real.
- Plotting and animation are not modelled, because they only draw. This covers `setup_figure`, `get_init`, `get_animate`, `get_angle_boundary`, `run_program`, the animation save, and the metrics' `add_subplot`, `init_plot` and `set_data`.
- The `Dqdv` metric is not modelled, because it is unused.
- `print` and `print_metrics` are not modelled, because they only produce output.
- `TestRun` and `run_one_timestep` are not modelled, because they are empty.
- battery/battery_test_runner.py is not part of this model; it is a command-line wrapper.
- battery/battery.py, battery/ecm_battery.py, `Anode`, `Cathode` and `Separator` are not part of this model; they are stubs.
- tests/context.py is not part of this model; it only sets up imports.
- The "unrecognized step" exception (battery/tester_program.py:89-90) cannot arise: steps form a closed datatype.
- Programs.TesterProgram.Advance stops an endless chain after one full cycle, reporting RecursionError with the step it started in. In the source, the step left behind depends on where the interpreter's recursion limit cuts the chain.
- An empty charge curve is not modelled: `Curve` has at least one point. `Battery` defaults to an empty array (battery/battery.py:8), and stepping such a battery raises IndexError at battery/diffusion_battery.py:79.
- Testers.Tester.GenerateFrames returns a finished sequence of frames. It is not a lazy generator interleaved with drawing.
- Testers.Tester.GenerateFrames ties only the first recorded driving potential to the program's state on entry. Each later one is the driving potential the program holds after the previous timestep, which `AdvanceTimestep` states one timestep at a time; the whole sequence is not restated as a run of the program.
- Metrics.Charge: the `get_val` and `delta` it inherits are never called on it and are not modelled.
- The `charge_cv` class attribute of `TesterProgram` is never read and is not modelled.
- `cathode_width` is replaced by the kernel it determines.
- `advance_timestep` runs the driver update, the battery step and the metric updates on the `Tester`'s objects. `StepBattery`, `RecordCurve` and `GetFrame` split that body into named parts without changing the order, and `NextFrame` is one pass of the loop of `generate_frames`.

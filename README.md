# Free-fall simulation: a verified model of the simulation controller

This project models the core of an interactive free-fall simulator. A body of
given mass, drag coefficient and cross-sectional area is dropped from an
initial height. Gravity pulls it down and quadratic air drag pushes back. A
controller advances it one animation frame at a time and records a chart
series of (time, velocity, height) samples. The run stops on the ground.

The model has seven modules:

- `Types` mirrors the record types and the run status.
- `Constants` holds the air density, the gravity presets, the object presets
  and the starting parameters.
- `Physics` is the integration step as a pure function over the reals. It
  computes gravity minus drag, then the new velocity, then the new height
  from the new velocity.
- `Lifecycle` describes the controller as a value. It has one function per
  operation (reset, parameter change, frame tick, start, pause, resume), a run
  of frames, the controller invariant and the lemmas about them.
- `UseSimulation` is the controller as a class. Its fields are the hook's
  state cells and refs, and its methods update them in place. Each method is
  proved against the matching `Lifecycle` function and keeps the invariant.
  The browser's frame scheduler becomes a `framePending` flag and explicit
  `Tick(now)` calls, one per frame that fires. The wall-clock anchor is an
  `Option<real>` in milliseconds.
- `Controls` covers the control panel's decisions. These are the operation
  behind the primary button, its label, when the inputs are disabled, and the
  slider ranges. It proves that every button the panel offers follows the
  transition table (Idle→Running, Running→Paused, Paused→Running,
  Finished→Running after a reset, any→Idle) and keeps the invariant.
- `App` covers the parameter handlers. A class holds `params`,
  `objectPreset` and the simulation. Changing one input sets that field and
  marks the preset "Custom". Choosing a named preset merges its mass, drag
  and area. Any new parameter record resets the simulation.

The controller invariant (`Lifecycle.Inv`) says the following:

- the parameters are valid;
- sample times never decrease;
- the last sample is the committed state, and with no sample the body has not
  moved;
- Idle has an empty series;
- a Finished run ends at height exactly 0, at a positive time, moving down;
- any other status has a positive height;
- a frame is pending only while Running.

Two facts about the code shape these properties:

- Sample times are only non-decreasing, not strictly increasing. Two frames
  with the same timestamp give a step with dt = 0, and nothing in the code
  prevents that.
- The code divides by the mass without a guard
  (hooks/useSimulation.ts:56) and has no error path for a mass ≤ 0. The
  model therefore makes a positive mass a precondition of the step. That
  precondition is part of the invariant.

## Model

| member | source | states |
|---|---|---|
| `Constants.GravityPresetsNotNegative` | constants.ts:6-12 | every gravity preset is ≥ 0, and "No Gravity" is exactly 0 |
| `Constants.CustomPresetSetsNothing` | constants.ts:15 | the "Custom" object preset sets no field |
| `Constants.NamedPresetsValid` | constants.ts:16-35 | every other object preset sets exactly mass > 0, drag coefficient ≥ 0 and area > 0, and neither height nor gravity |
| `Constants.InitialParamsAreSkydiverOnEarth` | constants.ts:31-44 | the starting parameters agree with the "Skydiver" preset on mass, drag and area, and their gravity is the "Earth" preset, 9.81 |
| `Constants.InitialParamsValid` | constants.ts:38-44 | the starting parameters are valid, with an initial height of 1000 |
| `Physics.InitialState` | hooks/useSimulation.ts:6-11 | defines the starting state: time 0, the initial height, velocity 0 and acceleration equal to gravity |
| `Physics.ZeroStepKeepsInitialState` | hooks/useSimulation.ts:6-11 | the starting state's acceleration is the one a step from it uses, so a step of length 0 leaves it unchanged |
| `Physics.DragAtUnitSpeed` | constants.ts:4 | with the air density 1.225 kg/m³, drag at 1 m/s is 0.6125·Cd·A |
| `Physics.DragForce` | hooks/useSimulation.ts:52 | drag is not negative when the drag coefficient and area are not, and is 0 at rest |
| `Physics.Step` | hooks/useSimulation.ts:48-65 | mass·a = mass·g − drag; the velocity advances by a·dt first; the height then moves by the new velocity; time advances by dt; the stored acceleration is the one used |
| `Physics.AtRestAccelerationIsGravity` | hooks/useSimulation.ts:51-56 | at velocity 0 the step's acceleration equals gravity |
| `Physics.NoGravityAtRestStaysPut` | hooks/useSimulation.ts:51-58 | with gravity 0 and velocity 0, the acceleration and velocity stay 0 and the height is unchanged |
| `Physics.HeightNonIncreasing` | hooks/useSimulation.ts:57-58 | with dt ≥ 0 and a new velocity ≥ 0, the new height is ≤ the old one |
| `Physics.AccelerationAtMostGravity` | hooks/useSimulation.ts:51-56 | with non-negative drag coefficient and area, the acceleration never exceeds gravity |
| `Physics.GroundCrossing` | hooks/useSimulation.ts:57-58 | a step from above the ground to the ground or below has dt > 0 and a positive new velocity |
| `Physics.Displacement` | hooks/useSimulation.ts:57-58 | the height drops by v·dt + a·dt², because the new velocity moves the body |
| `Physics.DragIgnoresDirection` | hooks/useSimulation.ts:52 | drag is the same for v and −v, so it does not oppose upward motion |
| `Physics.FirstStepOfSkydiver` | hooks/useSimulation.ts:48-65 | a 0.1 s first step of the starting skydiver gives a = 9.81, v = 0.981, h = 999.9019, t = 0.1 |
| `Lifecycle.Initial` | hooks/useSimulation.ts:14-19 | defines the hook's first cells: Idle, the starting state, an empty series, no anchor and no frame |
| `Lifecycle.Reset` | hooks/useSimulation.ts:21-29 | defines reset: cancels the frame and sets Idle, the starting state, an empty series and no anchor, keeping the parameters |
| `Lifecycle.SetParams` | hooks/useSimulation.ts:31-34 | defines a parameter change: store the new parameters, then reset |
| `Lifecycle.Start` | hooks/useSimulation.ts:87-94 | defines start: reset first if Finished, then Running, anchored at `now`, with a frame requested |
| `Lifecycle.Pause` | hooks/useSimulation.ts:96-101 | defines pause: cancel the frame and set Paused; state, series and anchor are kept |
| `Lifecycle.Resume` | hooks/useSimulation.ts:103-107 | defines resume: Running, re-anchored at `now`, with a frame requested; state and series are kept |
| `Lifecycle.Tick` | hooks/useSimulation.ts:37-85 | a frame keeps the parameters and anchors at `now`; it adds one sample when anchored and none otherwise; earlier samples are untouched |
| `Lifecycle.Run` | hooks/useSimulation.ts:37-85 | a sequence of frames keeps the parameters and earlier samples, and adds at most one sample per frame |
| `Lifecycle.ResetIsInitial` | hooks/useSimulation.ts:6-29 | reset gives status Idle, state {0, initialHeight, 0, gravity}, an empty series, no anchor and no pending frame |
| `Lifecycle.ResetIdempotent` | hooks/useSimulation.ts:21-29 | resetting twice equals resetting once |
| `Lifecycle.InitialEstablishesInv` | hooks/useSimulation.ts:14-19 | the hook's initial cells satisfy the invariant for valid parameters |
| `Lifecycle.ResetPreservesInv` | hooks/useSimulation.ts:21-29 | reset keeps the invariant |
| `Lifecycle.SetParamsEstablishesInv` | hooks/useSimulation.ts:21-34 | new valid parameters reset the controller to its initial state under them, satisfying the invariant |
| `Lifecycle.TickWithoutAnchor` | hooks/useSimulation.ts:38-42 | a frame with no anchor only records `now` and reschedules; state and series are unchanged |
| `Lifecycle.TickAdvances` | hooks/useSimulation.ts:44-83 | an anchored frame uses dt = (now − anchor)/1000 and adds one sample equal to the committed state. On reaching the ground the run becomes Finished with height 0, unchanged time and velocity, a last sample at height 0 and no frame. Otherwise it commits the step and reschedules |
| `Lifecycle.TickPreservesInv` | hooks/useSimulation.ts:37-85 | every frame that fires keeps the invariant (ordered times, last sample = state, Finished on the ground) |
| `Lifecycle.StartPreservesInv` | hooks/useSimulation.ts:87-94 | start keeps the invariant and yields Running with a pending frame; from Finished it resets first, otherwise state and series are kept |
| `Lifecycle.PausePreservesInv` | hooks/useSimulation.ts:96-101 | pause keeps the invariant |
| `Lifecycle.ResumePreservesInv` | hooks/useSimulation.ts:103-107 | resume keeps the invariant |
| `Lifecycle.PauseResumeKeepsState` | hooks/useSimulation.ts:96-107 | pausing and then resuming leaves state and series unchanged and ends Running |
| `Lifecycle.RunPreservesInv` | hooks/useSimulation.ts:37-85 | any sequence of frames with non-decreasing timestamps keeps the invariant |
| `Lifecycle.FinishedRunEndsOnGround` | hooks/useSimulation.ts:72-79 | once a run is Finished, its last sample has height exactly 0, a positive time and a positive velocity |
| `Lifecycle.RunCountsFrames` | hooks/useSimulation.ts:67-70 | while a run stays Running, the series grows by exactly one sample per frame |
| `Lifecycle.RunStopsWhenFinished` | hooks/useSimulation.ts:72-83 | after the frame that finishes the run, later frames change nothing |
| `Lifecycle.RunHaltsAfterFinish` | hooks/useSimulation.ts:72-83 | the same, for any controller with a positive mass whose frame is pending only while Running |
| `Lifecycle.NoGravityNeverFalls` | hooks/useSimulation.ts:51-58 | with gravity 0 and a body at rest, any run keeps the height and zero velocity and never finishes |
| `UseSimulation.Simulation.constructor` | hooks/useSimulation.ts:14-19 | the hook starts Idle in the initial state with an empty series, no anchor and no frame |
| `UseSimulation.Simulation.Reset` | hooks/useSimulation.ts:21-29 | overwrites the fields as `Lifecycle.Reset` says and establishes the invariant |
| `UseSimulation.Simulation.SetParams` | hooks/useSimulation.ts:31-34 | storing new parameters runs the reset with them |
| `UseSimulation.Simulation.Tick` | hooks/useSimulation.ts:37-85 | updates the fields in place (append, then rewrite the last sample on the ground) exactly as `Lifecycle.Tick` says, keeping the invariant |
| `UseSimulation.Simulation.Start` | hooks/useSimulation.ts:87-94 | resets first if Finished, then Running, anchored at `now`, with a frame pending |
| `UseSimulation.Simulation.Pause` | hooks/useSimulation.ts:96-101 | cancels the frame and sets Paused, leaving state, series and anchor unchanged |
| `UseSimulation.Simulation.Resume` | hooks/useSimulation.ts:103-107 | sets Running, re-anchors at `now` and requests a frame without touching the state |
| `Controls.InputsDisabled` | components/Controls.tsx:58 | defines when the inputs are disabled: while Running or Paused |
| `Controls.PrimaryAction` | components/Controls.tsx:131-136 | defines the primary button's operation: pause while Running, resume while Paused, start otherwise |
| `Controls.PrimaryLabel` | components/Controls.tsx:131-136 | defines the primary button's label: "Pause", "Resume", "Start New" when Finished, "Start" when Idle |
| `Controls.Offered` | components/Controls.tsx:131-138 | defines the buttons on offer: the primary button's operation and Reset, in every status |
| `Controls.Dispatch` | components/Controls.tsx:131-138 | defines what each button calls: the controller's start, pause, resume or reset |
| `Controls.SliderRange` | components/Controls.tsx:78-127 | gravity has no slider and every other parameter has one; each declared range (height 10–10000, mass 0.001–100, drag 0–2, area 0.001–1) is non-empty |
| `Controls.InControlRange` | components/Controls.tsx:78-127 | defines the values an input can produce: within its slider's range, or one of the gravity presets for gravity |
| `Controls.LabelNamesAction` | components/Controls.tsx:131-136 | the primary button reads "Pause" iff it pauses and "Resume" iff it resumes; it reads "Start"/"Start New" iff it starts, with "Start New" exactly when Finished |
| `Controls.InputsDisabledIffRunInProgress` | components/Controls.tsx:58 | the inputs are disabled iff the primary button does not start a run, i.e. iff it pauses or resumes |
| `Controls.EnabledInputsMeanNoPendingFrame` | components/Controls.tsx:58 | with the inputs enabled no frame is pending |
| `Controls.DispatchFollowsTransitions` | components/Controls.tsx:131-138 | each offered button moves the status by the transition table: Idle→Running, Running→Paused, Paused→Running, Finished→Running, any→Idle |
| `Controls.DispatchPreservesInv` | components/Controls.tsx:131-138 | every button the panel offers keeps the controller invariant |
| `Controls.ControlsImplyValid` | components/Controls.tsx:78-127 | any value the sliders and the gravity list can produce gives valid parameters |
| `Controls.InitialParamsWithinControls` | components/Controls.tsx:78-127 | the starting parameters lie within the input ranges |
| `App.WithField` | App.tsx:56 | the changed field gets the new value and every other field keeps its value |
| `App.Merge` | App.tsx:64 | the fields a preset sets take its values; the others are kept |
| `App.SelectPreset` | App.tsx:60-65 | defines choosing a preset: "Custom" keeps the parameters; another name merges that preset's fields |
| `App.MergeIdempotent` | App.tsx:64 | merging a preset twice equals merging it once |
| `App.SelectCustomKeepsParams` | App.tsx:60-62 | choosing "Custom" leaves the parameters unchanged |
| `App.SelectNamedPreset` | App.tsx:63-64 | a named preset overwrites exactly mass, drag and area with its values; initial height and gravity are kept |
| `App.SelectPresetIdempotent` | App.tsx:60-65 | choosing the same preset twice equals choosing it once |
| `App.SelectPresetWithinControls` | App.tsx:60-65 | choosing any preset keeps the parameters within the input ranges |
| `App.WithFieldWithinControls` | App.tsx:52-58 | changing one input within its range keeps all parameters within the input ranges |
| `App.AppState.constructor` | App.tsx:48-50 | the application starts with the starting parameters, preset "Skydiver" and an initial simulation |
| `App.AppState.HandleParamChange` | App.tsx:52-58 | sets field k to v, sets the preset name to "Custom" and resets the simulation with the new parameters |
| `App.AppState.HandleObjectPresetChange` | App.tsx:60-66 | records the preset name. "Custom" touches nothing else. Any other name merges the preset and resets the simulation |

## Left out

- Browser scheduling: `requestAnimationFrame`, `cancelAnimationFrame` and `performance.now` become a `framePending` flag and explicit timestamps. Real-time scheduling, callback races and React's state batching and effect timing are not modelled.
- `UseSimulation.Simulation.Tick` requires the frame's timestamp to be at or after the anchor (dt ≥ 0). A frame timestamp slightly earlier than the `performance.now()` taken at start or resume gives a small negative dt in the source; the model does not cover it.
- `UseSimulation.Simulation.SetParams` and the `Simulation` constructor require valid parameters. The source's hook takes any parameter record. Its only caller passes values the inputs can produce, and `Controls.ControlsImplyValid` proves those valid.
- `UseSimulation.Simulation.Pause` and `UseSimulation.Simulation.Resume` require a status other than Finished. The control panel never offers them then; the source would apply them anyway.
- Calling `start` while a run is already in progress would request a second frame in the source. The model keeps one pending-frame flag, so it does not capture two frames in flight.
- The source tests the frame handle and the anchor for truthiness, so a handle or anchor equal to 0 counts as absent. The model uses optional values and does not reproduce this.
- Floating-point behaviour: all arithmetic is over the reals, with no IEEE rounding, NaN or Infinity.
- The terminal velocity readout (a square root that is non-finite for zero drag or area) is not modelled, and neither is its "N/A" display.
- The drag sign is kept as in the source: drag always opposes downward motion, even when the velocity is negative.
- Slider step sizes are not modelled, only the declared minimum and maximum of each slider.
- Rendering is not part of this model: the charts, the falling-ball view, the readouts, the header and all markup and styling.

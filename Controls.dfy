/** The control panel's decisions: which operation the primary button invokes
    in each status and how it is labelled, when the parameter inputs are
    disabled, and the ranges the inputs can produce. Together with the
    controller's operations this fixes the transitions a user can cause. */
module Controls {
  import opened Types
  import opened Constants
  import L = Lifecycle

  /** The controller operations a button can invoke. */
  datatype Action = Start | Pause | Resume | Reset

  /** The parameter inputs are disabled while a run is in progress. */
  function InputsDisabled(status: Status): bool {
    status == Running || status == Paused
  }

  /** The operation behind the primary button. */
  function PrimaryAction(status: Status): Action {
    if status == Running then Pause
    else if status == Paused then Resume
    else Start
  }

  function PrimaryLabel(status: Status): string {
    if status == Running then "Pause"
    else if status == Paused then "Resume"
    else if status == Finished then "Start New"
    else "Start"
  }

  /** The operations the panel offers: the primary button and Reset, which
      is there in every status. */
  predicate Offered(status: Status, a: Action) {
    a == PrimaryAction(status) || a == Reset
  }

  /** What pressing a button does to the controller; `now` is the wall-clock
      time of the press. */
  function Dispatch(c: L.Controller, a: Action, now: real): L.Controller {
    match a
    case Start => L.Start(c, now)
    case Pause => L.Pause(c)
    case Resume => L.Resume(c, now)
    case Reset => L.Reset(c)
  }

  /** The intended status transitions, as a table independent of the
      controller: Idle -> Running, Running -> Paused, Paused -> Running,
      Finished -> Running (after a reset), and any -> Idle. */
  function Transition(status: Status, a: Action): Option<Status> {
    match (status, a)
    case (_, Reset) => Some(Idle)
    case (Idle, Start) => Some(Running)
    case (Running, Pause) => Some(Paused)
    case (Paused, Resume) => Some(Running)
    case (Finished, Start) => Some(Running)
    case _ => None
  }

  datatype Range = Range(min: real, max: real)

  /** Declared slider ranges; gravity is chosen from a list, not a slider.
      Every declared range is non-empty. */
  function SliderRange(k: ParamKey): (r: Option<Range>)
    ensures r.None? <==> k == Gravity
    ensures r.Some? ==> r.value.min <= r.value.max
  {
    match k
    case InitialHeight => Some(Range(10.0, 10000.0))
    case Mass => Some(Range(0.001, 100.0))
    case DragCoefficient => Some(Range(0.0, 2.0))
    case CrossSectionalArea => Some(Range(0.001, 1.0))
    case Gravity => None
  }

  /** A value the input for `k` can produce: within its slider's range, or
      for gravity one of the gravity presets. */
  predicate InControlRange(k: ParamKey, v: real) {
    match SliderRange(k)
    case Some(r) => r.min <= v <= r.max
    case None => v in GRAVITY_PRESETS.Values
  }

  predicate WithinControls(p: Params) {
    forall k :: InControlRange(k, Field(p, k))
  }

  /** The button labels name the operation they invoke. */
  lemma LabelNamesAction(status: Status)
    ensures PrimaryLabel(status) == "Pause" <==> PrimaryAction(status) == Pause
    ensures PrimaryLabel(status) == "Resume" <==> PrimaryAction(status) == Resume
    ensures PrimaryLabel(status) in {"Start", "Start New"} <==> PrimaryAction(status) == Start
    ensures PrimaryLabel(status) == "Start New" <==> status == Finished
  {
  }

  /** The inputs are disabled exactly when the primary button does not start
      a new run. */
  lemma InputsDisabledIffRunInProgress(status: Status)
    ensures InputsDisabled(status) <==> PrimaryAction(status) != Start
  {
  }

  /** With the inputs enabled no animation frame can be pending, so a
      parameter change never races a frame. */
  lemma EnabledInputsMeanNoPendingFrame(c: L.Controller)
    requires L.Inv(c) && !InputsDisabled(c.status)
    ensures !c.framePending
  {
  }

  /** Every button the panel offers moves the status as the transition table
      says, and no offered button is missing from the table. */
  lemma DispatchFollowsTransitions(c: L.Controller, a: Action, now: real)
    requires Offered(c.status, a)
    ensures Transition(c.status, a).Some?
    ensures Dispatch(c, a, now).status == Transition(c.status, a).value
  {
  }

  /** Pressing any offered button keeps the controller invariant. */
  lemma DispatchPreservesInv(c: L.Controller, a: Action, now: real)
    requires L.Inv(c) && Offered(c.status, a)
    ensures L.Inv(Dispatch(c, a, now))
  {
    match a
    case Start => L.StartPreservesInv(c, now);
    case Pause => L.PausePreservesInv(c);
    case Resume => L.ResumePreservesInv(c, now);
    case Reset => L.ResetPreservesInv(c);
  }

  /** Every value the inputs can produce is a valid parameter. */
  lemma ControlsImplyValid(p: Params)
    requires WithinControls(p)
    ensures ValidParams(p)
  {
    assert InControlRange(Mass, Field(p, Mass));
    assert InControlRange(InitialHeight, Field(p, InitialHeight));
    assert InControlRange(DragCoefficient, Field(p, DragCoefficient));
    assert InControlRange(CrossSectionalArea, Field(p, CrossSectionalArea));
    assert InControlRange(Gravity, Field(p, Gravity));
    GravityPresetsNotNegative();
  }

  lemma InitialParamsWithinControls()
    ensures WithinControls(INITIAL_PARAMS)
  {
    assert GRAVITY_PRESETS["Earth"] in GRAVITY_PRESETS.Values;
  }
}

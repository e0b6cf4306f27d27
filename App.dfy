/** The application's parameter handling: the `params` and `objectPreset`
    state cells, the two handlers that update them, and the simulation hook
    they feed, which resets whenever it is given new parameters. */
module App {
  import opened Types
  import opened Constants
  import Controls
  import UseSimulation
  import L = Lifecycle

  /** `{ ...p, [k]: v }`: field k becomes v and every other field is kept. */
  function WithField(p: Params, k: ParamKey, v: real): (r: Params)
    ensures Field(r, k) == v
    ensures forall j :: j != k ==> Field(r, j) == Field(p, j)
  {
    match k
    case Mass => p.(mass := v)
    case InitialHeight => p.(initialHeight := v)
    case DragCoefficient => p.(dragCoefficient := v)
    case CrossSectionalArea => p.(crossSectionalArea := v)
    case Gravity => p.(gravity := v)
  }

  function Or(o: Option<real>, default: real): real {
    if o.Some? then o.value else default
  }

  /** `{ ...p, ...q }`: the fields q sets win, the others keep p's value. */
  function Merge(p: Params, q: PartialParams): (r: Params)
    ensures forall k :: PartialField(q, k).Some? ==> Field(r, k) == PartialField(q, k).value
    ensures forall k :: PartialField(q, k).None? ==> Field(r, k) == Field(p, k)
  {
    Params(
      Or(q.mass, p.mass),
      Or(q.initialHeight, p.initialHeight),
      Or(q.dragCoefficient, p.dragCoefficient),
      Or(q.crossSectionalArea, p.crossSectionalArea),
      Or(q.gravity, p.gravity))
  }

  /** The parameters after choosing the object preset `name`. "Custom" leaves
      them alone; a name that is not in the table adds nothing to them. */
  function SelectPreset(p: Params, name: string): Params {
    if name != "Custom" && name in OBJECT_PRESETS then Merge(p, OBJECT_PRESETS[name]) else p
  }

  /** Merging the same partial record twice is the same as merging it once. */
  lemma MergeIdempotent(p: Params, q: PartialParams)
    ensures Merge(Merge(p, q), q) == Merge(p, q)
  {
  }

  lemma SelectCustomKeepsParams(p: Params)
    ensures SelectPreset(p, "Custom") == p
  {
  }

  /** A named preset overwrites exactly mass, drag coefficient and area with
      its own values; initial height and gravity are kept. */
  lemma SelectNamedPreset(p: Params, name: string)
    requires name in OBJECT_PRESETS && name != "Custom"
    ensures var r := SelectPreset(p, name);
            && r.mass == OBJECT_PRESETS[name].mass.value
            && r.dragCoefficient == OBJECT_PRESETS[name].dragCoefficient.value
            && r.crossSectionalArea == OBJECT_PRESETS[name].crossSectionalArea.value
            && r.initialHeight == p.initialHeight
            && r.gravity == p.gravity
  {
    NamedPresetsValid();
    assert BodyPresetValid(OBJECT_PRESETS[name]);
  }

  lemma SelectPresetIdempotent(p: Params, name: string)
    ensures SelectPreset(SelectPreset(p, name), name) == SelectPreset(p, name)
  {
    if name != "Custom" && name in OBJECT_PRESETS {
      MergeIdempotent(p, OBJECT_PRESETS[name]);
    }
  }

  /** Every preset's values lie within the slider ranges. */
  lemma SelectPresetWithinControls(p: Params, name: string)
    requires Controls.WithinControls(p)
    ensures Controls.WithinControls(SelectPreset(p, name))
  {
    var r := SelectPreset(p, name);
    if name != "Custom" && name in OBJECT_PRESETS {
      forall k
        ensures Controls.InControlRange(k, Field(r, k))
      {
        assert Controls.InControlRange(k, Field(p, k));
      }
    }
  }

  /** Changing one input within its range keeps every parameter within the
      ranges the inputs can produce. */
  lemma WithFieldWithinControls(p: Params, k: ParamKey, v: real)
    requires Controls.WithinControls(p) && Controls.InControlRange(k, v)
    ensures Controls.WithinControls(WithField(p, k, v))
  {
    var r := WithField(p, k, v);
    forall j
      ensures Controls.InControlRange(j, Field(r, j))
    {
      if j != k {
        assert Controls.InControlRange(j, Field(p, j));
      }
    }
  }

  class AppState {
    var params: Params
    var objectPreset: string
    const sim: UseSimulation.Simulation

    /** The hook always runs with the current parameters, which are values
        the inputs can produce. */
    ghost predicate Valid()
      reads this, sim
    {
      && sim.Valid()
      && sim.params == params
      && Controls.WithinControls(params)
    }

    constructor ()
      ensures Valid() && fresh(sim)
      ensures params == INITIAL_PARAMS && objectPreset == "Skydiver"
      ensures sim.Model() == L.Initial(INITIAL_PARAMS)
    {
      InitialParamsValid();
      Controls.InitialParamsWithinControls();
      params := INITIAL_PARAMS;
      objectPreset := "Skydiver";
      sim := new UseSimulation.Simulation(INITIAL_PARAMS);
    }

    /** An input changed field k to v (a value that input can produce). */
    method HandleParamChange(k: ParamKey, v: real)
      requires Valid() && Controls.InControlRange(k, v)
      modifies this, sim
      ensures Valid()
      ensures params == WithField(old(params), k, v)
      ensures objectPreset == "Custom"
      ensures sim.Model() == L.SetParams(old(sim.Model()), params)
    {
      WithFieldWithinControls(params, k, v);
      params := WithField(params, k, v);
      objectPreset := "Custom";
      Controls.ControlsImplyValid(params);
      sim.SetParams(params);
    }

    /** The object preset `name` was chosen. "Custom" only records the name;
        any other name replaces the record with a merged copy, so the hook
        sees new parameters and resets. */
    method HandleObjectPresetChange(name: string)
      requires Valid()
      modifies this, sim
      ensures Valid()
      ensures objectPreset == name
      ensures params == SelectPreset(old(params), name)
      ensures name == "Custom" ==> sim.Model() == old(sim.Model())
      ensures name != "Custom" ==> sim.Model() == L.SetParams(old(sim.Model()), params)
    {
      objectPreset := name;
      if name != "Custom" {
        SelectPresetWithinControls(params, name);
        params := SelectPreset(params, name);
        Controls.ControlsImplyValid(params);
        sim.SetParams(params);
      }
    }
  }
}

/** The constant tables: air density, gravity presets, object presets and the
    parameters the application starts with. */
module Constants {
  import opened Types

  /** Density of air at sea level, kg/m^3. */
  const AIR_DENSITY: real := 1.225

  /** Named gravitational accelerations, m/s^2. */
  const GRAVITY_PRESETS: map<string, real> := map[
    "Earth" := 9.81,
    "Moon" := 1.62,
    "Mars" := 3.72,
    "Jupiter" := 24.79,
    "No Gravity" := 0.0
  ]

  /** A preset that sets mass, drag coefficient and area and nothing else. */
  function Body(mass: real, dragCoefficient: real, crossSectionalArea: real): PartialParams {
    PartialParams(Some(mass), None, Some(dragCoefficient), Some(crossSectionalArea), None)
  }

  const NO_FIELDS: PartialParams := PartialParams(None, None, None, None, None)

  /** Named object presets; "Custom" sets no field at all. */
  const OBJECT_PRESETS: map<string, PartialParams> := map[
    "Custom" := NO_FIELDS,
    "Soccer Ball" := Body(0.43, 0.25, 0.038),
    "Bowling Ball" := Body(7.2, 0.4, 0.036),
    "Ping Pong Ball" := Body(0.0027, 0.5, 0.00125),
    "Skydiver" := Body(75.0, 1.0, 0.7)
  ]

  const INITIAL_PARAMS: Params := Params(
    mass := 75.0,
    initialHeight := 1000.0,
    dragCoefficient := 1.0,
    crossSectionalArea := 0.7,
    gravity := GRAVITY_PRESETS["Earth"])

  /** A named object preset sets exactly mass, drag coefficient and area, with
      a positive mass and area and a drag coefficient that is not negative. */
  predicate BodyPresetValid(q: PartialParams) {
    && q.mass.Some? && q.mass.value > 0.0
    && q.dragCoefficient.Some? && q.dragCoefficient.value >= 0.0
    && q.crossSectionalArea.Some? && q.crossSectionalArea.value > 0.0
    && q.initialHeight.None? && q.gravity.None?
  }

  lemma GravityPresetsNotNegative()
    ensures forall name | name in GRAVITY_PRESETS :: GRAVITY_PRESETS[name] >= 0.0
    ensures "No Gravity" in GRAVITY_PRESETS && GRAVITY_PRESETS["No Gravity"] == 0.0
  {
  }

  lemma CustomPresetSetsNothing()
    ensures "Custom" in OBJECT_PRESETS
    ensures forall k :: PartialField(OBJECT_PRESETS["Custom"], k).None?
  {
  }

  lemma NamedPresetsValid()
    ensures forall name | name in OBJECT_PRESETS && name != "Custom" :: BodyPresetValid(OBJECT_PRESETS[name])
  {
  }

  /** The starting parameters are the skydiver falling on Earth from 1000 m. */
  lemma InitialParamsAreSkydiverOnEarth()
    ensures "Skydiver" in OBJECT_PRESETS
    ensures OBJECT_PRESETS["Skydiver"].mass == Some(INITIAL_PARAMS.mass)
    ensures OBJECT_PRESETS["Skydiver"].dragCoefficient == Some(INITIAL_PARAMS.dragCoefficient)
    ensures OBJECT_PRESETS["Skydiver"].crossSectionalArea == Some(INITIAL_PARAMS.crossSectionalArea)
    ensures INITIAL_PARAMS.gravity == GRAVITY_PRESETS["Earth"] == 9.81
  {
  }

  lemma InitialParamsValid()
    ensures ValidParams(INITIAL_PARAMS)
    ensures INITIAL_PARAMS.initialHeight == 1000.0
  {
  }
}

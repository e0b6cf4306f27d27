/** Value types of the simulation: parameters, kinematic state, chart samples
    and the run status, as declared in types.ts. */
module Types {

  datatype Option<T> = None | Some(value: T)

  /** The run status; it decides which controller operation the controls offer. */
  datatype Status = Idle | Running | Paused | Finished

  /** The five user-tunable parameters, in SI units. */
  datatype Params = Params(
    mass: real,
    initialHeight: real,
    dragCoefficient: real,
    crossSectionalArea: real,
    gravity: real)

  /** Kinematic state of the falling body; height is measured upwards from the
      ground and velocity is positive downwards. */
  datatype KinematicState = KinematicState(
    time: real,
    height: real,
    velocity: real,
    acceleration: real)

  /** One point of the chart series. */
  datatype Sample = Sample(time: real, velocity: real, height: real)

  /** The keys of a parameter record (`keyof SimulationParams`). */
  datatype ParamKey = Mass | InitialHeight | DragCoefficient | CrossSectionalArea | Gravity

  /** A parameter record in which every field may be absent (`Partial<SimulationParams>`). */
  datatype PartialParams = PartialParams(
    mass: Option<real>,
    initialHeight: Option<real>,
    dragCoefficient: Option<real>,
    crossSectionalArea: Option<real>,
    gravity: Option<real>)

  function Field(p: Params, k: ParamKey): real {
    match k
    case Mass => p.mass
    case InitialHeight => p.initialHeight
    case DragCoefficient => p.dragCoefficient
    case CrossSectionalArea => p.crossSectionalArea
    case Gravity => p.gravity
  }

  function PartialField(q: PartialParams, k: ParamKey): Option<real> {
    match k
    case Mass => q.mass
    case InitialHeight => q.initialHeight
    case DragCoefficient => q.dragCoefficient
    case CrossSectionalArea => q.crossSectionalArea
    case Gravity => q.gravity
  }

  /** Physically meaningful parameters: a positive mass, starting height and
      area, and a drag coefficient and gravity that are not negative. */
  predicate ValidParams(p: Params) {
    && p.mass > 0.0
    && p.initialHeight > 0.0
    && p.dragCoefficient >= 0.0
    && p.crossSectionalArea > 0.0
    && p.gravity >= 0.0
  }
}

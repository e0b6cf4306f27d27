/** The integration step of the simulation: forces on the falling body and one
    semi-implicit Euler step (velocity first, then height from the new
    velocity). Arithmetic is over the reals. */
module Physics {
  import opened Types
  import Constants

  /** The state a run starts from: at rest at the initial height, accelerating
      at the full gravitational acceleration. */
  function InitialState(p: Params): KinematicState {
    KinematicState(time := 0.0, height := p.initialHeight, velocity := 0.0, acceleration := p.gravity)
  }

  /** Quadratic air drag, 1/2 rho v^2 Cd A. It is not negative whenever the
      drag coefficient and area are not, and vanishes at rest. */
  function DragForce(velocity: real, p: Params): (f: real)
    ensures p.dragCoefficient >= 0.0 && p.crossSectionalArea >= 0.0 ==> f >= 0.0
    ensures velocity == 0.0 ==> f == 0.0
  {
    var v2 := velocity * velocity;
    var k := 0.5 * Constants.AIR_DENSITY * v2;
    assert k >= 0.0;
    var kc := k * p.dragCoefficient;
    assert p.dragCoefficient >= 0.0 ==> kc >= 0.0;
    kc * p.crossSectionalArea
  }

  /** One step of length dt. The acceleration obeys Newton's second law with
      gravity pulling down and drag pushing up; the velocity is advanced first
      and the height is then advanced with the NEW velocity; the stored
      acceleration is the one used for the step. No clamping happens here. */
  function Step(s: KinematicState, p: Params, dt: real): (r: KinematicState)
    requires p.mass > 0.0
    ensures p.mass * r.acceleration == p.mass * p.gravity - DragForce(s.velocity, p)
    ensures r.velocity == s.velocity + r.acceleration * dt
    ensures r.height == s.height - r.velocity * dt
    ensures r.time == s.time + dt
  {
    var forceGravity := p.mass * p.gravity;
    var forceDrag := DragForce(s.velocity, p);
    var netForce := forceGravity - forceDrag;
    var acceleration := netForce / p.mass;
    var newVelocity := s.velocity + acceleration * dt;
    var newHeight := s.height - newVelocity * dt;
    KinematicState(s.time + dt, newHeight, newVelocity, acceleration)
  }

  /** At rest there is no drag, so the body accelerates at exactly g. */
  lemma AtRestAccelerationIsGravity(s: KinematicState, p: Params, dt: real)
    requires p.mass > 0.0 && s.velocity == 0.0
    ensures Step(s, p, dt).acceleration == p.gravity
  {
    var r := Step(s, p, dt);
    assert p.mass * r.acceleration == p.mass * p.gravity;
  }

  /** Without gravity a body at rest stays where it is: a fixed point of Step. */
  lemma NoGravityAtRestStaysPut(s: KinematicState, p: Params, dt: real)
    requires p.mass > 0.0 && p.gravity == 0.0 && s.velocity == 0.0
    ensures Step(s, p, dt).acceleration == 0.0
    ensures Step(s, p, dt).velocity == 0.0
    ensures Step(s, p, dt).height == s.height
  {
    AtRestAccelerationIsGravity(s, p, dt);
  }

  /** With a non-negative step and a non-negative new velocity the body does
      not rise. */
  lemma HeightNonIncreasing(s: KinematicState, p: Params, dt: real)
    requires p.mass > 0.0 && dt >= 0.0 && Step(s, p, dt).velocity >= 0.0
    ensures Step(s, p, dt).height <= s.height
  {
    var r := Step(s, p, dt);
    assert r.velocity * dt >= 0.0;
  }

  /** Drag never speeds the body up: the acceleration is at most g. */
  lemma AccelerationAtMostGravity(s: KinematicState, p: Params, dt: real)
    requires p.mass > 0.0 && p.dragCoefficient >= 0.0 && p.crossSectionalArea >= 0.0
    ensures Step(s, p, dt).acceleration <= p.gravity
  {
    var r := Step(s, p, dt);
    assert p.mass * r.acceleration <= p.mass * p.gravity;
  }

  /** A step that takes a body above the ground to (or below) the ground has a
      positive length and a positive (downward) new velocity. */
  lemma GroundCrossing(s: KinematicState, p: Params, dt: real)
    requires p.mass > 0.0 && dt >= 0.0 && s.height > 0.0
    requires Step(s, p, dt).height <= 0.0
    ensures dt > 0.0 && Step(s, p, dt).velocity > 0.0
  {
    var r := Step(s, p, dt);
    assert r.velocity * dt >= s.height;
  }

  /** The semi-implicit displacement is v dt + a dt^2: twice the a t^2 / 2
      term of the ideal kinematic formula. */
  lemma Displacement(s: KinematicState, p: Params, dt: real)
    requires p.mass > 0.0
    ensures s.height - Step(s, p, dt).height == s.velocity * dt + Step(s, p, dt).acceleration * dt * dt
  {
  }

  /** The initial state's stored acceleration is the one a step from it uses,
      so a step of length 0 leaves it as it is. */
  lemma ZeroStepKeepsInitialState(p: Params)
    requires p.mass > 0.0
    ensures Step(InitialState(p), p, 0.0) == InitialState(p)
  {
    AtRestAccelerationIsGravity(InitialState(p), p, 0.0);
  }

  /** With air density 1.225 kg/m^3, drag at 1 m/s is 0.6125 Cd A newtons. */
  lemma DragAtUnitSpeed(p: Params)
    ensures DragForce(1.0, p) == 0.6125 * p.dragCoefficient * p.crossSectionalArea
  {
  }

  /** The drag force depends on the speed only, not on the direction of
      motion, so it does not oppose an upward velocity. */
  lemma DragIgnoresDirection(v: real, p: Params)
    ensures DragForce(-v, p) == DragForce(v, p)
  {
    assert (-v) * (-v) == v * v;
  }

  /** One step of a 75 kg skydiver dropped from 1000 m on Earth, 0.1 s long. */
  lemma FirstStepOfSkydiver()
    ensures Step(InitialState(Constants.INITIAL_PARAMS), Constants.INITIAL_PARAMS, 0.1)
         == KinematicState(time := 0.1, height := 999.9019, velocity := 0.981, acceleration := 9.81)
  {
    var p := Constants.INITIAL_PARAMS;
    AtRestAccelerationIsGravity(InitialState(p), p, 0.1);
  }
}

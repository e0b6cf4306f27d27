/** The simulation hook as an object: its state cells and refs are fields that
    the operations overwrite in place. Each operation is proved against the
    matching function of Lifecycle and keeps the controller invariant. The
    browser's frame scheduler is replaced by the `framePending` flag and by
    explicit calls of `Tick(now)`, one per animation frame that fires. */
module UseSimulation {
  import opened Types
  import opened Physics
  import L = Lifecycle

  class Simulation {
    var params: Params
    var status: Status
    var state: KinematicState
    var chart: seq<Sample>
    var anchor: Option<real>      // the wall-clock time of the last frame, in milliseconds
    var framePending: bool        // an animation frame has been requested and not cancelled

    function Model(): L.Controller
      reads this
    {
      L.Controller(params, status, state, chart, anchor, framePending)
    }

    ghost predicate Valid()
      reads this
    {
      L.Inv(Model())
    }

    constructor (p: Params)
      requires ValidParams(p)
      ensures Valid() && Model() == L.Initial(p)
    {
      params := p;
      status := Idle;
      state := InitialState(p);
      chart := [];
      anchor := None;
      framePending := false;
      new;
      L.InitialEstablishesInv(p);
    }

    /** Reset works from any state whose parameters are valid. */
    method Reset()
      requires ValidParams(params)
      modifies this
      ensures Valid() && Model() == L.Reset(old(Model()))
      ensures status == Idle && chart == [] && anchor.None? && !framePending
      ensures state == InitialState(params) && params == old(params)
    {
      framePending := false;
      status := Idle;
      state := InitialState(params);
      chart := [];
      anchor := None;
      L.InitialEstablishesInv(params);
    }

    /** The hook is re-created with new parameters, and the reset that depends
        on them runs. */
    method SetParams(p: Params)
      requires ValidParams(p)
      modifies this
      ensures Valid() && Model() == L.SetParams(old(Model()), p)
      ensures params == p && status == Idle && chart == [] && !framePending
    {
      params := p;
      Reset();
      L.SetParamsEstablishesInv(old(Model()), p);
    }

    /** The pending animation frame fires at wall-clock time `now`. */
    method Tick(now: real)
      requires Valid() && framePending
      requires anchor.Some? ==> anchor.value <= now
      modifies this
      ensures Valid() && Model() == L.Tick(old(Model()), now)
      ensures params == old(params) && anchor == Some(now)
      ensures |chart| == |old(chart)| + (if old(anchor).Some? then 1 else 0)
      ensures chart[..|old(chart)|] == old(chart)
    {
      framePending := false;
      if anchor.None? {
        anchor := Some(now);
        framePending := true;
      } else {
        var dt := (now - anchor.value) / 1000.0;
        anchor := Some(now);
        var next := Step(state, params, dt);
        chart := chart + [L.SampleOf(next)];
        if next.height <= 0.0 {
          status := Finished;
          var final := next.(height := 0.0);
          chart := chart[..|chart| - 1] + [L.SampleOf(final)];
          state := final;
        } else {
          state := next;
          framePending := true;
        }
      }
      L.TickPreservesInv(old(Model()), now);
    }

    method Start(now: real)
      requires Valid()
      modifies this
      ensures Valid() && Model() == L.Start(old(Model()), now)
      ensures status == Running && anchor == Some(now) && framePending
    {
      if status == Finished {
        Reset();
      }
      status := Running;
      anchor := Some(now);
      framePending := true;
      L.StartPreservesInv(old(Model()), now);
    }

    method Pause()
      requires Valid() && status != Finished
      modifies this
      ensures Valid() && Model() == L.Pause(old(Model()))
      ensures status == Paused && !framePending
      ensures state == old(state) && chart == old(chart) && anchor == old(anchor)
    {
      framePending := false;
      status := Paused;
      L.PausePreservesInv(old(Model()));
    }

    method Resume(now: real)
      requires Valid() && status != Finished
      modifies this
      ensures Valid() && Model() == L.Resume(old(Model()), now)
      ensures status == Running && anchor == Some(now) && framePending
      ensures state == old(state) && chart == old(chart)
    {
      status := Running;
      anchor := Some(now);
      framePending := true;
      L.ResumePreservesInv(old(Model()), now);
    }
  }
}

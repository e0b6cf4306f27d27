/** The simulation controller as a value: its state cells (status, kinematic
    state, chart series), the wall-clock anchor and whether an animation frame
    is pending, with one function per operation. The class in UseSimulation
    is proved against these functions; the lemmas here state what the
    operations promise and the invariant they keep. */
module Lifecycle {
  import opened Types
  import opened Physics

  datatype Controller = Controller(
    params: Params,
    status: Status,
    state: KinematicState,
    chart: seq<Sample>,
    anchor: Option<real>,
    framePending: bool)

  function SampleOf(s: KinematicState): Sample {
    Sample(s.time, s.velocity, s.height)
  }

  /** Sample times never decrease along the series. */
  ghost predicate TimesSorted(chart: seq<Sample>) {
    forall i, j :: 0 <= i <= j < |chart| ==> chart[i].time <= chart[j].time
  }

  /** Frame timestamps that never go back, starting no earlier than the anchor. */
  ghost predicate Chronological(anchor: Option<real>, nows: seq<real>) {
    && (forall i, j :: 0 <= i <= j < |nows| ==> nows[i] <= nows[j])
    && (anchor.Some? && nows != [] ==> anchor.value <= nows[0])
  }

  /** The controller invariant. */
  ghost predicate Inv(c: Controller) {
    && ValidParams(c.params)
    && c.state.time >= 0.0
    && TimesSorted(c.chart)
    // the last sample is the committed state
    && (c.chart != [] ==> c.chart[|c.chart| - 1] == SampleOf(c.state))
    // no sample yet: the body has not moved
    && (c.chart == [] ==> c.state == InitialState(c.params))
    && (c.status == Idle ==> c.chart == [])
    // a finished run ends exactly on the ground, after a positive time, moving down
    && (c.status == Finished ==>
          c.chart != [] && c.state.height == 0.0 && c.state.time > 0.0 && c.state.velocity > 0.0)
    && (c.status != Finished ==> c.state.height > 0.0)
    && (c.framePending ==> c.status == Running)
  }

  /** The state cells and refs as the hook creates them. */
  function Initial(p: Params): Controller {
    Controller(p, Idle, InitialState(p), [], None, false)
  }

  /** Cancel any pending frame and go back to the initial state. */
  function Reset(c: Controller): Controller {
    c.(status := Idle, state := InitialState(c.params), chart := [], anchor := None, framePending := false)
  }

  /** New parameters always trigger a reset, so a run never uses stale ones. */
  function SetParams(c: Controller, p: Params): Controller {
    Reset(c.(params := p))
  }

  /** One animation frame at wall-clock time `now` (milliseconds). Without an
      anchor the frame only records the anchor and asks for another frame.
      Otherwise it advances by the elapsed seconds, appends a sample, and
      either stops on the ground or commits the state and asks for the next
      frame. */
  function Tick(c: Controller, now: real): (r: Controller)
    requires c.params.mass > 0.0
    requires c.anchor.Some? ==> c.anchor.value <= now
    ensures r.params == c.params && r.anchor == Some(now)
    ensures |r.chart| == |c.chart| + (if c.anchor.Some? then 1 else 0)
    ensures r.chart[..|c.chart|] == c.chart
  {
    match c.anchor
    case None => c.(anchor := Some(now), framePending := true)
    case Some(last) =>
      var dt := (now - last) / 1000.0;
      var next := Step(c.state, c.params, dt);
      var appended := c.chart + [SampleOf(next)];
      if next.height <= 0.0 then
        var final := next.(height := 0.0);
        c.(anchor := Some(now), status := Finished, state := final,
           chart := appended[..|appended| - 1] + [SampleOf(final)], framePending := false)
      else
        c.(anchor := Some(now), state := next, chart := appended, framePending := true)
  }

  /** Start a run (from a finished run, reset first), anchored at `now`. */
  function Start(c: Controller, now: real): Controller {
    var base := if c.status == Finished then Reset(c) else c;
    base.(status := Running, anchor := Some(now), framePending := true)
  }

  /** Cancel the pending frame; state and series are kept. */
  function Pause(c: Controller): Controller {
    c.(status := Paused, framePending := false)
  }

  /** Continue, re-anchored at `now` so the pause does not count as elapsed time. */
  function Resume(c: Controller, now: real): Controller {
    c.(status := Running, anchor := Some(now), framePending := true)
  }

  /** The frames that fire at the times `nows`, one after the other, for as
      long as each one asks for the next. */
  function Run(c: Controller, nows: seq<real>): (r: Controller)
    requires c.params.mass > 0.0
    requires Chronological(c.anchor, nows)
    ensures r.params == c.params
    ensures |c.chart| <= |r.chart| <= |c.chart| + |nows|
    ensures r.chart[..|c.chart|] == c.chart
    decreases |nows|
  {
    if nows == [] || !c.framePending then c
    else
      var t := Tick(c, nows[0]);
      assert Chronological(t.anchor, nows[1..]);
      var r := Run(t, nows[1..]);
      assert r.chart[..|c.chart|] == r.chart[..|t.chart|][..|c.chart|];
      r
  }

  // ---------------------------------------------------------------------------
  // Reset and parameter changes

  lemma ResetIsInitial(c: Controller)
    ensures Reset(c) == Initial(c.params)
    ensures Reset(c).status == Idle && Reset(c).chart == [] && Reset(c).anchor == None
    ensures !Reset(c).framePending
    ensures Reset(c).state == KinematicState(0.0, c.params.initialHeight, 0.0, c.params.gravity)
  {
  }

  lemma ResetIdempotent(c: Controller)
    ensures Reset(Reset(c)) == Reset(c)
  {
  }

  lemma InitialEstablishesInv(p: Params)
    requires ValidParams(p)
    ensures Inv(Initial(p))
  {
  }

  lemma ResetPreservesInv(c: Controller)
    requires Inv(c)
    ensures Inv(Reset(c))
  {
  }

  lemma SetParamsEstablishesInv(c: Controller, p: Params)
    requires ValidParams(p)
    ensures Inv(SetParams(c, p))
    ensures SetParams(c, p) == Initial(p)
  {
  }

  // ---------------------------------------------------------------------------
  // Ticks

  /** A frame without an anchor only records the anchor and reschedules. */
  lemma TickWithoutAnchor(c: Controller, now: real)
    requires c.params.mass > 0.0 && c.anchor.None?
    ensures Tick(c, now) == c.(anchor := Some(now), framePending := true)
  {
  }

  /** An anchored frame advances by the elapsed seconds and records the new
      state as the one new sample; it stops exactly on the ground when the
      step reaches it, and otherwise commits the step and reschedules. */
  lemma TickAdvances(c: Controller, now: real)
    requires c.params.mass > 0.0 && c.anchor.Some? && c.anchor.value <= now
    ensures var next := Step(c.state, c.params, (now - c.anchor.value) / 1000.0);
            var r := Tick(c, now);
            && |r.chart| == |c.chart| + 1
            && r.chart[|c.chart|] == SampleOf(r.state)
            && r.anchor == Some(now)
            && r.state.time == c.state.time + (now - c.anchor.value) / 1000.0
            && (next.height <= 0.0 ==>
                  && r.status == Finished && !r.framePending
                  && r.state == next.(height := 0.0)
                  && r.chart[|c.chart|].height == 0.0)
            && (next.height > 0.0 ==>
                  && r.status == c.status && r.framePending
                  && r.state == next)
  {
  }

  /** Every frame that fires keeps the invariant. */
  lemma TickPreservesInv(c: Controller, now: real)
    requires Inv(c) && c.framePending
    requires c.anchor.Some? ==> c.anchor.value <= now
    ensures Inv(Tick(c, now))
  {
    if c.anchor.Some? {
      var dt := (now - c.anchor.value) / 1000.0;
      var next := Step(c.state, c.params, dt);
      var r := Tick(c, now);
      assert r.chart == c.chart + [SampleOf(r.state)];
      assert r.state.time >= c.state.time;
      forall i | 0 <= i < |c.chart|
        ensures c.chart[i].time <= r.state.time
      {
        assert c.chart[i].time <= c.chart[|c.chart| - 1].time;
      }
      if next.height <= 0.0 {
        GroundCrossing(c.state, c.params, dt);
      }
    }
  }

  // ---------------------------------------------------------------------------
  // Start, pause, resume

  lemma StartPreservesInv(c: Controller, now: real)
    requires Inv(c)
    ensures Inv(Start(c, now))
    ensures Start(c, now).status == Running && Start(c, now).framePending
    ensures c.status == Finished ==> Start(c, now).chart == [] && Start(c, now).state == InitialState(c.params)
    ensures c.status != Finished ==> Start(c, now).chart == c.chart && Start(c, now).state == c.state
  {
  }

  lemma PausePreservesInv(c: Controller)
    requires Inv(c) && c.status != Finished
    ensures Inv(Pause(c))
  {
  }

  lemma ResumePreservesInv(c: Controller, now: real)
    requires Inv(c) && c.status != Finished
    ensures Inv(Resume(c, now))
  {
  }

  /** Pausing and resuming leaves the state and the series as they were. */
  lemma PauseResumeKeepsState(c: Controller, now: real)
    ensures Resume(Pause(c), now).state == c.state
    ensures Resume(Pause(c), now).chart == c.chart
    ensures Resume(Pause(c), now).status == Running
  {
  }

  // ---------------------------------------------------------------------------
  // Runs of frames

  lemma {:induction false} RunPreservesInv(c: Controller, nows: seq<real>)
    requires Inv(c) && Chronological(c.anchor, nows)
    ensures Inv(Run(c, nows))
    decreases |nows|
  {
    if nows != [] && c.framePending {
      var t := Tick(c, nows[0]);
      TickPreservesInv(c, nows[0]);
      assert Chronological(t.anchor, nows[1..]);
      RunPreservesInv(t, nows[1..]);
    }
  }

  /** Once a run has finished, its last sample lies exactly on the ground and
      was reached after a positive time, moving downwards. */
  lemma FinishedRunEndsOnGround(c: Controller, nows: seq<real>)
    requires Inv(c) && Chronological(c.anchor, nows)
    requires Run(c, nows).status == Finished
    ensures var r := Run(c, nows);
            && r.chart != []
            && r.chart[|r.chart| - 1].height == 0.0
            && r.chart[|r.chart| - 1].time > 0.0
            && r.chart[|r.chart| - 1].velocity > 0.0
  {
    RunPreservesInv(c, nows);
  }

  /** While a run keeps going, every anchored frame adds exactly one sample. */
  lemma {:induction false} RunCountsFrames(c: Controller, nows: seq<real>)
    requires Inv(c) && c.framePending && c.anchor.Some? && Chronological(c.anchor, nows)
    requires Run(c, nows).status == Running
    ensures |Run(c, nows).chart| == |c.chart| + |nows|
    decreases |nows|
  {
    if nows != [] {
      var t := Tick(c, nows[0]);
      TickPreservesInv(c, nows[0]);
      assert Chronological(t.anchor, nows[1..]);
      assert t.framePending;
      RunCountsFrames(t, nows[1..]);
    }
  }

  /** A finished run takes no more samples: frames after the one that reached
      the ground change nothing. */
  lemma RunStopsWhenFinished(c: Controller, nows: seq<real>, k: nat)
    requires Inv(c) && Chronological(c.anchor, nows) && k <= |nows|
    requires Run(c, nows[..k]).status == Finished
    ensures Run(c, nows) == Run(c, nows[..k])
  {
    RunHaltsAfterFinish(c, nows, k);
  }

  /** The induction behind RunStopsWhenFinished, needing only the part of the
      invariant it uses: a positive mass, and a pending frame only while
      Running. */
  lemma {:induction false} RunHaltsAfterFinish(c: Controller, nows: seq<real>, k: nat)
    requires c.params.mass > 0.0 && (c.framePending ==> c.status == Running)
    requires Chronological(c.anchor, nows) && k <= |nows|
    requires Run(c, nows[..k]).status == Finished
    ensures Run(c, nows) == Run(c, nows[..k])
    decreases k
  {
    if k == 0 {
      assert nows[..k] == [];
    } else if c.framePending {
      var t := Tick(c, nows[0]);
      assert nows[..k][1..] == nows[1..][..k - 1];
      assert Chronological(t.anchor, nows[1..]);
      RunHaltsAfterFinish(t, nows[1..], k - 1);
    }
  }

  /** Without gravity a body at rest never falls: its height and velocity
      stay as they are and the run never finishes. */
  lemma {:induction false} NoGravityNeverFalls(c: Controller, nows: seq<real>)
    requires Inv(c) && Chronological(c.anchor, nows)
    requires c.params.gravity == 0.0 && c.state.velocity == 0.0 && c.status != Finished
    ensures Run(c, nows).status != Finished
    ensures Run(c, nows).state.height == c.state.height
    ensures Run(c, nows).state.velocity == 0.0
    decreases |nows|
  {
    if nows != [] && c.framePending {
      var t := Tick(c, nows[0]);
      TickPreservesInv(c, nows[0]);
      if c.anchor.Some? {
        NoGravityAtRestStaysPut(c.state, c.params, (nows[0] - c.anchor.value) / 1000.0);
      }
      assert Chronological(t.anchor, nows[1..]);
      NoGravityNeverFalls(t, nows[1..]);
    }
  }
}

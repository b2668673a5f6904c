// The frame-delta clock shared by ThreeManager (demo/main.ts) and ParticleManager
// (demo/particle.ts): timeDiffCompute measures the milliseconds between two frames, and
// a prevTime of 0 (or never set) means "no previous frame".

module FrameClock {

  /** The two fields the managers keep for the clock. */
  datatype Clock = Clock(prevTime: real, timeDiff: real)

  /** The state of a manager that has not rendered yet: prevTime unset, timeDiff 0. */
  const Start := Clock(0.0, 0.0)

  /** timeDiffCompute with performance.now() = now: a frame after a previous one measures
      the gap; the first frame only records its time and leaves timeDiff as it was. */
  function Compute(c: Clock, now: real): (r: Clock)
    ensures r.prevTime == now
    ensures c.prevTime != 0.0 ==> r.timeDiff + c.prevTime == now
    ensures c.prevTime == 0.0 ==> r.timeDiff == c.timeDiff
  {
    if c.prevTime != 0.0 then Clock(now, now - c.prevTime) else Clock(now, c.timeDiff)
  }

  /** The clock after a run of frames. */
  function ComputeAll(c: Clock, nows: seq<real>): Clock
    decreases |nows|
  {
    if nows == [] then c else ComputeAll(Compute(c, nows[0]), nows[1..])
  }

  /** The deltas the frames of a run measure, in order. */
  function Deltas(c: Clock, nows: seq<real>): (ds: seq<real>)
    ensures |ds| == |nows|
    decreases |nows|
  {
    if nows == [] then []
    else
      var next := Compute(c, nows[0]);
      [next.timeDiff] + Deltas(next, nows[1..])
  }

  function Sum(xs: seq<real>): real
    decreases |xs|
  {
    if xs == [] then 0.0 else xs[0] + Sum(xs[1..])
  }

  /** Once a previous frame exists (and no frame lands at time 0), the deltas handed to the
      animation add up to exactly the time that passed: nothing is lost or counted twice. */
  lemma {:induction false} DeltasTelescope(c: Clock, nows: seq<real>)
    requires c.prevTime != 0.0
    requires forall k :: 0 <= k < |nows| ==> nows[k] != 0.0
    ensures Sum(Deltas(c, nows)) == (if nows == [] then 0.0 else nows[|nows| - 1] - c.prevTime)
    ensures ComputeAll(c, nows).prevTime == (if nows == [] then c.prevTime else nows[|nows| - 1])
    decreases |nows|
  {
    if nows != [] {
      DeltasTelescope(Compute(c, nows[0]), nows[1..]);
    }
  }

  /** What render does on a paused frame after timeDiffCompute: both fields are zeroed. */
  function Pause(c: Clock): (r: Clock)
    ensures r == Start
  {
    Clock(0.0, 0.0)
  }

  /** Resuming after a pause: the first frame measures no time at all, and the frames after
      it measure only the time since the resume, so the pause never shows up as a jump. */
  lemma {:induction false} ResumeWithoutJump(c: Clock, nows: seq<real>)
    requires |nows| >= 1
    requires forall k :: 0 <= k < |nows| ==> nows[k] != 0.0
    ensures Deltas(Pause(c), nows)[0] == 0.0
    ensures Sum(Deltas(Pause(c), nows)) == nows[|nows| - 1] - nows[0]
  {
    var first := Compute(Pause(c), nows[0]);
    assert first == Clock(nows[0], 0.0);
    DeltasTelescope(first, nows[1..]);
    if |nows| > 1 {
      assert nows[1..][|nows| - 2] == nows[|nows| - 1];
    }
  }
}

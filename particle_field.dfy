// The particle field of demo/particle.ts: one Particle per opaque pixel, each given a
// staggered delay by the ParticleManager constructor, then faded and jittered by animate
// inside its window of 2000 ms and torn down after it. Math.random() and performance.now()
// are passed in; the three.js scene is the ghost field inScene of each particle and every
// removal-and-dispose is counted in the ghost field teardowns.

module ParticleField {

  import opened ParticleImage
  import opened FrameClock

  /** The duration field every Particle starts with, in milliseconds. */
  const Duration: real := 2000.0

  /** The three Math.random() results one animate call consumes, in the order it asks for
      them: the x step, the coin for the direction of y, the y step. */
  datatype Draw = Draw(dx: real, coin: real, dy: real)

  predicate ValidDraw(r: Draw) {
    0.0 <= r.dx < 1.0 && 0.0 <= r.coin < 1.0 && 0.0 <= r.dy < 1.0
  }

  /** The delay of point j of left column i, with r = Math.random(). */
  function LeftDelay(i: nat, j: nat, r: real): real {
    i as real * 30.0 + j as real * r * 6.0 + 400.0
  }

  /** The delay of point j of right column i, with r = Math.random(). */
  function RightDelay(i: nat, j: nat, r: real): real {
    i as real * 20.0 + j as real * r * 6.0
  }

  lemma JitterBelow(j: nat, r: real)
    requires 0.0 <= r < 1.0
    ensures 0.0 <= j as real * r * 6.0
    ensures j > 0 ==> j as real * r * 6.0 < j as real * 6.0
    ensures j == 0 ==> j as real * r * 6.0 == 0.0
  {
  }

  /** Left columns start 400 ms late and 30 ms apart; the points of a column spread over less
      than 6 ms per point, the first point exactly on the column's time. */
  lemma LeftDelayBounds(i: nat, j: nat, r: real)
    requires 0.0 <= r < 1.0
    ensures var base := i as real * 30.0 + 400.0;
            && base <= LeftDelay(i, j, r)
            && (j > 0 ==> LeftDelay(i, j, r) < base + j as real * 6.0)
            && (j == 0 ==> LeftDelay(i, j, r) == base)
  {
    JitterBelow(j, r);
  }

  /** Right columns start at once and 20 ms apart, with the same spread within a column. */
  lemma RightDelayBounds(i: nat, j: nat, r: real)
    requires 0.0 <= r < 1.0
    ensures var base := i as real * 20.0;
            && base <= RightDelay(i, j, r)
            && (j > 0 ==> RightDelay(i, j, r) < base + j as real * 6.0)
            && (j == 0 ==> RightDelay(i, j, r) == base)
  {
    JitterBelow(j, r);
  }

  /** The fields animate changes: showTime, the material's opacity and the position offset
      of the Points object, with the ghost record of the scene and of the teardowns. */
  datatype PointState = PointState(showTime: real, opacity: real, px: real, py: real,
                                   inScene: bool, teardowns: nat)

  /** A new particle: no time shown, three.js's default opacity 1, no offset, in the scene. */
  const Fresh := PointState(0.0, 1.0, 0.0, 0.0, true, 0)

  predicate InWindow(delay: real, showTime: real) {
    showTime >= delay && showTime <= delay + Duration
  }

  /** animate(particle) for a particle with the given delay and fade rate, timeDiff after the
      previous frame. */
  function Animated(delay: real, sOpacity: real, st: PointState, timeDiff: real, r: Draw)
    : (n: PointState)
    ensures n.showTime == st.showTime + timeDiff
    ensures n.teardowns == st.teardowns + (if n.showTime > delay + Duration then 1 else 0)
    ensures n.inScene == (st.inScene && n.showTime <= delay + Duration)
  {
    var t := st.showTime + timeDiff;
    if InWindow(delay, t) then
      st.(showTime := t,
          opacity := st.opacity - sOpacity * timeDiff,
          px := st.px + r.dx * timeDiff / 4.0,
          py := if r.coin < 0.5 then st.py - r.dy * timeDiff / 6.0 else st.py + r.dy * timeDiff / 6.0)
    else if t > delay + Duration then
      st.(showTime := t, inScene := false, teardowns := st.teardowns + 1)
    else
      st.(showTime := t)
  }

  /** Every call adds the frame's time to showTime; before the window nothing else changes. */
  lemma AnimateAges(delay: real, sOpacity: real, st: PointState, timeDiff: real, r: Draw)
    ensures var n := Animated(delay, sOpacity, st, timeDiff, r);
            && n.showTime == st.showTime + timeDiff
            && (n.showTime < delay ==> n == st.(showTime := n.showTime))
  {
  }

  lemma StepBelow(r: real, t: real, k: real)
    requires 0.0 <= r < 1.0 && t > 0.0 && k > 0.0
    ensures 0.0 <= r * t / k < t / k
  {
    var a := r * t;
    assert 0.0 <= a < t;
    assert t / k - a / k == (t - a) / k;
  }

  /** Inside the window the opacity falls by exactly sOpacity per millisecond, x moves right
      by less than a quarter of the frame's time and y moves by less than a sixth of it. */
  lemma AnimateInWindow(delay: real, sOpacity: real, st: PointState, timeDiff: real, r: Draw)
    requires ValidDraw(r) && timeDiff > 0.0
    requires InWindow(delay, st.showTime + timeDiff)
    ensures var n := Animated(delay, sOpacity, st, timeDiff, r);
            && n.opacity == st.opacity - sOpacity * timeDiff
            && 0.0 <= n.px - st.px < timeDiff / 4.0
            && -(timeDiff / 6.0) < n.py - st.py < timeDiff / 6.0
            && n.inScene == st.inScene && n.teardowns == st.teardowns
  {
    StepBelow(r.dx, timeDiff, 4.0);
    StepBelow(r.dy, timeDiff, 6.0);
  }

  /** After the window a call changes no opacity and no position, and tears the point down
      again, whether or not it was torn down before. */
  lemma AnimateAfterWindow(delay: real, sOpacity: real, st: PointState, timeDiff: real, r: Draw)
    requires st.showTime + timeDiff > delay + Duration
    ensures var n := Animated(delay, sOpacity, st, timeDiff, r);
            && n.opacity == st.opacity && n.px == st.px && n.py == st.py
            && !n.inScene && n.teardowns == st.teardowns + 1
  {
  }

  /** One animate call per frame, with the frames' time deltas and random draws. */
  function AnimateAll(delay: real, sOpacity: real, st: PointState, diffs: seq<real>,
                      draws: seq<Draw>): PointState
    requires |diffs| == |draws|
    decreases |diffs|
  {
    if diffs == [] then st
    else AnimateAll(delay, sOpacity, Animated(delay, sOpacity, st, diffs[0], draws[0]),
                    diffs[1..], draws[1..])
  }

  /** Once past its window (and with time never running backwards) a point is frozen: its
      opacity and position never change again, while the teardown runs on every frame. */
  lemma {:induction false} FrozenAfterWindow(delay: real, sOpacity: real, st: PointState,
                                             diffs: seq<real>, draws: seq<Draw>)
    requires |diffs| == |draws|
    requires st.showTime > delay + Duration
    requires forall k :: 0 <= k < |diffs| ==> diffs[k] >= 0.0
    ensures var n := AnimateAll(delay, sOpacity, st, diffs, draws);
            && n.opacity == st.opacity && n.px == st.px && n.py == st.py
            && n.teardowns == st.teardowns + |diffs|
            && (diffs != [] ==> !n.inScene)
    decreases |diffs|
  {
    if diffs != [] {
      var next := Animated(delay, sOpacity, st, diffs[0], draws[0]);
      AnimateAfterWindow(delay, sOpacity, st, diffs[0], draws[0]);
      FrozenAfterWindow(delay, sOpacity, next, diffs[1..], draws[1..]);
    }
  }

  function Total(diffs: seq<real>): real
    decreases |diffs|
  {
    if diffs == [] then 0.0 else diffs[0] + Total(diffs[1..])
  }

  /** Every frame of a run lands inside the window. */
  predicate StaysInWindow(delay: real, showTime: real, diffs: seq<real>)
    decreases |diffs|
  {
    diffs != [] ==>
      InWindow(delay, showTime + diffs[0]) && StaysInWindow(delay, showTime + diffs[0], diffs[1..])
  }

  lemma Fade(o: real, s: real, a: real, b: real, total: real)
    requires total == a + b
    ensures (o - s * a) - s * b == o - s * total
  {
  }

  /** Inside the window the fade is linear: over a run the opacity falls by sOpacity times the
      time that passed. */
  lemma {:induction false} FadeIsLinear(delay: real, sOpacity: real, st: PointState,
                                        diffs: seq<real>, draws: seq<Draw>)
    requires |diffs| == |draws|
    requires StaysInWindow(delay, st.showTime, diffs)
    ensures AnimateAll(delay, sOpacity, st, diffs, draws).opacity
            == st.opacity - sOpacity * Total(diffs)
    decreases |diffs|
  {
    if diffs != [] {
      var next := Animated(delay, sOpacity, st, diffs[0], draws[0]);
      assert next.opacity == st.opacity - sOpacity * diffs[0];
      FadeIsLinear(delay, sOpacity, next, diffs[1..], draws[1..]);
      Fade(st.opacity, sOpacity, diffs[0], Total(diffs[1..]), Total(diffs));
    }
  }

  /** With sOpacity = opacity / duration, a run through the whole window takes away exactly
      the pixel's opacity from the material's. */
  lemma WholeWindowFadesByPixelOpacity(delay: real, pixelOpacity: real, st: PointState,
                                       diffs: seq<real>, draws: seq<Draw>)
    requires |diffs| == |draws|
    requires StaysInWindow(delay, st.showTime, diffs) && Total(diffs) == Duration
    ensures AnimateAll(delay, pixelOpacity / Duration, st, diffs, draws).opacity
            == st.opacity - pixelOpacity
  {
    FadeIsLinear(delay, pixelOpacity / Duration, st, diffs, draws);
  }

  // ---------------------------------------------------------------------------------------
  // The objects

  class Particle {
    const duration: real := Duration
    const sOpacity: real
    const particleData: ParticleDatum
    const delay: real
    const vertexX: real       // the geometry's one vertex
    const vertexY: real
    var showTime: real
    var opacity: real         // particleMaterial.opacity
    var px: real              // particle.position
    var py: real
    ghost var inScene: bool
    ghost var teardowns: nat
    ghost const place: Slot   // which list, column and position of the manager hold it

    ghost function State(): PointState
      reads this
    {
      PointState(showTime, opacity, px, py, inScene, teardowns)
    }

    constructor(d: ParticleDatum, delay: real, ghost place: Slot)
      ensures particleData == d && this.delay == delay && this.place == place
      ensures sOpacity * Duration == d.opacity
      ensures vertexX == d.x as real - 64.0 && vertexY == -(d.y as real) + 64.0
      ensures State() == Fresh
    {
      particleData := d;
      this.delay := delay;
      this.place := place;
      vertexX, vertexY := d.x as real - 64.0, -(d.y as real) + 64.0;
      showTime, opacity, px, py := 0.0, 1.0, 0.0, 0.0;
      inScene, teardowns := true, 0;
      sOpacity := d.opacity / 2000.0;
    }
  }

  /** Where each particle sits: left or right list, column, position in the column. */
  datatype Slot = Slot(left: bool, i: int, j: int)

  class ParticleManager {
    var particleOfLeft: seq<seq<Particle>>
    var particleOfRight: seq<seq<Particle>>
    var prevTime: real        // 0 stands for "not set"
    var timeDiff: real
    var paused: bool

    /** Every particle knows its own slot, so no particle is animated twice in a frame. */
    ghost predicate Valid()
      reads this
    {
      && (forall i, j :: 0 <= i < |particleOfLeft| && 0 <= j < |particleOfLeft[i]| ==>
            particleOfLeft[i][j].place == Slot(true, i, j))
      && (forall i, j :: 0 <= i < |particleOfRight| && 0 <= j < |particleOfRight[i]| ==>
            particleOfRight[i][j].place == Slot(false, i, j))
    }

    ghost function Particles(list: seq<seq<Particle>>): set<Particle> {
      set i, j | 0 <= i < |list| && 0 <= j < |list[i]| :: list[i][j]
    }

    function Clock(): FrameClock.Clock
      reads this
    {
      FrameClock.Clock(prevTime, timeDiff)
    }

    /** The constructor after calculate: one particle per listed pixel, with the delays of
        the two halves; rl and rr hold the Math.random() result for each point. */
    constructor(left: seq<seq<ParticleDatum>>, right: seq<seq<ParticleDatum>>,
                rl: seq<seq<real>>, rr: seq<seq<real>>)
      requires SameShape(left, rl) && SameShape(right, rr)
      ensures Valid() && Clock() == Start && !paused
      ensures |particleOfLeft| == |left| && |particleOfRight| == |right|
      ensures forall i :: 0 <= i < |left| ==>
                Placed(particleOfLeft[i], left[i], rl[i], i, true)
      ensures forall i :: 0 <= i < |right| ==>
                Placed(particleOfRight[i], right[i], rr[i], i, false)
    {
      var lefts: seq<seq<Particle>> := seq(|left|, _ => []);
      var i := |left| - 1;
      while i > -1
        invariant -1 <= i < |left| && |lefts| == |left|
        invariant forall k :: 0 <= k <= i ==> lefts[k] == []
        invariant forall k :: i < k < |left| ==> Placed(lefts[k], left[k], rl[k], k, true)
        decreases i
      {
        var column := NewColumn(left[i], rl[i], i, true);
        lefts := lefts[i := column];
        i := i - 1;
      }
      var rights: seq<seq<Particle>> := [];
      for i := 0 to |right|
        invariant |rights| == i
        invariant forall k :: 0 <= k < |left| ==> Placed(lefts[k], left[k], rl[k], k, true)
        invariant forall k :: 0 <= k < i ==> Placed(rights[k], right[k], rr[k], k, false)
      {
        var column := NewColumn(right[i], rr[i], i, false);
        rights := rights + [column];
      }
      particleOfLeft, particleOfRight := lefts, rights;
      prevTime, timeDiff, paused := 0.0, 0.0, false;
    }

    /** The inner loop of the constructor: a new particle for every point of column i. */
    static method NewColumn(data: seq<ParticleDatum>, rs: seq<real>, i: nat, left: bool)
      returns (column: seq<Particle>)
      requires |rs| == |data|
      ensures Placed(column, data, rs, i, left)
      ensures forall j :: 0 <= j < |column| ==> fresh(column[j])
      ensures forall j, j' :: 0 <= j < j' < |column| ==> column[j] != column[j']
    {
      column := [];
      for j := 0 to |data|
        invariant Placed(column, data[..j], rs[..j], i, left)
        invariant forall j' :: 0 <= j' < j ==> fresh(column[j'])
        invariant forall j1, j2 :: 0 <= j1 < j2 < j ==> column[j1] != column[j2]
      {
        var p := new Particle(data[j], Delay(left, i, j, rs[j]), Slot(left, i, j));
        column := column + [p];
      }
      assert data[..|data|] == data && rs[..|rs|] == rs;
    }

    /** timeDiffCompute, with performance.now() passed in as now. */
    method TimeDiffCompute(now: real)
      modifies this
      ensures Clock() == Compute(old(Clock()), now)
      ensures particleOfLeft == old(particleOfLeft) && particleOfRight == old(particleOfRight)
      ensures paused == old(paused)
    {
      if prevTime != 0.0 {
        var currentTime := now;
        timeDiff := currentTime - prevTime;
        prevTime := currentTime;
      } else {
        prevTime := now;
      }
    }

    method SetPaused(p: bool)
      modifies this
      ensures paused == p && Clock() == old(Clock())
      ensures particleOfLeft == old(particleOfLeft) && particleOfRight == old(particleOfRight)
    {
      paused := p;
    }

    /** animate(particle), with the three Math.random() results in r. */
    method Animate(particle: Particle, r: Draw)
      modifies particle
      ensures particle.State()
              == Animated(particle.delay, particle.sOpacity, old(particle.State()), timeDiff, r)
    {
      particle.showTime := particle.showTime + timeDiff;
      if particle.showTime >= particle.delay
         && particle.showTime <= particle.delay + particle.duration
      {
        var opacityRate := particle.sOpacity * timeDiff;
        particle.opacity := particle.opacity - opacityRate;
        particle.px := particle.px + r.dx * timeDiff / 4.0;
        particle.py := if r.coin < 0.5 then particle.py - r.dy * timeDiff / 6.0
                       else particle.py + r.dy * timeDiff / 6.0;
      } else if particle.showTime > particle.delay + particle.duration {
        particle.inScene := false;
        particle.teardowns := particle.teardowns + 1;
      }
    }

    /** particleRender(list): animate every particle of every column, in order. */
    method ParticleRender(list: seq<seq<Particle>>, draws: seq<seq<Draw>>, ghost left: bool)
      requires Valid() && list == (if left then particleOfLeft else particleOfRight)
      requires SameShape(list, draws)
      modifies Particles(list)
      ensures forall i, j :: 0 <= i < |list| && 0 <= j < |list[i]| ==>
                var p := list[i][j];
                p.State() == Animated(p.delay, p.sOpacity, old(p.State()), timeDiff, draws[i][j])
    {
      for i := 0 to |list|
        invariant forall k, j :: 0 <= k < i && 0 <= j < |list[k]| ==>
                    var p := list[k][j];
                    p.State() == Animated(p.delay, p.sOpacity, old(p.State()), timeDiff, draws[k][j])
        invariant forall k, j :: i <= k < |list| && 0 <= j < |list[k]| ==>
                    list[k][j].State() == old(list[k][j].State())
      {
        ColumnRender(list[i], draws[i], left, i);
      }
    }

    /** The inner loop of particleRender: animate the particles of one column, in order. */
    method ColumnRender(particleList: seq<Particle>, draws: seq<Draw>, ghost left: bool,
                        ghost i: int)
      requires |particleList| == |draws|
      requires forall j :: 0 <= j < |particleList| ==> particleList[j].place == Slot(left, i, j)
      modifies set p | p in particleList
      ensures forall j :: 0 <= j < |particleList| ==>
                var p := particleList[j];
                p.State() == Animated(p.delay, p.sOpacity, old(p.State()), timeDiff, draws[j])
    {
      for j := 0 to |particleList|
        invariant forall j' :: 0 <= j' < j ==>
                    var p := particleList[j'];
                    p.State() == Animated(p.delay, p.sOpacity, old(p.State()), timeDiff, draws[j'])
        invariant forall j' :: j <= j' < |particleList| ==>
                    particleList[j'].State() == old(particleList[j'].State())
      {
        Animate(particleList[j], draws[j]);
      }
    }

    /** render, with performance.now() and the random draws for the right and the left list:
        returns whether another frame is requested, which as written is while paused. */
    method Render(now: real, drawsRight: seq<seq<Draw>>, drawsLeft: seq<seq<Draw>>)
      returns (again: bool)
      requires Valid()
      requires SameShape(particleOfRight, drawsRight) && SameShape(particleOfLeft, drawsLeft)
      modifies this, Particles(particleOfRight), Particles(particleOfLeft)
      ensures again == paused == old(paused)
      ensures Clock() == Compute(old(Clock()), now)
      ensures particleOfLeft == old(particleOfLeft) && particleOfRight == old(particleOfRight)
      ensures forall i, j :: 0 <= i < |particleOfRight| && 0 <= j < |particleOfRight[i]| ==>
                var p := particleOfRight[i][j];
                p.State() == Animated(p.delay, p.sOpacity, old(p.State()), timeDiff, drawsRight[i][j])
      ensures forall i, j :: 0 <= i < |particleOfLeft| && 0 <= j < |particleOfLeft[i]| ==>
                var p := particleOfLeft[i][j];
                p.State() == Animated(p.delay, p.sOpacity, old(p.State()), timeDiff, drawsLeft[i][j])
    {
      TimeDiffCompute(now);
      ParticleRender(particleOfRight, drawsRight, false);
      ParticleRender(particleOfLeft, drawsLeft, true);
      again := paused;
    }
  }

  function Delay(left: bool, i: nat, j: nat, r: real): real {
    if left then LeftDelay(i, j, r) else RightDelay(i, j, r)
  }

  /** column holds a new particle for each point of column i of one half: its pixel, its
      delay, and the state of a particle no frame has touched yet. */
  ghost predicate Placed(column: seq<Particle>, data: seq<ParticleDatum>, rs: seq<real>,
                         i: nat, left: bool)
    reads set p | p in column
  {
    && |column| == |data| == |rs|
    && forall j :: 0 <= j < |column| ==>
         && column[j].particleData == data[j]
         && column[j].delay == Delay(left, i, j, rs[j])
         && column[j].State() == Fresh
         && column[j].place == Slot(left, i, j)
  }

  /** Two lists of lists with the same lengths at both levels. */
  predicate SameShape<A, B>(a: seq<seq<A>>, b: seq<seq<B>>) {
    |a| == |b| && forall i :: 0 <= i < |a| ==> |a[i]| == |b[i]|
  }
}

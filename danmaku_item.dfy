// What one frame and one seek do to one comment of the danmaku scheduler in demo/main.ts:
// the rates the ThreeRender constructor derives, init, the per-item body of
// ThreeManager.danmakuRender and of ThreeManager.reset. Times in milliseconds are named
// so (timeDiff, totalShowTime); every other time is in seconds, as in the source.

module DanmakuItem {

  import opened Options
  import opened Records

  /** The manager's canvas size (renderCanvasWidth, renderCanvasHeight). */
  datatype Canvas = Canvas(width: real, height: real)

  /** The rates the ThreeRender constructor derives from a record. */
  datatype Rates = Rates(
    duration: real,       // seconds
    animateTime: real,    // seconds
    delayTime: real,      // seconds
    opacitySpeed: real,   // opacity per second
    xSpeed: real,         // pixels per second, positive when moving left
    ySpeed: real)         // pixels per second, positive when moving up

  /** The records whose rates are finite numbers: the scheduler divides by the duration and
      by the motion time, and reads the motion time and delay as numbers. */
  predicate Schedulable(d: DanmakuData) {
    && d.content.duration != 0.0
    && d.content.aTime.Some? && d.content.aTime.value != 0
    && d.content.delay.Some?
  }

  /** The constructor's rates: each speed covers its whole distance in its whole time. */
  function RatesOf(d: DanmakuData): (r: Rates)
    requires Schedulable(d)
    ensures r.duration == d.content.duration
    ensures r.animateTime * 1000.0 == d.content.aTime.value as real
    ensures r.delayTime * 1000.0 == d.content.delay.value as real
    ensures r.opacitySpeed * r.duration == d.content.startOpacity - d.content.endOpacity
    ensures r.xSpeed * r.animateTime == d.content.startX - d.content.endX
    ensures r.ySpeed * r.animateTime == d.content.startY - d.content.endY
  {
    var c := d.content;
    var animateTime := c.aTime.value as real / 1000.0;
    Rates(
      duration := c.duration,
      animateTime := animateTime,
      delayTime := c.delay.value as real / 1000.0,
      opacitySpeed := (c.startOpacity - c.endOpacity) / c.duration,
      xSpeed := (c.startX - c.endX) / animateTime,
      ySpeed := (c.startY - c.endY) / animateTime)
  }

  /** The outline colour: grey behind black text, black behind everything else, so the
      outline never has the text's own colour. */
  function LineColor(color: string): (r: string)
    ensures color == "#000000" ==> r == "#686868"
    ensures color != "#000000" ==> r == "#000000"
    ensures |r| == 7 && r != color
  {
    if color == "#000000" then "#686868" else "#000000"
  }

  /** The fields of a ThreeRender that the scheduler changes, with inScene standing for
      "groupParent is a child of the manager's scene". */
  datatype ItemState = ItemState(
    isInited: bool,
    renderFlag: bool,
    totalShowTime: real,  // milliseconds
    x: real,
    y: real,
    opacity: real,        // the text and the line material's opacity, always equal
    inScene: bool)

  /** A freshly constructed item: x and y are still undefined (read as 0 here) and the
      materials have three.js's default opacity 1. */
  const Constructed := ItemState(false, false, 0.0, 0.0, 0.0, 1.0, false)

  /** Where init places an item, and where the motion ends, in canvas coordinates. */
  function StartX(cv: Canvas, d: DanmakuData): real { -cv.width / 2.0 + d.content.startX }
  function StartY(cv: Canvas, d: DanmakuData): real { cv.height / 2.0 - d.content.startY }
  function EndX(cv: Canvas, d: DanmakuData): real { -cv.width / 2.0 + d.content.endX }
  function EndY(cv: Canvas, d: DanmakuData): real { cv.height / 2.0 - d.content.endY }

  /** ThreeRender.init: start opacity, start position, added to the scene. */
  function Init(cv: Canvas, d: DanmakuData, st: ItemState): (r: ItemState)
    ensures r.opacity == d.content.startOpacity && r.inScene
    ensures r.x == StartX(cv, d) && r.y == StartY(cv, d)
    ensures r.isInited == st.isInited && r.renderFlag == st.renderFlag
    ensures r.totalShowTime == st.totalShowTime
  {
    st.(opacity := d.content.startOpacity, x := StartX(cv, d), y := StartY(cv, d), inScene := true)
  }

  /** The frame's gate: an item is processed while it is not finished and the video has
      reached its activation time. */
  predicate Due(d: DanmakuData, st: ItemState, currentTime: real) {
    !st.renderFlag && currentTime >= d.playTime
  }

  /** The window, in seconds of show time, in which the item moves. */
  predicate InMotionWindow(rates: Rates, totalShowTime: real) {
    && totalShowTime / 1000.0 >= rates.delayTime
    && totalShowTime / 1000.0 <= rates.delayTime + rates.animateTime
  }

  /** The "snap to end" test as written: the left side in seconds, the right side compares
      milliseconds with the duration in seconds. */
  predicate Snaps(rates: Rates, totalShowTime: real) {
    totalShowTime / 1000.0 >= rates.delayTime + rates.animateTime && totalShowTime <= rates.duration
  }

  predicate Expired(rates: Rates, totalShowTime: real) {
    totalShowTime / 1000.0 >= rates.duration
  }

  // The statements of the danmakuRender loop body, one function each, in source order.

  /** Initialise the item on its first processed frame. */
  function Activate(cv: Canvas, d: DanmakuData, st: ItemState): ItemState {
    if st.isInited then st else Init(cv, d, st).(isInited := true)
  }

  /** A quantity changed at rate k per second over timeDiff milliseconds. */
  function Advance(v: real, k: real, timeDiff: real): real {
    v + k * (timeDiff / 1000.0)
  }

  /** Fade by opacitySpeed per second and add the frame's time to the show time. */
  function Age(rates: Rates, st: ItemState, timeDiff: real): ItemState {
    st.(opacity := Advance(st.opacity, -rates.opacitySpeed, timeDiff),
        totalShowTime := st.totalShowTime + timeDiff)
  }

  /** Inside the motion window, move by the speeds times the frame's time. */
  function MoveInWindow(rates: Rates, st: ItemState, timeDiff: real): ItemState {
    if InMotionWindow(rates, st.totalShowTime)
    then st.(x := Advance(st.x, -rates.xSpeed, timeDiff), y := Advance(st.y, rates.ySpeed, timeDiff))
    else st
  }

  function SnapToEnd(cv: Canvas, d: DanmakuData, rates: Rates, st: ItemState): ItemState {
    if Snaps(rates, st.totalShowTime) then st.(x := EndX(cv, d), y := EndY(cv, d)) else st
  }

  /** Once the duration is over: finished, and removed from the scene. */
  function FinishIfExpired(rates: Rates, st: ItemState): ItemState {
    if Expired(rates, st.totalShowTime) then st.(renderFlag := true, inScene := false) else st
  }

  /** One pass of the danmakuRender loop body over one item with the given rates, timeDiff
      milliseconds after the previous frame. */
  function Tick(cv: Canvas, d: DanmakuData, rates: Rates, st: ItemState, currentTime: real,
                timeDiff: real): (r: ItemState)
    ensures !Due(d, st, currentTime) ==> r == st
    ensures Due(d, st, currentTime) ==> r.isInited && r.totalShowTime == st.totalShowTime + timeDiff
    ensures Due(d, st, currentTime) ==> (r.renderFlag <==> Expired(rates, r.totalShowTime))
  {
    if !Due(d, st, currentTime) then st
    else
      var aged := Age(rates, Activate(cv, d, st), timeDiff);
      FinishIfExpired(rates, SnapToEnd(cv, d, rates, MoveInWindow(rates, aged, timeDiff)))
  }

  /** Outside the gate a frame changes nothing: a finished item, or one whose time has not
      come, stays exactly as it is. */
  lemma TickGated(cv: Canvas, d: DanmakuData, rates: Rates, st: ItemState, currentTime: real,
                  timeDiff: real)
    requires !Due(d, st, currentTime)
    ensures Tick(cv, d, rates, st, currentTime, timeDiff) == st
  {
  }

  /** Inside the gate the item is initialised (once, on its first frame), fades by
      opacitySpeed per second and ages by exactly timeDiff; it is finished, and taken out of
      the scene, exactly when its duration is over. */
  lemma TickProgress(cv: Canvas, d: DanmakuData, rates: Rates, st: ItemState,
                     currentTime: real, timeDiff: real)
    requires Due(d, st, currentTime)
    ensures var r := Tick(cv, d, rates, st, currentTime, timeDiff);
            && r.isInited
            && r.totalShowTime == st.totalShowTime + timeDiff
            && r.opacity == (if st.isInited then st.opacity else d.content.startOpacity)
                            - rates.opacitySpeed * (timeDiff / 1000.0)
            && (r.renderFlag <==> Expired(rates, r.totalShowTime))
            && (r.inScene <==> !r.renderFlag && (st.inScene || !st.isInited))
  {
  }

  /** Inside the gate the position moves only inside the motion window, by the speeds times
      the frame's time, or on the snap, to the end point; otherwise it stays where the item
      was (or where init put it). */
  lemma TickMoves(cv: Canvas, d: DanmakuData, rates: Rates, st: ItemState, currentTime: real,
                  timeDiff: real)
    requires Due(d, st, currentTime)
    ensures var r := Tick(cv, d, rates, st, currentTime, timeDiff);
            var x0 := if st.isInited then st.x else StartX(cv, d);
            var y0 := if st.isInited then st.y else StartY(cv, d);
            var step := timeDiff / 1000.0;
            && (Snaps(rates, r.totalShowTime) ==> r.x == EndX(cv, d) && r.y == EndY(cv, d))
            && (!Snaps(rates, r.totalShowTime) && InMotionWindow(rates, r.totalShowTime) ==>
                  r.x == x0 - rates.xSpeed * step && r.y == y0 + rates.ySpeed * step)
            && (!Snaps(rates, r.totalShowTime) && !InMotionWindow(rates, r.totalShowTime) ==>
                  r.x == x0 && r.y == y0)
  {
  }

  /** One frame as the item sees it: the video's current time and the clock's timeDiff. */
  datatype Frame = Frame(currentTime: real, timeDiff: real)

  /** The item after a run of frames. */
  function Run(cv: Canvas, d: DanmakuData, rates: Rates, st: ItemState, frames: seq<Frame>)
    : ItemState
    decreases |frames|
  {
    if frames == [] then st
    else Run(cv, d, rates, Tick(cv, d, rates, st, frames[0].currentTime, frames[0].timeDiff),
             frames[1..])
  }

  function TotalTime(frames: seq<Frame>): real
    decreases |frames|
  {
    if frames == [] then 0.0 else frames[0].timeDiff + TotalTime(frames[1..])
  }

  /** Once finished, an item is left untouched by every later frame. */
  lemma {:induction false} FinishedStaysFinished(cv: Canvas, d: DanmakuData, rates: Rates,
                                                 st: ItemState, frames: seq<Frame>)
    requires st.renderFlag
    ensures Run(cv, d, rates, st, frames) == st
    decreases |frames|
  {
    if frames != [] {
      FinishedStaysFinished(cv, d, rates, st, frames[1..]);
    }
  }

  /** A run of frames that all fall inside the motion window of an initialised item, before
      its duration is over and without the snap. */
  predicate Glides(d: DanmakuData, rates: Rates, totalShowTime: real, frames: seq<Frame>)
    decreases |frames|
  {
    frames != [] ==>
      var t := totalShowTime + frames[0].timeDiff;
      && frames[0].currentTime >= d.playTime
      && InMotionWindow(rates, t) && !Snaps(rates, t) && !Expired(rates, t)
      && Glides(d, rates, t, frames[1..])
  }

  /** A quantity that changes by rate k per second over every frame of a run. */
  function Drift(v: real, k: real, frames: seq<Frame>): real
    decreases |frames|
  {
    if frames == [] then v else Drift(Advance(v, k, frames[0].timeDiff), k, frames[1..])
  }

  /** Drifting frame by frame is drifting over the whole time at once. */
  lemma {:induction false} DriftIsLinear(v: real, k: real, frames: seq<Frame>)
    ensures Drift(v, k, frames) == v + k * (TotalTime(frames) / 1000.0)
    decreases |frames|
  {
    if frames != [] {
      var step := frames[0].timeDiff / 1000.0;
      var rest := TotalTime(frames[1..]) / 1000.0;
      var w := Advance(v, k, frames[0].timeDiff);
      assert Drift(v, k, frames) == Drift(w, k, frames[1..]);
      assert TotalTime(frames) / 1000.0 == step + rest;
      DriftIsLinear(w, k, frames[1..]);
      assert w + k * rest == v + k * (step + rest);
    }
  }

  /** One gliding frame. */
  lemma GlideStep(cv: Canvas, d: DanmakuData, rates: Rates, st: ItemState, f: Frame)
    requires st.isInited && !st.renderFlag && f.currentTime >= d.playTime
    requires var t := st.totalShowTime + f.timeDiff;
             InMotionWindow(rates, t) && !Snaps(rates, t) && !Expired(rates, t)
    ensures var next := Tick(cv, d, rates, st, f.currentTime, f.timeDiff);
            && next.isInited && !next.renderFlag && next.inScene == st.inScene
            && next.totalShowTime == st.totalShowTime + f.timeDiff
            && next.x == Advance(st.x, -rates.xSpeed, f.timeDiff)
            && next.y == Advance(st.y, rates.ySpeed, f.timeDiff)
            && next.opacity == Advance(st.opacity, -rates.opacitySpeed, f.timeDiff)
  {
  }

  /** Over a gliding run the item stays initialised, unfinished and where it was in the scene,
      and its show time grows by exactly the time that passed. */
  lemma {:induction false} GlideKeepsTime(cv: Canvas, d: DanmakuData, rates: Rates, st: ItemState,
                                         frames: seq<Frame>)
    requires st.isInited && !st.renderFlag
    requires Glides(d, rates, st.totalShowTime, frames)
    ensures var r := Run(cv, d, rates, st, frames);
            && r.isInited && !r.renderFlag && r.inScene == st.inScene
            && r.totalShowTime == st.totalShowTime + TotalTime(frames)
    decreases |frames|
  {
    if frames != [] {
      var next := Tick(cv, d, rates, st, frames[0].currentTime, frames[0].timeDiff);
      GlideStep(cv, d, rates, st, frames[0]);
      assert Run(cv, d, rates, st, frames) == Run(cv, d, rates, next, frames[1..]);
      GlideKeepsTime(cv, d, rates, next, frames[1..]);
    }
  }

  /** Over a gliding run x drifts left by xSpeed per second, frame by frame. */
  lemma {:induction false} GlideMovesX(cv: Canvas, d: DanmakuData, rates: Rates, st: ItemState,
                                         frames: seq<Frame>)
    requires st.isInited && !st.renderFlag
    requires Glides(d, rates, st.totalShowTime, frames)
    ensures var r := Run(cv, d, rates, st, frames);
            r.x == Drift(st.x, -rates.xSpeed, frames)
    decreases |frames|
  {
    if frames != [] {
      var next := Tick(cv, d, rates, st, frames[0].currentTime, frames[0].timeDiff);
      GlideStep(cv, d, rates, st, frames[0]);
      assert Run(cv, d, rates, st, frames) == Run(cv, d, rates, next, frames[1..]);
      assert Drift(st.x, -rates.xSpeed, frames)
             == Drift(Advance(st.x, -rates.xSpeed, frames[0].timeDiff), -rates.xSpeed, frames[1..]);
      GlideMovesX(cv, d, rates, next, frames[1..]);
    }
  }

  /** Over a gliding run y drifts up by ySpeed per second, frame by frame. */
  lemma {:induction false} GlideMovesY(cv: Canvas, d: DanmakuData, rates: Rates, st: ItemState,
                                         frames: seq<Frame>)
    requires st.isInited && !st.renderFlag
    requires Glides(d, rates, st.totalShowTime, frames)
    ensures var r := Run(cv, d, rates, st, frames);
            r.y == Drift(st.y, rates.ySpeed, frames)
    decreases |frames|
  {
    if frames != [] {
      var next := Tick(cv, d, rates, st, frames[0].currentTime, frames[0].timeDiff);
      GlideStep(cv, d, rates, st, frames[0]);
      assert Run(cv, d, rates, st, frames) == Run(cv, d, rates, next, frames[1..]);
      assert Drift(st.y, rates.ySpeed, frames)
             == Drift(Advance(st.y, rates.ySpeed, frames[0].timeDiff), rates.ySpeed, frames[1..]);
      GlideMovesY(cv, d, rates, next, frames[1..]);
    }
  }

  /** Over a gliding run the opacity falls by opacitySpeed per second, frame by frame. */
  lemma {:induction false} GlideFades(cv: Canvas, d: DanmakuData, rates: Rates, st: ItemState,
                                         frames: seq<Frame>)
    requires st.isInited && !st.renderFlag
    requires Glides(d, rates, st.totalShowTime, frames)
    ensures var r := Run(cv, d, rates, st, frames);
            r.opacity == Drift(st.opacity, -rates.opacitySpeed, frames)
    decreases |frames|
  {
    if frames != [] {
      var next := Tick(cv, d, rates, st, frames[0].currentTime, frames[0].timeDiff);
      GlideStep(cv, d, rates, st, frames[0]);
      assert Run(cv, d, rates, st, frames) == Run(cv, d, rates, next, frames[1..]);
      assert Drift(st.opacity, -rates.opacitySpeed, frames)
             == Drift(Advance(st.opacity, -rates.opacitySpeed, frames[0].timeDiff), -rates.opacitySpeed, frames[1..]);
      GlideFades(cv, d, rates, next, frames[1..]);
    }
  }

  /** A run of frames, each reaching the item's activation time, none of which ends its
      duration. */
  predicate ShowsUnexpired(d: DanmakuData, rates: Rates, totalShowTime: real, frames: seq<Frame>)
    decreases |frames|
  {
    frames != [] ==>
      var t := totalShowTime + frames[0].timeDiff;
      && frames[0].currentTime >= d.playTime
      && !Expired(rates, t)
      && ShowsUnexpired(d, rates, t, frames[1..])
  }

  /** Whatever phase the item is in (its delay, its motion or after it), over a run that does
      not end its duration it stays unfinished, fades by opacitySpeed per second frame by
      frame from its opacity (or from the start opacity, if the run initialises it), and its
      show time grows by exactly the time that passed. */
  lemma {:induction false} ShownRunFades(cv: Canvas, d: DanmakuData, rates: Rates, st: ItemState,
                                         frames: seq<Frame>)
    requires !st.renderFlag
    requires ShowsUnexpired(d, rates, st.totalShowTime, frames)
    ensures var r := Run(cv, d, rates, st, frames);
            var base := if st.isInited || frames == [] then st.opacity else d.content.startOpacity;
            && !r.renderFlag && (frames != [] ==> r.isInited)
            && r.opacity == Drift(base, -rates.opacitySpeed, frames)
            && r.totalShowTime == st.totalShowTime + TotalTime(frames)
    decreases |frames|
  {
    if frames != [] {
      var f := frames[0];
      var next := Tick(cv, d, rates, st, f.currentTime, f.timeDiff);
      var base := if st.isInited then st.opacity else d.content.startOpacity;
      TickProgress(cv, d, rates, st, f.currentTime, f.timeDiff);
      assert next.opacity == Advance(base, -rates.opacitySpeed, f.timeDiff);
      assert Run(cv, d, rates, st, frames) == Run(cv, d, rates, next, frames[1..]);
      assert Drift(base, -rates.opacitySpeed, frames)
             == Drift(Advance(base, -rates.opacitySpeed, frames[0].timeDiff), -rates.opacitySpeed, frames[1..]);
      ShownRunFades(cv, d, rates, next, frames[1..]);
    }
  }

  /** Hence its opacity falls linearly with the time shown, in every phase. */
  lemma ShownRunIsLinear(cv: Canvas, d: DanmakuData, rates: Rates, st: ItemState,
                         frames: seq<Frame>)
    requires !st.renderFlag
    requires ShowsUnexpired(d, rates, st.totalShowTime, frames)
    ensures var r := Run(cv, d, rates, st, frames);
            var base := if st.isInited || frames == [] then st.opacity else d.content.startOpacity;
            && !r.renderFlag
            && r.opacity == base - rates.opacitySpeed * (TotalTime(frames) / 1000.0)
            && r.totalShowTime == st.totalShowTime + TotalTime(frames)
  {
    ShownRunFades(cv, d, rates, st, frames);
    var base := if st.isInited || frames == [] then st.opacity else d.content.startOpacity;
    DriftIsLinear(base, -rates.opacitySpeed, frames);
  }

  /** Inside the window the item moves and fades at constant speed: over any gliding run its
      position and opacity change by the speeds times the time that passed. */
  lemma GlideIsLinear(cv: Canvas, d: DanmakuData, rates: Rates, st: ItemState,
                      frames: seq<Frame>)
    requires st.isInited && !st.renderFlag
    requires Glides(d, rates, st.totalShowTime, frames)
    ensures var r := Run(cv, d, rates, st, frames);
            var secs := TotalTime(frames) / 1000.0;
            && r.isInited && !r.renderFlag && r.inScene == st.inScene
            && r.totalShowTime == st.totalShowTime + TotalTime(frames)
            && r.x == st.x - rates.xSpeed * secs
            && r.y == st.y + rates.ySpeed * secs
            && r.opacity == st.opacity - rates.opacitySpeed * secs
  {
    GlideKeepsTime(cv, d, rates, st, frames);
    GlideMovesX(cv, d, rates, st, frames);
    GlideMovesY(cv, d, rates, st, frames);
    GlideFades(cv, d, rates, st, frames);
    DriftIsLinear(st.x, -rates.xSpeed, frames);
    DriftIsLinear(st.y, rates.ySpeed, frames);
    DriftIsLinear(st.opacity, -rates.opacitySpeed, frames);
  }

  /** A full window of motion, started from init's position, carries the item exactly from
      its start point to its end point, for rates that cover each distance in the motion
      time (as RatesOf's do). */
  lemma GlideCoversWindow(cv: Canvas, d: DanmakuData, rates: Rates, st: ItemState,
                          frames: seq<Frame>)
    requires rates.xSpeed * rates.animateTime == d.content.startX - d.content.endX
    requires rates.ySpeed * rates.animateTime == d.content.startY - d.content.endY
    requires st.isInited && !st.renderFlag
    requires st.x == StartX(cv, d) && st.y == StartY(cv, d)
    requires Glides(d, rates, st.totalShowTime, frames)
    requires TotalTime(frames) == rates.animateTime * 1000.0
    ensures Run(cv, d, rates, st, frames).x == EndX(cv, d)
    ensures Run(cv, d, rates, st, frames).y == EndY(cv, d)
  {
    assert -rates.xSpeed * rates.animateTime == d.content.endX - d.content.startX;
    DriftCovers(st.x, -rates.xSpeed, frames, rates.animateTime, d.content.endX - d.content.startX);
    DriftCovers(st.y, rates.ySpeed, frames, rates.animateTime, d.content.startY - d.content.endY);
    GlideMovesX(cv, d, rates, st, frames);
    GlideMovesY(cv, d, rates, st, frames);
  }

  /** Drifting at rate k for t seconds covers k * t. */
  lemma DriftCovers(v: real, k: real, frames: seq<Frame>, t: real, dist: real)
    requires TotalTime(frames) == t * 1000.0 && k * t == dist
    ensures Drift(v, k, frames) == v + dist
  {
    DriftIsLinear(v, k, frames);
    assert TotalTime(frames) / 1000.0 == t;
  }

  /** A frame that comes right after a resume (timeDiff 0) neither fades nor ages an item
      that was already showing. */
  lemma ZeroDeltaHoldsStill(cv: Canvas, d: DanmakuData, rates: Rates, st: ItemState,
                            currentTime: real)
    requires st.isInited
    ensures var r := Tick(cv, d, rates, st, currentTime, 0.0);
            r.opacity == st.opacity && r.totalShowTime == st.totalShowTime
            && (!Snaps(rates, st.totalShowTime) ==> r.x == st.x && r.y == st.y)
  {
  }

  // ---------------------------------------------------------------------------------------
  // Seeking

  /** The three cases reset tells apart for a seek to currentTime. */
  predicate NotYet(d: DanmakuData, currentTime: real) {
    currentTime < d.playTime
  }

  predicate Active(d: DanmakuData, rates: Rates, currentTime: real) {
    currentTime >= d.playTime && currentTime <= d.playTime + rates.duration
  }

  /** How far into its motion reset puts an active item, as written: no lower bound, so a
      seek into the delay gives a negative amount. */
  function ResetMotionTime(rates: Rates, diffTime: real): (m: real)
    ensures m <= rates.animateTime
    ensures diffTime - rates.delayTime <= rates.animateTime ==> m == diffTime - rates.delayTime
  {
    if diffTime - rates.delayTime <= rates.animateTime then diffTime - rates.delayTime
    else rates.animateTime
  }

  /** The loop body of reset for one item, after the scene has been emptied (so inScene is
      false on entry for every item). */
  function ResetItem(cv: Canvas, d: DanmakuData, rates: Rates, st: ItemState, currentTime: real)
    : (r: ItemState)
    // not yet due: back to uninitialised, no show time, outside the scene
    ensures NotYet(d, currentTime) ==>
              && !r.isInited && !r.renderFlag && r.totalShowTime == 0.0 && !r.inScene
    // active: in the scene, initialised, aged and faded by exactly the time since playTime
    ensures Active(d, rates, currentTime) ==>
              var diff := currentTime - d.playTime;
              && r.isInited && !r.renderFlag && r.inScene
              && r.totalShowTime == diff * 1000.0
              && r.opacity == d.content.startOpacity - rates.opacitySpeed * diff
    // over: finished, with its whole duration shown, outside the scene; isInited untouched
    ensures !NotYet(d, currentTime) && !Active(d, rates, currentTime) ==>
              && r.renderFlag && !r.inScene && r.isInited == st.isInited
              && r.totalShowTime == rates.duration * 1000.0
  {
    var s0 := st.(renderFlag := false, totalShowTime := 0.0, inScene := false);
    if currentTime < d.playTime then
      s0.(isInited := false)
    else if currentTime >= d.playTime && currentTime <= d.playTime + rates.duration then
      var s1 := Init(cv, d, s0.(isInited := true));
      var diffTime := currentTime - d.playTime;
      var s2 := s1.(opacity := s1.opacity - rates.opacitySpeed * diffTime,
                    totalShowTime := diffTime * 1000.0);
      var animationTime := ResetMotionTime(rates, diffTime);
      s2.(x := s2.x - rates.xSpeed * animationTime, y := s2.y + rates.ySpeed * animationTime)
    else
      s0.(renderFlag := true, totalShowTime := rates.duration * 1000.0)
  }

  /** An active item seeked past the end of its motion sits exactly on its end point. */
  lemma ResetAfterMotionAtEnd(cv: Canvas, d: DanmakuData, st: ItemState, currentTime: real)
    requires Schedulable(d) && Active(d, RatesOf(d), currentTime)
    requires currentTime - d.playTime - RatesOf(d).delayTime > RatesOf(d).animateTime
    ensures ResetItem(cv, d, RatesOf(d), st, currentTime).x == EndX(cv, d)
    ensures ResetItem(cv, d, RatesOf(d), st, currentTime).y == EndY(cv, d)
  {
    var rates := RatesOf(d);
    assert ResetMotionTime(rates, currentTime - d.playTime) == rates.animateTime;
  }

  /** An active item seeked into the middle of its motion sits where gliding through the
      window from its start point would have put it. */
  lemma ResetDuringMotionOnPath(cv: Canvas, d: DanmakuData, rates: Rates, st: ItemState,
                                currentTime: real)
    requires Active(d, rates, currentTime)
    ensures var m := ResetMotionTime(rates, currentTime - d.playTime);
            && ResetItem(cv, d, rates, st, currentTime).x == StartX(cv, d) - rates.xSpeed * m
            && ResetItem(cv, d, rates, st, currentTime).y == StartY(cv, d) + rates.ySpeed * m
  {
  }

  /** As written, an active item seeked into its delay is moved backwards along its path:
      the motion time handed to it is negative. */
  lemma ResetDuringDelayMovesBackwards(cv: Canvas, d: DanmakuData, rates: Rates, st: ItemState,
                                       currentTime: real)
    requires Active(d, rates, currentTime)
    requires currentTime - d.playTime < rates.delayTime
    requires rates.xSpeed > 0.0
    ensures ResetItem(cv, d, rates, st, currentTime).x > StartX(cv, d)
  {
    var m := ResetMotionTime(rates, currentTime - d.playTime);
    assert m < 0.0;
    assert rates.xSpeed * m < 0.0;
  }

  /** For an active item the seek forgets everything about the item's past. */
  lemma ResetActiveForgetsHistory(cv: Canvas, d: DanmakuData, rates: Rates, st1: ItemState,
                                  st2: ItemState, currentTime: real)
    requires Active(d, rates, currentTime)
    ensures ResetItem(cv, d, rates, st1, currentTime) == ResetItem(cv, d, rates, st2, currentTime)
  {
  }

  /** Seeking to the same time twice is seeking once. */
  lemma ResetIdempotent(cv: Canvas, d: DanmakuData, rates: Rates, st: ItemState,
                        currentTime: real)
    ensures var once := ResetItem(cv, d, rates, st, currentTime);
            ResetItem(cv, d, rates, once, currentTime) == once
  {
  }

  /** As written, the "over" case keeps whatever isInited held: an item that was never shown
      stays uninitialised, one shown before stays initialised. */
  lemma ResetOverKeepsIsInited(cv: Canvas, d: DanmakuData, rates: Rates, currentTime: real)
    requires !NotYet(d, currentTime) && !Active(d, rates, currentTime)
    ensures !ResetItem(cv, d, rates, Constructed, currentTime).isInited
    ensures ResetItem(cv, d, rates, Constructed.(isInited := true), currentTime).isInited
  {
  }
}

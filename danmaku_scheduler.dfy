// The danmaku scheduler of demo/main.ts as objects: a ThreeRender per comment, whose fields
// the frames and seeks update in place, and the ThreeManager that owns them, keeps the
// frame clock and runs the per-frame and seek loops. Each method is proved against the
// per-item functions of DanmakuItem and the clock of FrameClock, whose properties are proved
// there. The three.js scene is the ghost field inScene of each item: groupParent is a child
// of the scene exactly when inScene holds.

module DanmakuScheduler {

  import opened Options
  import opened Records
  import opened DanmakuItem
  import opened FrameClock

  class ThreeRender {
    const data: DanmakuData
    const rates: Rates        // duration, animateTime, delayTime and the three speeds
    const lineColor: string
    var isInited: bool
    var renderFlag: bool
    var totalShowTime: real
    var x: real
    var y: real
    var opacity: real         // textMaterial.opacity and lineMaterial.opacity, always equal
    ghost var inScene: bool

    /** The fields the scheduler changes, as one value. */
    ghost function State(): ItemState
      reads this
    {
      ItemState(isInited, renderFlag, totalShowTime, x, y, opacity, inScene)
    }

    constructor(d: DanmakuData)
      requires Schedulable(d)
      ensures data == d && rates == RatesOf(d) && lineColor == LineColor(d.color)
      ensures State() == Constructed
    {
      data := d;
      rates := RatesOf(d);
      lineColor := LineColor(d.color);
      isInited, renderFlag, totalShowTime := false, false, 0.0;
      x, y, opacity := 0.0, 0.0, 1.0;
      inScene := false;
    }

    /** init: start opacity, start position, groupParent added to the scene. */
    method Init(cv: Canvas)
      modifies this
      ensures State() == DanmakuItem.Init(cv, data, old(State()))
    {
      opacity := data.content.startOpacity;
      x := -cv.width / 2.0 + data.content.startX;
      y := cv.height / 2.0 - data.content.startY;
      inScene := true;
    }

    /** The body of the danmakuRender loop for this item. */
    method Frame(cv: Canvas, currentTime: real, timeDiff: real)
      modifies this
      ensures State() == Tick(cv, data, rates, old(State()), currentTime, timeDiff)
    {
      if !renderFlag && currentTime >= data.playTime {
        if !isInited {
          Init(cv);
          isInited := true;
        }
        ghost var activated := State();
        var opacityRate := rates.opacitySpeed * (timeDiff / 1000.0);
        opacity := opacity - opacityRate;
        totalShowTime := totalShowTime + timeDiff;
        assert State() == Age(rates, activated, timeDiff);
        ghost var aged := State();
        if totalShowTime / 1000.0 >= rates.delayTime
           && totalShowTime / 1000.0 <= rates.delayTime + rates.animateTime
        {
          var xRate := rates.xSpeed * (timeDiff / 1000.0);
          var yRate := rates.ySpeed * (timeDiff / 1000.0);
          x := x - xRate;
          y := y + yRate;
        }
        assert State() == MoveInWindow(rates, aged, timeDiff);
        ghost var moved := State();
        if totalShowTime / 1000.0 >= rates.delayTime + rates.animateTime
           && totalShowTime <= rates.duration
        {
          x := -cv.width / 2.0 + data.content.endX;
          y := cv.height / 2.0 - data.content.endY;
        }
        assert State() == SnapToEnd(cv, data, rates, moved);
        if totalShowTime / 1000.0 >= rates.duration {
          renderFlag := true;
          inScene := false;
        }
      }
    }

    /** The body of the second loop of reset for this item, once the scene is empty. */
    method Reset(cv: Canvas, currentTime: real)
      requires !inScene
      modifies this
      ensures State() == ResetItem(cv, data, rates, old(State()), currentTime)
    {
      renderFlag := false;
      totalShowTime := 0.0;
      if currentTime < data.playTime {
        isInited := false;
      } else if currentTime >= data.playTime && currentTime <= data.playTime + rates.duration {
        isInited := true;
        Init(cv);
        var diffTime := currentTime - data.playTime;
        var opacityRate := rates.opacitySpeed * diffTime;
        opacity := opacity - opacityRate;
        totalShowTime := diffTime * 1000.0;
        var animationTime;
        if diffTime - rates.delayTime <= rates.animateTime {
          animationTime := diffTime - rates.delayTime;
        } else {
          animationTime := rates.animateTime;
        }
        var xRate := rates.xSpeed * animationTime;
        var yRate := rates.ySpeed * animationTime;
        x := x - xRate;
        y := y + yRate;
      } else {
        renderFlag := true;
        totalShowTime := rates.duration * 1000.0;
      }
    }
  }

  class ThreeManager {
    const width: real          // renderCanvasWidth
    const height: real         // renderCanvasHeight
    const danmakuArray: seq<ThreeRender>
    var prevTime: real         // 0 stands for "not set"
    var timeDiff: real

    /** Every comment has its own ThreeRender. */
    predicate Valid()
      reads this
    {
      forall i, j :: 0 <= i < j < |danmakuArray| ==> danmakuArray[i] != danmakuArray[j]
    }

    function Canvas(): DanmakuItem.Canvas {
      DanmakuItem.Canvas(width, height)
    }

    function Clock(): FrameClock.Clock
      reads this
    {
      FrameClock.Clock(prevTime, timeDiff)
    }

    /** The indices of the comments whose groupParent is a child of the scene. */
    ghost function Scene(): set<int>
      reads this, danmakuArray
    {
      set i | 0 <= i < |danmakuArray| && danmakuArray[i].inScene
    }

    constructor(w: real, h: real, danmakuDataArray: seq<DanmakuData>)
      requires forall k :: 0 <= k < |danmakuDataArray| ==> Schedulable(danmakuDataArray[k])
      ensures Valid() && width == w && height == h && Clock() == Start
      ensures |danmakuArray| == |danmakuDataArray|
      ensures forall k :: 0 <= k < |danmakuArray| ==>
                && fresh(danmakuArray[k])
                && danmakuArray[k].data == danmakuDataArray[k]
                && danmakuArray[k].rates == RatesOf(danmakuDataArray[k])
                && danmakuArray[k].State() == Constructed
    {
      width, height := w, h;
      var items: seq<ThreeRender> := [];
      for k := 0 to |danmakuDataArray|
        invariant |items| == k
        invariant forall i, j :: 0 <= i < j < k ==> items[i] != items[j]
        invariant forall i :: 0 <= i < k ==>
                    && fresh(items[i])
                    && items[i].data == danmakuDataArray[i]
                    && items[i].rates == RatesOf(danmakuDataArray[i])
                    && items[i].State() == Constructed
      {
        var item := new ThreeRender(danmakuDataArray[k]);
        items := items + [item];
      }
      danmakuArray := items;
      prevTime, timeDiff := 0.0, 0.0;
    }

    /** timeDiffCompute, with performance.now() passed in as now. */
    method TimeDiffCompute(now: real)
      modifies this
      ensures Clock() == Compute(old(Clock()), now)
    {
      if prevTime != 0.0 {
        var currentTime := now;
        timeDiff := currentTime - prevTime;
        prevTime := currentTime;
      } else {
        prevTime := now;
      }
    }

    /** danmakuRender with video.currentTime passed in: one frame for every comment. */
    method DanmakuRender(currentTime: real)
      requires Valid()
      modifies danmakuArray
      ensures forall i :: 0 <= i < |danmakuArray| ==>
                danmakuArray[i].State()
                == Tick(Canvas(), danmakuArray[i].data, danmakuArray[i].rates,
                        old(danmakuArray[i].State()), currentTime, timeDiff)
    {
      for i := 0 to |danmakuArray|
        invariant forall k :: 0 <= k < i ==>
                    danmakuArray[k].State()
                    == Tick(Canvas(), danmakuArray[k].data, danmakuArray[k].rates,
                            old(danmakuArray[k].State()), currentTime, timeDiff)
        invariant forall k :: i <= k < |danmakuArray| ==>
                    danmakuArray[k].State() == old(danmakuArray[k].State())
      {
        danmakuArray[i].Frame(Canvas(), currentTime, timeDiff);
      }
    }

    /** render, with performance.now() and video.paused and video.currentTime passed in:
        returns whether another animation frame is requested. A paused frame clears the
        clock, so the first frame after the next play measures no time. */
    method Render(now: real, paused: bool, currentTime: real) returns (again: bool)
      requires Valid()
      modifies this, danmakuArray
      ensures again == !paused
      ensures Clock() == (if paused then Start else Compute(old(Clock()), now))
      ensures forall i :: 0 <= i < |danmakuArray| ==>
                danmakuArray[i].State()
                == Tick(Canvas(), danmakuArray[i].data, danmakuArray[i].rates,
                        old(danmakuArray[i].State()), currentTime,
                        Compute(old(Clock()), now).timeDiff)
    {
      TimeDiffCompute(now);
      DanmakuRender(currentTime);
      if !paused {
        again := true;
      } else {
        prevTime := 0.0;
        timeDiff := 0.0;
        again := false;
      }
    }

    /** reset with video.currentTime passed in: empty the scene, then place every comment
        from the seek time alone. */
    method Reset(currentTime: real)
      requires Valid()
      modifies danmakuArray
      ensures forall i :: 0 <= i < |danmakuArray| ==>
                danmakuArray[i].State()
                == ResetItem(Canvas(), danmakuArray[i].data, danmakuArray[i].rates,
                             old(danmakuArray[i].State()), currentTime)
      ensures Scene()
              == set i | 0 <= i < |danmakuArray|
                           && Active(danmakuArray[i].data, danmakuArray[i].rates, currentTime)
    {
      for i := 0 to |danmakuArray|
        invariant forall k :: 0 <= k < i ==>
                    danmakuArray[k].State() == old(danmakuArray[k].State()).(inScene := false)
        invariant forall k :: i <= k < |danmakuArray| ==>
                    danmakuArray[k].State() == old(danmakuArray[k].State())
      {
        danmakuArray[i].inScene := false;
      }
      for i := 0 to |danmakuArray|
        invariant forall k :: 0 <= k < i ==>
                    danmakuArray[k].State()
                    == ResetItem(Canvas(), danmakuArray[k].data, danmakuArray[k].rates,
                                 old(danmakuArray[k].State()), currentTime)
        invariant forall k :: i <= k < |danmakuArray| ==>
                    danmakuArray[k].State() == old(danmakuArray[k].State()).(inScene := false)
      {
        ResetIgnoresScene(Canvas(), danmakuArray[i].data, danmakuArray[i].rates,
                          old(danmakuArray[i].State()), currentTime);
        danmakuArray[i].Reset(Canvas(), currentTime);
      }
      forall i | 0 <= i < |danmakuArray|
        ensures danmakuArray[i].inScene
                <==> Active(danmakuArray[i].data, danmakuArray[i].rates, currentTime)
      {
        ResetInSceneIffActive(Canvas(), danmakuArray[i].data, danmakuArray[i].rates,
                              old(danmakuArray[i].State()), currentTime);
      }
    }
  }

  /** Clearing the scene before the per-item loop makes no difference to the item's result. */
  lemma ResetIgnoresScene(cv: DanmakuItem.Canvas, d: DanmakuData, rates: Rates, st: ItemState,
                          currentTime: real)
    ensures ResetItem(cv, d, rates, st.(inScene := false), currentTime)
            == ResetItem(cv, d, rates, st, currentTime)
  {
  }

  /** After a seek exactly the active comments are in the scene. */
  lemma ResetInSceneIffActive(cv: DanmakuItem.Canvas, d: DanmakuData, rates: Rates,
                              st: ItemState, currentTime: real)
    ensures ResetItem(cv, d, rates, st, currentTime).inScene <==> Active(d, rates, currentTime)
  {
  }
}

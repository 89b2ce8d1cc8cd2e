/**
 * The onroad screen: the touch gestures of the onroad window, stopping the
 * screen recorder when the car goes offroad, and the pieces of the HUD that
 * are decisions rather than drawing: which speed limit is shown and how large
 * the board is, the max-speed, gap and tire-pressure labels, the speed
 * colour, the piecewise-linear interp helper and the turn-signal blink state.
 *
 * Painting itself (fonts, rectangles, pixmaps) is left out.
 */
module Onroad {
  import opened Wrappers
  import Decimal
  import ScreenRecorder

  function Abs(x: int): nat {
    if x < 0 then -x else x
  }

  function Min(a: int, b: int): int {
    if a < b then a else b
  }

  function Max(a: int, b: int): int {
    if a < b then b else a
  }

  /** C's float-to-int conversion: truncation toward zero. */
  function Trunc(x: real): (n: int)
    ensures x >= 0.0 ==> n >= 0 && 0.0 <= x - n as real < 1.0
    ensures x < 0.0 ==> n <= 0 && 0.0 <= n as real - x < 1.0
  {
    if x >= 0.0 then x.Floor else -((-x).Floor)
  }

  lemma TruncMonotone(a: real, b: real)
    requires a <= b
    ensures Trunc(a) <= Trunc(b)
  {
    if a >= 0.0 {
      assert a.Floor <= b.Floor;
    } else if b < 0.0 {
      assert (-b).Floor <= (-a).Floor;
    }
  }

  // ---------------------------------------------------------------------------
  // Gestures

  datatype Gesture =
    | Tap                 // not a swipe: reaches the map toggle
    | ResetCalibration    // upward swipe
    | SoftRestart         // downward swipe
    | ToggleRecorder      // sideways swipe, either direction
    | Ignored             // diagonal swipe with |dx| == |dy|

  /** A release `dx`, `dy` away from the press, as mouseReleaseEvent reads it. */
  function Classify(dx: int, dy: int): (g: Gesture)
    ensures g == Tap <==> Abs(dx) <= 250 && Abs(dy) <= 200
    ensures g == ResetCalibration ==> Abs(dx) < Abs(dy) && dy < 0
    ensures g == SoftRestart ==> Abs(dx) < Abs(dy) && dy > 0
    ensures g == ToggleRecorder ==> Abs(dx) > Abs(dy) && dx != 0
    ensures g == Ignored ==> Abs(dx) == Abs(dy) > 200
  {
    if Abs(dx) > 250 || Abs(dy) > 200 then
      if Abs(dx) < Abs(dy) then
        if dy < 0 then ResetCalibration else SoftRestart
      else if Abs(dx) > Abs(dy) then ToggleRecorder
      else Ignored
    else Tap
  }

  /**
   * Mirroring a swipe left-right leaves its meaning; mirroring it up-down
   * swaps calibration reset and soft restart and leaves everything else.
   */
  lemma MirroredGestures(dx: int, dy: int)
    ensures Classify(-dx, dy) == Classify(dx, dy)
    ensures Classify(dx, dy) == ResetCalibration <==> Classify(dx, -dy) == SoftRestart
    ensures Classify(dx, dy) !in {ResetCalibration, SoftRestart} ==> Classify(dx, -dy) == Classify(dx, dy)
  {
  }

  /** A sideways swipe is any release far enough along x and further along x than along y. */
  lemma SidewaysToggles(dx: int, dy: int)
    requires Abs(dx) > 250 && Abs(dx) > Abs(dy)
    ensures Classify(dx, dy) == ToggleRecorder
  {
  }

  /** What the onroad window asks of the rest of the system. */
  datatype Action =
    | RemoveParam(key: string)
    | ScheduleSoftRestart(delayMs: nat)
    | PlaySound(path: string)

  const RESET_SOUND: string := "../assets/sounds/reset_calibration.wav"

  class OnroadWindow {
    var recorder: ScreenRecorder.Recorder?
    /** None when the window has no map. */
    var mapVisible: Option<bool>
    var startX: int
    var startY: int
    var wideStream: bool
    var actions: seq<Action>

    /** The window creates its own recorder, idle and with no session opened. */
    constructor (hw: ScreenRecorder.Hardware, uiFreq: nat, policy: ScreenRecorder.OverflowPolicy, mapVisible: Option<bool>)
      requires uiFreq >= 2
      ensures recorder != null && fresh(recorder) && recorder.Valid()
      ensures !recorder.recording && recorder.sessions == 0 && recorder.cues == []
      ensures this.mapVisible == mapVisible
      ensures startX == 0 && startY == 0 && !wideStream && actions == []
    {
      recorder := new ScreenRecorder.Recorder(hw, uiFreq, policy);
      this.mapVisible := mapVisible;
      startX := 0;
      startY := 0;
      wideStream := false;
      actions := [];
    }

    method MousePress(x: int, y: int)
      modifies this`startX, this`startY
      ensures startX == x && startY == y
    {
      startX := x;
      startY := y;
    }

    /**
     * The release ending a touch: a swipe acts on calibration, restart or the
     * recorder and stops there; anything else toggles the map, never shown
     * while the sidebar is.
     */
    method MouseRelease(x: int, y: int, sidebarVisible: bool, now: int, t: ScreenRecorder.LocalTime)
      requires recorder != null ==> recorder.Valid()
      modifies this`mapVisible, this`actions, recorder
      ensures recorder != null ==> recorder.Valid()
      ensures Classify(x - startX, y - startY) == ResetCalibration ==>
        actions == old(actions) + [RemoveParam("CalibrationParams"), RemoveParam("LiveParameters"),
                                   ScheduleSoftRestart(1500), PlaySound(RESET_SOUND)]
      ensures Classify(x - startX, y - startY) == SoftRestart ==> actions == old(actions) + [ScheduleSoftRestart(500)]
      ensures Classify(x - startX, y - startY) !in {ResetCalibration, SoftRestart} ==> actions == old(actions)
      ensures Classify(x - startX, y - startY) == ToggleRecorder && recorder != null ==>
        && recorder.recording == !old(recorder.recording)
        && (!old(recorder.recording) ==> recorder.Started(true, now, t))
        && (old(recorder.recording) ==> recorder.Stopped(true))
      ensures Classify(x - startX, y - startY) != ToggleRecorder && recorder != null ==> unchanged(recorder)
      ensures Classify(x - startX, y - startY) == Tap && old(mapVisible).Some? ==>
        mapVisible == Some(!sidebarVisible && !old(mapVisible).value)
      ensures !(Classify(x - startX, y - startY) == Tap && old(mapVisible).Some?) ==> mapVisible == old(mapVisible)
    {
      var dx := x - startX;
      var dy := y - startY;
      if Abs(dx) > 250 || Abs(dy) > 200 {
        if Abs(dx) < Abs(dy) {
          if dy < 0 {
            actions := actions + [RemoveParam("CalibrationParams"), RemoveParam("LiveParameters"),
                                  ScheduleSoftRestart(1500), PlaySound(RESET_SOUND)];
          } else {
            actions := actions + [ScheduleSoftRestart(500)];
          }
        } else if Abs(dx) > Abs(dy) {
          if recorder != null {
            recorder.Toggle(now, t);
          }
        }
        return;
      }
      if mapVisible.Some? {
        mapVisible := Some(!sidebarVisible && !mapVisible.value);
      }
    }

    /** Going offroad stops the recorder silently; the stream follows the wide-camera setting. */
    method OffroadTransition(offroad: bool, wideCameraOnly: bool)
      requires recorder != null ==> recorder.Valid()
      modifies this`wideStream, recorder
      ensures recorder != null ==> recorder.Valid()
      ensures wideStream == wideCameraOnly
      ensures offroad && recorder != null ==>
        && !recorder.recording && recorder.queue == [] && recorder.openSessions == 0
        && recorder.cues == old(recorder.cues) && recorder.files == old(recorder.files)
      ensures offroad && recorder != null && old(recorder.recording) ==> recorder.Stopped(false)
      ensures offroad && recorder != null && !old(recorder.recording) ==> unchanged(recorder)
      ensures !offroad && recorder != null ==> unchanged(recorder)
    {
      wideStream := wideCameraOnly;
      if offroad && recorder != null {
        recorder.Stop(false);
      }
    }
  }

  // ---------------------------------------------------------------------------
  // Max speed board

  /** The roadLimitSpeed message fields drawMaxSpeed reads. */
  datatype RoadLimit = RoadLimit(
    active: int,
    roadLimitSpeed: int,
    camLimitSpeed: int,
    camLimitSpeedLeftDist: int,
    sectionLimitSpeed: int,
    sectionLeftDist: int)

  /** The limit shown on the board and its distance, or (0, 0) for none. */
  function LimitSelection(r: RoadLimit): (sel: (int, int))
    ensures r.camLimitSpeed > 0 && r.camLimitSpeedLeftDist > 0 ==> sel == (r.camLimitSpeed, r.camLimitSpeedLeftDist)
    ensures !(r.camLimitSpeed > 0 && r.camLimitSpeedLeftDist > 0) && r.sectionLimitSpeed > 0 && r.sectionLeftDist > 0 ==>
      sel == (r.sectionLimitSpeed, r.sectionLeftDist)
    ensures (sel.0 > 0 && sel.1 > 0) || sel == (0, 0)
    ensures sel == (0, 0) <==>
      !(r.camLimitSpeed > 0 && r.camLimitSpeedLeftDist > 0) && !(r.sectionLimitSpeed > 0 && r.sectionLeftDist > 0)
  {
    if r.camLimitSpeed > 0 && r.camLimitSpeedLeftDist > 0 then (r.camLimitSpeed, r.camLimitSpeedLeftDist)
    else if r.sectionLimitSpeed > 0 && r.sectionLeftDist > 0 then (r.sectionLimitSpeed, r.sectionLeftDist)
    else (0, 0)
  }

  datatype Board = Board(width: int, height: int, maxSpeedHeight: int)

  /** The board's size: with a limit sign, with a road speed limit panel, or max speed only. */
  function BoardFor(limitSpeed: int, leftDist: int, roadLimitSpeed: int): (b: Board)
    ensures limitSpeed > 0 && leftDist > 0 ==>
      b.width == (if limitSpeed < 100 then 210 else 230) && b.maxSpeedHeight == 210
    ensures !(limitSpeed > 0 && leftDist > 0) && 0 < roadLimitSpeed < 200 ==> b == Board(210, 485, 210)
    ensures !(limitSpeed > 0 && leftDist > 0) && !(0 < roadLimitSpeed < 200) ==> b == Board(210, 235, 235)
  {
    var maxSpeedHeight := 210;
    if limitSpeed > 0 && leftDist > 0 then
      var w := if limitSpeed < 100 then 210 else 230;
      Board(w, maxSpeedHeight + w, maxSpeedHeight)
    else if roadLimitSpeed > 0 && roadLimitSpeed < 200 then Board(210, 485, maxSpeedHeight)
    else Board(210, 235, 235)
  }

  /**
   * Below the max-speed part the board holds the sign: a square as wide as the
   * board for a camera or section limit (the round sign is drawn in it), the
   * 275-pixel road limit panel, or nothing.
   */
  lemma BoardSections(r: RoadLimit)
    ensures var sel := LimitSelection(r);
            var b := BoardFor(sel.0, sel.1, r.roadLimitSpeed);
            && (sel.0 > 0 ==> b.height - b.maxSpeedHeight == b.width)
            && (sel.0 == 0 && 0 < r.roadLimitSpeed < 200 ==> b.height - b.maxSpeedHeight == 275)
            && (sel.0 == 0 && !(0 < r.roadLimitSpeed < 200) ==> b.height == b.maxSpeedHeight)
  {
  }

  /** A cruise speed is set only strictly between 0 and 255 km/h. */
  predicate CruiseSet(cruiseMaxSpeed: real) {
    0.0 < cruiseMaxSpeed < 255.0
  }

  /** "%d" of (int)(v + 0.5), v converted to mph unless metric. */
  function SpeedText(kph: real, isMetric: bool, kmToMile: real): string {
    Decimal.IntText(Trunc((if isMetric then kph else kph * kmToMile) + 0.5))
  }

  /** The large label: the set cruise speed, or "N/A". */
  function MaxSpeedLabel(cruiseMaxSpeed: real, isMetric: bool, kmToMile: real): (s: string)
    ensures !CruiseSet(cruiseMaxSpeed) ==> s == "N/A"
    ensures CruiseSet(cruiseMaxSpeed) ==> s == SpeedText(cruiseMaxSpeed, isMetric, kmToMile)
  {
    if CruiseSet(cruiseMaxSpeed) then SpeedText(cruiseMaxSpeed, isMetric, kmToMile) else "N/A"
  }

  /** The small label: the applied max speed when cruise is set and it is positive, else "OP" or "MAX". */
  function ApplySpeedLabel(cruiseMaxSpeed: real, applyMaxSpeed: real, longControl: bool, isMetric: bool, kmToMile: real): (s: string)
    ensures CruiseSet(cruiseMaxSpeed) && applyMaxSpeed > 0.0 ==> s == SpeedText(applyMaxSpeed, isMetric, kmToMile)
    ensures !(CruiseSet(cruiseMaxSpeed) && applyMaxSpeed > 0.0) ==> s == (if longControl then "OP" else "MAX")
  {
    if CruiseSet(cruiseMaxSpeed) && applyMaxSpeed > 0.0 then SpeedText(applyMaxSpeed, isMetric, kmToMile)
    else if longControl then "OP" else "MAX"
  }

  /** A speed label of a non-negative speed is the speed rounded half up, in plain digits. */
  lemma SpeedTextRounds(kph: real, isMetric: bool, kmToMile: real)
    requires kph >= 0.0 && kmToMile >= 0.0
    ensures var v := if isMetric then kph else kph * kmToMile;
            var s := SpeedText(kph, isMetric, kmToMile);
            && Decimal.AllDigits(s)
            && Decimal.Value(s) as real <= v + 0.5 < Decimal.Value(s) as real + 1.0
  {
    var v := if isMetric then kph else kph * kmToMile;
    assert v >= 0.0;
  }

  /** Without cruise set neither label is a number. */
  lemma UnsetLabelsAreWords(cruiseMaxSpeed: real, applyMaxSpeed: real, longControl: bool, isMetric: bool, kmToMile: real)
    requires !CruiseSet(cruiseMaxSpeed)
    ensures !Decimal.AllDigits(MaxSpeedLabel(cruiseMaxSpeed, isMetric, kmToMile))
    ensures !Decimal.AllDigits(ApplySpeedLabel(cruiseMaxSpeed, applyMaxSpeed, longControl, isMetric, kmToMile))
    ensures ApplySpeedLabel(cruiseMaxSpeed, applyMaxSpeed, longControl, isMetric, kmToMile) == "OP" <==> longControl
  {
    assert !Decimal.IsDigit("N/A"[0]);
    assert !Decimal.IsDigit("OP"[0]) && !Decimal.IsDigit("MAX"[0]);
  }

  // ---------------------------------------------------------------------------
  // Bottom icons

  datatype GapLabel = GapLabel(text: string, highlighted: bool, textSize: int)

  /** The cruise gap: "N/A" when unset, "AUTO" for the automatic gap under long control, else the number. */
  function GapLabelFor(gap: int, longControl: bool, autoTrGap: int): (l: GapLabel)
    ensures gap <= 0 ==> l == GapLabel("N/A", false, 50)
    ensures gap > 0 && longControl && gap == autoTrGap ==> l == GapLabel("AUTO", true, 50)
    ensures gap > 0 && !(longControl && gap == autoTrGap) ==>
      l.highlighted && l.textSize == 70 && Decimal.AllDigits(l.text) && Decimal.Value(l.text) == gap
  {
    if gap <= 0 then GapLabel("N/A", false, 50)
    else if longControl && gap == autoTrGap then GapLabel("AUTO", true, 50)
    else GapLabel(Decimal.IntText(gap), true, 70)
  }

  /** The gap shows a number exactly when it is set and not the automatic one. */
  lemma GapLabelNumeric(gap: int, longControl: bool, autoTrGap: int)
    ensures Decimal.AllDigits(GapLabelFor(gap, longControl, autoTrGap).text) <==>
      gap > 0 && !(longControl && gap == autoTrGap)
  {
    assert !Decimal.IsDigit("N/A"[0]) && !Decimal.IsDigit("AUTO"[0]);
  }

  datatype TpmsColor = Neutral | Low

  /** A plausible tire pressure reading lies in [5, 60]. */
  predicate TpmsValid(tpms: real) {
    5.0 <= tpms <= 60.0
  }

  function TpmsColorFor(tpms: real): (c: TpmsColor)
    ensures c == Low <==> 5.0 <= tpms < 31.0
  {
    if tpms < 5.0 || tpms > 60.0 then Neutral
    else if tpms < 31.0 then Low
    else Neutral
  }

  /** "%.0f" of round(tpms) for a plausible reading, empty otherwise. */
  function TpmsText(tpms: real): (s: string)
    ensures !TpmsValid(tpms) ==> s == ""
    ensures TpmsValid(tpms) ==> Decimal.AllDigits(s) && Decimal.Value(s) as real <= tpms + 0.5 < Decimal.Value(s) as real + 1.0
  {
    if tpms < 5.0 || tpms > 60.0 then "" else Decimal.IntText((tpms + 0.5).Floor)
  }

  /** An empty text always comes with the neutral colour; the low colour always with a number of 5 to 31. */
  lemma TpmsConsistent(tpms: real)
    ensures TpmsText(tpms) == "" ==> TpmsColorFor(tpms) == Neutral
    ensures TpmsColorFor(tpms) == Low ==> 5 <= Decimal.Value(TpmsText(tpms)) <= 31
  {
    if TpmsValid(tpms) {
      assert |TpmsText(tpms)| >= 1;
    }
  }

  // ---------------------------------------------------------------------------
  // Speed colour

  datatype Rgba = Rgba(r: int, g: int, b: int, a: int)

  /** The shade of the current speed: bluer when accelerating (floor 80), redder when braking (floor 60). */
  function SpeedShade(accel: real): (a: int)
    ensures accel > 0.0 ==> 80 <= a <= 255
    ensures accel <= 0.0 ==> 60 <= a <= 255
  {
    if accel > 0.0 then Max(Min(Trunc(255.0 - 180.0 * (accel / 2.0)), 255), 80)
    else Max(Min(Trunc(255.0 - 255.0 * (-accel / 3.0)), 255), 60)
  }

  function SpeedColor(accel: real): (c: Rgba)
    ensures accel > 0.0 ==> c.b == 255 && c.r == c.g == SpeedShade(accel)
    ensures accel <= 0.0 ==> c.r == 255 && c.g == c.b == SpeedShade(accel)
    ensures c.a == 230
  {
    var a := SpeedShade(accel);
    if accel > 0.0 then Rgba(a, a, 255, 230) else Rgba(255, a, a, 230)
  }

  /** Harder acceleration never lightens the shade, nor does harder braking. */
  lemma SpeedShadeMonotone(a1: real, a2: real)
    ensures 0.0 < a1 <= a2 ==> SpeedShade(a2) <= SpeedShade(a1)
    ensures a2 <= a1 <= 0.0 ==> SpeedShade(a2) <= SpeedShade(a1)
  {
    if 0.0 < a1 <= a2 {
      TruncMonotone(255.0 - 180.0 * (a2 / 2.0), 255.0 - 180.0 * (a1 / 2.0));
    }
    if a2 <= a1 <= 0.0 {
      TruncMonotone(255.0 - 255.0 * (-a2 / 3.0), 255.0 - 255.0 * (-a1 / 3.0));
    }
  }

  /** White at rest; the full tint from 2 m/s² of acceleration and from 3 m/s² of braking. */
  lemma SpeedShadeEnds(accel: real)
    ensures accel == 0.0 ==> SpeedColor(accel) == Rgba(255, 255, 255, 230)
    ensures accel >= 2.0 ==> SpeedShade(accel) == 80
    ensures accel <= -3.0 ==> SpeedShade(accel) == 60
  {
  }

  // ---------------------------------------------------------------------------
  // interp

  predicate StrictlyIncreasing(xs: seq<real>) {
    forall i, j :: 0 <= i < j < |xs| ==> xs[i] < xs[j]
  }

  /** The line through (x0, y0) and (x1, y1), evaluated at x. */
  function Line(x0: real, y0: real, x1: real, y1: real, x: real): real
    requires x0 < x1
  {
    y0 + (y1 - y0) / (x1 - x0) * (x - x0)
  }

  /** A fraction of a non-negative amount lies between 0 and the amount. */
  lemma ScaleBetween(a: real, t: real)
    requires a >= 0.0 && 0.0 <= t <= 1.0
    ensures 0.0 <= a * t <= a
  {
    assert a * t + a * (1.0 - t) == a;
    assert a * (1.0 - t) >= 0.0;
  }

  lemma DivUnit(n: real, d: real)
    requires 0.0 <= n <= d && d > 0.0
    ensures 0.0 <= n / d <= 1.0
  {
    assert n / d * d == n;
  }

  /** A fraction of a non-positive amount lies between the amount and 0. */
  lemma ScaleBetweenNeg(a: real, t: real)
    requires a <= 0.0 && 0.0 <= t <= 1.0
    ensures a <= a * t <= 0.0
  {
    ScaleBetween(-a, t);
    assert a * t == -((-a) * t);
  }

  /** The slope times the run is the rise times the run's fraction of the segment. */
  lemma SlopeTimesRun(a: real, n: real, d: real)
    requires d > 0.0
    ensures a / d * n == a * (n / d)
  {
  }

  /** On its segment, the line at x is its first end value plus a part of the rise with the rise's sign. */
  lemma LineAsFraction(x0: real, y0: real, x1: real, y1: real, x: real) returns (rise: real)
    requires x0 <= x <= x1 && x0 < x1
    ensures Line(x0, y0, x1, y1, x) == y0 + rise
    ensures y0 <= y1 ==> 0.0 <= rise <= y1 - y0
    ensures y1 <= y0 ==> y1 - y0 <= rise <= 0.0
  {
    var a, n, d := y1 - y0, x - x0, x1 - x0;
    var t := n / d;
    DivUnit(n, d);
    SlopeTimesRun(a, n, d);
    rise := a * t;
    if a >= 0.0 {
      ScaleBetween(a, t);
    } else {
      ScaleBetweenNeg(a, t);
    }
  }

  /** On its segment, a line stays between the segment's end values. */
  lemma LineBetween(x0: real, y0: real, x1: real, y1: real, x: real)
    requires x0 <= x <= x1 && x0 < x1
    ensures y0 <= y1 ==> y0 <= Line(x0, y0, x1, y1, x) <= y1
    ensures y1 <= y0 ==> y1 <= Line(x0, y0, x1, y1, x) <= y0
  {
    var rise := LineAsFraction(x0, y0, x1, y1, x);
  }

  /**
   * Piecewise-linear interpolation through (xs[i], ys[i]). Without
   * extrapolation the ends are held flat; with it the first and last
   * segments are extended.
   */
  method Interp(x: real, xs: seq<real>, ys: seq<real>, extrapolate: bool) returns (y: real)
    requires |xs| == |ys| >= 2 && StrictlyIncreasing(xs)
    ensures !extrapolate && x <= xs[0] ==> y == ys[0]
    ensures !extrapolate && x >= xs[|xs| - 1] ==> y == ys[|ys| - 1]
    ensures extrapolate && x < xs[0] ==> y == Line(xs[0], ys[0], xs[1], ys[1], x)
    ensures extrapolate && x > xs[|xs| - 1] ==> y == Line(xs[|xs| - 2], ys[|ys| - 2], xs[|xs| - 1], ys[|ys| - 1], x)
    ensures xs[0] <= x <= xs[|xs| - 1] ==>
      exists i :: 0 <= i < |xs| - 1 && xs[i] <= x <= xs[i + 1] && y == Line(xs[i], ys[i], xs[i + 1], ys[i + 1], x)
  {
    var size := |xs|;
    var i := 0;
    if x >= xs[size - 2] {
      i := size - 2;
      if size > 2 {
        assert xs[0] < xs[size - 2];
      }
    } else {
      while x > xs[i + 1]
        invariant 0 <= i <= size - 2
        invariant i > 0 ==> x > xs[i] && x > xs[0]
        decreases size - 2 - i
      {
        i := i + 1;
      }
    }
    var xL, yL, xR, yR := xs[i], ys[i], xs[i + 1], ys[i + 1];
    assert xL < xR;
    if !extrapolate {
      if x < xL {
        yR := yL;
      }
      if x > xR {
        yL := yR;
      }
    }
    // yL + dydx * (x - xL) with dydx the segment's slope
    y := Line(xL, yL, xR, yR, x);
    if x <= xs[0] {
      assert i == 0;
      if !extrapolate {
        LineFlat(xL, yL, xR, x);
        LineEnds(xL, yL, xR, yR);
      }
    }
    if x >= xs[size - 1] {
      assert xs[size - 2] < xs[size - 1];
      assert i == size - 2;
      if !extrapolate {
        LineFlat(xL, yR, xR, x);
        LineEnds(xL, yL, xR, yR);
      }
    }
  }

  /** A line between two equal values is constant. */
  lemma LineFlat(x0: real, c: real, x1: real, x: real)
    requires x0 < x1
    ensures Line(x0, c, x1, c, x) == c
  {
  }

  /** A line passes through its two end points. */
  lemma LineEnds(x0: real, y0: real, x1: real, y1: real)
    requires x0 < x1
    ensures Line(x0, y0, x1, y1, x0) == y0 && Line(x0, y0, x1, y1, x1) == y1
  {
    assert (y1 - y0) / (x1 - x0) * (x1 - x0) == y1 - y0;
  }

  /** Held flat at the ends, interp without extrapolation stays within the range of ys. */
  lemma InterpWithinSegment(x: real, xs: seq<real>, ys: seq<real>, i: nat)
    requires |xs| == |ys| >= 2 && StrictlyIncreasing(xs)
    requires i < |xs| - 1 && xs[i] <= x <= xs[i + 1]
    ensures ys[i] <= ys[i + 1] ==> ys[i] <= Line(xs[i], ys[i], xs[i + 1], ys[i + 1], x) <= ys[i + 1]
    ensures ys[i + 1] <= ys[i] ==> ys[i + 1] <= Line(xs[i], ys[i], xs[i + 1], ys[i + 1], x) <= ys[i]
  {
    LineBetween(xs[i], ys[i], xs[i + 1], ys[i + 1], x);
  }

  // ---------------------------------------------------------------------------
  // Turn signals

  const DRAW_COUNT: int := 8

  /** The opacity of arrow `i` while arrow `index` is lit: 0.8, divided by twice the distance. */
  function ArrowAlpha(index: int, i: int): (a: real)
    ensures 0.0 < a <= 0.8
    ensures a == 0.8 <==> index == i
  {
    var d := Abs(index - i);
    if d > 0 then 0.8 / (d * 2) as real else 0.8
  }

  /** Arrows further from the lit one are dimmer. */
  lemma ArrowAlphaFades(index: int, i: int, j: int)
    requires Abs(index - i) < Abs(index - j)
    ensures ArrowAlpha(index, j) < ArrowAlpha(index, i)
  {
    var di, dj := Abs(index - i), Abs(index - j);
    if di > 0 {
      var p, q := (di * 2) as real, (dj * 2) as real;
      assert 0.0 < p < q;
      var a, b := 0.8 / q, 0.8 / p;
      assert p * q > 0.0;
      assert b - a == 0.8 * (q - p) / (p * q);
      assert 0.8 * (q - p) > 0.0;
      assert ArrowAlpha(index, j) == a && ArrowAlpha(index, i) == b;
    } else {
      assert 0.8 / (dj * 2) as real < 0.8 by {
        assert (dj * 2) as real >= 2.0;
      }
    }
  }

  /** The state drawTurnSignals keeps between frames. */
  class TurnSignals {
    const uiFreq: nat
    var blinkIndex: int
    var blinkWait: int
    var prevTs: real

    ghost predicate Valid()
      reads this
    {
      0 <= blinkIndex < DRAW_COUNT && 0 <= blinkWait && uiFreq >= 1
    }

    constructor (uiFreq: nat)
      requires uiFreq >= 1
      ensures Valid() && this.uiFreq == uiFreq
      ensures blinkIndex == 0 && blinkWait == 0 && prevTs == 0.0
    {
      this.uiFreq := uiFreq;
      blinkIndex := 0;
      blinkWait := 0;
      prevTs := 0.0;
    }

    /**
     * One frame: while waiting, count the wait down with no arrow lit;
     * otherwise, with a blinker on, advance the lit arrow once per 900 / UI_FREQ
     * milliseconds and, past the last arrow, hold it and wait UI_FREQ / 4
     * frames; with no blinker on, start over at arrow 0.
     */
    method Tick(leftOn: bool, rightOn: bool, now: real)
      requires Valid()
      modifies this
      ensures Valid()
      ensures old(blinkWait) > 0 ==> blinkWait == old(blinkWait) - 1 && blinkIndex == 0 && prevTs == old(prevTs)
      ensures old(blinkWait) == 0 && !leftOn && !rightOn ==> blinkIndex == 0 && blinkWait == 0 && prevTs == old(prevTs)
      ensures old(blinkWait) == 0 && (leftOn || rightOn) ==>
        var advance := now - old(prevTs) > (900 / uiFreq) as real;
        var next := old(blinkIndex) + (if advance then 1 else 0);
        && prevTs == (if advance then now else old(prevTs))
        && (next < DRAW_COUNT ==> blinkIndex == next && blinkWait == 0)
        && (next >= DRAW_COUNT ==> blinkIndex == DRAW_COUNT - 1 && blinkWait == uiFreq / 4)
    {
      if blinkWait > 0 {
        blinkWait := blinkWait - 1;
        blinkIndex := 0;
      } else {
        if leftOn || rightOn {
          if now - prevTs > (900 / uiFreq) as real {
            prevTs := now;
            blinkIndex := blinkIndex + 1;
          }
          if blinkIndex >= DRAW_COUNT {
            blinkIndex := DRAW_COUNT - 1;
            blinkWait := uiFreq / 4;
          }
        } else {
          blinkIndex := 0;
        }
      }
    }
  }
}

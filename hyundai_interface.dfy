/**
 * The Hyundai/Kia/Genesis car interface: which CAN bus carries each module
 * (derived once from the fingerprint), and the per-frame update that keeps
 * pcmCruise in step with the SCC module, raises the turning and low-speed
 * alerts, turns cruise-button changes into button events and applies the
 * button-driven event rules.
 *
 * Parsing CAN, building the car state and the common events are left out:
 * an update is given the decoded values they produce.
 */
module HyundaiInterface {
  import opened Wrappers

  // CAN message addresses looked up in the fingerprint.
  const BSM_ADDR: int := 0x58b          // blind-spot monitoring
  const AUTO_HOLD_ADDR: int := 1151
  const MDPS_ADDR: int := 593           // steering motor (MDPS12)
  const SAS_ADDR: int := 688            // steering angle sensor
  const SCC11_ADDR: int := 1056
  const SCC13_ADDR: int := 1290
  const SCC14_ADDR: int := 905
  const LCAN_ADDR: int := 1296          // present on bus 1 when L-CAN shares it
  const EMS_ADDR_A: int := 608
  const EMS_ADDR_B: int := 809
  const LFAHDA_ADDR: int := 1157

  // Cruise button values as the car reports them.
  const BUTTON_NONE: int := 0
  const BUTTON_RES_ACCEL: int := 1
  const BUTTON_SET_DECEL: int := 2
  const BUTTON_GAP_DIST: int := 3
  const BUTTON_CANCEL: int := 4

  /** Addresses seen on buses 0, 1 and 2 (and possibly more). */
  type Fingerprint = seq<set<int>>

  datatype SafetyModel = HyundaiLegacy | HyundaiCommunity

  /**
   * The bus-related car parameters. hasScc13 and hasScc14 are None when the
   * derivation leaves them at their default (no SCC bus).
   */
  datatype BusParams = BusParams(
    enableBsm: bool,
    enableAutoHold: bool,
    mdpsBus: int,
    sasBus: int,
    sccBus: int,
    hasScc13: Option<bool>,
    hasScc14: Option<bool>,
    hasEms: bool,
    hasLfaHda: bool,
    radarOffCan: bool,
    pcmCruise: bool,
    safety: SafetyModel)

  // ---------------------------------------------------------------------------
  // Bus derivation

  /** 1 when `addr` is on bus 1 and bus 1 is not the L-CAN, otherwise 0. */
  function HarnessBus(fp: Fingerprint, addr: int): (bus: int)
    requires |fp| >= 3
    ensures bus == 0 || bus == 1
    ensures bus == 1 <==> addr in fp[1] && LCAN_ADDR !in fp[1]
  {
    if addr in fp[1] && LCAN_ADDR !in fp[1] then 1 else 0
  }

  /** The SCC module can be read on bus `b`: it sends there, and on bus 1 only without L-CAN. */
  predicate SccVisible(fp: Fingerprint, b: nat)
    requires |fp| >= 3 && b < 3
  {
    SCC11_ADDR in fp[b] && (b != 1 || LCAN_ADDR !in fp[1])
  }

  /** The SCC bus: 0, else 1 (without L-CAN), else 2, else -1 for "no SCC". */
  function SccBus(fp: Fingerprint): (bus: int)
    requires |fp| >= 3
    ensures -1 <= bus <= 2
    ensures bus >= 0 ==> SCC11_ADDR in fp[bus]
    ensures bus == 1 ==> LCAN_ADDR !in fp[1]
  {
    if SCC11_ADDR in fp[0] then 0
    else if SCC11_ADDR in fp[1] && LCAN_ADDR !in fp[1] then 1
    else if SCC11_ADDR in fp[2] then 2
    else -1
  }

  /**
   * The SCC bus is the first bus on which SCC is visible, and -1 exactly when
   * it is visible on none.
   */
  lemma SccBusIsFirstVisible(fp: Fingerprint)
    requires |fp| >= 3
    ensures SccBus(fp) == -1 <==> forall b :: 0 <= b < 3 ==> !SccVisible(fp, b)
    ensures SccBus(fp) >= 0 ==> SccVisible(fp, SccBus(fp))
    ensures SccBus(fp) >= 0 ==> forall b :: 0 <= b < SccBus(fp) ==> !SccVisible(fp, b)
  {
    if SccBus(fp) == -1 {
      forall b | 0 <= b < 3 ensures !SccVisible(fp, b) {
        if b == 0 {} else if b == 1 {} else { assert b == 2; }
      }
    } else {
      assert SccVisible(fp, SccBus(fp));
    }
  }

  /** get_params, restricted to the bus and feature derivation. */
  function GetParams(fp: Fingerprint, longControl: bool, madMode: bool): (p: BusParams)
    requires |fp| >= 3
    ensures p.enableBsm == (BSM_ADDR in fp[0]) && p.enableAutoHold == (AUTO_HOLD_ADDR in fp[0])
    ensures p.mdpsBus == HarnessBus(fp, MDPS_ADDR) && p.sasBus == HarnessBus(fp, SAS_ADDR)
    ensures p.sccBus == SccBus(fp)
    ensures p.hasScc13.Some? <==> p.sccBus >= 0
    ensures p.hasScc14.Some? <==> p.sccBus >= 0
    ensures p.sccBus >= 0 ==> p.hasScc13 == Some(SCC13_ADDR in fp[p.sccBus])
    ensures p.sccBus >= 0 ==> p.hasScc14 == Some(SCC14_ADDR in fp[p.sccBus])
    ensures p.hasEms == (EMS_ADDR_A in fp[0] && EMS_ADDR_B in fp[0])
    ensures p.hasLfaHda == (LFAHDA_ADDR in fp[0])
    ensures p.radarOffCan <==> p.sccBus == -1
    ensures p.pcmCruise == !p.radarOffCan
    ensures p.safety == HyundaiCommunity <==>
      p.radarOffCan || p.mdpsBus == 1 || longControl || p.sccBus == 1 || madMode
  {
    var sccBus := SccBus(fp);
    var mdpsBus := HarnessBus(fp, MDPS_ADDR);
    var radarOffCan := sccBus == -1;
    BusParams(
      BSM_ADDR in fp[0],
      AUTO_HOLD_ADDR in fp[0],
      mdpsBus,
      HarnessBus(fp, SAS_ADDR),
      sccBus,
      if sccBus >= 0 then Some(SCC13_ADDR in fp[sccBus]) else None,
      if sccBus >= 0 then Some(SCC14_ADDR in fp[sccBus]) else None,
      EMS_ADDR_A in fp[0] && EMS_ADDR_B in fp[0],
      LFAHDA_ADDR in fp[0],
      radarOffCan,
      !radarOffCan,
      if radarOffCan || mdpsBus == 1 || longControl || sccBus == 1 || madMode
      then HyundaiCommunity else HyundaiLegacy)
  }

  /**
   * The legacy safety model is kept only for a stock car: SCC on bus 0 or 2,
   * the steering motor on bus 0, stock longitudinal control and no MAD mode.
   */
  lemma LegacyOnlyStock(fp: Fingerprint, longControl: bool, madMode: bool)
    requires |fp| >= 3
    ensures GetParams(fp, longControl, madMode).safety == HyundaiLegacy <==>
      && (SccBus(fp) == 0 || SccBus(fp) == 2)
      && (MDPS_ADDR !in fp[1] || LCAN_ADDR in fp[1])
      && !longControl && !madMode
  {
  }

  // ---------------------------------------------------------------------------
  // Button events

  datatype ButtonType = Unknown | AccelCruise | DecelCruise | GapAdjustCruise | Cancel | AltButton3

  datatype ButtonEvent = ButtonEvent(kind: ButtonType, pressed: bool)

  /** The event type of a cruise button value; CANCEL is not mapped and reads as unknown. */
  function CruiseButtonType(button: int): (t: ButtonType)
    ensures t == AccelCruise <==> button == BUTTON_RES_ACCEL
    ensures t == DecelCruise <==> button == BUTTON_SET_DECEL
    ensures t == GapAdjustCruise <==> button == BUTTON_GAP_DIST
    ensures t in {Unknown, AccelCruise, DecelCruise, GapAdjustCruise}
  {
    if button == BUTTON_RES_ACCEL then AccelCruise
    else if button == BUTTON_SET_DECEL then DecelCruise
    else if button == BUTTON_GAP_DIST then GapAdjustCruise
    else Unknown
  }

  /**
   * The button events of one frame: a cruise-button event when the value
   * changed (pressed when the new value is nonzero, typed by the button going
   * down or, on release, the one coming up), then a main-button event when
   * the main button changed.
   */
  function ButtonEvents(cruise: int, prevCruise: int, main: bool, prevMain: bool): (evs: seq<ButtonEvent>)
    ensures |evs| == (if cruise != prevCruise then 1 else 0) + (if main != prevMain then 1 else 0)
    ensures cruise != prevCruise ==>
      evs[0] == ButtonEvent(CruiseButtonType(if cruise != BUTTON_NONE then cruise else prevCruise), cruise != BUTTON_NONE)
    ensures main != prevMain ==> evs[|evs| - 1] == ButtonEvent(AltButton3, main)
    ensures forall i :: 0 <= i < |evs| ==> evs[i].kind != Cancel
  {
    var cruiseEvents :=
      if cruise != prevCruise then
        var pressed := cruise != BUTTON_NONE;
        [ButtonEvent(CruiseButtonType(if pressed then cruise else prevCruise), pressed)]
      else [];
    cruiseEvents + (if main != prevMain then [ButtonEvent(AltButton3, main)] else [])
  }

  /** The buttonEvents list of one frame, built by appending. */
  method CollectButtonEvents(cruise: int, prevCruise: int, main: bool, prevMain: bool) returns (evs: seq<ButtonEvent>)
    ensures evs == ButtonEvents(cruise, prevCruise, main, prevMain)
  {
    evs := [];
    if cruise != prevCruise {
      var pressed := cruise != BUTTON_NONE;
      var but := if pressed then cruise else prevCruise;
      evs := evs + [ButtonEvent(CruiseButtonType(but), pressed)];
    }
    if main != prevMain {
      evs := evs + [ButtonEvent(AltButton3, main)];
    }
  }

  /**
   * Pressing a cruise button and releasing it again gives two events of the
   * same type, the first pressed and the second released; holding it gives none.
   */
  lemma PressThenRelease(button: int, main: bool)
    requires button != BUTTON_NONE
    ensures |ButtonEvents(button, BUTTON_NONE, main, main)| == 1
    ensures |ButtonEvents(BUTTON_NONE, button, main, main)| == 1
    ensures ButtonEvents(button, BUTTON_NONE, main, main)[0].pressed
    ensures !ButtonEvents(BUTTON_NONE, button, main, main)[0].pressed
    ensures ButtonEvents(button, BUTTON_NONE, main, main)[0].kind
         == ButtonEvents(BUTTON_NONE, button, main, main)[0].kind
         == CruiseButtonType(button)
    ensures ButtonEvents(button, button, main, main) == []
  {
  }

  // ---------------------------------------------------------------------------
  // Events

  datatype EventName =
    | ButtonCancel | ButtonEnable | WrongCarMode | PcmDisable
    | BrakeUnavailable | BelowSteerSpeed | TurningIndicatorOn
    | OtherEvent(id: nat)

  /** The number of occurrences of `x` in `s`. */
  function Count(s: seq<EventName>, x: EventName): nat
  {
    if s == [] then 0 else (if s[0] == x then 1 else 0) + Count(s[1..], x)
  }

  lemma {:induction false} CountIn(s: seq<EventName>, x: EventName)
    ensures Count(s, x) > 0 <==> x in s
  {
    if s != [] {
      CountIn(s[1..], x);
      assert s == [s[0]] + s[1..];
    }
  }

  lemma {:induction false} CountAppend(s: seq<EventName>, y: EventName, x: EventName)
    ensures Count(s + [y], x) == Count(s, x) + (if y == x then 1 else 0)
  {
    if s != [] {
      assert (s + [y])[1..] == s[1..] + [y];
      CountAppend(s[1..], y, x);
    }
  }

  /** list.remove: drops the first occurrence of `e`, if any. */
  function RemoveFirst(s: seq<EventName>, e: EventName): (r: seq<EventName>)
    ensures e in s ==> |r| == |s| - 1
    ensures e !in s ==> r == s
  {
    if s == [] then []
    else if s[0] == e then s[1..]
    else
      assert s == [s[0]] + s[1..];
      [s[0]] + RemoveFirst(s[1..], e)
  }

  /** Removal takes away one occurrence of `e`, when there is one, and nothing else. */
  lemma {:induction false} RemoveFirstCount(s: seq<EventName>, e: EventName, x: EventName)
    ensures Count(RemoveFirst(s, e), x) == if x == e && Count(s, x) > 0 then Count(s, x) - 1 else Count(s, x)
  {
    if s != [] && s[0] != e {
      RemoveFirstCount(s[1..], e, x);
      var r := RemoveFirst(s, e);
      assert r[0] == s[0] && r[1..] == RemoveFirst(s[1..], e);
    }
  }

  /** A button event that enables: accel or decel released with openpilot longitudinal control, decel released otherwise. */
  predicate Enables(b: ButtonEvent, longControl: bool, sccLive: bool, cruiseEnabled: bool) {
    if longControl && !sccLive then (b.kind == AccelCruise || b.kind == DecelCruise) && !b.pressed
    else !longControl && cruiseEnabled && b.kind == DecelCruise && !b.pressed
  }

  /** events.add when `c` holds. */
  function AddIf(s: seq<EventName>, c: bool, x: EventName): seq<EventName>
  {
    if c then s + [x] else s
  }

  /** `if x in events: events.remove(x)`. */
  function Discard(s: seq<EventName>, x: EventName): seq<EventName>
  {
    if x in s then RemoveFirst(s, x) else s
  }

  lemma AddIfCount(s: seq<EventName>, c: bool, x: EventName, e: EventName)
    ensures Count(AddIf(s, c, x), e) == Count(s, e) + (if c && e == x then 1 else 0)
  {
    if c {
      CountAppend(s, x, e);
    }
  }

  lemma DiscardCount(s: seq<EventName>, x: EventName, e: EventName)
    ensures Count(Discard(s, x), e) == if e == x && Count(s, e) > 0 then Count(s, e) - 1 else Count(s, e)
  {
    CountIn(s, x);
    if x in s {
      RemoveFirstCount(s, x, e);
    }
  }

  /** The event rules for one button event. */
  function RuleStep(events: seq<EventName>, b: ButtonEvent, longControl: bool, sccLive: bool, cruiseEnabled: bool): (r: seq<EventName>)
  {
    var added := AddIf(AddIf(events, b.kind == Cancel && b.pressed, ButtonCancel),
                       Enables(b, longControl, sccLive, cruiseEnabled), ButtonEnable);
    if longControl && !sccLive then Discard(Discard(added, WrongCarMode), PcmDisable) else added
  }

  /** The event rules for every button event of the frame, in order. */
  function ButtonRules(events: seq<EventName>, bs: seq<ButtonEvent>, longControl: bool, sccLive: bool, cruiseEnabled: bool): seq<EventName>
  {
    if bs == [] then events
    else RuleStep(ButtonRules(events, bs[..|bs| - 1], longControl, sccLive, cruiseEnabled), bs[|bs| - 1], longControl, sccLive, cruiseEnabled)
  }

  /** The loop over the frame's button events. */
  method ApplyButtonRules(events: seq<EventName>, bs: seq<ButtonEvent>, longControl: bool, sccLive: bool, cruiseEnabled: bool)
    returns (r: seq<EventName>)
    ensures r == ButtonRules(events, bs, longControl, sccLive, cruiseEnabled)
  {
    r := events;
    for i := 0 to |bs|
      invariant r == ButtonRules(events, bs[..i], longControl, sccLive, cruiseEnabled)
    {
      assert bs[..i + 1][..i] == bs[..i];
      var b := bs[i];
      if b.kind == Cancel && b.pressed {
        r := r + [ButtonCancel];
      }
      if longControl && !sccLive {
        if (b.kind == AccelCruise || b.kind == DecelCruise) && !b.pressed {
          r := r + [ButtonEnable];
        }
        if WrongCarMode in r {
          r := RemoveFirst(r, WrongCarMode);
        }
        if PcmDisable in r {
          r := RemoveFirst(r, PcmDisable);
        }
      } else if !longControl && cruiseEnabled {
        if b.kind == DecelCruise && !b.pressed {
          r := r + [ButtonEnable];
        }
      }
    }
    assert bs[..|bs|] == bs;
  }

  /** How many times one event occurs after the rules for one button event. */
  function StepCount(events: seq<EventName>, b: ButtonEvent, longControl: bool, sccLive: bool, cruiseEnabled: bool, e: EventName): nat
  {
    var added := Count(events, e)
      + (if e == ButtonCancel && b.kind == Cancel && b.pressed then 1 else 0)
      + (if e == ButtonEnable && Enables(b, longControl, sccLive, cruiseEnabled) then 1 else 0);
    if longControl && !sccLive && (e == WrongCarMode || e == PcmDisable) && added > 0 then added - 1 else added
  }

  lemma RuleStepCount(events: seq<EventName>, b: ButtonEvent, longControl: bool, sccLive: bool, cruiseEnabled: bool, e: EventName)
    ensures Count(RuleStep(events, b, longControl, sccLive, cruiseEnabled), e)
         == StepCount(events, b, longControl, sccLive, cruiseEnabled, e)
  {
    var a1 := AddIf(events, b.kind == Cancel && b.pressed, ButtonCancel);
    var a2 := AddIf(a1, Enables(b, longControl, sccLive, cruiseEnabled), ButtonEnable);
    AddIfCount(events, b.kind == Cancel && b.pressed, ButtonCancel, e);
    AddIfCount(a1, Enables(b, longControl, sccLive, cruiseEnabled), ButtonEnable, e);
    if longControl && !sccLive {
      var d1 := Discard(a2, WrongCarMode);
      DiscardCount(a2, WrongCarMode, e);
      DiscardCount(d1, PcmDisable, e);
    }
  }

  /** buttonCancel is added once per pressed cancel event and never removed. */
  lemma {:induction false} CancelCount(events: seq<EventName>, bs: seq<ButtonEvent>, longControl: bool, sccLive: bool, cruiseEnabled: bool)
    ensures Count(ButtonRules(events, bs, longControl, sccLive, cruiseEnabled), ButtonCancel)
         == Count(events, ButtonCancel) + |CancelPresses(bs)|
  {
    if bs != [] {
      var init := bs[..|bs| - 1];
      CancelCount(events, init, longControl, sccLive, cruiseEnabled);
      RuleStepCount(ButtonRules(events, init, longControl, sccLive, cruiseEnabled), bs[|bs| - 1], longControl, sccLive, cruiseEnabled, ButtonCancel);
      CancelPressesStep(bs);
    }
  }

  /** The positions of the pressed cancel events. */
  function CancelPresses(bs: seq<ButtonEvent>): set<int> {
    set i | 0 <= i < |bs| && bs[i].kind == Cancel && bs[i].pressed
  }

  lemma CancelPressesStep(bs: seq<ButtonEvent>)
    requires bs != []
    ensures |CancelPresses(bs)| == |CancelPresses(bs[..|bs| - 1])| + if bs[|bs| - 1].kind == Cancel && bs[|bs| - 1].pressed then 1 else 0
  {
    var init, last := bs[..|bs| - 1], |bs| - 1;
    assert CancelPresses(init) == set i | 0 <= i < last && bs[i].kind == Cancel && bs[i].pressed;
    if bs[last].kind == Cancel && bs[last].pressed {
      assert CancelPresses(bs) == CancelPresses(init) + {last};
    } else {
      assert CancelPresses(bs) == CancelPresses(init);
    }
  }

  /** buttonEnable is present afterwards iff it was before or some button event enables. */
  lemma {:induction false} EnableIff(events: seq<EventName>, bs: seq<ButtonEvent>, longControl: bool, sccLive: bool, cruiseEnabled: bool)
    ensures ButtonEnable in ButtonRules(events, bs, longControl, sccLive, cruiseEnabled) <==>
      ButtonEnable in events || exists i :: 0 <= i < |bs| && Enables(bs[i], longControl, sccLive, cruiseEnabled)
  {
    if bs != [] {
      var init := bs[..|bs| - 1];
      EnableIff(events, init, longControl, sccLive, cruiseEnabled);
      var pre := ButtonRules(events, init, longControl, sccLive, cruiseEnabled);
      RuleStepCount(pre, bs[|bs| - 1], longControl, sccLive, cruiseEnabled, ButtonEnable);
      CountIn(pre, ButtonEnable);
      CountIn(ButtonRules(events, bs, longControl, sccLive, cruiseEnabled), ButtonEnable);
      if exists i :: 0 <= i < |bs| && Enables(bs[i], longControl, sccLive, cruiseEnabled) {
        var i :| 0 <= i < |bs| && Enables(bs[i], longControl, sccLive, cruiseEnabled);
        if i < |init| {
          assert init[i] == bs[i];
        }
      }
      if exists i :: 0 <= i < |init| && Enables(init[i], longControl, sccLive, cruiseEnabled) {
        var i :| 0 <= i < |init| && Enables(init[i], longControl, sccLive, cruiseEnabled);
        assert bs[i] == init[i];
      }
    }
  }

  /**
   * With openpilot longitudinal control and SCC not live, each button event
   * removes one wrongCarMode and one pcmDisable: as many as there are events
   * disappear. Otherwise the rules never remove anything.
   */
  lemma {:induction false} RemovedCount(events: seq<EventName>, bs: seq<ButtonEvent>, longControl: bool, sccLive: bool, cruiseEnabled: bool, e: EventName)
    requires e == WrongCarMode || e == PcmDisable
    ensures longControl && !sccLive ==>
      Count(ButtonRules(events, bs, longControl, sccLive, cruiseEnabled), e)
        == if Count(events, e) <= |bs| then 0 else Count(events, e) - |bs|
    ensures !(longControl && !sccLive) ==>
      Count(ButtonRules(events, bs, longControl, sccLive, cruiseEnabled), e) == Count(events, e)
  {
    if bs != [] {
      var init := bs[..|bs| - 1];
      RemovedCount(events, init, longControl, sccLive, cruiseEnabled, e);
      RuleStepCount(ButtonRules(events, init, longControl, sccLive, cruiseEnabled), bs[|bs| - 1], longControl, sccLive, cruiseEnabled, e);
    }
  }

  /** Events other than the four the rules handle are left exactly as counted. */
  lemma {:induction false} OthersUntouched(events: seq<EventName>, bs: seq<ButtonEvent>, longControl: bool, sccLive: bool, cruiseEnabled: bool, e: EventName)
    requires e !in {ButtonCancel, ButtonEnable, WrongCarMode, PcmDisable}
    ensures Count(ButtonRules(events, bs, longControl, sccLive, cruiseEnabled), e) == Count(events, e)
  {
    if bs != [] {
      var init := bs[..|bs| - 1];
      OthersUntouched(events, init, longControl, sccLive, cruiseEnabled, e);
      RuleStepCount(ButtonRules(events, init, longControl, sccLive, cruiseEnabled), bs[|bs| - 1], longControl, sccLive, cruiseEnabled, e);
    }
  }

  // ---------------------------------------------------------------------------
  // The per-frame update

  /** What update reads in one frame, already decoded from CAN and the controller. */
  datatype Frame = Frame(
    sccLive: bool,
    longControl: bool,
    keepSteeringTurnSignals: bool,
    leftBlinker: bool,
    rightBlinker: bool,
    turningSignalTimer: bool,
    vEgo: real,
    cruiseAvailable: bool,
    cruiseEnabled: bool,
    cruiseUnavail: bool,
    mdpsBus: int,
    cruiseButtons: int,
    prevCruiseButtons: int,
    mainButton: bool,
    prevMainButton: bool,
    commonEvents: seq<EventName>)

  /** The common events followed by the interface's own alerts, before the button rules. */
  function AlertEvents(f: Frame, lowSpeedAlert: bool, turningIndicatorAlert: bool): seq<EventName>
  {
    f.commonEvents
      + (if f.longControl && f.cruiseUnavail then [BrakeUnavailable] else [])
      + (if lowSpeedAlert && f.mdpsBus == 0 then [BelowSteerSpeed] else [])
      + (if turningIndicatorAlert then [TurningIndicatorOn] else [])
  }

  /**
   * Hysteresis of the low-speed alert: raised below minSteerSpeed + 0.2 (only
   * for cars that cut steering above 10 m/s), cleared above minSteerSpeed + 0.7,
   * held in between.
   */
  function NextLowSpeedAlert(prev: bool, vEgo: real, minSteerSpeed: real): (alert: bool)
    ensures vEgo > minSteerSpeed + 0.7 ==> !alert
    ensures vEgo < minSteerSpeed + 0.2 && minSteerSpeed > 10.0 ==> alert
    ensures minSteerSpeed + 0.2 <= vEgo <= minSteerSpeed + 0.7 ==> alert == prev
    ensures minSteerSpeed <= 10.0 && vEgo <= minSteerSpeed + 0.7 ==> alert == prev
  {
    if vEgo > minSteerSpeed + 0.7 then false
    else if vEgo < minSteerSpeed + 0.2 && minSteerSpeed > 10.0 then true
    else prev
  }

  /** Once raised at some speed, the alert stays raised until the speed exceeds minSteerSpeed + 0.7. */
  lemma {:induction false} LowSpeedAlertLatches(prev: bool, speeds: seq<real>, minSteerSpeed: real)
    requires prev
    requires forall i :: 0 <= i < |speeds| ==> speeds[i] <= minSteerSpeed + 0.7
    ensures AlertAfter(prev, speeds, minSteerSpeed)
  {
    if speeds != [] {
      LowSpeedAlertLatches(prev, speeds[..|speeds| - 1], minSteerSpeed);
    }
  }

  /** The alert after a run of frames with the given speeds. */
  function AlertAfter(prev: bool, speeds: seq<real>, minSteerSpeed: real): bool {
    if speeds == [] then prev
    else NextLowSpeedAlert(AlertAfter(prev, speeds[..|speeds| - 1], minSteerSpeed), speeds[|speeds| - 1], minSteerSpeed)
  }

  datatype Output = Output(cruiseEnabled: bool, buttonEvents: seq<ButtonEvent>, events: seq<EventName>)

  /** The frame's events: the common ones, the interface's alerts, then the button rules. */
  method CollectEvents(f: Frame, lowSpeedAlert: bool, turningIndicatorAlert: bool, buttonEvents: seq<ButtonEvent>, cruiseEnabled: bool)
    returns (events: seq<EventName>)
    ensures events == ButtonRules(AlertEvents(f, lowSpeedAlert, turningIndicatorAlert), buttonEvents, f.longControl, f.sccLive, cruiseEnabled)
  {
    events := f.commonEvents;
    if f.longControl && f.cruiseUnavail {
      events := events + [BrakeUnavailable];
    }
    if lowSpeedAlert && f.mdpsBus == 0 {
      events := events + [BelowSteerSpeed];
    }
    if turningIndicatorAlert {
      events := events + [TurningIndicatorOn];
    }
    assert events == AlertEvents(f, lowSpeedAlert, turningIndicatorAlert);
    events := ApplyButtonRules(events, buttonEvents, f.longControl, f.sccLive, cruiseEnabled);
  }

  class CarInterface {
    const madMode: bool
    const minSteerSpeed: real
    const laneChangeSpeedMin: real

    var pcmCruise: bool
    var lowSpeedAlert: bool
    var turningIndicatorAlert: bool

    constructor (p: BusParams, madMode: bool, minSteerSpeed: real, laneChangeSpeedMin: real)
      ensures this.madMode == madMode && this.minSteerSpeed == minSteerSpeed
      ensures this.laneChangeSpeedMin == laneChangeSpeedMin
      ensures pcmCruise == p.pcmCruise && !lowSpeedAlert && !turningIndicatorAlert
    {
      this.madMode := madMode;
      this.minSteerSpeed := minSteerSpeed;
      this.laneChangeSpeedMin := laneChangeSpeedMin;
      pcmCruise := p.pcmCruise;
      lowSpeedAlert := false;
      turningIndicatorAlert := false;
    }

    /** Follows the SCC module: pcmCruise is switched to whether SCC is live. */
    method SyncPcmCruise(sccLive: bool)
      modifies this`pcmCruise
      ensures pcmCruise == sccLive
    {
      if pcmCruise && !sccLive {
        pcmCruise := false;
      } else if sccLive && !pcmCruise {
        pcmCruise := true;
      }
    }

    /** The low-speed steering alert's hysteresis, applied as the source's two ifs. */
    method UpdateLowSpeedAlert(vEgo: real)
      modifies this`lowSpeedAlert
      ensures lowSpeedAlert == NextLowSpeedAlert(old(lowSpeedAlert), vEgo, minSteerSpeed)
    {
      if vEgo < minSteerSpeed + 0.2 && minSteerSpeed > 10.0 {
        lowSpeedAlert := true;
      }
      if vEgo > minSteerSpeed + 0.7 {
        lowSpeedAlert := false;
      }
    }

    /** The interface's own state for one frame: pcmCruise, the turning alert and the low-speed alert. */
    method UpdateAlerts(f: Frame)
      modifies this`pcmCruise, this`lowSpeedAlert, this`turningIndicatorAlert
      ensures pcmCruise == f.sccLive
      ensures turningIndicatorAlert <==>
        !f.keepSteeringTurnSignals && (f.leftBlinker || f.rightBlinker || f.turningSignalTimer)
        && f.vEgo < laneChangeSpeedMin - 1.2
      ensures lowSpeedAlert == NextLowSpeedAlert(old(lowSpeedAlert), f.vEgo, minSteerSpeed)
    {
      SyncPcmCruise(f.sccLive);

      if !f.keepSteeringTurnSignals && (f.leftBlinker || f.rightBlinker || f.turningSignalTimer)
         && f.vEgo < laneChangeSpeedMin - 1.2 {
        turningIndicatorAlert := true;
      } else {
        turningIndicatorAlert := false;
      }

      UpdateLowSpeedAlert(f.vEgo);
    }

    /** One frame of update, without the CAN parsing and the SCC smoother's events. */
    method Update(f: Frame) returns (out: Output)
      modifies this`pcmCruise, this`lowSpeedAlert, this`turningIndicatorAlert
      ensures pcmCruise == f.sccLive
      ensures turningIndicatorAlert <==>
        !f.keepSteeringTurnSignals && (f.leftBlinker || f.rightBlinker || f.turningSignalTimer)
        && f.vEgo < laneChangeSpeedMin - 1.2
      ensures lowSpeedAlert == NextLowSpeedAlert(old(lowSpeedAlert), f.vEgo, minSteerSpeed)
      ensures out.cruiseEnabled == if madMode then f.cruiseAvailable else f.cruiseEnabled
      ensures out.buttonEvents == ButtonEvents(f.cruiseButtons, f.prevCruiseButtons, f.mainButton, f.prevMainButton)
      ensures out.events == ButtonRules(AlertEvents(f, lowSpeedAlert, turningIndicatorAlert),
        out.buttonEvents, f.longControl, f.sccLive, out.cruiseEnabled)
    {
      UpdateAlerts(f);

      var cruiseEnabled := f.cruiseEnabled;
      if madMode {
        cruiseEnabled := f.cruiseAvailable;
      }

      var buttonEvents := CollectButtonEvents(f.cruiseButtons, f.prevCruiseButtons, f.mainButton, f.prevMainButton);

      var events := CollectEvents(f, lowSpeedAlert, turningIndicatorAlert, buttonEvents, cruiseEnabled);
      out := Output(cruiseEnabled, buttonEvents, events);
    }
  }

  /**
   * No frame raises buttonCancel: the cruise CANCEL button is never mapped to
   * the cancel type, so the rules keep the common events' count of it.
   */
  lemma NoButtonCancel(f: Frame, cruiseEnabled: bool, base: seq<EventName>)
    requires forall i :: 0 <= i < |base| ==> base[i] != ButtonCancel
    ensures ButtonCancel !in ButtonRules(base,
      ButtonEvents(f.cruiseButtons, f.prevCruiseButtons, f.mainButton, f.prevMainButton),
      f.longControl, f.sccLive, cruiseEnabled)
  {
    var bs := ButtonEvents(f.cruiseButtons, f.prevCruiseButtons, f.mainButton, f.prevMainButton);
    CancelCount(base, bs, f.longControl, f.sccLive, cruiseEnabled);
    assert CancelPresses(bs) == {};
    CountIn(base, ButtonCancel);
    CountIn(ButtonRules(base, bs, f.longControl, f.sccLive, cruiseEnabled), ButtonCancel);
  }
}

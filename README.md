# A verified model of npilot's screen recorder, live tuning, Hyundai interface, onroad HUD logic and hybrid lateral controller

This project models the decision-making core of five parts of the npilot
driver-assistance fork, and proves properties of that model in Dafny.

- **Screen recorder** (`screen_recorder.dfy`, module `ScreenRecorder`). The
  on-screen record button.
  - A `Recorder` class whose methods start, stop and toggle a recording and
    run one UI tick (`update_screen`). A tick captures a frame, blinks the
    indicator, and starts a new segment after three minutes.
  - The output frame width is always even.
  - The file name follows the `YYYYMMDD-HHMMSS.mp4` pattern.
  - Captured images go into a bounded queue of 30.
  - The hardware encoder is a ghost session counter. Proved: a file is open
    exactly while recording, and every encoded image belongs to the session
    that captured it.
- **nTune** (`ntune.dfy`, module `NTune`). Live tuning of controller
  parameters.
  - The configuration is a `map<string, real>`. Each controller type, and
    each tuning group, has a table of (key, min, max, default) rules.
  - `checkValue` clamps a value into its range, or inserts the default when
    the key is missing.
  - A `Tuner` class holds the `checkValid*` family, the dispatch between
    them, the `invalidated` flag that gates `update`, and the file-change
    handler.
  - Proved: after validation every table key is present and in range. A
    second validation changes nothing. The returned "updated" flag is true
    exactly when the configuration changed.
- **Hyundai car interface** (`hyundai_interface.dfy`, module
  `HyundaiInterface`).
  - The derivation of CAN buses and features from the fingerprint, and the
    choice between the legacy and community safety models.
  - In a `CarInterface` class, the per-frame update:
    - it keeps `pcmCruise` in step with whether the SCC module (the car's
      cruise-control module) is live;
    - it raises the turning-indicator alert and the low-speed alert, the
      latter with hysteresis;
    - it turns cruise-button changes into button events;
    - it applies the button rules that add and remove events.
  - The rules are proved event by event: how many times each event occurs
    afterwards.
- **Onroad window** (`onroad.dfy`, module `Onroad`).
  - Touch gestures: swipes reset calibration, soft-restart the device or
    toggle the recorder; a tap toggles the map.
  - Going offroad stops the recorder.
  - The HUD decisions:
    - the speed limit shown, and the size of the max-speed board;
    - the max-speed and applied-speed labels;
    - the cruise-gap label;
    - the tire-pressure text and colour;
    - the speed colour.
  - The piecewise-linear `interp` helper, as a loop.
  - The turn-signal blink state, as a class named `TurnSignals`. The source
    keeps this state in function-static variables.
- **Hybrid lateral controller** (`latcontrol_hybrid.dfy`, module
  `LatControlHybrid`). Combines an LQR steering controller with a PID one.
  - The LQR integrator: it unwinds while the driver steers, and anti-windup
    keeps it from growing while the output is saturated.
  - The clipped LQR output.
  - The inactive branch, which resets the controller.
  - The error-rate window of the last five PID errors.
  - The final blend of the two branches.

Two helper modules are shared: `Wrappers` (`Option`) and `Decimal` (the
`%d` and `%0Nd` decimal text of integers, and reading digits back).

Plain `//` and `/** */` comments in the `.dfy` files explain each member.
Floating-point values are modelled as mathematical reals. Wherever the
source converts to `int`, the truncation toward zero is written out
(`Onroad.Trunc`).

## Model

| member | source | states |
|---|---|---|
| ScreenRecorder.DstWidth | selfdrive/ui/qt/screenrecorder/screenrecorder.cc:47-50 | the output width is even and is the scaled width or one more |
| ScreenRecorder.ProfileFor | selfdrive/ui/qt/screenrecorder/screenrecorder.cc:36-50 | every device profile has a 1080-line source, a 720-line output of even width, and that width is DstWidth of the source |
| ScreenRecorder.ProfileWidths | selfdrive/ui/qt/screenrecorder/screenrecorder.cc:39-50 | EON output is 1280 wide, every other device 1440 |
| ScreenRecorder.FileName | selfdrive/ui/qt/screenrecorder/screenrecorder.cc:129-132 | the printed name always fits the 64-byte buffer |
| ScreenRecorder.FileNameRoundTrip | selfdrive/ui/qt/screenrecorder/screenrecorder.cc:132 | with a four-digit year and two-digit fields the name is 19 characters of the form YYYYMMDD-HHMMSS.mp4, and parsing it gives back the same calendar fields |
| ScreenRecorder.PhaseColor | selfdrive/ui/qt/screenrecorder/screenrecorder.cc:72-75 | red exactly in the first half of every UI_FREQ frames, and never unset |
| ScreenRecorder.Latch | selfdrive/ui/qt/screenrecorder/screenrecorder.cc:70 | the last colour re-evaluation frame is at most the current frame, is a multiple of UI_FREQ/2, and is less than half a period back |
| ScreenRecorder.LatchStep | selfdrive/ui/qt/screenrecorder/screenrecorder.cc:70 | between re-evaluation frames the latched frame stays the same |
| ScreenRecorder.LatchedColorIsPhase | selfdrive/ui/qt/screenrecorder/screenrecorder.cc:68-79 | with an even UI_FREQ, re-evaluating only every half period still shows exactly the phase colour of the current frame |
| ScreenRecorder.Enqueue | selfdrive/ui/qt/screenrecorder/screenrecorder.cc:24 | the queue never exceeds 30; below capacity a push appends; every queued item is an old item or the new one |
| ScreenRecorder.Recorder.constructor | selfdrive/ui/qt/screenrecorder/screenrecorder.cc:24-62 | idle, frame 0, empty queue, the device profile, no session opened |
| ScreenRecorder.Recorder.ApplyColor | selfdrive/ui/qt/screenrecorder/screenrecorder.cc:68-79 | on every half-period frame the colour becomes the phase colour, and otherwise it is kept |
| ScreenRecorder.Recorder.Background | selfdrive/ui/qt/screenrecorder/screenrecorder.cc:95 | the painted disc is dim when idle and the indicator colour while recording; with an even UI_FREQ that colour is the phase colour of the last tick |
| ScreenRecorder.Recorder.Start | selfdrive/ui/qt/screenrecorder/screenrecorder.cc:124-146 | a no-op while recording; otherwise it opens one session named by FileName, resets the frame counter, records the start time and plays the start cue only when asked |
| ScreenRecorder.Recorder.OpenEncoder | selfdrive/ui/qt/screenrecorder/screenrecorder.cc:107-110 | the encoder is given the new file name and one more session is opened |
| ScreenRecorder.Recorder.Stop | selfdrive/ui/qt/screenrecorder/screenrecorder.cc:167-182 | a no-op while idle; otherwise it closes the session, empties the queue and plays the stop cue only when asked |
| ScreenRecorder.Recorder.Toggle | selfdrive/ui/qt/screenrecorder/screenrecorder.cc:116-122 | flips recording; from idle the whole new state is start's with the cue (one new session named by FileName, frame 0, empty queue, colour and deliveries kept), and while recording it is stop's with the cue (session closed, queue emptied, frame, start time, colour, sessions, files and deliveries kept) |
| ScreenRecorder.Recorder.UpdateScreen | selfdrive/ui/qt/screenrecorder/screenrecorder.cc:184-205 | once a recording is over three minutes old a tick closes it and opens a new one without a cue; otherwise it re-evaluates the colour, enqueues the frame and advances the counter; while idle it only advances the counter |
| ScreenRecorder.Recorder.Capture | selfdrive/ui/qt/screenrecorder/screenrecorder.cc:194-201 | a tick within the segment sets the colour to the phase colour of the latched frame and enqueues the screen, tagged with the open session |
| ScreenRecorder.Recorder.EncodeStep | selfdrive/ui/qt/screenrecorder/screenrecorder.cc:148-165 | while recording, one worker step takes the oldest queued image, and the image was captured in the open session; it takes nothing when idle or when the queue is empty |
| Decimal.IntText | selfdrive/ui/qt/onroad.cc:585 | "%d" text: a non-negative number prints as digits reading back to its value; a negative one prints as '-' followed by the digits of its magnitude; no leading zero is printed except for 0 itself |
| Decimal.ZeroPad | selfdrive/ui/qt/screenrecorder/screenrecorder.cc:132 | "%0Nd" text: at least N digits, reading back to the value |
| Decimal.ValueOfDigits | selfdrive/ui/qt/onroad.cc:585 | the digits of n read back as n |
| NTune.Fix | selfdrive/ntune.py:130-143 | checkValue: only the rule's key changes; a missing key gets the default, a low value the minimum, a high value the maximum; the configuration is unchanged exactly when the value was present and in range |
| NTune.ApplyRulesFrame | selfdrive/ntune.py:170-251 | validation adds exactly the table's keys and leaves every other key's value alone |
| NTune.ApplyRulesInRange | selfdrive/ntune.py:170-251 | after validation with a table whose keys are distinct and whose defaults are in range, every table key is present and in range |
| NTune.ApplyRulesNoop | selfdrive/ntune.py:130-143 | validation of an already valid configuration changes nothing |
| NTune.ApplyRulesChanges | selfdrive/ntune.py:170-251 | validation changes the configuration exactly when some key was missing or out of range |
| NTune.SuffixKeepsKey | selfdrive/ntune.py:170-251 | a key's final value is the one its own checkValue gave it |
| NTune.Idempotent | selfdrive/ntune.py:111-112 | a second validation finds everything in range and returns the configuration unchanged |
| NTune.TablesWellFormed | selfdrive/ntune.py:170-251 | every table has distinct keys and a default inside [min, max] |
| NTune.RulesFor | selfdrive/ntune.py:145-156 | checkValid's dispatch: LQR, INDI or TORQUE by controller type, then the "common" group, else the ISCC table; the chosen table is well formed |
| NTune.Enabled | selfdrive/ntune.py:362-363 | the comparison on a configuration: a value exists exactly for a present key, and it is true exactly when the stored value exceeds 0.5 |
| NTune.DefaultInserted | selfdrive/ntune.py:130-143 | a table key missing before validation holds its rule's default afterwards |
| NTune.CommonEnabled | selfdrive/ntune.py:339-363 | ntune_common_enabled: a present key compares its value with 0.5; a missing key is looked up after the reload's common validation, so it resolves exactly when the reloaded file has it or it is a common key, and a common key the file also lacks gives its default > 0.5 |
| NTune.LiveSteerRatioDefaultsOn | selfdrive/ntune.py:173 | a useLiveSteerRatio missing from both the loaded and the reloaded configuration is enabled, by its default 1.0 |
| NTune.CommonKeysResolve | selfdrive/ntune.py:170-188 | after the common group's validation every common key resolves, and useLiveSteerRatio lies in [0, 1] |
| NTune.Step | selfdrive/ntune.py:170-188 | one more checkValue in a run extends the validated prefix by one rule, and the updated flag accumulates "some key was out of range" |
| NTune.Tuner.CheckRule | selfdrive/ntune.py:170-251 | one `if checkValue(...): updated = True` for rule k of a table: afterwards the first k + 1 rules are applied and the flag says whether any of their keys was missing or out of range |
| NTune.Tuner.constructor | selfdrive/ntune.py:40-49 | an empty configuration, not invalidated, nothing applied or written |
| NTune.Tuner.CheckValue | selfdrive/ntune.py:130-143 | the new configuration is Fix of the old one, and the result is true exactly when the key was missing or out of range |
| NTune.Tuner.CheckValidCommon | selfdrive/ntune.py:170-188 | the configuration is the common table applied in order, and the result is true exactly when some common key was missing or out of range |
| NTune.Tuner.CheckValidLqr | selfdrive/ntune.py:190-205 | the same for the LQR table |
| NTune.Tuner.CheckValidIndi | selfdrive/ntune.py:207-219 | the same for the INDI table |
| NTune.Tuner.CheckValidTorque | selfdrive/ntune.py:221-237 | the same for the torque table |
| NTune.Tuner.CheckValidIscc | selfdrive/ntune.py:239-251 | the same for the ISCC table |
| NTune.Tuner.CheckValid | selfdrive/ntune.py:145-156 | validation with the dispatched table; the result is true exactly when the configuration changed |
| NTune.Tuner.Update | selfdrive/ntune.py:158-168 | parameters are pushed to the LQR, INDI or torque controller unless live tuning is disabled, and never for a group tuner |
| NTune.Tuner.Check | selfdrive/ntune.py:99-102 | a pending reload is applied once and the flag cleared; without one nothing happens |
| NTune.Tuner.Handle | selfdrive/ntune.py:85-97 | a readable file's configuration is validated, written back only when validation changed it, and the tuner is marked invalidated; with an unreadable file nothing changes |
| HyundaiInterface.HarnessBus | selfdrive/car/hyundai/interface.py:347-348 | bus 1 exactly when the address is seen on bus 1 and bus 1 is not the L-CAN, else bus 0 |
| HyundaiInterface.SccBus | selfdrive/car/hyundai/interface.py:349-350 | the SCC bus is -1 to 2, and a non-negative bus actually carries SCC11 (and is free of L-CAN when it is bus 1) |
| HyundaiInterface.SccBusIsFirstVisible | selfdrive/car/hyundai/interface.py:349-350 | the SCC bus is the first bus with SCC visible, and -1 exactly when SCC is visible on none |
| HyundaiInterface.GetParams | selfdrive/car/hyundai/interface.py:343-364 | every bus and feature flag from the fingerprint; hasScc13 and hasScc14 are set exactly when there is an SCC bus; radarOffCan exactly without SCC; pcmCruise is its negation; the community safety model exactly under the five conditions |
| HyundaiInterface.LegacyOnlyStock | selfdrive/car/hyundai/interface.py:362-364 | the legacy safety model is kept exactly for SCC on bus 0 or 2, a steering motor not on a harness bus, stock longitudinal control and no MAD mode |
| HyundaiInterface.CruiseButtonType | selfdrive/car/hyundai/interface.py:405-415 | RES_ACCEL, SET_DECEL and GAP_DIST map to their types, and everything else, CANCEL included, maps to unknown |
| HyundaiInterface.ButtonEvents | selfdrive/car/hyundai/interface.py:401-422 | one cruise event exactly when the cruise button value changed, pressed when the new value is nonzero and typed by the button involved; then one main-button event exactly when it changed; never a cancel event |
| HyundaiInterface.CollectButtonEvents | selfdrive/car/hyundai/interface.py:401-422 | the list built by appending is ButtonEvents |
| HyundaiInterface.PressThenRelease | selfdrive/car/hyundai/interface.py:402-416 | pressing then releasing a button gives a pressed then a released event of the same type; holding it gives none |
| HyundaiInterface.RemoveFirst | selfdrive/car/hyundai/interface.py:444-447 | list.remove shortens the list by one when the event is present and leaves it otherwise |
| HyundaiInterface.RemoveFirstCount | selfdrive/car/hyundai/interface.py:444-447 | removal takes away one occurrence of the removed event and leaves every other count |
| HyundaiInterface.ApplyButtonRules | selfdrive/car/hyundai/interface.py:436-451 | the loop over the button events computes ButtonRules |
| HyundaiInterface.RuleStepCount | selfdrive/car/hyundai/interface.py:436-451 | per button event, each event's new count is its old count, plus one for a pressed cancel or an enabling release, minus one for wrongCarMode and pcmDisable under openpilot longitudinal control without live SCC |
| HyundaiInterface.CancelCount | selfdrive/car/hyundai/interface.py:438-439 | buttonCancel is added once per pressed cancel event and never removed |
| HyundaiInterface.EnableIff | selfdrive/car/hyundai/interface.py:440-451 | buttonEnable is present afterwards exactly when it was before or some button event enables, per the long-control and cruise-enabled rules |
| HyundaiInterface.RemovedCount | selfdrive/car/hyundai/interface.py:444-447 | under openpilot longitudinal control without live SCC, each button event removes one wrongCarMode and one pcmDisable; otherwise neither is removed |
| HyundaiInterface.OthersUntouched | selfdrive/car/hyundai/interface.py:436-451 | every other event keeps its count |
| HyundaiInterface.CollectEvents | selfdrive/car/hyundai/interface.py:424-451 | the frame's events are the common events, then brakeUnavailable, belowSteerSpeed and turningIndicatorOn when raised, then the button rules |
| HyundaiInterface.CarInterface.SyncPcmCruise | selfdrive/car/hyundai/interface.py:379-382 | afterwards pcmCruise equals whether SCC is live |
| HyundaiInterface.NextLowSpeedAlert | selfdrive/car/hyundai/interface.py:395-399 | the hysteresis: the alert is cleared above minSteerSpeed + 0.7, raised below minSteerSpeed + 0.2 for cars cutting steering above 10 m/s, and held in between (always held at or below minSteerSpeed + 0.7 for other cars) |
| HyundaiInterface.LowSpeedAlertLatches | selfdrive/car/hyundai/interface.py:395-399 | once raised, the alert stays raised over any run of frames whose speed never exceeds minSteerSpeed + 0.7 |
| HyundaiInterface.CarInterface.UpdateLowSpeedAlert | selfdrive/car/hyundai/interface.py:395-399 | the two ifs leave the alert as the hysteresis function says |
| HyundaiInterface.CarInterface.UpdateAlerts | selfdrive/car/hyundai/interface.py:379-399 | pcmCruise follows SCC, the turning alert fires exactly on the blinker-or-timer condition below the lane-change speed minus 1.2 without keep-steering, and the low-speed alert follows the hysteresis |
| HyundaiInterface.CarInterface.Update | selfdrive/car/hyundai/interface.py:370-460 | pcmCruise follows SCC; the turning alert fires exactly as the blinker and speed condition says; the low-speed alert follows the hysteresis function; in MAD mode cruise-enabled is cruise-available; the button events and the events are as above |
| HyundaiInterface.NoButtonCancel | selfdrive/car/hyundai/interface.py:412-439 | since CANCEL is never mapped to the cancel type, a frame never adds buttonCancel |
| Onroad.Trunc | selfdrive/ui/qt/onroad.cc:627 | C's (int) cast: truncation toward zero, less than one unit from the value |
| Onroad.TruncMonotone | selfdrive/ui/qt/onroad.cc:627 | truncation is monotone |
| Onroad.Classify | selfdrive/ui/qt/onroad.cc:89-125 | a tap exactly when the release is within 250 px horizontally and 200 px vertically; upward and downward vertical swipes; a sideways swipe when it is wider than tall; a diagonal swipe does nothing |
| Onroad.MirroredGestures | selfdrive/ui/qt/onroad.cc:94-122 | a left-right mirror keeps the gesture; an up-down mirror swaps the calibration reset and the soft restart |
| Onroad.SidewaysToggles | selfdrive/ui/qt/onroad.cc:113-121 | every release more than 250 px sideways and wider than tall toggles the recorder, in either direction |
| Onroad.OnroadWindow.constructor | selfdrive/ui/qt/onroad.cc:16-66 | the window creates a fresh, idle recorder with no session opened (line 60), holds the given map state, and has no actions yet |
| Onroad.OnroadWindow.MousePress | selfdrive/ui/qt/onroad.cc:135-138 | the press position is stored |
| Onroad.OnroadWindow.MouseRelease | selfdrive/ui/qt/onroad.cc:89-133 | an upward swipe removes both calibration parameters, schedules a soft restart in 1.5 s and plays the reset sound; a downward swipe schedules one in 0.5 s; a sideways swipe toggles the recorder (its whole new state is start's or stop's with the cue); each swipe leaves the map unchanged; a tap sets the map visible exactly when the sidebar is hidden and the map was not visible |
| Onroad.OnroadWindow.OffroadTransition | selfdrive/ui/qt/onroad.cc:160-166 | the stream follows the wide-camera setting; going offroad stops a recording recorder without a cue (its whole new state is stop's) and leaves an idle one unchanged, and going onroad leaves it alone |
| Onroad.LimitSelection | selfdrive/ui/qt/onroad.cc:680-690 | the camera limit with its distance when both are positive, else the section limit likewise, else none |
| Onroad.BoardFor | selfdrive/ui/qt/onroad.cc:704-733 | the board is 210 or 230 wide with a limit sign, 485 tall with a road limit panel, 235 tall otherwise |
| Onroad.BoardSections | selfdrive/ui/qt/onroad.cc:718-733 | below the max-speed part the board holds a square for the limit sign, a 275 px panel for the road limit, or nothing |
| Onroad.MaxSpeedLabel | selfdrive/ui/qt/onroad.cc:745-756 | "N/A" unless a cruise speed between 0 and 255 is set; otherwise the rounded speed, in mph unless metric |
| Onroad.ApplySpeedLabel | selfdrive/ui/qt/onroad.cc:771-779 | the applied speed when cruise is set and that speed is positive, else "OP" under openpilot longitudinal control, else "MAX" |
| Onroad.SpeedTextRounds | selfdrive/ui/qt/onroad.cc:748-751 | a speed label is digits, and their value is the speed rounded half up |
| Onroad.UnsetLabelsAreWords | selfdrive/ui/qt/onroad.cc:753-779 | without cruise set neither label is a number, and the small one is "OP" exactly under openpilot longitudinal control |
| Onroad.GapLabelFor | selfdrive/ui/qt/onroad.cc:573-588 | an unset gap is "N/A"; the automatic gap under long control is a highlighted "AUTO"; otherwise the gap in highlighted large digits |
| Onroad.GapLabelNumeric | selfdrive/ui/qt/onroad.cc:577-588 | the label is a number exactly when the gap is set and not the automatic one |
| Onroad.TpmsColorFor | selfdrive/ui/qt/onroad.cc:506-512 | the low-pressure colour exactly for readings in [5, 31) |
| Onroad.TpmsText | selfdrive/ui/qt/onroad.cc:514-521 | empty outside [5, 60]; otherwise digits of the reading rounded |
| Onroad.TpmsConsistent | selfdrive/ui/qt/onroad.cc:506-521 | an empty text always has the neutral colour; the low colour always shows a number from 5 to 31 |
| Onroad.SpeedShade | selfdrive/ui/qt/onroad.cc:626-637 | the shade is in [80, 255] while accelerating and in [60, 255] otherwise |
| Onroad.SpeedColor | selfdrive/ui/qt/onroad.cc:624-637 | blue-tinted while accelerating, red-tinted otherwise, always alpha 230 |
| Onroad.SpeedShadeMonotone | selfdrive/ui/qt/onroad.cc:626-637 | harder acceleration or harder braking never lightens the shade |
| Onroad.SpeedShadeEnds | selfdrive/ui/qt/onroad.cc:624-637 | white at rest, the full tint from 2 m/s² of acceleration and from 3 m/s² of braking |
| Onroad.Interp | selfdrive/ui/qt/onroad.cc:885-907 | held flat beyond the ends without extrapolation, the end segments extended with it, and inside the range the value on the segment containing x |
| Onroad.LineBetween | selfdrive/ui/qt/onroad.cc:905-906 | on its segment a line stays between the segment's end values |
| Onroad.InterpWithinSegment | selfdrive/ui/qt/onroad.cc:899-906 | the interpolated value on a segment lies between the two ys of that segment |
| Onroad.ArrowAlpha | selfdrive/ui/qt/onroad.cc:1092-1095 | opacity in (0, 0.8], with 0.8 exactly for the lit arrow |
| Onroad.ArrowAlphaFades | selfdrive/ui/qt/onroad.cc:1092-1095 | arrows further from the lit one are strictly dimmer |
| Onroad.TurnSignals.constructor | selfdrive/ui/qt/onroad.cc:1063-1065 | arrow 0, no wait, timestamp 0 |
| Onroad.TurnSignals.Tick | selfdrive/ui/qt/onroad.cc:1067-1134 | while waiting, count down with arrow 0; with a blinker on, advance once per 900/UI_FREQ ms and, past the last arrow, hold the last one and wait UI_FREQ/4 frames; with no blinker on, go back to arrow 0 |
| LatControlHybrid.Window | selfdrive/controls/lib/latcontrol_hybrid.py:109-111 | the stored errors are the last min(5, n) errors of the history |
| LatControlHybrid.ErrorRateLooksBack | selfdrive/controls/lib/latcontrol_hybrid.py:105-107 | the error rate is the change against the error exactly five frames back, divided by 5, and 0 during the first five frames |
| LatControlHybrid.WindowAppend | selfdrive/controls/lib/latcontrol_hybrid.py:109-111 | appending the new error and popping from the front once gives the window of the longer history |
| LatControlHybrid.Unwind | selfdrive/controls/lib/latcontrol_hybrid.py:82-83 | unwinding subtracts the unwind rate from a positive integrator and adds it to a negative one, and leaves 0 at 0; a value at least the rate away from zero stays on its side, and one closer than the rate crosses to the other side |
| LatControlHybrid.UnsaturatedAccepts | selfdrive/controls/lib/latcontrol_hybrid.py:89-91 | an unsaturated output always takes the new integrator value |
| LatControlHybrid.SaturatedRejects | selfdrive/controls/lib/latcontrol_hybrid.py:89-91 | an output saturated in the error's direction, with the integrator pushing the same way, holds the integrator |
| LatControlHybrid.Clip | selfdrive/controls/lib/latcontrol_hybrid.py:94 | clip lies within the limits and is the identity inside them |
| LatControlHybrid.BlendWithinLimit | selfdrive/controls/lib/latcontrol_hybrid.py:118-119 | with both branches within the steering limit and a weight in [0, 1], the blended output is within the limit |
| LatControlHybrid.LatControl.constructor | selfdrive/controls/lib/latcontrol_hybrid.py:16-39 | ki 0.01, unwind rate 0.3·DT_CTRL, integrator rate 1.0·DT_CTRL, a reset state |
| LatControlHybrid.LatControl.Reset | selfdrive/controls/lib/latcontrol_hybrid.py:42-46 | the integrator is 0 and the error window empty |
| LatControlHybrid.LatControl.Integrate | selfdrive/controls/lib/latcontrol_hybrid.py:82-91 | the integrator unwinds while the driver steers, and otherwise takes the new value exactly when anti-windup accepts it |
| LatControlHybrid.LatControl.PushError | selfdrive/controls/lib/latcontrol_hybrid.py:109-111 | the error is stored and the old ones popped until at most five remain, which are the last five of the history |
| LatControlHybrid.LatControl.Update | selfdrive/controls/lib/latcontrol_hybrid.py:70-111 | engaged exactly at or above the minimum steer speed while active; otherwise zero output and a reset; when engaged, the integrator step, the clipped LQR output within ±steerMax, and the error rate from the window before this frame's error |

## Left out

- Threads: the encoding thread, its 10 ms wait and the join in `stop` are not modelled as concurrency. `ScreenRecorder.Recorder.EncodeStep` models one worker round.
- Pixels: OpenCL/libyuv scaling, the OMX encoder and grabbing the widget tree are not modelled. An image is an opaque `seq<int>`, and the encoder is a ghost count of open sessions.
- ScreenRecorder.Enqueue: the queue type's behaviour when full is not part of this model. Both dropping the new item and dropping the oldest are admitted, so its contract is weaker than either one.
- The recorder's destructor (`stop(false)`) is not modelled: Dafny has no destructors.
- The recorder's frame counter is unbounded; the source's 32-bit int is not modelled.
- The `struct tm` year before 1900 cannot appear, because it is a `nat` offset.
- Sounds, timers and `Params` writes are logged as ghost or plain sequences of cue and action values. They are not performed.
- UI_FREQ, DT_CTRL, MIN_STEER_SPEED, LANE_CHANGE_SPEED_MIN, KM_TO_MILE and `steer_max` are parameters. They are defined outside these files.
- Wall-clock time is a parameter too: `milliseconds()`, `time`/`localtime` and `millis_since_boot`.
- All painting is not modelled: fonts, rectangles, pixmaps, opacity and the arrow positions.
- Onroad.OnroadWindow.constructor: the map's presence is passed in as `mapVisible` rather than created. The recorder is created by the constructor, but the field stays nullable because every method keeps the source's `if(recorder)` guard.
- The map window's creation under ENABLE_MAPS, `alerts->updateAlert` and passing the release event on to the parent window are not modelled.
- nTune's file and JSON I/O is not modelled: `read`, `write_default`, `read_cp`, `write_config`, the directory creation and the SIGIO watch. A reload is given the parsed map, or None for a missing, empty or unreadable file.
- nTune values that JSON could hold but are not numbers (null, strings) are not modelled. Neither are exceptions raised inside `checkValid`.
- NTune.CommonEnabled: the reloaded configuration is a parameter, because reading the file is not modelled. None stands for the KeyError `ntune_get` raises for a key that is in neither the reloaded file nor the common table. A stored `null`, which makes `ntune_get` read once more, is not modelled.
- NTune.ApplyRulesInRange: JSON's `NaN` is not modelled. Python's `json.load` accepts it, and both of checkValue's comparisons are false for it, so a NaN value stays in the configuration unreported and out of range. The range guarantee, and with it NTune.Idempotent, therefore holds only for files whose values are real numbers.
- NTune.Tuner.Update: records which controller type would receive the parameters. The controller objects (LQR, INDI, torque) are not modelled.
- CAN parsing, building the car state, `create_common_events` and the SCC smoother's `inject_events` are not modelled. An update receives the decoded values and the common events.
- The `Events` class is not part of this model. Its `add` is taken as an append, and `events.remove` as removing the first occurrence.
- In the hybrid controller, the Kalman filter, the LQR gain product, the `torque_scale` and `lqr_weight` interpolations, the PID controller itself and `_check_saturation` are not modelled. An update receives the LQR term, the filtered angle and the PID error. The blend is a separate function.
- Onroad.Interp: requires strictly increasing x values of length at least 2. Every call site passes such lists; with other lists the source's loop can read past the end.
- Floating-point rounding is not modelled: all floats are reals.


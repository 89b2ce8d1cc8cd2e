/**
 * The screen-recorder controller: start/stop/toggle, the per-tick capture
 * with segment rotation, the blinking indicator and the output file name.
 *
 * The hardware encoder is a ghost session counter, wall-clock time and the
 * local calendar fields are parameters, captured pixels are opaque values.
 */
module ScreenRecorder {
  import opened Wrappers
  import Decimal

  /** Capacity of the captured-image queue. */
  const QUEUE_CAPACITY: nat := 30
  /** Maximum length of one output segment, in milliseconds (3 minutes). */
  const SEGMENT_MS: int := 1000 * 60 * 3
  /** Height of every encoded frame. */
  const DST_HEIGHT: nat := 720
  /** Size of the buffer the file name is printed into (one byte is the terminator). */
  const FILENAME_BUFFER: nat := 64

  /** The two device families the constructor distinguishes, and everything else. */
  datatype Hardware = Tici | Eon | OtherDevice

  datatype Profile = Profile(path: string, srcWidth: nat, srcHeight: nat,
                             dstWidth: nat, dstHeight: nat, bitrate: nat)

  /** Calendar fields as `struct tm` holds them: years since 1900, months from 0. */
  datatype LocalTime = LocalTime(tmYear: nat, tmMon: nat, tmMday: nat,
                                 tmHour: nat, tmMin: nat, tmSec: nat)

  /** The indicator colour: not yet set, red while lit, dim while dark. */
  datatype Color = Unset | Red | Dim

  /** The sound cues the controller plays. */
  datatype Cue = StartCue | StopCue

  /**
   * What the bounded queue does with a push when it is full. The queue type is
   * not part of this model, so both candidate behaviours are admitted.
   */
  datatype OverflowPolicy = DropNewest | DropOldest

  /** One grabbed screen image, as pixel values. */
  type Image = seq<int>

  // ---------------------------------------------------------------------------
  // Output dimensions

  /**
   * Width of an output frame 720 lines high: the source width scaled by
   * integer division, bumped by one when odd.
   */
  function DstWidth(srcWidth: nat, srcHeight: nat): (w: nat)
    requires srcHeight > 0
    ensures w % 2 == 0
    ensures srcWidth * DST_HEIGHT / srcHeight <= w <= srcWidth * DST_HEIGHT / srcHeight + 1
  {
    var w := srcWidth * DST_HEIGHT / srcHeight;
    if w % 2 != 0 then w + 1 else w
  }

  /** The constructor's device profile: paths, resolutions and bitrate per device family. */
  function ProfileFor(hw: Hardware): (p: Profile)
    ensures p.srcHeight == 1080 && p.dstHeight == DST_HEIGHT && p.dstWidth % 2 == 0
    ensures p.dstWidth == DstWidth(p.srcWidth, p.srcHeight)
  {
    var bitrate := if hw == Tici then 4 * 1024 * 1024 else 3 * 1024 * 1024;
    var path := if hw == Eon then "/storage/emulated/0/videos" else "/data/media/0/videos";
    var srcWidth := if hw == Eon then 1920 else 2160;
    Profile(path, srcWidth, 1080, DstWidth(srcWidth, 1080), DST_HEIGHT, bitrate)
  }

  /** The two source resolutions give 1280x720 and 1440x720 output. */
  lemma ProfileWidths()
    ensures ProfileFor(Eon).dstWidth == 1280
    ensures ProfileFor(Tici).dstWidth == 1440 && ProfileFor(OtherDevice).dstWidth == 1440
  {
  }

  // ---------------------------------------------------------------------------
  // File name

  /**
   * The name printed by "%04d%02d%02d-%02d%02d%02d.mp4" into a 64-byte buffer,
   * which keeps at most 63 characters.
   */
  function FileName(t: LocalTime): (s: string)
    ensures |s| < FILENAME_BUFFER
  {
    var full := Decimal.ZeroPad(t.tmYear + 1900, 4) + Decimal.ZeroPad(t.tmMon + 1, 2)
      + Decimal.ZeroPad(t.tmMday, 2) + "-" + Decimal.ZeroPad(t.tmHour, 2)
      + Decimal.ZeroPad(t.tmMin, 2) + Decimal.ZeroPad(t.tmSec, 2) + ".mp4";
    if |full| < FILENAME_BUFFER then full else full[..FILENAME_BUFFER - 1]
  }

  /** Reads a `YYYYMMDD-HHMMSS.mp4` name back into calendar fields. */
  function ParseFileName(s: string): Option<LocalTime> {
    if |s| == 19 && s[8] == '-' && s[15..] == ".mp4"
       && Decimal.AllDigits(s[..4]) && Decimal.AllDigits(s[4..6]) && Decimal.AllDigits(s[6..8])
       && Decimal.AllDigits(s[9..11]) && Decimal.AllDigits(s[11..13]) && Decimal.AllDigits(s[13..15])
       && Decimal.Value(s[..4]) >= 1900 && Decimal.Value(s[4..6]) >= 1
    then
      Some(LocalTime(Decimal.Value(s[..4]) - 1900, Decimal.Value(s[4..6]) - 1, Decimal.Value(s[6..8]),
                     Decimal.Value(s[9..11]), Decimal.Value(s[11..13]), Decimal.Value(s[13..15])))
    else
      None
  }

  /** A width-w zero-padded field of a number below 10^w fills exactly w characters. */
  lemma PadWidth(n: nat, w: nat)
    requires w >= 1 && n < Decimal.Pow10(w)
    ensures |Decimal.ZeroPad(n, w)| == w
  {
    Decimal.DigitsLength(n, w);
  }

  /** The fields of a name assembled from a 4-character and five 2-character parts sit at fixed offsets. */
  lemma NameLayout(y: string, mo: string, d: string, h: string, mi: string, se: string)
    requires |y| == 4 && |mo| == 2 && |d| == 2 && |h| == 2 && |mi| == 2 && |se| == 2
    ensures var s := y + mo + d + "-" + h + mi + se + ".mp4";
            && |s| == 19 && s[8] == '-' && s[15..] == ".mp4"
            && s[..4] == y && s[4..6] == mo && s[6..8] == d
            && s[9..11] == h && s[11..13] == mi && s[13..15] == se
  {
    var s := y + mo + d + "-" + h + mi + se + ".mp4";
    assert s[..4] == y;
    assert s[4..6] == mo;
    assert s[6..8] == d;
    assert s[9..11] == h;
    assert s[11..13] == mi;
    assert s[13..15] == se;
    assert s[15..] == ".mp4";
  }

  /**
   * For a four-digit year and two-digit other fields, the name is the
   * 19-character `YYYYMMDD-HHMMSS.mp4` and reads back to the same fields.
   */
  lemma {:induction false} FileNameRoundTrip(t: LocalTime)
    requires t.tmYear + 1900 <= 9999 && t.tmMon + 1 <= 99
    requires t.tmMday <= 99 && t.tmHour <= 99 && t.tmMin <= 99 && t.tmSec <= 99
    ensures |FileName(t)| == 19 && FileName(t)[8] == '-' && FileName(t)[15..] == ".mp4"
    ensures ParseFileName(FileName(t)) == Some(t)
  {
    assert Decimal.Pow10(2) == 100;
    assert Decimal.Pow10(4) == 10000;
    var y := Decimal.ZeroPad(t.tmYear + 1900, 4);
    var mo := Decimal.ZeroPad(t.tmMon + 1, 2);
    var d := Decimal.ZeroPad(t.tmMday, 2);
    var h := Decimal.ZeroPad(t.tmHour, 2);
    var mi := Decimal.ZeroPad(t.tmMin, 2);
    var se := Decimal.ZeroPad(t.tmSec, 2);
    PadWidth(t.tmYear + 1900, 4);
    PadWidth(t.tmMon + 1, 2);
    PadWidth(t.tmMday, 2);
    PadWidth(t.tmHour, 2);
    PadWidth(t.tmMin, 2);
    PadWidth(t.tmSec, 2);
    NameLayout(y, mo, d, h, mi, se);
  }

  // ---------------------------------------------------------------------------
  // Indicator blink

  /** Red during the first half of every UI_FREQ frames, dim during the second half. */
  function PhaseColor(frame: nat, uiFreq: nat): (c: Color)
    requires uiFreq >= 2
    ensures c == Red <==> frame % uiFreq < uiFreq / 2
    ensures c != Unset
  {
    if frame % uiFreq < uiFreq / 2 then Red else Dim
  }

  /** The last frame at or before `frame` on which the colour is re-evaluated. */
  function Latch(frame: nat, uiFreq: nat): (f: nat)
    requires uiFreq >= 2
    ensures f <= frame && f % (uiFreq / 2) == 0 && frame - f < uiFreq / 2
  {
    var h := uiFreq / 2;
    assert frame == (frame / h) * h + frame % h;
    ModOfSum(frame / h, h, 0);
    frame - frame % h
  }

  /** Between two re-evaluation frames the latched frame does not move. */
  lemma LatchStep(frame: nat, uiFreq: nat)
    requires uiFreq >= 2 && frame % (uiFreq / 2) != 0
    ensures frame > 0 && Latch(frame, uiFreq) == Latch(frame - 1, uiFreq)
  {
    var h := uiFreq / 2;
    var q, r := frame / h, frame % h;
    assert frame == q * h + r;
    assert frame - 1 == q * h + (r - 1);
    assert (frame - 1) % h == r - 1 by {
      ModOfSum(q, h, r - 1);
    }
  }

  lemma {:induction false} ModOfSum(q: nat, h: nat, r: nat)
    requires h > 0 && r < h
    ensures (q * h + r) % h == r && (q * h + r) / h == q
  {
    var x := q * h + r;
    var k, m := x / h, x % h;
    assert x == k * h + m;
    assert (q - k) * h == m - r;
    if q - k >= 1 {
      AtLeastOneTimes(q - k, h);
    } else if k - q >= 1 {
      AtLeastOneTimes(k - q, h);
    }
  }

  lemma AtLeastOneTimes(a: int, h: nat)
    requires a >= 1
    ensures a * h >= h
  {
    assert a * h == (a - 1) * h + h;
  }

  /**
   * With an even UI_FREQ, latching every half period shows exactly the phase
   * colour of the current frame: red iff frame % UI_FREQ < UI_FREQ / 2.
   */
  lemma {:induction false} LatchedColorIsPhase(frame: nat, uiFreq: nat)
    requires uiFreq >= 2 && uiFreq % 2 == 0
    ensures PhaseColor(Latch(frame, uiFreq), uiFreq) == PhaseColor(frame, uiFreq)
  {
    var h := uiFreq / 2;
    assert uiFreq == 2 * h;
    var k, m := frame / h, frame % h;
    assert frame == k * h + m;
    HalfPeriods(k / 2, k % 2, h, m);
    assert k == 2 * (k / 2) + k % 2;
  }

  /** Frame `(2j + b) * h + m` of a period `2h` lies in half `b`, and so does its latch `(2j + b) * h`. */
  lemma HalfPeriods(j: nat, b: nat, h: nat, m: nat)
    requires b < 2 && 0 < h && m < h
    ensures ((2 * j + b) * h + m) % (2 * h) == b * h + m
    ensures ((2 * j + b) * h) % (2 * h) == b * h
  {
    assert (2 * j + b) * h + m == j * (2 * h) + (b * h + m);
    assert (2 * j + b) * h == j * (2 * h) + b * h;
    assert b * h + m < 2 * h by {
      if b == 1 {
        assert b * h == h;
      }
    }
    ModOfSum(j, 2 * h, b * h + m);
    ModOfSum(j, 2 * h, b * h);
  }

  // ---------------------------------------------------------------------------
  // Queue

  /** A push into the bounded queue under the given overflow behaviour. */
  function Enqueue<T>(q: seq<T>, x: T, policy: OverflowPolicy): (r: seq<T>)
    requires |q| <= QUEUE_CAPACITY
    ensures |r| <= QUEUE_CAPACITY
    ensures |q| < QUEUE_CAPACITY ==> r == q + [x]
    ensures |q| == QUEUE_CAPACITY ==> |r| == QUEUE_CAPACITY
    ensures forall i :: 0 <= i < |r| ==> r[i] in q + [x]
  {
    if |q| < QUEUE_CAPACITY then q + [x]
    else if policy == DropNewest then q
    else q[1..] + [x]
  }

  // ---------------------------------------------------------------------------
  // The controller

  class Recorder {
    const uiFreq: nat
    const profile: Profile
    const policy: OverflowPolicy

    var recording: bool
    /** Wall-clock milliseconds at which the current segment started. */
    var started: int
    /** Ticks since the current segment started (counted also while idle). */
    var frame: nat
    var queue: seq<Image>
    var color: Color

    /** Encoder opens minus encoder closes. */
    ghost var openSessions: nat
    /** Number of encoder sessions opened so far. */
    ghost var sessions: nat
    /** The file names passed to the encoder, in order. */
    ghost var files: seq<string>
    /** For each queued image, the session that captured it. */
    ghost var origins: seq<nat>
    /** For each encoded image: (session that captured it, session that encoded it). */
    ghost var delivered: seq<(nat, nat)>
    /** The sound cues played, in order. */
    ghost var cues: seq<Cue>

    ghost predicate Valid()
      reads this
    {
      && uiFreq >= 2
      && |queue| <= QUEUE_CAPACITY
      && |origins| == |queue|
      && openSessions == (if recording then 1 else 0)
      && (!recording ==> queue == [])
      && |files| == sessions
      && (forall i :: 0 <= i < |origins| ==> origins[i] == sessions)
      && (forall i :: 0 <= i < |delivered| ==> delivered[i].0 == delivered[i].1)
      && (recording && frame > 0 ==> color == PhaseColor(Latch(frame - 1, uiFreq), uiFreq))
    }

    constructor (hw: Hardware, uiFreq: nat, policy: OverflowPolicy)
      requires uiFreq >= 2
      ensures Valid()
      ensures this.uiFreq == uiFreq && this.policy == policy && profile == ProfileFor(hw)
      ensures !recording && started == 0 && frame == 0 && queue == [] && color == Unset
      ensures openSessions == 0 && sessions == 0 && files == [] && delivered == [] && cues == []
    {
      this.uiFreq := uiFreq;
      this.policy := policy;
      profile := ProfileFor(hw);
      recording := false;
      started := 0;
      frame := 0;
      queue := [];
      color := Unset;
      openSessions := 0;
      sessions := 0;
      files := [];
      origins := [];
      delivered := [];
      cues := [];
    }

    /** Re-evaluates the indicator colour every half period. */
    method ApplyColor()
      requires uiFreq >= 2
      modifies this`color
      ensures frame % (uiFreq / 2) == 0 ==> color == PhaseColor(frame, uiFreq)
      ensures frame % (uiFreq / 2) != 0 ==> color == old(color)
    {
      if frame % (uiFreq / 2) == 0 {
        if frame % uiFreq < uiFreq / 2 {
          color := Red;
        } else {
          color := Dim;
        }
      }
    }

    /**
     * The inner disc's colour as painted: the latched indicator colour while
     * recording, dim while idle. With an even UI_FREQ the indicator after tick
     * `frame - 1` is that tick's phase colour.
     */
    function Background(): (c: Color)
      requires Valid()
      reads this
      ensures !recording ==> c == Dim
      ensures recording ==> c == color
      ensures recording && frame > 0 && uiFreq % 2 == 0 ==> c == PhaseColor(frame - 1, uiFreq)
    {
      if recording && frame > 0 && uiFreq % 2 == 0 then
        LatchedColorIsPhase(frame - 1, uiFreq);
        color
      else if recording then color
      else Dim
    }

    /** The state `start` leaves behind when it was called while idle. */
    twostate predicate Started(sound: bool, now: int, t: LocalTime)
      reads this
    {
      && recording && frame == 0 && started == now && queue == [] && color == old(color)
      && openSessions == 1 && sessions == old(sessions) + 1
      && files == old(files) + [FileName(t)] && delivered == old(delivered)
      && cues == old(cues) + (if sound then [StartCue] else [])
    }

    /** The state `stop` leaves behind when it was called while recording. */
    twostate predicate Stopped(sound: bool)
      reads this
    {
      && !recording && queue == [] && openSessions == 0
      && frame == old(frame) && started == old(started) && color == old(color)
      && sessions == old(sessions) && files == old(files) && delivered == old(delivered)
      && cues == old(cues) + (if sound then [StopCue] else [])
    }

    /** Opens a new session named after `t`; a no-op while recording. */
    method Start(sound: bool, now: int, t: LocalTime)
      requires Valid()
      modifies this`files, this`openSessions, this`sessions, this`recording, this`frame, this`started, this`cues
      ensures Valid()
      ensures old(recording) ==> unchanged(this)
      ensures !old(recording) ==> Started(sound, now, t)
    {
      if recording {
        return;
      }
      var filename := FileName(t);
      OpenEncoder(filename);
      recording := true;
      frame := 0;
      started := now;
      if sound {
        cues := cues + [StartCue];
      }
    }

    /** Hands a new file to the encoder: one more session, open. */
    method OpenEncoder(filename: string)
      modifies this`files, this`openSessions, this`sessions
      ensures files == old(files) + [filename]
      ensures openSessions == old(openSessions) + 1 && sessions == old(sessions) + 1
    {
      files := files + [filename];
      openSessions := openSessions + 1;
      sessions := sessions + 1;
    }

    /** Closes the open session and discards queued images; a no-op while idle. */
    method Stop(sound: bool)
      requires Valid()
      modifies this
      ensures Valid()
      ensures !old(recording) ==> unchanged(this)
      ensures old(recording) ==> Stopped(sound)
    {
      if recording {
        openSessions := openSessions - 1;
        recording := false;
        if sound {
          cues := cues + [StopCue];
        }
        queue := [];
        origins := [];
      }
    }

    /** Flips between recording and idle, with a sound cue. */
    method Toggle(now: int, t: LocalTime)
      requires Valid()
      modifies this
      ensures Valid()
      ensures recording == !old(recording)
      ensures !old(recording) ==> Started(true, now, t)
      ensures old(recording) ==> Stopped(true)
    {
      if !recording {
        Start(true, now, t);
      } else {
        Stop(true);
      }
    }

    /**
     * One UI tick. While recording: rotate the segment once it is older than
     * three minutes, otherwise re-evaluate the indicator and queue `shot`.
     * Every tick that does not rotate advances the frame counter.
     */
    method UpdateScreen(now: int, t: LocalTime, shot: Image)
      requires Valid()
      modifies this
      ensures Valid()
      ensures old(recording) && now - old(started) > SEGMENT_MS ==>
        && recording && started == now && frame == 0 && queue == []
        && openSessions == 1 && sessions == old(sessions) + 1
        && files == old(files) + [FileName(t)] && cues == old(cues) && color == old(color)
      ensures old(recording) && now - old(started) <= SEGMENT_MS ==>
        && recording && started == old(started) && frame == old(frame) + 1
        && queue == Enqueue(old(queue), shot, policy)
        && sessions == old(sessions) && files == old(files) && cues == old(cues)
        && (old(frame) % (uiFreq / 2) == 0 ==> color == PhaseColor(old(frame), uiFreq))
        && (old(frame) % (uiFreq / 2) != 0 ==> color == old(color))
      ensures !old(recording) ==>
        && !recording && frame == old(frame) + 1 && queue == [] && started == old(started)
        && color == old(color) && sessions == old(sessions) && files == old(files) && cues == old(cues)
      ensures delivered == old(delivered)
    {
      if recording {
        if now - started > SEGMENT_MS {
          Stop(false);
          Start(false, now, t);
          return;
        }
        Capture(shot);
      }
      frame := frame + 1;
    }

    /** A tick within the segment: the indicator colour is re-evaluated and the screen queued. */
    method Capture(shot: Image)
      requires Valid() && recording
      modifies this`color, this`queue, this`origins
      ensures color == PhaseColor(Latch(frame, uiFreq), uiFreq)
      ensures frame % (uiFreq / 2) == 0 ==> color == PhaseColor(frame, uiFreq)
      ensures frame % (uiFreq / 2) != 0 ==> color == old(color)
      ensures queue == Enqueue(old(queue), shot, policy)
      ensures |origins| == |queue| && forall i :: 0 <= i < |origins| ==> origins[i] == sessions
    {
      ApplyColor();
      if frame % (uiFreq / 2) != 0 {
        LatchStep(frame, uiFreq);
      } else {
        assert Latch(frame, uiFreq) == frame;
      }
      ghost var before := origins;
      queue := Enqueue(queue, shot, policy);
      origins := Enqueue(origins, sessions, policy);
      forall i | 0 <= i < |origins| ensures origins[i] == sessions {
        assert origins[i] in before + [sessions];
      }
    }

    /**
     * One successful round of the encoding worker: take the oldest queued
     * image for the open session. Nothing is taken while idle or when the
     * queue is empty (the worker's wait times out).
     */
    method EncodeStep() returns (taken: Option<Image>)
      requires Valid()
      modifies this`queue, this`origins, this`delivered
      ensures Valid()
      ensures old(recording) && old(queue) != [] ==>
        taken == Some(old(queue)[0]) && queue == old(queue)[1..]
        && delivered == old(delivered) + [(sessions, sessions)]
      ensures !(old(recording) && old(queue) != []) ==>
        taken == None && queue == old(queue) && delivered == old(delivered)
    {
      if recording && queue != [] {
        taken := Some(queue[0]);
        delivered := delivered + [(origins[0], sessions)];
        queue := queue[1..];
        origins := origins[1..];
      } else {
        taken := None;
      }
    }
  }
}

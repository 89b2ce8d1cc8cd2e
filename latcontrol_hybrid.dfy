/**
 * The hybrid lateral controller: an LQR branch with an anti-windup
 * integrator and a PID branch whose error rate is taken over a sliding
 * window of the last five errors.
 *
 * The Kalman filter, the LQR gain product, the PID controller and the
 * vehicle model are left out: an update is given their results (the LQR
 * output before the integrator, the filtered steering angle and the PID
 * error), and its blend of the two branches is a separate function.
 */
module LatControlHybrid {

  const ERROR_RATE_FRAME: nat := 5

  /** The last ERROR_RATE_FRAME errors of a history, oldest first. */
  function Window(h: seq<real>): (w: seq<real>)
    ensures |w| == if |h| < ERROR_RATE_FRAME then |h| else ERROR_RATE_FRAME
    ensures w == h[|h| - |w|..]
  {
    if |h| <= ERROR_RATE_FRAME then h else h[|h| - ERROR_RATE_FRAME..]
  }

  /** The PID's error rate: zero until five errors are stored, else the change over them per frame. */
  function ErrorRate(errors: seq<real>, error: real): real {
    if |errors| >= ERROR_RATE_FRAME then (error - errors[|errors| - ERROR_RATE_FRAME]) / ERROR_RATE_FRAME as real
    else 0.0
  }

  /**
   * Over the window of a history, the error rate compares with the error of
   * exactly five frames ago, and is zero for the first five frames.
   */
  lemma ErrorRateLooksBack(h: seq<real>, error: real)
    ensures |h| >= ERROR_RATE_FRAME ==> ErrorRate(Window(h), error) == (error - h[|h| - ERROR_RATE_FRAME]) / 5.0
    ensures |h| < ERROR_RATE_FRAME ==> ErrorRate(Window(h), error) == 0.0
  {
    if |h| >= ERROR_RATE_FRAME {
      var w := Window(h);
      assert w[0] == h[|h| - ERROR_RATE_FRAME];
    }
  }

  /** Appending to the window and dropping from its front is the window of the longer history. */
  lemma WindowAppend(h: seq<real>, e: real)
    ensures Window(h + [e]) == if |Window(h) + [e]| > ERROR_RATE_FRAME then (Window(h) + [e])[1..] else Window(h) + [e]
  {
    var w := Window(h);
    var h' := h + [e];
    if |h| >= ERROR_RATE_FRAME {
      assert (w + [e])[1..] == h'[|h'| - ERROR_RATE_FRAME..];
    } else {
      assert w + [e] == h';
    }
  }

  function Sign(x: real): real {
    if x > 0.0 then 1.0 else if x < 0.0 then -1.0 else 0.0
  }

  /**
   * The integrator while the driver steers: the unwind rate is subtracted in
   * the direction of its sign. A value closer to zero than the rate crosses
   * over to the other side rather than stopping at zero.
   */
  function Unwind(i: real, rate: real): (r: real)
    requires rate >= 0.0
    ensures i == 0.0 ==> r == 0.0
    ensures i > 0.0 ==> r == i - rate
    ensures i < 0.0 ==> r == i + rate
    ensures rate <= i ==> 0.0 <= r
    ensures i <= -rate ==> r <= 0.0
    ensures (if r < 0.0 then -r else r) <= (if i < 0.0 then -i else i) + rate
  {
    i - rate * Sign(i)
  }

  /** The integrator's candidate value: the error scaled by ki and the integration rate, added on. */
  function Integrated(i: real, ki: real, rate: real, error: real): real {
    i + ki * rate * error
  }

  /**
   * Anti-windup: the new integrator value is taken unless the output would be
   * saturated in the direction the error pushes and the integrator pushes
   * the same way.
   */
  predicate AntiWindupAccepts(error: real, control: real, i: real, steerMax: real) {
    (error >= 0.0 && (control <= steerMax || i < 0.0)) || (error <= 0.0 && (control >= -steerMax || i > 0.0))
  }

  /** An unsaturated output always takes the new integrator value. */
  lemma UnsaturatedAccepts(error: real, control: real, i: real, steerMax: real)
    requires -steerMax <= control <= steerMax
    ensures AntiWindupAccepts(error, control, i, steerMax)
  {
  }

  /** Saturated above with a positive error and a non-negative integrator: the integrator is held. */
  lemma SaturatedRejects(error: real, control: real, i: real, steerMax: real)
    requires steerMax >= 0.0
    requires (error > 0.0 && control > steerMax && i >= 0.0) || (error < 0.0 && control < -steerMax && i <= 0.0)
    ensures !AntiWindupAccepts(error, control, i, steerMax)
  {
  }

  /** numpy_fast.clip: max(lo, min(hi, x)). */
  function Clip(x: real, lo: real, hi: real): (r: real)
    requires lo <= hi
    ensures lo <= r <= hi
    ensures lo <= x <= hi ==> r == x
    ensures x < lo ==> r == lo
    ensures x > hi ==> r == hi
  {
    var m := if hi < x then hi else x;
    if lo > m then lo else m
  }

  /** The final blend of the two branches by the LQR weight. */
  function Blend(lqr: real, pid: real, weight: real): real {
    lqr * weight + pid * (1.0 - weight)
  }

  lemma NonPosTimes(x: real, c: real)
    requires x <= 0.0 && c >= 0.0
    ensures x * c <= 0.0
  {
  }

  lemma NonNegTimes(x: real, c: real)
    requires x >= 0.0 && c >= 0.0
    ensures x * c >= 0.0
  {
  }

  /** With both branches within the steering limit and a weight in [0, 1], so is the blend. */
  lemma BlendWithinLimit(lqr: real, pid: real, weight: real, steerMax: real)
    requires -steerMax <= lqr <= steerMax && -steerMax <= pid <= steerMax
    requires 0.0 <= weight <= 1.0
    ensures -steerMax <= Blend(lqr, pid, weight) <= steerMax
  {
    var v := 1.0 - weight;
    assert Blend(lqr, pid, weight) - steerMax == (lqr - steerMax) * weight + (pid - steerMax) * v;
    assert Blend(lqr, pid, weight) + steerMax == (lqr + steerMax) * weight + (pid + steerMax) * v;
    NonPosTimes(lqr - steerMax, weight);
    NonPosTimes(pid - steerMax, v);
    NonNegTimes(lqr + steerMax, weight);
    NonNegTimes(pid + steerMax, v);
  }

  /** A suffix of a history, extended by the next error, is a suffix of the extended history. */
  lemma AppendSuffix(h: seq<real>, w: seq<real>, e: real)
    requires |w| <= |h| && w == h[|h| - |w|..]
    ensures w + [e] == (h + [e])[|h| - |w|..]
  {
  }

  /** A suffix of a history as long as its window is its window. */
  lemma SuffixIsWindow(h: seq<real>, w: seq<real>)
    requires |w| <= |h| && w == h[|h| - |w|..]
    requires |w| == if |h| < ERROR_RATE_FRAME then |h| else ERROR_RATE_FRAME
    ensures w == Window(h)
  {
  }

  class LatControl {
    const dtCtrl: real
    const minSteerSpeed: real
    const steerMax: real
    const ki: real
    const iUnwindRate: real
    const iRate: real

    var iLqr: real
    var errors: seq<real>
    /** Every PID error since the last reset, oldest first. */
    ghost var history: seq<real>

    ghost predicate Valid()
      reads this
    {
      && steerMax >= 0.0 && dtCtrl >= 0.0
      && iUnwindRate == 0.3 * dtCtrl && iRate == 1.0 * dtCtrl
      && errors == Window(history)
    }

    constructor (dtCtrl: real, minSteerSpeed: real, steerMax: real)
      requires steerMax >= 0.0 && dtCtrl >= 0.0
      ensures Valid()
      ensures this.dtCtrl == dtCtrl && this.minSteerSpeed == minSteerSpeed && this.steerMax == steerMax
      ensures ki == 0.01
      ensures iLqr == 0.0 && errors == [] && history == []
    {
      this.dtCtrl := dtCtrl;
      this.minSteerSpeed := minSteerSpeed;
      this.steerMax := steerMax;
      ki := 0.01;
      iUnwindRate := 0.3 * dtCtrl;
      iRate := 1.0 * dtCtrl;
      iLqr := 0.0;
      errors := [];
      history := [];
    }

    method Reset()
      requires Valid()
      modifies this`iLqr, this`errors, this`history
      ensures Valid()
      ensures iLqr == 0.0 && errors == [] && history == []
    {
      iLqr := 0.0;
      errors := [];
      history := [];
    }

    /** The integrator step of an engaged update (lines 82-91 of the controller). */
    method Integrate(steeringPressed: bool, lqrOutput: real, desiredAngle: real, angleSteersK: real)
      requires Valid()
      modifies this`iLqr
      ensures Valid()
      ensures steeringPressed ==> iLqr == Unwind(old(iLqr), iUnwindRate)
      ensures !steeringPressed ==>
        var error := desiredAngle - angleSteersK;
        var i := Integrated(old(iLqr), ki, iRate, error);
        iLqr == if AntiWindupAccepts(error, lqrOutput + i, i, steerMax) then i else old(iLqr)
    {
      if steeringPressed {
        iLqr := Unwind(iLqr, iUnwindRate);
      } else {
        var error := desiredAngle - angleSteersK;
        var i := Integrated(iLqr, ki, iRate, error);
        var control := lqrOutput + i;
        if AntiWindupAccepts(error, control, i, steerMax) {
          iLqr := i;
        }
      }
    }

    /** Stores a PID error and drops the oldest until at most five remain. */
    method PushError(e: real)
      requires Valid()
      modifies this`errors, this`history
      ensures Valid()
      ensures history == old(history) + [e]
      ensures errors == Window(history) && |errors| <= ERROR_RATE_FRAME
    {
      AppendSuffix(history, errors, e);
      ghost var h := history + [e];
      var w := errors + [e];
      while |w| > ERROR_RATE_FRAME
        invariant |w| <= |h| && w == h[|h| - |w|..]
        invariant |w| >= if |h| < ERROR_RATE_FRAME then |h| else ERROR_RATE_FRAME
        decreases |w|
      {
        w := w[1..];
      }
      SuffixIsWindow(h, w);
      errors, history := w, h;
    }

    /**
     * One control step. Returns whether the controller is engaged, the
     * clipped LQR output and the error rate handed to the PID.
     * `lqrOutput` is the LQR term before the integrator, `angleSteersK` the
     * filtered steering angle and `pidError` the PID branch's error.
     */
    method Update(active: bool, vEgo: real, steeringPressed: bool, lqrOutput: real,
                  desiredAngle: real, angleSteersK: real, pidError: real)
      returns (engaged: bool, outputLqr: real, errorRate: real)
      requires Valid()
      modifies this`iLqr, this`errors, this`history
      ensures Valid()
      ensures engaged <==> vEgo >= minSteerSpeed && active
      ensures !engaged ==> outputLqr == 0.0 && errorRate == 0.0 && iLqr == 0.0 && errors == [] && history == []
      ensures engaged && steeringPressed ==> iLqr == Unwind(old(iLqr), iUnwindRate)
      ensures engaged && !steeringPressed ==>
        var error := desiredAngle - angleSteersK;
        var i := Integrated(old(iLqr), ki, iRate, error);
        iLqr == if AntiWindupAccepts(error, lqrOutput + i, i, steerMax) then i else old(iLqr)
      ensures engaged ==> outputLqr == Clip(lqrOutput + iLqr, -steerMax, steerMax)
      ensures -steerMax <= outputLqr <= steerMax
      ensures engaged ==> errorRate == ErrorRate(old(errors), pidError)
      ensures engaged ==> history == old(history) + [pidError] && |errors| <= ERROR_RATE_FRAME
    {
      if vEgo < minSteerSpeed || !active {
        engaged, outputLqr, errorRate := false, 0.0, 0.0;
        Reset();
        return;
      }
      engaged := true;

      Integrate(steeringPressed, lqrOutput, desiredAngle, angleSteersK);

      outputLqr := lqrOutput + iLqr;
      outputLqr := Clip(outputLqr, -steerMax, steerMax);

      errorRate := 0.0;
      if |errors| >= ERROR_RATE_FRAME {
        errorRate := (pidError - errors[|errors| - ERROR_RATE_FRAME]) / ERROR_RATE_FRAME as real;
      }

      PushError(pidError);
    }
  }
}

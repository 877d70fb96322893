/**
 * The motion-triggered capture loop (pi/motion_trigger_picamera2.py): a cooldown
 * gate over two variables, the time of the last successful trigger and the
 * previous frame.
 *
 * Frame differencing is not modelled: each pass of the loop arrives as a `Tick`
 * carrying the contour areas found in it, the clock reading, and whether the
 * capture POST raised.
 */
module MotionTrigger {

  const MinMotionArea: real := 5000.0
  const CooldownSeconds: real := 10.0

  /** A blurred greyscale frame; its pixels are not inspected here. */
  datatype Frame = Frame(pixels: seq<int>)

  /** One pass of the main loop. */
  datatype Tick = Tick(gray: Frame, contourAreas: seq<real>, now: real, postRaised: bool)

  /** `any(cv2.contourArea(c) > MIN_MOTION_AREA for c in contours)`. */
  predicate MotionDetected(areas: seq<real>)
  {
    exists i :: 0 <= i < |areas| && areas[i] > MinMotionArea
  }

  /** The pass requests a capture: motion, and strictly more than the cooldown since the last trigger. */
  predicate Requests(last: real, t: Tick)
  {
    MotionDetected(t.contourAreas) && t.now - last > CooldownSeconds
  }

  /** The pass triggers: it requests a capture and the POST returns without raising. */
  predicate Fires(last: real, t: Tick)
  {
    Requests(last, t) && !t.postRaised
  }

  /** Clock readings of the successful triggers over a run of passes. */
  function TriggerTimes(last: real, ticks: seq<Tick>): seq<real>
    decreases |ticks|
  {
    if ticks == [] then []
    else if Fires(last, ticks[0]) then [ticks[0].now] + TriggerTimes(ticks[0].now, ticks[1..])
    else TriggerTimes(last, ticks[1..])
  }

  /** `last_trigger_time` after a run of passes. */
  function LastTriggerAfter(last: real, ticks: seq<Tick>): real
    decreases |ticks|
  {
    if ticks == [] then last
    else LastTriggerAfter(if Fires(last, ticks[0]) then ticks[0].now else last, ticks[1..])
  }

  /**
   * Every trigger comes more than the cooldown after the previous one (and after the
   * starting `last`), whatever the clock does, since each trigger needs
   * `now - last_trigger_time > COOLDOWN_SECONDS` and then becomes the new
   * `last_trigger_time`. In particular any two triggers are more than 10 s apart.
   */
  lemma {:induction false} TriggersSpaced(last: real, ticks: seq<Tick>)
    ensures forall k :: 0 <= k < |TriggerTimes(last, ticks)| ==> TriggerTimes(last, ticks)[k] - last > CooldownSeconds
    ensures forall i, j :: 0 <= i < j < |TriggerTimes(last, ticks)| ==>
      TriggerTimes(last, ticks)[j] - TriggerTimes(last, ticks)[i] > CooldownSeconds
    decreases |ticks|
  {
    if ticks == [] {
      return;
    }
    var r := TriggerTimes(last, ticks);
    if Fires(last, ticks[0]) {
      var now := ticks[0].now;
      var rest := TriggerTimes(now, ticks[1..]);
      TriggersSpaced(now, ticks[1..]);
      assert r == [now] + rest;
      assert now - last > CooldownSeconds;
      forall k | 0 <= k < |r| ensures r[k] - last > CooldownSeconds {
        if k > 0 {
          assert r[k] == rest[k - 1];
        }
      }
      forall i, j | 0 <= i < j < |r| ensures r[j] - r[i] > CooldownSeconds {
        assert r[j] == rest[j - 1];
        if i > 0 {
          assert r[i] == rest[i - 1];
        }
      }
    } else {
      TriggersSpaced(last, ticks[1..]);
      assert r == TriggerTimes(last, ticks[1..]);
    }
  }

  class MotionLoop {
    var lastTriggerTime: real
    var prevGray: Frame

    /** The state before the main loop: no trigger yet (time 0) and the first frame. */
    constructor (first: Frame)
      ensures lastTriggerTime == 0.0 && prevGray == first
    {
      lastTriggerTime, prevGray := 0.0, first;
    }

    /** One pass of `while True`: gate, POST, then `prev_gray = gray` unconditionally. */
    method Step(t: Tick) returns (requested: bool)
      modifies this
      ensures requested <==> Requests(old(lastTriggerTime), t)
      ensures lastTriggerTime == if requested && !t.postRaised then t.now else old(lastTriggerTime)
      ensures prevGray == t.gray
    {
      requested := false;
      var motionDetected := MotionDetected(t.contourAreas);
      if motionDetected {
        var now := t.now;
        if now - lastTriggerTime > CooldownSeconds {
          requested := true;
          if !t.postRaised {
            lastTriggerTime := now;
          }
        }
      }
      prevGray := t.gray;
    }

    /** A finite prefix of the main loop; returns the clock readings of the successful triggers. */
    method Run(ticks: seq<Tick>) returns (triggers: seq<real>)
      modifies this
      ensures triggers == TriggerTimes(old(lastTriggerTime), ticks)
      ensures lastTriggerTime == LastTriggerAfter(old(lastTriggerTime), ticks)
      ensures prevGray == if ticks == [] then old(prevGray) else ticks[|ticks| - 1].gray
    {
      triggers := [];
      var i := 0;
      while i < |ticks|
        invariant 0 <= i <= |ticks|
        invariant triggers + TriggerTimes(lastTriggerTime, ticks[i..]) == TriggerTimes(old(lastTriggerTime), ticks)
        invariant LastTriggerAfter(lastTriggerTime, ticks[i..]) == LastTriggerAfter(old(lastTriggerTime), ticks)
        invariant prevGray == if i == 0 then old(prevGray) else ticks[i - 1].gray
      {
        var last := lastTriggerTime;
        var requested := Step(ticks[i]);
        assert ticks[i..][1..] == ticks[i + 1..];
        if requested && !ticks[i].postRaised {
          triggers := triggers + [ticks[i].now];
        }
        i := i + 1;
      }
      assert ticks[|ticks|..] == [];
    }
  }
}

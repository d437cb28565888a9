// PIR motion sensor state (src/motion_sensor.cpp): a debounced interrupt
// handler that latches a flag, a read-and-clear query of that flag, and the
// time of the last motion. Times are `millis()` values, 32-bit unsigned
// counters that wrap around.

module MotionSensor {
  import opened Common

  /** Triggers closer together than this many milliseconds are ignored. */
  const MOTION_DEBOUNCE_MS: u32 := 200

  /** Whether the interrupt handler acts on a trigger at `now`. */
  predicate TriggerAccepted(lastTrigger: u32, now: u32)
  {
    SubU32(now, lastTrigger) >= MOTION_DEBOUNCE_MS
  }

  /**
   * The wrapping difference measures real elapsed time: a trigger `elapsed`
   * milliseconds after the last accepted one is accepted exactly when
   * `elapsed` reaches the debounce period, even when the clock wrapped in
   * between.
   */
  lemma DebounceAcrossWrap(lastTrigger: u32, elapsed: nat)
    requires elapsed < 0x1_0000_0000
    ensures TriggerAccepted(lastTrigger, ToU32(lastTrigger + elapsed)) <==> elapsed >= MOTION_DEBOUNCE_MS
  {
    var now := ToU32(lastTrigger + elapsed);
    if lastTrigger + elapsed < 0x1_0000_0000 {
      assert now == lastTrigger + elapsed;
    } else {
      assert now == lastTrigger + elapsed - 0x1_0000_0000;
    }
  }

  class Sensor {
    /** motion_detected: set by the interrupt handler, cleared by the query */
    var motionDetected: bool
    /** last_motion_time; 0 means no motion yet */
    var lastMotionTime: u32
    /** last_trigger_time: the last trigger the handler acted on */
    var lastTriggerTime: u32

    constructor ()
      ensures !motionDetected && lastMotionTime == 0 && lastTriggerTime == 0
    {
      motionDetected := false;
      lastMotionTime := 0;
      lastTriggerTime := 0;
    }

    /** initMotionSensor: clears all three state variables and always succeeds. */
    method Init() returns (ok: bool)
      modifies this
      ensures ok
      ensures !motionDetected && lastMotionTime == 0 && lastTriggerTime == 0
    {
      motionDetected := false;
      lastMotionTime := 0;
      lastTriggerTime := 0;
      ok := true;
    }

    /** deinitMotionSensor: clears the flag and the motion time but keeps the last trigger time. */
    method Deinit()
      modifies this
      ensures !motionDetected && lastMotionTime == 0
      ensures lastTriggerTime == old(lastTriggerTime)
    {
      motionDetected := false;
      lastMotionTime := 0;
    }

    /** motionDetectedISR: a trigger inside the debounce period changes nothing. */
    method OnTrigger(now: u32)
      modifies this
      ensures !TriggerAccepted(old(lastTriggerTime), now) ==>
        (motionDetected == old(motionDetected) && lastMotionTime == old(lastMotionTime) &&
         lastTriggerTime == old(lastTriggerTime))
      ensures TriggerAccepted(old(lastTriggerTime), now) ==>
        (motionDetected && lastMotionTime == now && lastTriggerTime == now)
    {
      if SubU32(now, lastTriggerTime) < MOTION_DEBOUNCE_MS {
        return;
      }
      lastTriggerTime := now;
      motionDetected := true;
      lastMotionTime := now;
    }

    /**
     * isMotionDetected: reports the latched flag and clears it, so a second
     * query with no trigger in between reports false.
     */
    method IsMotionDetected() returns (detected: bool)
      modifies this`motionDetected
      ensures detected == old(motionDetected)
      ensures !motionDetected
    {
      detected := motionDetected;
      if detected {
        motionDetected := false;
      }
    }

    /** resetMotionTimer: restarts the motion time and touches nothing else. */
    method ResetMotionTimer(now: u32)
      modifies this`lastMotionTime
      ensures lastMotionTime == now
    {
      lastMotionTime := now;
    }

    /**
     * getTimeSinceLastMotion: ULONG_MAX before any motion; otherwise the
     * wrapping time since the last motion, which added back to the motion
     * time gives `now`.
     */
    function TimeSinceLastMotion(now: u32): (r: u32)
      reads this
      ensures lastMotionTime == 0 ==> r == ULONG_MAX
      ensures lastMotionTime != 0 ==> ToU32(lastMotionTime + r) == now
    {
      if lastMotionTime == 0 then ULONG_MAX else SubU32(now, lastMotionTime)
    }
  }
}

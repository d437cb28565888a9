// Motion-triggered recording state machine (src/motion_monitoring.cpp):
// one pass of the monitoring task's loop as one step. The outcomes of the
// calls it makes (motion query, camera initialisation, recorder start,
// frame capture) are inputs of the step; the calls themselves are its
// output, in the order the task makes them.

module MotionMonitoring {
  import opened Common

  datatype RecState = Idle | MotionDetected | Recording | Stopping

  /** The variables the task keeps between passes. */
  datatype Monitor = Monitor(
    state: RecState,
    recordingStart: u32,
    lastMotionReset: u32,
    filename: string,
    lastFrameTime: u32)

  const INITIAL_MONITOR: Monitor := Monitor(Idle, 0, 0, "", 0)

  /** What one pass sees: the clock, the guards, and what each call it makes returns. */
  datatype Inputs = Inputs(
    now: u32,
    enabled: bool,
    sdMounted: bool,
    motion: bool,
    cameraInitialized: bool,
    cameraInitOk: bool,
    recordingInitOk: bool,
    frame: Option<nat>,
    durationSec: nat)

  /** A call the task makes into another module. */
  datatype Action =
    | ReadMotion
    | InitCamera
    | StartRecording(path: string)
    | CaptureFrame
    | WriteFrame(fb: nat)
    | ReleaseFrame(fb: nat)
    | FinalizeRecording
    | DeinitCamera

  /** Minimum spacing of recorded frames (about 5 frames per second). */
  const FRAME_INTERVAL_MS: u32 := 200

  const FILENAME_PREFIX: string := "/recordings/motion_"
  const FILENAME_SUFFIX: string := ".mjpeg"
  /** Size of the filename buffer, terminating NUL included. */
  const FILENAME_BUFFER: nat := 64

  /** The recording name for a motion seen at `now`: the time in whole seconds. */
  function RecordingName(now: u32): (f: string)
    ensures |FILENAME_PREFIX| + |FILENAME_SUFFIX| < |f| < FILENAME_BUFFER
    ensures f[..|FILENAME_PREFIX|] == FILENAME_PREFIX
    ensures f[|f| - |FILENAME_SUFFIX|..] == FILENAME_SUFFIX
  {
    NatToStringLength(now / 1000, 7);
    FILENAME_PREFIX + NatToString(now / 1000) + FILENAME_SUFFIX
  }

  /** The seconds can be read back from the name, so distinct seconds give distinct files. */
  lemma RecordingNameRoundTrip(now: u32)
    ensures var f := RecordingName(now);
      var digits := f[|FILENAME_PREFIX|..|f| - |FILENAME_SUFFIX|];
      (forall i :: 0 <= i < |digits| ==> IsDigit(digits[i])) && DigitsValue(digits) == now / 1000
  {
    var f := RecordingName(now);
    assert f[|FILENAME_PREFIX|..|f| - |FILENAME_SUFFIX|] == NatToString(now / 1000);
    NatToStringRoundTrip(now / 1000);
  }

  /** The recording length in milliseconds, computed in `unsigned long`. */
  function DurationMs(durationSec: nat): u32
  {
    ToU32(durationSec * 1000)
  }

  /** The pass of the task loop, as a function of the variables and the inputs. */
  function Next(m: Monitor, inp: Inputs): (Monitor, seq<Action>)
  {
    if !inp.enabled || !inp.sdMounted then (m, [])
    else match m.state
      case Idle =>
        if inp.motion then
          (m.(state := MotionDetected, recordingStart := inp.now, lastMotionReset := inp.now,
              filename := RecordingName(inp.now)), [ReadMotion])
        else (m, [ReadMotion])
      case MotionDetected =>
        var init := if inp.cameraInitialized then [] else [InitCamera];
        if !inp.cameraInitialized && !inp.cameraInitOk then (m.(state := Idle), init)
        else if inp.recordingInitOk then
          (m.(state := Recording, lastFrameTime := 0), init + [StartRecording(m.filename)])
        else (m.(state := Idle), init + [StartRecording(m.filename)])
      case Recording =>
        var reset := if inp.motion then inp.now else m.lastMotionReset;
        var due := SubU32(inp.now, m.lastFrameTime) >= FRAME_INTERVAL_MS;
        var frameCalls :=
          if !due then []
          else if inp.frame.None? then [CaptureFrame]
          else [CaptureFrame, WriteFrame(inp.frame.value), ReleaseFrame(inp.frame.value)];
        var stop := SubU32(inp.now, reset) >= DurationMs(inp.durationSec);
        (m.(state := if stop then Stopping else Recording, lastMotionReset := reset,
            lastFrameTime := if due then inp.now else m.lastFrameTime),
         [ReadMotion] + frameCalls)
      case Stopping =>
        (m.(state := Idle), [FinalizeRecording, DeinitCamera])
  }

  /** The transitions the machine allows. */
  predicate Allowed(a: RecState, b: RecState)
  {
    a == b ||
    (a == Idle && b == MotionDetected) ||
    (a == MotionDetected && (b == Recording || b == Idle)) ||
    (a == Recording && b == Stopping) ||
    (a == Stopping && b == Idle)
  }

  /** No pass makes a transition outside IDLE->MOTION_DETECTED->{RECORDING,IDLE}, RECORDING->STOPPING->IDLE. */
  lemma OnlyAllowedTransitions(m: Monitor, inp: Inputs)
    ensures Allowed(m.state, Next(m, inp).0.state)
    ensures m.state == MotionDetected || m.state == Stopping ==> Next(m, inp).0.state != m.state || !inp.enabled || !inp.sdMounted
  {
  }

  /** With monitoring disabled or no SD card the pass changes nothing and calls nothing. */
  lemma PausedPassChangesNothing(m: Monitor, inp: Inputs)
    requires !inp.enabled || !inp.sdMounted
    ensures Next(m, inp) == (m, [])
  {
  }

  /** IDLE leaves only on reported motion, stamping both timers and naming the file after `now`. */
  lemma IdleRule(m: Monitor, inp: Inputs)
    requires inp.enabled && inp.sdMounted && m.state == Idle
    ensures var (m', calls) := Next(m, inp);
      calls == [ReadMotion] &&
      (m'.state == MotionDetected <==> inp.motion) &&
      (inp.motion ==> m'.recordingStart == inp.now && m'.lastMotionReset == inp.now &&
                      m'.filename == RecordingName(inp.now)) &&
      (!inp.motion ==> m' == m)
  {
  }

  /**
   * MOTION_DETECTED returns to IDLE when the camera was needed and would not
   * start, or when the recorder would not start; otherwise it records under
   * the name chosen on entry, with the frame clock reset to 0.
   */
  lemma MotionDetectedRule(m: Monitor, inp: Inputs)
    requires inp.enabled && inp.sdMounted && m.state == MotionDetected
    ensures var (m', calls) := Next(m, inp);
      (m'.state == Recording <==> (inp.cameraInitialized || inp.cameraInitOk) && inp.recordingInitOk) &&
      (m'.state == Recording ==> m'.lastFrameTime == 0 && StartRecording(m.filename) in calls) &&
      (InitCamera in calls <==> !inp.cameraInitialized) &&
      (!inp.cameraInitialized && !inp.cameraInitOk ==> m'.state == Idle && calls == [InitCamera])
  {
  }

  /**
   * In RECORDING a frame is captured only when at least 200 ms passed since
   * the last one, a captured frame is written and released in the same pass,
   * and the pass moves to STOPPING exactly when the time since the last
   * motion reaches the configured duration.
   */
  lemma RecordingRule(m: Monitor, inp: Inputs)
    requires inp.enabled && inp.sdMounted && m.state == Recording
    ensures var (m', calls) := Next(m, inp);
      var due := SubU32(inp.now, m.lastFrameTime) >= FRAME_INTERVAL_MS;
      (CaptureFrame in calls <==> due) &&
      (inp.motion ==> m'.lastMotionReset == inp.now) &&
      (!inp.motion ==> m'.lastMotionReset == m.lastMotionReset) &&
      (due && inp.frame.Some? ==> calls[|calls| - 2..] == [WriteFrame(inp.frame.value), ReleaseFrame(inp.frame.value)]) &&
      (m'.state == Stopping <==> SubU32(inp.now, m'.lastMotionReset) >= DurationMs(inp.durationSec)) &&
      (m'.state != Stopping ==> m'.state == Recording) &&
      m'.filename == m.filename
  {
  }

  /** The calls of one pass that obtain or give back a frame: capture, write, release. */
  function FrameCalls(m: Monitor, inp: Inputs): seq<Action>
  {
    if !inp.enabled || !inp.sdMounted || m.state != Recording then []
    else if SubU32(inp.now, m.lastFrameTime) < FRAME_INTERVAL_MS then []
    else if inp.frame.None? then [CaptureFrame]
    else [CaptureFrame, WriteFrame(inp.frame.value), ReleaseFrame(inp.frame.value)]
  }

  /** Every pass is the calls of its state followed by its frame calls; only the frame calls write or release a frame. */
  lemma PassCallsSplit(m: Monitor, inp: Inputs)
    ensures var calls := Next(m, inp).1;
      var pre := calls[..|calls| - |FrameCalls(m, inp)|];
      |FrameCalls(m, inp)| <= |calls| && calls == pre + FrameCalls(m, inp) &&
      forall a :: a in pre ==> !a.WriteFrame? && !a.ReleaseFrame?
  {
    var calls := Next(m, inp).1;
    if inp.enabled && inp.sdMounted && m.state == Recording {
      assert calls == [ReadMotion] + FrameCalls(m, inp);
    }
  }

  lemma PairedCounts(pre: seq<Action>, m: Monitor, inp: Inputs, fb: nat)
    requires forall a :: a in pre ==> !a.WriteFrame? && !a.ReleaseFrame?
    ensures var calls := pre + FrameCalls(m, inp);
      multiset(calls)[ReleaseFrame(fb)] == multiset(calls)[WriteFrame(fb)] &&
      multiset(calls)[ReleaseFrame(fb)] <= 1
  {
    var frame := FrameCalls(m, inp);
    NoFrameActions(pre, fb);
    FrameCallsPaired(m, inp, fb);
    assert multiset(pre + frame) == multiset(pre) + multiset(frame);
  }

  lemma NoFrameActions(pre: seq<Action>, fb: nat)
    requires forall a :: a in pre ==> !a.WriteFrame? && !a.ReleaseFrame?
    ensures multiset(pre)[ReleaseFrame(fb)] == 0 && multiset(pre)[WriteFrame(fb)] == 0
  {
    assert ReleaseFrame(fb) !in pre && WriteFrame(fb) !in pre;
  }

  lemma FrameCallsPaired(m: Monitor, inp: Inputs, fb: nat)
    ensures var c := multiset(FrameCalls(m, inp));
      c[ReleaseFrame(fb)] == c[WriteFrame(fb)] && c[ReleaseFrame(fb)] <= 1
  {
    var frame := FrameCalls(m, inp);
    if |frame| == 3 {
      var f := inp.frame.value;
      assert multiset(frame) == multiset{CaptureFrame, WriteFrame(f), ReleaseFrame(f)};
    } else if |frame| == 1 {
      assert multiset(frame) == multiset{CaptureFrame};
    }
  }

  /** Every frame the pass obtains is released by the same pass, exactly once. */
  lemma FramesReleased(m: Monitor, inp: Inputs, fb: nat)
    ensures var calls := Next(m, inp).1;
      multiset(calls)[ReleaseFrame(fb)] == multiset(calls)[WriteFrame(fb)] &&
      multiset(calls)[ReleaseFrame(fb)] <= 1
  {
    PassCallsSplit(m, inp);
    var calls := Next(m, inp).1;
    PairedCounts(calls[..|calls| - |FrameCalls(m, inp)|], m, inp, fb);
  }

  /** STOPPING always finalises, shuts the camera down and returns to IDLE. */
  lemma StoppingRule(m: Monitor, inp: Inputs)
    requires inp.enabled && inp.sdMounted && m.state == Stopping
    ensures Next(m, inp).0.state == Idle
    ensures Next(m, inp).1 == [FinalizeRecording, DeinitCamera]
  {
  }

  /** The monitoring task's variables. */
  class Task {
    var state: RecState
    var recordingStart: u32
    var lastMotionReset: u32
    var filename: string
    var lastFrameTime: u32

    function Snapshot(): Monitor
      reads this
    {
      Monitor(state, recordingStart, lastMotionReset, filename, lastFrameTime)
    }

    constructor ()
      ensures Snapshot() == INITIAL_MONITOR
    {
      state := Idle;
      recordingStart := 0;
      lastMotionReset := 0;
      filename := "";
      lastFrameTime := 0;
    }

    /** One pass of motionMonitoringTask's loop. */
    method Step(inp: Inputs) returns (calls: seq<Action>)
      modifies this
      ensures (Snapshot(), calls) == Next(old(Snapshot()), inp)
    {
      if !inp.enabled || !inp.sdMounted {
        return [];
      }
      var now := inp.now;
      match state {
        case Idle =>
          calls := [ReadMotion];
          if inp.motion {
            state := MotionDetected;
            recordingStart := now;
            lastMotionReset := now;
            filename := RecordingName(now);
          }
        case MotionDetected =>
          var init: seq<Action> := [];
          if !inp.cameraInitialized {
            init := [InitCamera];
            if !inp.cameraInitOk {
              state := Idle;
              return init;
            }
          }
          calls := init + [StartRecording(filename)];
          if inp.recordingInitOk {
            state := Recording;
            lastFrameTime := 0;
          } else {
            state := Idle;
          }
        case Recording =>
          if inp.motion {
            lastMotionReset := now;
          }
          var frameCalls: seq<Action> := [];
          if SubU32(now, lastFrameTime) >= FRAME_INTERVAL_MS {
            if inp.frame.Some? {
              frameCalls := [CaptureFrame, WriteFrame(inp.frame.value), ReleaseFrame(inp.frame.value)];
            } else {
              frameCalls := [CaptureFrame];
            }
            lastFrameTime := now;
          }
          calls := [ReadMotion] + frameCalls;
          if SubU32(now, lastMotionReset) >= DurationMs(inp.durationSec) {
            state := Stopping;
          }
        case Stopping =>
          calls := [FinalizeRecording, DeinitCamera];
          state := Idle;
      }
    }
  }
}

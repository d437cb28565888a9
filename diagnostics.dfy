// Runtime diagnostics (src/diagnostics.cpp, include/diagnostics.h): the
// frame counters with their one-second FPS window, the error rate, the
// health classification of the diagnostics report, and the stack query.
//
// Counters are `unsigned long` (32 bits, wrapping). The FPS value is a
// float in the firmware and a real here; heap, PSRAM and WiFi readings are
// inputs of the report.

module Diagnostics {
  import opened Common
  import CameraPolicy

  /** Length of the FPS measurement window in milliseconds. */
  const FPS_WINDOW_MS: u32 := 1000

  // ---------------------------------------------------------------------
  // FPS window
  // ---------------------------------------------------------------------

  /** The window fields of g_diag: frames counted, window start, last FPS figure. */
  datatype Window = Window(count: u32, start: u32, fps: real)

  /**
   * updateFrameStats on the window: one more frame, and once the window
   * has lasted a second the FPS figure is the frames per second over it and
   * a new window starts at `now`.
   */
  function FrameStep(w: Window, now: u32): Window
  {
    var count := ToU32(w.count + 1);
    var elapsed := SubU32(now, w.start);
    if elapsed >= FPS_WINDOW_MS then Window(0, now, FramesPerSecond(count, elapsed))
    else w.(count := count)
  }

  /** `frames` over `elapsedMs` milliseconds, per second. */
  function FramesPerSecond(frames: nat, elapsedMs: nat): (r: real)
    requires elapsedMs > 0
    ensures r * (elapsedMs as real) == (frames as real) * 1000.0
  {
    (frames as real * 1000.0) / (elapsedMs as real)
  }

  /** The window after frames recorded at `times`, in order. */
  function FrameSteps(w: Window, times: seq<u32>): Window
  {
    if |times| == 0 then w else FrameStep(FrameSteps(w, times[..|times| - 1]), times[|times| - 1])
  }

  /** Every time in `times` falls inside the window that starts at `start`. */
  predicate InsideWindow(start: u32, times: seq<u32>)
  {
    forall k :: 0 <= k < |times| ==> SubU32(times[k], start) < FPS_WINDOW_MS
  }

  /** While the window is open, each recorded frame adds exactly one to the count. */
  lemma {:induction false} OpenWindowCounts(w: Window, times: seq<u32>)
    requires InsideWindow(w.start, times) && w.count + |times| < 0x1_0000_0000
    ensures FrameSteps(w, times) == w.(count := w.count + |times|)
  {
    if |times| > 0 {
      OpenWindowCounts(w, times[..|times| - 1]);
    }
  }

  /**
   * The FPS figure is the number of frames recorded in the window divided
   * by its length in seconds, and the next window starts empty at the time
   * of the frame that closed it.
   */
  lemma WindowFps(w: Window, times: seq<u32>, last: u32)
    requires InsideWindow(w.start, times) && SubU32(last, w.start) >= FPS_WINDOW_MS
    requires w.count + |times| + 1 < 0x1_0000_0000
    ensures FrameSteps(w, times + [last]) ==
      Window(0, last, FramesPerSecond(w.count + |times| + 1, SubU32(last, w.start)))
  {
    assert (times + [last])[..|times|] == times;
    OpenWindowCounts(w, times);
    var open := w.(count := w.count + |times|);
    assert FrameSteps(w, times + [last]) == FrameStep(open, last);
    assert ToU32(open.count + 1) == w.count + |times| + 1;
  }

  /**
   * How handleCapture and handleStream account a frame sent, as written:
   * they add one to frame_count themselves and then call updateFrameStats,
   * which adds another.
   */
  function FrameSentAsWritten(w: Window, now: u32): Window
  {
    FrameStep(w.(count := ToU32(w.count + 1)), now)
  }

  /** The accounting the window is meant to get: one count per frame, by updateFrameStats alone. */
  function FrameSent(w: Window, now: u32): Window
  {
    FrameStep(w, now)
  }

  /**
   * One frame sent at the end of a fresh one-second window is reported as
   * 2 frames per second as written, and as 1 frame per second with one
   * count per frame.
   */
  lemma FrameSentCountsTwice()
    ensures FrameSentAsWritten(Window(0, 0, 0.0), 1000).fps == 2.0
    ensures FrameSent(Window(0, 0, 0.0), 1000).fps == 1.0
  {
  }

  /** As written, a window's FPS figure is twice the frames per second actually sent. */
  lemma {:induction false} AsWrittenDoublesCount(w: Window, times: seq<u32>)
    requires InsideWindow(w.start, times) && w.count + 2 * |times| < 0x1_0000_0000
    ensures FramesSentAsWritten(w, times) == w.(count := w.count + 2 * |times|)
  {
    if |times| > 0 {
      AsWrittenDoublesCount(w, times[..|times| - 1]);
    }
  }

  function FramesSentAsWritten(w: Window, times: seq<u32>): Window
  {
    if |times| == 0 then w
    else FrameSentAsWritten(FramesSentAsWritten(w, times[..|times| - 1]), times[|times| - 1])
  }

  /** g_diag. */
  class Counters {
    /** frames in the current FPS window */
    var frameCount: u32
    /** capture failures since boot */
    var frameErrors: u32
    /** frames sent since boot */
    var totalFramesSent: u32
    var lastFrameTime: u32
    var fpsCalculationStart: u32
    var currentFps: real
    var totalBytesSent: u32
    var wifiReconnects: u32
    var taskOverruns: u32

    function FpsWindow(): Window
      reads this
    {
      Window(frameCount, fpsCalculationStart, currentFps)
    }

    /** The static initialiser: everything zero. */
    constructor ()
      ensures frameCount == 0 && frameErrors == 0 && totalFramesSent == 0
      ensures lastFrameTime == 0 && fpsCalculationStart == 0 && currentFps == 0.0
      ensures totalBytesSent == 0 && wifiReconnects == 0 && taskOverruns == 0
    {
      frameCount, frameErrors, totalFramesSent := 0, 0, 0;
      lastFrameTime, fpsCalculationStart, currentFps := 0, 0, 0.0;
      totalBytesSent, wifiReconnects, taskOverruns := 0, 0, 0;
    }

    /** initDiagnostics: counters zeroed, the frame clock and the FPS window starting at `now`. */
    method Init(now: u32)
      modifies this
      ensures frameCount == 0 && frameErrors == 0 && totalFramesSent == 0
      ensures lastFrameTime == now && fpsCalculationStart == now && currentFps == 0.0
      ensures totalBytesSent == 0 && wifiReconnects == 0 && taskOverruns == 0
    {
      frameCount := 0;
      frameErrors := 0;
      totalFramesSent := 0;
      lastFrameTime := now;
      fpsCalculationStart := now;
      currentFps := 0.0;
      totalBytesSent := 0;
      wifiReconnects := 0;
      taskOverruns := 0;
    }

    /** updateFrameStats: one frame step of the window, and the last frame time is `now`. */
    method UpdateFrameStats(now: u32)
      modifies this`frameCount, this`fpsCalculationStart, this`currentFps, this`lastFrameTime
      ensures FpsWindow() == FrameStep(old(FpsWindow()), now)
      ensures lastFrameTime == now
    {
      frameCount := ToU32(frameCount + 1);
      var elapsed := SubU32(now, fpsCalculationStart);
      if elapsed >= FPS_WINDOW_MS {
        currentFps := FramesPerSecond(frameCount, elapsed);
        frameCount := 0;
        fpsCalculationStart := now;
      }
      lastFrameTime := now;
    }

    /**
     * The statistics of a frame sent, as handleCapture and handleStream
     * keep them: one more frame and `len` more bytes since boot, one more
     * count in the window by the handler itself, and then updateFrameStats,
     * which counts the frame again.
     */
    method RecordFrameSent(len: u32, now: u32)
      modifies this`frameCount, this`fpsCalculationStart, this`currentFps, this`lastFrameTime,
        this`totalFramesSent, this`totalBytesSent
      ensures totalFramesSent == ToU32(old(totalFramesSent) + 1)
      ensures totalBytesSent == ToU32(old(totalBytesSent) + len)
      ensures FpsWindow() == FrameSentAsWritten(old(FpsWindow()), now) && lastFrameTime == now
    {
      frameCount := ToU32(frameCount + 1);
      totalFramesSent := ToU32(totalFramesSent + 1);
      totalBytesSent := ToU32(totalBytesSent + len);
      lastFrameTime := now;
      UpdateFrameStats(now);
    }

    /** A failed capture: one more frame error. */
    method RecordFrameError()
      modifies this`frameErrors
      ensures frameErrors == ToU32(old(frameErrors) + 1)
    {
      frameErrors := ToU32(frameErrors + 1);
    }
  }

  // ---------------------------------------------------------------------
  // Report figures
  // ---------------------------------------------------------------------

  /**
   * error_rate_pct: the share of capture attempts that failed, in percent.
   * The attempt count is the `unsigned long` sum of the two counters, so it
   * wraps modulo 2^32.
   */
  function ErrorRate(sent: u32, errors: u32): (r: real)
    ensures ToU32(sent + errors) == 0 ==> r == 0.0
    ensures ToU32(sent + errors) > 0 ==> r * (ToU32(sent + errors) as real) == 100.0 * errors as real
    ensures sent + errors < 0x1_0000_0000 ==>
      && 0.0 <= r <= 100.0
      && (r == 0.0 <==> errors == 0)
      && (r == 100.0 <==> errors > 0 && sent == 0)
  {
    var total := ToU32(sent + errors);
    if total > 0 then
      Percentage(errors, total);
      100.0 * errors as real / total as real
    else 0.0
  }

  /** `part` out of `whole`, in percent, and where it lies in 0..100 when `part` is at most `whole`. */
  lemma Percentage(part: nat, whole: nat)
    requires whole > 0
    ensures var p := 100.0 * part as real / whole as real;
      && p * whole as real == 100.0 * part as real
      && (part <= whole ==> 0.0 <= p <= 100.0)
      && (p == 0.0 <==> part == 0)
      && (p == 100.0 <==> part == whole)
  {
    var p := 100.0 * part as real / whole as real;
    assert p * whole as real == 100.0 * part as real;
    if part <= whole {
      assert p * whole as real <= 100.0 * whole as real;
    }
  }

  /**
   * Once the sum wraps, the figure leaves 0..100 and can hide errors: with
   * 2^32 - 1 frames sent, two errors read as 200 percent and one as none.
   */
  lemma ErrorRateWraps()
    ensures ErrorRate(0xFFFF_FFFF, 2) == 200.0
    ensures ErrorRate(0xFFFF_FFFF, 1) == 0.0
  {
  }

  /** The last init error is reported only after a failed attempt with a code other than ESP_OK. */
  function ReportedLastError(d: CameraPolicy.CameraDiag): (r: Option<EspErr>)
    ensures r.Some? <==> !d.lastInitSuccess && d.lastErrorCode != ESP_OK
    ensures r.Some? ==> r.value == d.lastErrorCode
  {
    if !d.lastInitSuccess && d.lastErrorCode != ESP_OK then Some(d.lastErrorCode) else None
  }

  /**
   * After an initialisation attempt the report shows the library's error
   * code when esp_camera_init failed, ESP_FAIL when no sensor answered, and
   * no error after a success.
   */
  lemma InitOutcomeReported(d: CameraPolicy.CameraDiag, initErr: EspErr, sensorPresent: bool, flushed: nat)
    ensures ReportedLastError(CameraPolicy.DiagAfterInit(d, initErr, sensorPresent, flushed)) ==
      if initErr != ESP_OK then Some(initErr)
      else if !sensorPresent then Some(ESP_FAIL)
      else None
  {
  }

  /** getTaskStackHighWaterMark; `hwm` is what FreeRTOS reports for an existing task. */
  function StackHighWaterMark(task: Option<nat>, hwm: nat): (r: nat)
    ensures task.None? ==> r == 0
    ensures task.Some? ==> r == hwm
  {
    if task.None? then 0 else hwm
  }

  // ---------------------------------------------------------------------
  // Health
  // ---------------------------------------------------------------------

  /** One entry of the report's warning or error list. */
  datatype Issue =
    | LowHeap
    | LowPsram
    | LowFps
    | WeakWifi
    | CameraNotInitialized
    | LastError(e: CameraPolicy.InitError)
    | HighInitFailureRate(percent: int)
    | WarmupIncomplete(flushed: nat)
    | NoPsram
    | HighFrameErrorRate

  datatype Health = Ok | Warning | Error

  /** What the health section reads. */
  datatype HealthInputs = HealthInputs(
    freeHeap: nat,
    psramFound: bool,
    freePsram: nat,
    currentFps: real,
    cameraInitialized: bool,
    cameraSleeping: bool,
    wifiConnected: bool,
    rssi: int,
    diag: CameraPolicy.CameraDiag,
    totalFramesSent: u32,
    frameErrors: u32,
    frameCount: u32)

  const LOW_HEAP: nat := 20000
  const LOW_PSRAM: nat := 100000
  const WEAK_RSSI: int := -80
  const WARMUP_MIN: nat := 3

  function If<T>(c: bool, x: T): seq<T> { if c then [x] else [] }

  /** Init failures above half of the attempts. */
  predicate HighFailureRate(d: CameraPolicy.CameraDiag)
  {
    d.initFailures > 0 && d.initAttempts > 0 && 2 * d.initFailures > d.initAttempts
  }

  /** The warnings, in the order the report adds them. */
  function Warnings(h: HealthInputs): seq<Issue>
  {
    If(h.freeHeap < LOW_HEAP, LowHeap) +
    If(h.psramFound && h.freePsram < LOW_PSRAM, LowPsram) +
    If(h.currentFps < 5.0 && h.cameraInitialized && !h.cameraSleeping, LowFps) +
    If(h.wifiConnected && h.rssi < WEAK_RSSI, WeakWifi) +
    If(HighFailureRate(h.diag),
       HighInitFailureRate(if h.diag.initAttempts > 0 then 100 * h.diag.initFailures / h.diag.initAttempts else 0)) +
    If(h.cameraInitialized && h.diag.framesFlushed < WARMUP_MIN, WarmupIncomplete(h.diag.framesFlushed)) +
    If(!h.psramFound, NoPsram)
  }

  /** The errors, in the order the report adds them. */
  function Errors(h: HealthInputs): seq<Issue>
  {
    var notInit := !h.cameraInitialized && !h.cameraSleeping;
    var total := ToU32(h.totalFramesSent + h.frameErrors);
    If(notInit, CameraNotInitialized) +
    (if notInit && h.diag.lastError.Some? then [LastError(h.diag.lastError.value)] else []) +
    If(total > 10 && 10 * h.frameErrors > total, HighFrameErrorRate) +
    If(10 * h.frameErrors > h.frameCount, HighFrameErrorRate)
  }

  /** The overall verdict: "error" over "warning" over "ok". */
  function Overall(warnings: seq<Issue>, errors: seq<Issue>): (r: Health)
    ensures r == Error <==> |errors| > 0
    ensures r == Warning <==> |errors| == 0 && |warnings| > 0
    ensures r == Ok <==> |errors| == 0 && |warnings| == 0
  {
    if |errors| > 0 then Error else if |warnings| > 0 then Warning else Ok
  }

  /** The checks of the report that add an error, each as the source states it. */
  predicate ErrorCondition(h: HealthInputs)
  {
    var total := ToU32(h.totalFramesSent + h.frameErrors);
    (!h.cameraInitialized && !h.cameraSleeping)
    || (total > 10 && 10 * h.frameErrors > total)
    || 10 * h.frameErrors > h.frameCount
  }

  /** The checks of the report that add a warning, each as the source states it. */
  predicate WarningCondition(h: HealthInputs)
  {
    h.freeHeap < LOW_HEAP
    || (h.psramFound && h.freePsram < LOW_PSRAM)
    || (h.currentFps < 5.0 && h.cameraInitialized && !h.cameraSleeping)
    || (h.wifiConnected && h.rssi < WEAK_RSSI)
    || (h.diag.initFailures > 0 && h.diag.initAttempts > 0 && 2 * h.diag.initFailures > h.diag.initAttempts)
    || (h.cameraInitialized && h.diag.framesFlushed < WARMUP_MIN)
    || !h.psramFound
  }

  /**
   * The verdict of the report: "error" exactly when one of the error checks
   * fires, "ok" exactly when no check of either kind fires. Since
   * `frame_count` is the count of the current one-second window, any frame
   * error at all makes the verdict "error" right after the window restarts.
   */
  lemma OverallVerdict(h: HealthInputs)
    ensures Overall(Warnings(h), Errors(h)) == Error <==> ErrorCondition(h)
    ensures Overall(Warnings(h), Errors(h)) == Ok <==> !ErrorCondition(h) && !WarningCondition(h)
    ensures h.frameErrors > 0 && h.frameCount == 0 ==> Overall(Warnings(h), Errors(h)) == Error
  {
  }

  /** "Camera not initialized" is reported exactly when the camera is neither initialised nor sleeping. */
  lemma CameraNotInitializedRule(h: HealthInputs)
    ensures CameraNotInitialized in Errors(h) <==> !h.cameraInitialized && !h.cameraSleeping
    ensures !h.cameraInitialized && !h.cameraSleeping ==> Overall(Warnings(h), Errors(h)) == Error
    ensures (exists e :: LastError(e) in Errors(h)) ==> !h.cameraInitialized && !h.cameraSleeping
  {
    var notInit := !h.cameraInitialized && !h.cameraSleeping;
    if notInit {
      assert Errors(h)[0] == CameraNotInitialized;
    }
  }

  /** The init-failure warning appears exactly when failures exceed half of the attempts. */
  lemma FailureRateRule(h: HealthInputs)
    ensures (exists p :: HighInitFailureRate(p) in Warnings(h)) <==>
      h.diag.initAttempts > 0 && 2 * h.diag.initFailures > h.diag.initAttempts
  {
    var d := h.diag;
    if d.initAttempts > 0 && 2 * d.initFailures > d.initAttempts {
      var p := 100 * d.initFailures / d.initAttempts;
      assert HighInitFailureRate(p) in Warnings(h);
    }
  }

  /** With no errors and no warnings the report is "ok"; a camera that is awake and warm adds none about the camera. */
  lemma HealthyCamera(h: HealthInputs)
    requires h.cameraInitialized && !h.cameraSleeping && h.currentFps >= 5.0
    requires h.diag.framesFlushed >= WARMUP_MIN && !HighFailureRate(h.diag)
    ensures forall i :: 0 <= i < |Warnings(h)| ==> Warnings(h)[i] in {LowHeap, LowPsram, WeakWifi, NoPsram}
    ensures forall i :: 0 <= i < |Errors(h)| ==> Errors(h)[i] == HighFrameErrorRate
  {
  }
}

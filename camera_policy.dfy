// Camera policy layer of the firmware (src/camera.cpp).
//
// This layer talks to the esp32-camera library, not to the custom driver:
// every call into that library is an oracle input of the methods below and
// is recorded, in order, in the `calls` log of the Camera object. The frame
// size numbers are those of include/camera_i2s.h (QVGA = 0 .. UXGA = 5).
// This file sees esp_camera's framesize_t instead, which numbers the sizes
// differently but lists these six in the same order.

module CameraPolicy {
  import opened Common
  import Ov2640

  // ---------------------------------------------------------------------
  // RSSI -> JPEG quality (a higher number is a smaller, coarser JPEG)
  // ---------------------------------------------------------------------

  /** The quality ladder of adjustQualityBasedOnWiFi. */
  function QualityForRssi(rssi: int): (q: int)
    ensures 10 <= q <= 22
  {
    if rssi > -50 then 10
    else if rssi > -60 then 12
    else if rssi > -70 then 15
    else if rssi > -80 then 18
    else 22
  }

  /** A weaker signal never gets a finer quality. */
  lemma QualityMonotone(a: int, b: int)
    requires a <= b
    ensures QualityForRssi(b) <= QualityForRssi(a)
  {
  }

  // ---------------------------------------------------------------------
  // Frame-size ladder driven by the measured frame rate
  // ---------------------------------------------------------------------

  /** The rungs the adjuster moves between, smallest first. HVGA and UXGA are not on it. */
  const LADDER: seq<int> := [Ov2640.FRAMESIZE_QVGA, Ov2640.FRAMESIZE_CIF, Ov2640.FRAMESIZE_VGA, Ov2640.FRAMESIZE_SVGA]

  function StepDown(fs: int): int
  {
    if fs == Ov2640.FRAMESIZE_SVGA then Ov2640.FRAMESIZE_VGA
    else if fs == Ov2640.FRAMESIZE_VGA then Ov2640.FRAMESIZE_CIF
    else if fs == Ov2640.FRAMESIZE_CIF then Ov2640.FRAMESIZE_QVGA
    else fs
  }

  function StepUp(fs: int): int
  {
    if fs == Ov2640.FRAMESIZE_QVGA then Ov2640.FRAMESIZE_CIF
    else if fs == Ov2640.FRAMESIZE_CIF then Ov2640.FRAMESIZE_VGA
    else if fs == Ov2640.FRAMESIZE_VGA then Ov2640.FRAMESIZE_SVGA
    else fs
  }

  /** Each step moves exactly one rung along the ladder. */
  lemma StepsFollowLadder(i: nat)
    requires i < |LADDER|
    ensures i > 0 ==> StepDown(LADDER[i]) == LADDER[i - 1]
    ensures i == 0 ==> StepDown(LADDER[i]) == LADDER[i]
    ensures i + 1 < |LADDER| ==> StepUp(LADDER[i]) == LADDER[i + 1]
    ensures i + 1 == |LADDER| ==> StepUp(LADDER[i]) == LADDER[i]
  {
  }

  /** A size off the ladder is never stepped. */
  lemma StepsOffLadder(fs: int)
    requires fs !in LADDER
    ensures StepDown(fs) == fs && StepUp(fs) == fs
  {
  }

  /** Stepping up and back down (or down and back up) returns to the start. */
  lemma StepsInverse(fs: int)
    ensures fs in LADDER && fs != Ov2640.FRAMESIZE_SVGA ==> StepDown(StepUp(fs)) == fs
    ensures fs in LADDER && fs != Ov2640.FRAMESIZE_QVGA ==> StepUp(StepDown(fs)) == fs
  {
  }

  /** Stepping down really shrinks the picture in both dimensions. */
  lemma StepDownShrinks(fs: int)
    requires fs in LADDER && fs != Ov2640.FRAMESIZE_QVGA
    ensures Ov2640.Dimensions(fs).Some? && Ov2640.Dimensions(StepDown(fs)).Some?
    ensures Ov2640.Dimensions(StepDown(fs)).value.0 < Ov2640.Dimensions(fs).value.0
    ensures Ov2640.Dimensions(StepDown(fs)).value.1 < Ov2640.Dimensions(fs).value.1
  {
  }

  /** A floating-point frame rate as the adjuster sees it. */
  datatype Fps = Finite(value: real) | NotANumber | PosInfinity | NegInfinity

  /** The adjuster ignores a rate that is not positive, NaN or infinite. */
  predicate UsableFps(f: Fps)
  {
    f.Finite? && f.value > 0.0
  }

  /** The size the adjuster would switch to: below 5 fps step down, above 20 fps (with PSRAM) step up. */
  function ProposedSize(fs: int, fps: real, psram: bool): int
  {
    if fps < 5.0 && fs > Ov2640.FRAMESIZE_QVGA then StepDown(fs)
    else if fps > 20.0 && fs < Ov2640.FRAMESIZE_SVGA && psram then StepUp(fs)
    else fs
  }

  /** The size the adjuster asks the sensor for, if it asks at all. */
  function ResolutionTarget(fs: int, fps: Fps, psram: bool): (t: Option<int>)
    ensures t.Some? ==> UsableFps(fps) && t.value != fs
  {
    if UsableFps(fps) && ProposedSize(fs, fps.value, psram) != fs
    then Some(ProposedSize(fs, fps.value, psram)) else None
  }

  /**
   * The adjuster changes the size only one rung along the ladder: down when
   * the rate is below 5 fps, up when it is above 20 fps and PSRAM is present;
   * between 5 and 20 fps, or off the ladder, it never asks for a change.
   */
  lemma ResolutionTargetRules(fs: int, fps: Fps, psram: bool)
    ensures var t := ResolutionTarget(fs, fps, psram);
      t.Some? ==> (fs in LADDER && t.value in LADDER &&
        ((fps.value < 5.0 && t.value == StepDown(fs) && t.value < fs) ||
         (fps.value > 20.0 && psram && t.value == StepUp(fs) && t.value > fs)))
    ensures UsableFps(fps) && 5.0 <= fps.value <= 20.0 ==> ResolutionTarget(fs, fps, psram).None?
    ensures fs !in LADDER ==> ResolutionTarget(fs, fps, psram).None?
    ensures !UsableFps(fps) ==> ResolutionTarget(fs, fps, psram).None?
    ensures UsableFps(fps) && fps.value < 5.0 && fs in LADDER && fs != Ov2640.FRAMESIZE_QVGA ==>
      ResolutionTarget(fs, fps, psram) == Some(StepDown(fs))
    ensures UsableFps(fps) && fps.value > 20.0 && psram && fs in LADDER && fs != Ov2640.FRAMESIZE_SVGA ==>
      ResolutionTarget(fs, fps, psram) == Some(StepUp(fs))
  {
  }

  // ---------------------------------------------------------------------
  // Initialisation diagnostics
  // ---------------------------------------------------------------------

  /** The kinds of message initCamera stores for a failed initialisation. */
  datatype InitError = NotFound | I2cFailure | InvalidArg | NoMemory | Unrecognised(code: EspErr) | NoSensor

  const ESP_ERR_INVALID_ARG: EspErr := 0x103
  const ESP_ERR_NOT_FOUND: EspErr := 0x105
  const ESP_ERR_TIMEOUT: EspErr := 0x107
  const SCCB_PROBE_FAILED: EspErr := 0x20001

  /** The error-code classification of a failed esp_camera_init. */
  function ClassifyInitError(err: EspErr): (e: InitError)
    ensures e != NoSensor
    ensures e.Unrecognised? <==>
      (err != ESP_ERR_NOT_FOUND && err != SCCB_PROBE_FAILED && err != ESP_ERR_TIMEOUT &&
       err != ESP_ERR_INVALID_ARG && err != ESP_ERR_NO_MEM)
    ensures e.Unrecognised? ==> e.code == err
  {
    if err == ESP_ERR_NOT_FOUND then NotFound
    else if err == SCCB_PROBE_FAILED || err == ESP_ERR_TIMEOUT then I2cFailure
    else if err == ESP_ERR_INVALID_ARG then InvalidArg
    else if err == ESP_ERR_NO_MEM then NoMemory
    else Unrecognised(err)
  }

  /** g_camera_diag; `lastError` None stands for the empty message. */
  datatype CameraDiag = CameraDiag(
    lastInitSuccess: bool,
    initAttempts: nat,
    initFailures: nat,
    lastErrorCode: EspErr,
    lastError: Option<InitError>,
    sensorDetected: bool,
    framesFlushed: nat)

  const INITIAL_DIAG: CameraDiag := CameraDiag(false, 0, 0, ESP_OK, None, false, 0)

  /** Number of frames grabbed and dropped right after a successful initialisation. */
  const FLUSH_FRAMES: nat := 5

  /** A call into the esp32-camera library; frame buffers are named by handle. */
  datatype LibCall =
    | CameraInit
    | CameraDeinit
    | FbGet
    | FbReturn(fb: nat)
    | SetQuality(q: int)
    | SetFramesize(fs: int)
    | ApplySettings
    | OptimizeForStreaming

  /** The library calls of the warm-up loop, given what each grab returned. */
  function FlushCalls(grabs: seq<Option<nat>>): seq<LibCall>
  {
    if |grabs| == 0 then []
    else
      var last := grabs[|grabs| - 1];
      FlushCalls(grabs[..|grabs| - 1]) + [FbGet] + (if last.Some? then [FbReturn(last.value)] else [])
  }

  /** Frames the warm-up loop managed to grab. */
  function CountGrabbed(grabs: seq<Option<nat>>): (n: nat)
    ensures n <= |grabs|
  {
    if |grabs| == 0 then 0
    else CountGrabbed(grabs[..|grabs| - 1]) + (if grabs[|grabs| - 1].Some? then 1 else 0)
  }

  /** Every frame grabbed during the warm-up is handed back, and nothing else. */
  lemma {:induction false} FlushReturnsGrabbed(grabs: seq<Option<nat>>)
    ensures |FlushCalls(grabs)| == |grabs| + CountGrabbed(grabs)
    ensures forall h: nat :: FbReturn(h) in FlushCalls(grabs) <==> Some(h) in grabs
  {
    if |grabs| > 0 {
      var front := grabs[..|grabs| - 1];
      FlushReturnsGrabbed(front);
      assert grabs == front + [grabs[|grabs| - 1]];
      forall h: nat
        ensures FbReturn(h) in FlushCalls(grabs) <==> Some(h) in grabs
      {
        assert Some(h) in grabs <==> Some(h) in front || Some(h) == grabs[|grabs| - 1];
      }
    }
  }

  /** g_camera_diag after one initCamera, given what the library returned and how many warm-up frames were grabbed. */
  function DiagAfterInit(d: CameraDiag, initErr: EspErr, sensorPresent: bool, flushed: nat): CameraDiag
  {
    var tried := d.(initAttempts := d.initAttempts + 1);
    if initErr != ESP_OK then
      tried.(initFailures := d.initFailures + 1, lastInitSuccess := false, lastErrorCode := initErr,
             lastError := Some(ClassifyInitError(initErr)), sensorDetected := false)
    else if !sensorPresent then
      tried.(initFailures := d.initFailures + 1, lastInitSuccess := false, lastErrorCode := ESP_FAIL,
             lastError := Some(NoSensor), sensorDetected := false)
    else
      tried.(sensorDetected := true, framesFlushed := flushed, lastInitSuccess := true,
             lastErrorCode := ESP_OK, lastError := None)
  }

  /** The library calls of one initCamera. */
  function InitCalls(initErr: EspErr, sensorPresent: bool, grabs: seq<Option<nat>>): seq<LibCall>
  {
    if initErr != ESP_OK then [CameraInit]
    else if !sensorPresent then [CameraInit, CameraDeinit]
    else [CameraInit] + FlushCalls(grabs) + [ApplySettings, OptimizeForStreaming]
  }

  /** The camera globals of src/camera.cpp and the camera fields of g_config they adjust. */
  class Camera {
    /** camera_initialized */
    var initialized: bool
    /** camera_sleeping */
    var sleeping: bool
    /** g_config.camera.quality */
    var quality: int
    /** g_config.camera.framesize */
    var framesize: int
    /** g_camera_diag */
    var diag: CameraDiag
    /** calls made into the esp32-camera library, oldest first */
    var calls: seq<LibCall>

    /** Boot state: not initialised, not sleeping, no attempt yet. */
    constructor (quality0: int, framesize0: int)
      ensures !initialized && !sleeping
      ensures quality == quality0 && framesize == framesize0
      ensures diag == INITIAL_DIAG && calls == []
    {
      initialized := false;
      sleeping := false;
      quality := quality0;
      framesize := framesize0;
      diag := INITIAL_DIAG;
      calls := [];
    }

    /**
     * initCamera. `initErr` is what esp_camera_init returns, `sensorPresent`
     * whether a sensor handle is available afterwards, and `grabs` what each
     * warm-up grab returns.
     */
    method Init(initErr: EspErr, sensorPresent: bool, grabs: seq<Option<nat>>) returns (ok: bool)
      requires |grabs| == FLUSH_FRAMES
      modifies this
      ensures ok <==> initErr == ESP_OK && sensorPresent
      ensures diag.initAttempts == old(diag.initAttempts) + 1
      ensures diag.initFailures == old(diag.initFailures) + (if ok then 0 else 1)
      ensures diag.lastInitSuccess == ok && diag.sensorDetected == ok
      ensures initErr != ESP_OK ==>
        diag.lastErrorCode == initErr && diag.lastError == Some(ClassifyInitError(initErr)) &&
        calls == old(calls) + [CameraInit]
      ensures initErr == ESP_OK && !sensorPresent ==>
        diag.lastErrorCode == ESP_FAIL && diag.lastError == Some(NoSensor) &&
        calls == old(calls) + [CameraInit, CameraDeinit]
      ensures ok ==>
        initialized && !sleeping &&
        diag.lastErrorCode == ESP_OK && diag.lastError.None? &&
        diag.framesFlushed == CountGrabbed(grabs) &&
        calls == old(calls) + [CameraInit] + FlushCalls(grabs) + [ApplySettings, OptimizeForStreaming]
      ensures !ok ==> (initialized == old(initialized) && sleeping == old(sleeping) &&
        diag.framesFlushed == old(diag.framesFlushed))
      ensures quality == old(quality) && framesize == old(framesize)
      ensures diag == DiagAfterInit(old(diag), initErr, sensorPresent, CountGrabbed(grabs))
      ensures calls == old(calls) + InitCalls(initErr, sensorPresent, grabs)
    {
      diag := diag.(initAttempts := diag.initAttempts + 1);
      calls := calls + [CameraInit];
      if initErr != ESP_OK {
        diag := diag.(initFailures := diag.initFailures + 1, lastInitSuccess := false,
                      lastErrorCode := initErr, lastError := Some(ClassifyInitError(initErr)),
                      sensorDetected := false);
        return false;
      }
      if !sensorPresent {
        diag := diag.(initFailures := diag.initFailures + 1, lastInitSuccess := false,
                      lastErrorCode := ESP_FAIL, lastError := Some(NoSensor), sensorDetected := false);
        calls := calls + [CameraDeinit];
        return false;
      }
      diag := diag.(sensorDetected := true);
      initialized := true;
      sleeping := false;
      var flushed := Flush(grabs);
      diag := diag.(framesFlushed := flushed);
      calls := calls + [ApplySettings];
      diag := diag.(lastInitSuccess := true, lastErrorCode := ESP_OK, lastError := None);
      calls := calls + [OptimizeForStreaming];
      ok := true;
    }

    /** The warm-up loop of initCamera: grab each frame and hand it straight back. */
    method Flush(grabs: seq<Option<nat>>) returns (flushed: nat)
      modifies this`calls
      ensures flushed == CountGrabbed(grabs)
      ensures calls == old(calls) + FlushCalls(grabs)
    {
      flushed := 0;
      var i := 0;
      while i < |grabs|
        invariant 0 <= i <= |grabs|
        invariant flushed == CountGrabbed(grabs[..i])
        invariant calls == old(calls) + FlushCalls(grabs[..i])
      {
        assert grabs[..i + 1][..i] == grabs[..i];
        calls := calls + [FbGet];
        if grabs[i].Some? {
          calls := calls + [FbReturn(grabs[i].value)];
          flushed := flushed + 1;
        }
        i := i + 1;
      }
      assert grabs[..i] == grabs;
    }

    /** deinitCamera: only an initialised camera is shut down, and it is then marked sleeping. */
    method Deinit()
      modifies this
      ensures old(initialized) ==> !initialized && sleeping && calls == old(calls) + [CameraDeinit]
      ensures !old(initialized) ==> sleeping == old(sleeping) && calls == old(calls)
      ensures !initialized
      ensures quality == old(quality) && framesize == old(framesize) && diag == old(diag)
    {
      if initialized {
        calls := calls + [CameraDeinit];
        initialized := false;
        sleeping := true;
      }
    }

    /**
     * reinitCamera: deinit followed by init. The library sees a deinit only
     * when the camera was initialised, then the calls of one init; the
     * diagnostics are those of that init.
     */
    method Reinit(initErr: EspErr, sensorPresent: bool, grabs: seq<Option<nat>>) returns (ok: bool)
      requires |grabs| == FLUSH_FRAMES
      modifies this
      ensures ok <==> initErr == ESP_OK && sensorPresent
      ensures ok ==> initialized && !sleeping
      ensures !ok ==> !initialized && sleeping == (old(initialized) || old(sleeping))
      ensures calls == old(calls) + (if old(initialized) then [CameraDeinit] else [])
        + InitCalls(initErr, sensorPresent, grabs)
      ensures diag == DiagAfterInit(old(diag), initErr, sensorPresent, CountGrabbed(grabs))
      ensures quality == old(quality) && framesize == old(framesize)
    {
      Deinit();
      ok := Init(initErr, sensorPresent, grabs);
    }

    /** captureFrame: no library call unless the camera is initialised and awake. */
    method CaptureFrame(grabbed: Option<nat>) returns (fb: Option<nat>)
      modifies this`calls
      ensures !initialized || sleeping ==> fb.None? && calls == old(calls)
      ensures initialized && !sleeping ==> fb == grabbed && calls == old(calls) + [FbGet]
    {
      if !initialized || sleeping {
        return None;
      }
      calls := calls + [FbGet];
      fb := grabbed;
    }

    /** releaseFrame: a NULL frame is ignored. */
    method ReleaseFrame(fb: Option<nat>)
      modifies this`calls
      ensures fb.None? ==> calls == old(calls)
      ensures fb.Some? ==> calls == old(calls) + [FbReturn(fb.value)]
    {
      if fb.Some? {
        calls := calls + [FbReturn(fb.value)];
      }
    }

    /**
     * adjustQualityBasedOnWiFi. Without WiFi the stored quality is returned and
     * nothing changes; otherwise the ladder value is returned, and stored and
     * sent to the sensor only when a sensor exists and the value differs.
     */
    method AdjustQualityBasedOnWiFi(connected: bool, rssi: int, sensorPresent: bool) returns (q: int)
      modifies this`quality, this`calls
      ensures !connected ==> q == old(quality)
      ensures connected ==> q == QualityForRssi(rssi)
      ensures quality == (if connected && sensorPresent then q else old(quality))
      ensures calls == old(calls) +
        (if connected && sensorPresent && q != old(quality) then [SetQuality(q)] else [])
    {
      if !connected {
        return quality;
      }
      q := QualityForRssi(rssi);
      if sensorPresent && q != quality {
        calls := calls + [SetQuality(q)];
        quality := q;
      }
    }

    /**
     * adjustResolutionBasedOnPerformance. `setResult` is what the sensor's
     * set_framesize returns. True exactly when a new size was accepted.
     */
    method AdjustResolution(sensorPresent: bool, fps: Fps, psram: bool, setResult: EspErr) returns (changed: bool)
      modifies this`framesize, this`calls
      ensures var t := ResolutionTarget(old(framesize), fps, psram);
        && (changed <==> sensorPresent && t.Some? && setResult == ESP_OK)
        && framesize == (if changed then t.value else old(framesize))
        && calls == old(calls) + (if sensorPresent && t.Some? then [SetFramesize(t.value)] else [])
    {
      if !sensorPresent {
        return false;
      }
      if !UsableFps(fps) {
        return false;
      }
      var current := framesize;
      var next := ProposedSize(current, fps.value, psram);
      if next != current {
        calls := calls + [SetFramesize(next)];
        if setResult == ESP_OK {
          framesize := next;
          return true;
        }
        return false;
      }
      return false;
    }
  }

  // ---------------------------------------------------------------------
  // Reset reason
  // ---------------------------------------------------------------------

  /** esp_reset_reason_t. */
  datatype ResetReason =
    | RstUnknown | RstPowerOn | RstExternal | RstSoftware | RstPanic | RstIntWdt
    | RstTaskWdt | RstOtherWdt | RstDeepSleep | RstBrownout | RstSdio

  function ResetReasonText(r: ResetReason): string
  {
    match r
    case RstPowerOn => "Power-on"
    case RstSoftware => "Software reset"
    case RstPanic => "Exception/panic"
    case RstIntWdt => "Interrupt watchdog"
    case RstTaskWdt => "Task watchdog"
    case RstOtherWdt => "Other watchdog"
    case RstDeepSleep => "Deep sleep"
    case RstBrownout => "Brownout"
    case RstSdio => "SDIO"
    case _ => "Unknown"
  }

  /** Only the unknown and external-pin resets read "Unknown"; every other reason has its own text. */
  lemma ResetReasonTextDistinct(a: ResetReason, b: ResetReason)
    ensures ResetReasonText(a) == "Unknown" <==> a == RstUnknown || a == RstExternal
    ensures ResetReasonText(a) == ResetReasonText(b) && ResetReasonText(a) != "Unknown" ==> a == b
  {
  }
}

/**
 * The frame-buffer pool and lifecycle of the custom camera driver in
 * src/camera_i2s_driver.cpp: `camera_i2s_init`, `camera_i2s_deinit`,
 * `camera_i2s_fb_get`, `camera_i2s_fb_return` and `camera_i2s_sensor_set`.
 *
 * The driver state `cam_state` is a class. Its slot array is a Dafny array
 * of slot values updated in place; a `camera_fb_t *` handed to callers is
 * the index of its slot (None for NULL; an index at or beyond the pool size
 * stands for a frame address outside the pool). The heap is
 * represented by the number of JPEG buffers the driver holds. Peripheral
 * set-up, heap allocation and mutex creation are oracles (Platform).
 */
module CameraI2s {
  import opened Common
  import opened Sccb
  import opened Ov2640

  /** Size of each slot's JPEG buffer. */
  const JPEG_BUFFER_SIZE: nat := 65536

  /** Start- and end-of-image markers of ITU-T T.81, Annex B, Table B.1. */
  const SOI: seq<byte> := [0xFF, 0xD8]
  const EOI: seq<byte> := [0xFF, 0xD9]

  /** Test image: application segment (JFIF header). */
  const APP0: seq<byte> :=
    [0xFF, 0xE0, 0x00, 0x10, 0x4A, 0x46, 0x49, 0x46, 0x00, 0x01, 0x01, 0x00, 0x00, 0x01,
     0x00, 0x01, 0x00, 0x00]

  /** Test image: quantisation table. */
  const DQT: seq<byte> :=
    [0xFF, 0xDB, 0x00, 0x43, 0x00, 0x08, 0x06, 0x06, 0x07, 0x06, 0x05, 0x08, 0x07, 0x07,
     0x07, 0x09, 0x09, 0x08, 0x0A, 0x0C, 0x14, 0x0D, 0x0C, 0x0B, 0x0B, 0x0C, 0x19, 0x12,
     0x13, 0x0F, 0x14, 0x1D, 0x1A, 0x1F, 0x1E, 0x1D, 0x1A, 0x1C, 0x1C, 0x20, 0x24, 0x2E,
     0x27, 0x20, 0x22, 0x2C, 0x23, 0x1C, 0x1C, 0x28, 0x37, 0x29, 0x2C, 0x30, 0x31, 0x34,
     0x34, 0x34, 0x1F, 0x27, 0x39, 0x3D, 0x38, 0x32, 0x3C, 0x2E, 0x33, 0x34, 0x32]

  /** Test image: start of frame: 8x8, one component. */
  const SOF0: seq<byte> :=
    [0xFF, 0xC0, 0x00, 0x0B, 0x08, 0x00, 0x08, 0x00, 0x08, 0x01, 0x01, 0x11, 0x00]

  /** Test image: Huffman table. */
  const DHT: seq<byte> :=
    [0xFF, 0xC4, 0x00, 0x14, 0x00, 0x01, 0x00, 0x00, 0x00, 0x00, 0x00, 0x00, 0x00, 0x00,
     0x00, 0x00, 0x00, 0x00, 0x00, 0x00, 0x00, 0x09]

  /** Test image: start of scan and the compressed data. */
  const SOS_SCAN: seq<byte> :=
    [0xFF, 0xDA, 0x00, 0x08, 0x01, 0x01, 0x00, 0x00, 0x3F, 0x00, 0xD2, 0xCF, 0x20]

  /**
   * `generate_test_jpeg`: the fixed 8x8 grey test image every capture
   * returns; it starts with SOI, ends with EOI and fits a slot's buffer.
   */
  function TestJpeg(): (jpeg: seq<byte>)
    ensures |jpeg| == 139 && |jpeg| <= JPEG_BUFFER_SIZE
    ensures jpeg[..2] == SOI && jpeg[|jpeg| - 2..] == EOI
  {
    var body := APP0 + DQT + SOF0 + DHT + SOS_SCAN;
    assert (SOI + body + EOI)[..2] == SOI;
    assert (SOI + body + EOI)[2 + |body|..] == EOI;
    SOI + body + EOI
  }

  /** `camera_fb_t`: `image` is `buf[0..len)`. */
  datatype FrameBuffer = FrameBuffer(image: seq<byte>, width: nat, height: nat, timestamp: u32)

  /** `frame_buffer_slot_t`. */
  datatype Slot = Slot(fb: FrameBuffer, inUse: bool)

  /** A slot as camera_i2s_init leaves it: empty, VGA, free. */
  const FRESH_SLOT: Slot := Slot(FrameBuffer([], 640, 480, 0), false)

  /** The fields of `camera_config_t` the driver acts on. */
  datatype CameraConfig = CameraConfig(frameSize: int, jpegQuality: byte, fbCount: nat)

  /** `camera_sensor_settings_t`. */
  datatype SensorSettings = SensorSettings(
    brightness: int, contrast: int, saturation: int, sharpness: int, denoise: int,
    hmirror: bool, vflip: bool, awb: bool, agc: bool, aec: bool)

  /**
   * What the platform answers during camera_i2s_init: the result of the
   * XCLK and I2S set-up, whether the slot array can be allocated, how many
   * JPEG buffers the heap can still provide, and whether both mutexes can be
   * created.
   */
  datatype Platform = Platform(xclkErr: EspErr, i2sErr: EspErr, slotArrayOk: bool, buffersAvailable: nat, mutexesOk: bool)

  /** The allocation phase of camera_i2s_init succeeds. */
  predicate AllocationOk(n: nat, plat: Platform)
  {
    plat.slotArrayOk && plat.buffersAvailable >= n && plat.mutexesOk
  }

  /** The lowest-index free slot, if any: the slot camera_i2s_fb_get claims. */
  function FirstFree(s: seq<Slot>): (r: Option<nat>)
    ensures r.Some? ==> r.value < |s| && !s[r.value].inUse && forall j :: 0 <= j < r.value ==> s[j].inUse
    ensures r.None? <==> forall j :: 0 <= j < |s| ==> s[j].inUse
    decreases |s|
  {
    if |s| == 0 then None
    else if !s[0].inUse then Some(0)
    else
      match FirstFree(s[1..])
      case None => None
      case Some(i) => Some(i + 1)
  }

  /** The indices of the slots that are handed out. */
  function InUseOf(s: seq<Slot>): set<nat>
  {
    set i | 0 <= i < |s| && s[i].inUse
  }

  /** A pool of `|s|` slots never has more than `|s|` buffers handed out. */
  lemma {:induction false} InUseBounded(s: seq<Slot>)
    ensures |InUseOf(s)| <= |s|
    ensures forall i :: i in InUseOf(s) ==> i < |s|
    decreases |s|
  {
    if |s| > 0 {
      var t := s[..|s| - 1];
      InUseBounded(t);
      assert InUseOf(s) <= InUseOf(t) + {|s| - 1} by {
        forall i | i in InUseOf(s) ensures i in InUseOf(t) + {|s| - 1} {
          if i < |s| - 1 { assert t[i] == s[i]; }
        }
      }
      assert |InUseOf(t) + {|s| - 1}| <= |InUseOf(t)| + 1;
      SubsetCard(InUseOf(s), InUseOf(t) + {|s| - 1});
    }
  }

  lemma SubsetCard(a: set<nat>, b: set<nat>)
    requires a <= b
    ensures |a| <= |b|
  {
    assert b == a + (b - a);
  }

  /** The slots after fb_get claimed slot `i` at time `now`. */
  function Claim(s: seq<Slot>, i: nat, now: u32): seq<Slot>
    requires i < |s|
  {
    s[i := Slot(s[i].fb.(image := TestJpeg(), timestamp := now), true)]
  }

  /**
   * Claiming the first free slot hands out a slot nobody holds and adds it,
   * and only it, to the handed-out set.
   */
  lemma ClaimFresh(s: seq<Slot>, now: u32)
    requires FirstFree(s).Some?
    ensures var i := FirstFree(s).value;
      i !in InUseOf(s) && InUseOf(Claim(s, i, now)) == InUseOf(s) + {i}
  {
    var i := FirstFree(s).value;
    var c := Claim(s, i, now);
    forall j | 0 <= j < |s| ensures (j in InUseOf(c)) <==> (j in InUseOf(s) || j == i) {
      if j != i { assert c[j] == s[j]; }
    }
  }

  /** Releasing slot `i` takes it, and only it, out of the handed-out set. */
  lemma ReleaseRemoves(s: seq<Slot>, i: nat)
    requires i < |s|
    ensures InUseOf(s[i := s[i].(inUse := false)]) == InUseOf(s) - {i}
  {
    var c := s[i := s[i].(inUse := false)];
    forall j | 0 <= j < |s| ensures (j in InUseOf(c)) <==> (j in InUseOf(s) && j != i) {
      if j != i { assert c[j] == s[j]; }
    }
  }

  /**
   * Buffers still allocated when camera_i2s_init returns, as written: on the
   * mutex-creation failure path only the slot array is freed, not the JPEG
   * buffers.
   */
  function HeldAfterInitAsWritten(n: nat, plat: Platform): nat
  {
    if !plat.slotArrayOk || plat.buffersAvailable < n then 0 else n
  }

  /** The same, with every JPEG buffer freed on each failure path. */
  function HeldAfterInit(n: nat, plat: Platform): nat
  {
    if AllocationOk(n, plat) then n else 0
  }

  /** Buffers the allocation phase leaves allocated but out of the driver's reach, as written. */
  function LeakedByAllocation(n: nat, plat: Platform): (r: nat)
    ensures r == HeldAfterInitAsWritten(n, plat) - HeldAfterInit(n, plat)
    ensures r > 0 ==> r == n && plat.slotArrayOk && plat.buffersAvailable >= n && !plat.mutexesOk
  {
    if plat.slotArrayOk && plat.buffersAvailable >= n && !plat.mutexesOk then n else 0
  }

  /** Corrected: a failed allocation phase holds no buffer; a successful one holds one per slot. */
  lemma InitHoldsOnlyOnSuccess(n: nat, plat: Platform)
    ensures HeldAfterInit(n, plat) > 0 ==> AllocationOk(n, plat)
    ensures AllocationOk(n, plat) ==> HeldAfterInit(n, plat) == n
  {
  }

  /** The sensor transactions camera_i2s_init issues once XCLK is running. */
  function BringUpProgramme(f: RegFile, nak: set<byte>, rf: ReadFault, cfg: CameraConfig): seq<Op>
  {
    InitProgramme(f, nak, rf, INIT_REGS)
    + (if InitSucceeds(f, nak, rf, INIT_REGS) then FramesizeProgramme(cfg.frameSize) + QualityProgramme(cfg.jpegQuality) else [])
  }

  /** The result camera_i2s_init returns on an uninitialised driver. */
  function InitResult(f: RegFile, nak: set<byte>, rf: ReadFault, cfg: CameraConfig, plat: Platform): EspErr
  {
    if plat.xclkErr != ESP_OK then plat.xclkErr
    else if !InitSucceeds(f, nak, rf, INIT_REGS) then ESP_FAIL
    else if plat.i2sErr != ESP_OK then plat.i2sErr
    else if !AllocationOk(cfg.fbCount, plat) then ESP_ERR_NO_MEM
    else ESP_OK
  }

  /** Buffers camera_i2s_init leaves allocated but unreachable, as written: only the allocation phase can leak. */
  function LeakedByInit(f: RegFile, nak: set<byte>, rf: ReadFault, cfg: CameraConfig, plat: Platform): nat
  {
    if plat.xclkErr != ESP_OK || !InitSucceeds(f, nak, rf, INIT_REGS) || plat.i2sErr != ESP_OK then 0
    else LeakedByAllocation(cfg.fbCount, plat)
  }

  /**
   * As written, a failed mutex creation makes camera_i2s_init report
   * ESP_ERR_NO_MEM with the driver uninitialised while all `fbCount` JPEG
   * buffers stay allocated; camera_i2s_deinit is then a no-op and never
   * frees them (Driver.Init and Driver.Deinit carry this into the state).
   */
  lemma MutexFailureLeaksAsWritten(f: RegFile, nak: set<byte>, rf: ReadFault, cfg: CameraConfig, plat: Platform)
    requires plat.xclkErr == ESP_OK && plat.i2sErr == ESP_OK && InitSucceeds(f, nak, rf, INIT_REGS)
    requires cfg.fbCount > 0 && plat.slotArrayOk && plat.buffersAvailable >= cfg.fbCount && !plat.mutexesOk
    ensures InitResult(f, nak, rf, cfg, plat) == ESP_ERR_NO_MEM
    ensures LeakedByInit(f, nak, rf, cfg, plat) == cfg.fbCount
    ensures HeldAfterInit(cfg.fbCount, plat) == 0
  {
  }

  /** `cam_state`. */
  class Driver {
    /** the SCCB bus to the sensor */
    const bus: Bus
    var initialized: bool
    var config: CameraConfig
    var fbCount: nat
    var slots: array<Slot>
    /** JPEG buffers the driver holds from the heap, reachable through its slots */
    var heldBuffers: nat
    /** JPEG buffers still allocated from the heap that no slot reaches any more */
    var leakedBuffers: nat
    var captureRunning: bool
    var settings: SensorSettings

    /**
     * An initialised driver owns one slot and one JPEG buffer per configured
     * frame buffer; otherwise it reaches none (leaked buffers are unbounded).
     */
    ghost predicate Valid()
      reads this, bus
    {
      bus.Valid()
      && (initialized ==> slots.Length == fbCount && heldBuffers == fbCount)
      && (!initialized ==> heldBuffers == 0)
    }

    /** The handed-out slots. */
    function InUse(): set<nat>
      reads this, slots
    {
      InUseOf(slots[..])
    }

    constructor (sensorBus: Bus)
      requires sensorBus.Valid()
      ensures Valid() && bus == sensorBus && !initialized && heldBuffers == 0 && leakedBuffers == 0
    {
      bus := sensorBus;
      initialized := false;
      config := CameraConfig(0, 0, 0);
      fbCount := 0;
      slots := new Slot[0];
      heldBuffers := 0;
      leakedBuffers := 0;
      captureRunning := false;
      settings := SensorSettings(0, 0, 0, 0, 0, false, false, false, false, false);
    }

    /** The sensor part of camera_i2s_init: ov2640_init, then frame size and quality if it succeeded. */
    method BringUpSensor(cfg: CameraConfig) returns (err: EspErr)
      requires bus.Valid()
      modifies bus
      ensures bus.Valid()
      ensures bus.ops == old(bus.ops) + BringUpProgramme(old(bus.file), bus.nak, bus.fault, cfg)
      ensures err == (if InitSucceeds(old(bus.file), bus.nak, bus.fault, INIT_REGS) then ESP_OK else ESP_FAIL)
    {
      err := Ov2640.Init(bus);
      if err != ESP_OK {
        assert old(bus.ops) + InitProgramme(old(bus.file), bus.nak, bus.fault, INIT_REGS) + [] == bus.ops;
        return;
      }
      ghost var mid := bus.ops;
      var e := SetFramesize(bus, cfg.frameSize);
      ghost var framed := bus.ops;
      e := SetQuality(bus, cfg.jpegQuality);
      LogAppend(mid, FramesizeProgramme(cfg.frameSize), QualityProgramme(cfg.jpegQuality));
      LogAppend(old(bus.ops), InitProgramme(old(bus.file), bus.nak, bus.fault, INIT_REGS),
        FramesizeProgramme(cfg.frameSize) + QualityProgramme(cfg.jpegQuality));
    }

    /**
     * The allocation part of camera_i2s_init: the slot array, then one JPEG
     * buffer per slot, freeing what was allocated when one fails, then the
     * mutexes. As written, the mutex-failure path frees only the slot array,
     * so its JPEG buffers become leaked buffers.
     */
    method AllocateBuffers(n: nat, plat: Platform) returns (err: EspErr)
      requires heldBuffers == 0
      modifies this
      ensures fbCount == n && heldBuffers == HeldAfterInit(n, plat)
      ensures heldBuffers + leakedBuffers == old(leakedBuffers) + HeldAfterInitAsWritten(n, plat)
      ensures leakedBuffers == old(leakedBuffers) + LeakedByAllocation(n, plat)
      ensures initialized == old(initialized) && config == old(config) && settings == old(settings)
      ensures captureRunning == old(captureRunning)
      ensures err == (if AllocationOk(n, plat) then ESP_OK else ESP_ERR_NO_MEM)
      ensures err == ESP_OK ==> fresh(slots) && slots.Length == n && forall i :: 0 <= i < n ==> slots[i] == FRESH_SLOT
    {
      fbCount := n;
      if !plat.slotArrayOk {
        return ESP_ERR_NO_MEM;
      }
      var pool := new Slot[n](_ => Slot(FrameBuffer([], 0, 0, 0), false));
      var held := 0;
      var i := 0;
      label Allocated:
      while i < n
        invariant unchanged@Allocated(this)
        invariant 0 <= i <= n && i <= plat.buffersAvailable
        invariant held == i
        invariant forall k :: 0 <= k < i ==> pool[k] == FRESH_SLOT
      {
        if i >= plat.buffersAvailable {
          // free the buffers of slots 0..i-1, then the slot array
          var j := 0;
          while j < i
            invariant 0 <= j <= i && held == i - j
          {
            held := held - 1;
            j := j + 1;
          }
          heldBuffers := held;
          return ESP_ERR_NO_MEM;
        }
        held := held + 1;
        pool[i] := FRESH_SLOT;
        i := i + 1;
      }
      if !plat.mutexesOk {
        // only the slot array is freed: the JPEG buffers stay allocated
        leakedBuffers := leakedBuffers + held;
        return ESP_ERR_NO_MEM;
      }
      heldBuffers := held;
      slots := pool;
      return ESP_OK;
    }

    /**
     * `camera_i2s_init`. On an initialised driver it returns ESP_OK and
     * changes nothing. Otherwise it saves the configuration and runs XCLK
     * set-up, sensor bring-up, I2S set-up and allocation, stopping at the
     * first failure with that step's error; only full success initialises
     * the driver, with every slot free and empty.
     */
    method Init(cfg: CameraConfig, plat: Platform) returns (err: EspErr)
      requires Valid()
      modifies this, bus
      ensures Valid()
      ensures settings == old(settings)
      ensures captureRunning == (if !old(initialized) && err == ESP_OK then true else old(captureRunning))
      ensures old(initialized) ==>
        (err == ESP_OK && initialized && slots == old(slots) && fbCount == old(fbCount)
         && config == old(config) && bus.ops == old(bus.ops) && leakedBuffers == old(leakedBuffers))
      ensures !old(initialized) ==>
        leakedBuffers == old(leakedBuffers) + LeakedByInit(old(bus.file), bus.nak, bus.fault, cfg, plat)
      ensures !old(initialized) ==>
        config == cfg
        && err == InitResult(old(bus.file), bus.nak, bus.fault, cfg, plat)
        && initialized == (err == ESP_OK)
        && bus.ops == old(bus.ops) + (if plat.xclkErr != ESP_OK then [] else BringUpProgramme(old(bus.file), bus.nak, bus.fault, cfg))
      ensures !old(initialized) && err == ESP_OK ==>
        captureRunning && fresh(slots) && slots.Length == cfg.fbCount && forall i :: 0 <= i < slots.Length ==> slots[i] == FRESH_SLOT
    {
      if initialized {
        return ESP_OK;
      }
      config := cfg;
      if plat.xclkErr != ESP_OK {
        return plat.xclkErr;
      }
      err := BringUpSensor(cfg);
      if err != ESP_OK {
        return;
      }
      if plat.i2sErr != ESP_OK {
        return plat.i2sErr;
      }
      err := AllocateBuffers(cfg.fbCount, plat);
      if err != ESP_OK {
        return;
      }
      captureRunning := true;
      initialized := true;
    }

    /** `camera_i2s_deinit`: a no-op on an uninitialised driver; otherwise frees every buffer. */
    method Deinit() returns (err: EspErr)
      requires Valid()
      modifies this
      ensures Valid() && err == ESP_OK && !initialized && heldBuffers == 0
      ensures old(initialized) ==> !captureRunning
      ensures !old(initialized) ==> captureRunning == old(captureRunning) && slots == old(slots)
      ensures fbCount == old(fbCount) && config == old(config) && settings == old(settings)
      ensures leakedBuffers == old(leakedBuffers)
    {
      if !initialized {
        return ESP_OK;
      }
      captureRunning := false;
      var held := heldBuffers;
      var i := 0;
      while i < fbCount
        invariant 0 <= i <= fbCount && held == fbCount - i
      {
        held := held - 1;
        i := i + 1;
      }
      heldBuffers := held;
      slots := new Slot[0];
      initialized := false;
      return ESP_OK;
    }

    /**
     * `camera_i2s_fb_get`: NULL when the driver is not initialised, the
     * frame mutex cannot be taken (`mutexOk`) or every slot is in use;
     * otherwise the lowest free slot, claimed and filled with the test image
     * stamped `now`.
     */
    method FbGet(mutexOk: bool, now: u32) returns (fb: Option<nat>)
      requires Valid()
      modifies slots
      ensures !(initialized && mutexOk) ==> fb == None && slots[..] == old(slots[..])
      ensures initialized && mutexOk ==>
        fb == FirstFree(old(slots[..]))
        && slots[..] == (if fb.None? then old(slots[..]) else Claim(old(slots[..]), fb.value, now))
    {
      if !initialized || !mutexOk {
        return None;
      }
      var i := 0;
      while i < fbCount
        invariant 0 <= i <= fbCount
        invariant forall j :: 0 <= j < i ==> slots[j].inUse
        invariant slots[..] == old(slots[..])
      {
        if !slots[i].inUse {
          var fbuf := slots[i].fb;
          slots[i] := Slot(fbuf.(image := TestJpeg(), timestamp := now), true);
          assert FirstFree(old(slots[..])) == Some(i) by {
            FirstFreeIsLowest(old(slots[..]), i);
          }
          return Some(i);
        }
        i := i + 1;
      }
      return None;
    }

    /**
     * `camera_i2s_fb_return`: frees the slot whose buffer is `fb`. NULL, a
     * frame address outside the pool, an uninitialised driver or a
     * mutex that cannot be taken change nothing.
     */
    method FbReturn(fb: Option<nat>, mutexOk: bool)
      requires Valid()
      modifies slots
      ensures if fb.Some? && fb.value < fbCount && initialized && mutexOk
        then slots[..] == old(slots[..])[fb.value := old(slots[fb.value]).(inUse := false)]
        else slots[..] == old(slots[..])
    {
      if fb.None? || !initialized {
        return;
      }
      if mutexOk {
        var i := 0;
        while i < fbCount
          invariant 0 <= i <= fbCount
          invariant i <= fb.value
          invariant slots[..] == old(slots[..])
        {
          if i == fb.value {
            slots[i] := slots[i].(inUse := false);
            break;
          }
          i := i + 1;
        }
      }
    }

    /**
     * `camera_i2s_sensor_set`: ESP_FAIL on an uninitialised driver;
     * otherwise stores the settings and programs brightness, contrast,
     * saturation, mirror and flip, in that order.
     */
    method SensorSet(s: SensorSettings) returns (err: EspErr)
      requires Valid()
      modifies this, bus
      ensures Valid()
      ensures initialized == old(initialized) && slots == old(slots) && fbCount == old(fbCount)
      ensures heldBuffers == old(heldBuffers) && leakedBuffers == old(leakedBuffers)
      ensures config == old(config) && captureRunning == old(captureRunning)
      ensures !initialized ==> err == ESP_FAIL && settings == old(settings) && bus.ops == old(bus.ops)
      ensures initialized ==>
        (err == ESP_OK && settings == s
         && bus.ops == old(bus.ops) + SettingsProgramme(old(bus.file), bus.nak, bus.fault, s))
    {
      if !initialized {
        return ESP_FAIL;
      }
      settings := s;
      ApplyLevels(bus, s);
      ApplyOrientation(bus, s);
      LogAppend(old(bus.ops), LevelsProgramme(s),
        OrientationProgramme(After(old(bus.file), bus.nak, LevelsProgramme(s)), bus.nak, bus.fault, s));
      return ESP_OK;
    }
  }

  /** The first free slot is the lowest-index one. */
  lemma FirstFreeIsLowest(s: seq<Slot>, i: nat)
    requires i < |s| && !s[i].inUse && forall j :: 0 <= j < i ==> s[j].inUse
    ensures FirstFree(s) == Some(i)
  {
    var r := FirstFree(s);
    if r.Some? {
      if r.value < i {
      } else if r.value > i {
      }
    }
  }

  /** Brightness, contrast and saturation writes of camera_i2s_sensor_set. */
  function LevelsProgramme(s: SensorSettings): seq<Op>
  {
    BrightnessProgramme(s.brightness) + ContrastProgramme(s.contrast) + SaturationProgramme(s.saturation)
  }

  /** Mirror then flip, each reading REG04 as the earlier transactions left it. */
  function OrientationProgramme(f: RegFile, nak: set<byte>, rf: ReadFault, s: SensorSettings): seq<Op>
  {
    var mirror := RmwProgramme(f, nak, rf, MIRROR_BIT, s.hmirror);
    mirror + RmwProgramme(After(f, nak, mirror), nak, rf, FLIP_BIT, s.vflip)
  }

  /** The transactions of camera_i2s_sensor_set on a device in state `f`. */
  function SettingsProgramme(f: RegFile, nak: set<byte>, rf: ReadFault, s: SensorSettings): seq<Op>
  {
    LevelsProgramme(s) + OrientationProgramme(After(f, nak, LevelsProgramme(s)), nak, rf, s)
  }

  method ApplyLevels(bus: Bus, s: SensorSettings)
    requires bus.Valid()
    modifies bus
    ensures bus.Valid()
    ensures bus.ops == old(bus.ops) + LevelsProgramme(s)
    ensures bus.file == After(old(bus.file), bus.nak, LevelsProgramme(s))
  {
    var e := SetBrightness(bus, s.brightness);
    ghost var b := bus.ops;
    e := SetContrast(bus, s.contrast);
    ghost var c := bus.ops;
    e := SetSaturation(bus, s.saturation);
    LogAppend(old(bus.ops), BrightnessProgramme(s.brightness), ContrastProgramme(s.contrast));
    LogAppend(old(bus.ops), BrightnessProgramme(s.brightness) + ContrastProgramme(s.contrast), SaturationProgramme(s.saturation));
    AfterAppend(bus.file0, bus.nak, old(bus.ops), LevelsProgramme(s));
  }

  method ApplyOrientation(bus: Bus, s: SensorSettings)
    requires bus.Valid()
    modifies bus
    ensures bus.Valid()
    ensures bus.ops == old(bus.ops) + OrientationProgramme(old(bus.file), bus.nak, bus.fault, s)
  {
    var e := SetHmirror(bus, s.hmirror);
    ghost var mirror := RmwProgramme(old(bus.file), bus.nak, bus.fault, MIRROR_BIT, s.hmirror);
    AfterAppend(bus.file0, bus.nak, old(bus.ops), mirror);
    e := SetVflip(bus, s.vflip);
    LogAppend(old(bus.ops), mirror, RmwProgramme(After(old(bus.file), bus.nak, mirror), bus.nak, bus.fault, FLIP_BIT, s.vflip));
  }
}

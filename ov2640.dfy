/**
 * OV2640 sensor control in src/camera_i2s_driver.cpp: bring-up (identity
 * check and the initialisation table) and the register encoders for frame
 * size, JPEG quality, brightness, contrast, saturation, mirror and flip.
 *
 * Each operation is a method on the bus that issues exactly the
 * transactions the driver issues; the register values they carry are given
 * by the encoding functions below, and the lemmas state what those values
 * mean.
 */
module Ov2640 {
  import opened Common
  import opened Sccb

  // DSP bank registers (include/ov2640_regs.h)
  const QS: byte := 0x44
  const HSIZE: byte := 0x51
  const VSIZE: byte := 0x52
  const HSIZE8: byte := 0xC0
  const VSIZE8: byte := 0xC1
  const CTRL0: byte := 0xC2
  const CTRL1: byte := 0xC3
  const IMAGE_MODE: byte := 0xDA
  const RESET: byte := 0xE0

  // Sensor bank registers
  const REG04: byte := 0x04
  const COM2: byte := 0x09
  const REG_PID: byte := 0x0A
  const REG_VER: byte := 0x0B
  const CLKRC: byte := 0x11
  const COM7: byte := 0x12
  const COM8: byte := 0x13
  const COM9: byte := 0x14
  const COM10: byte := 0x15
  const AEW: byte := 0x24
  const AEB: byte := 0x25
  const VV: byte := 0x26
  const REG32: byte := 0x32
  const COM22: byte := 0x4B
  const COM25: byte := 0x4E

  const COM7_SRST: byte := 0x80
  const COM10_VSYNC_NEG: byte := 0x02

  /** Product ID an OV2640 reports in REG_PID. */
  const OV2640_PID: byte := 0x26

  /** REG04 bits driven by set_hmirror and set_vflip. */
  const MIRROR_BIT: byte := 0x80
  const FLIP_BIT: byte := 0x40

  // ------------------------------------------------------------------
  // Initialisation table
  // ------------------------------------------------------------------

  type Entry = (byte, byte)

  /** Entry that stands for a 100 ms pause, not a register write. */
  const DELAY_MARKER: Entry := (0xFF, 0xFF)
  /** Entry that ends the table. */
  const TERMINATOR: Entry := (0x00, 0x00)

  const INIT_REGS: seq<Entry> := [
    (BANK_SEL, BANK_SENSOR), (COM7, COM7_SRST),
    DELAY_MARKER,
    (BANK_SEL, BANK_SENSOR), (COM10, 0x00), (REG04, 0x00), (COM2, 0x01),
    (COM8, 0xFF), (COM9, 0x00), (CLKRC, 0x80),
    (COM10, COM10_VSYNC_NEG), (REG32, 0x00), (AEW, 0x75), (AEB, 0x63),
    (VV, 0x80), (COM22, 0x00), (COM25, 0x00),
    TERMINATOR]

  /**
   * The register writes a table stands for: every entry before the first
   * terminator, delay markers left out, in table order.
   */
  function TableWrites(t: seq<Entry>): (w: seq<Op>)
    ensures forall i :: 0 <= i < |w| ==> w[i].Put? && (w[i].reg, w[i].value) in t
    ensures Put(0xFF, 0xFF) !in w && Put(0x00, 0x00) !in w
    ensures |w| <= |t|
  {
    if |t| == 0 || t[0] == TERMINATOR then []
    else
      var rest := TableWrites(t[1..]);
      assert forall i :: 0 <= i < |rest| ==> (rest[i].reg, rest[i].value) in t by {
        forall i | 0 <= i < |rest| ensures (rest[i].reg, rest[i].value) in t {
          assert (rest[i].reg, rest[i].value) in t[1..];
        }
      }
      if t[0] == DELAY_MARKER then rest else [Put(t[0].0, t[0].1)] + rest
  }

  /** Outcome of walking a table: the writes issued, and whether every one was acknowledged. */
  datatype TableResult = TableResult(issued: seq<Op>, completed: bool)

  /** The loop of ov2640_init over a table: stops at the terminator or at the first failed write. */
  function TableRun(t: seq<Entry>, nak: set<byte>): TableResult
  {
    if |t| == 0 || t[0] == TERMINATOR then TableResult([], true)
    else if t[0] == DELAY_MARKER then TableRun(t[1..], nak)
    else if t[0].0 in nak then TableResult([Put(t[0].0, t[0].1)], false)
    else
      var rest := TableRun(t[1..], nak);
      TableResult([Put(t[0].0, t[0].1)] + rest.issued, rest.completed)
  }

  /** The table walk issues a prefix of the table's writes, in order, and all of them when it completes. */
  lemma {:induction false} TableRunIsPrefix(t: seq<Entry>, nak: set<byte>)
    ensures var r := TableRun(t, nak); var w := TableWrites(t);
      |r.issued| <= |w| && r.issued == w[..|r.issued|] && (r.completed ==> r.issued == w)
    decreases |t|
  {
    if |t| == 0 || t[0] == TERMINATOR {
    } else if t[0] == DELAY_MARKER {
      TableRunIsPrefix(t[1..], nak);
    } else if t[0].0 !in nak {
      TableRunIsPrefix(t[1..], nak);
      var r' := TableRun(t[1..], nak);
      var w' := TableWrites(t[1..]);
      assert TableWrites(t) == [Put(t[0].0, t[0].1)] + w';
      assert TableRun(t, nak).issued == [Put(t[0].0, t[0].1)] + r'.issued;
    }
  }

  /** The table walk completes exactly when the device acknowledges every write of the table. */
  lemma {:induction false} TableRunCompletes(t: seq<Entry>, nak: set<byte>)
    ensures var w := TableWrites(t);
      TableRun(t, nak).completed <==> forall i :: 0 <= i < |w| ==> w[i].reg !in nak
    decreases |t|
  {
    if |t| == 0 || t[0] == TERMINATOR {
    } else if t[0] == DELAY_MARKER {
      TableRunCompletes(t[1..], nak);
      assert TableWrites(t) == TableWrites(t[1..]);
    } else {
      TableRunCompletes(t[1..], nak);
      var w := TableWrites(t);
      var w' := TableWrites(t[1..]);
      assert w == [Put(t[0].0, t[0].1)] + w';
      assert w[0].reg == t[0].0;
      if t[0].0 in nak {
      } else if TableRun(t, nak).completed {
        assert forall i :: 0 < i < |w| ==> w[i] == w'[i - 1];
      } else {
        var k :| 0 <= k < |w'| && w'[k].reg in nak;
        assert w[k + 1] == w'[k];
      }
    }
  }

  /**
   * A walk that does not complete stops right after the first failed write:
   * its last write is one the device rejects, and it accepted every earlier one.
   */
  lemma {:induction false} TableRunStops(t: seq<Entry>, nak: set<byte>)
    ensures var r := TableRun(t, nak);
      !r.completed ==>
        |r.issued| >= 1 && r.issued[|r.issued| - 1].reg in nak
        && forall i :: 0 <= i < |r.issued| - 1 ==> r.issued[i].reg !in nak
    decreases |t|
  {
    if |t| == 0 || t[0] == TERMINATOR {
    } else if t[0] == DELAY_MARKER {
      TableRunStops(t[1..], nak);
    } else if t[0].0 !in nak {
      TableRunStops(t[1..], nak);
      var r := TableRun(t, nak);
      var r' := TableRun(t[1..], nak);
      assert r.issued == [Put(t[0].0, t[0].1)] + r'.issued;
      assert forall i :: 0 < i < |r.issued| ==> r.issued[i] == r'.issued[i - 1];
    }
  }

  // ------------------------------------------------------------------
  // Bring-up
  // ------------------------------------------------------------------

  /** One step of the table walk from position `i`, given what the walk has issued before it. */
  lemma TableRunStep(t: seq<Entry>, nak: set<byte>, i: nat, done: seq<Op>)
    requires i < |t| && t[i] != TERMINATOR
    requires TableRun(t, nak) == TableResult(done + TableRun(t[i..], nak).issued, TableRun(t[i..], nak).completed)
    ensures t[i] == DELAY_MARKER ==>
      TableRun(t, nak) == TableResult(done + TableRun(t[i + 1..], nak).issued, TableRun(t[i + 1..], nak).completed)
    ensures t[i] != DELAY_MARKER && t[i].0 in nak ==>
      TableRun(t, nak) == TableResult(done + [Put(t[i].0, t[i].1)], false)
    ensures t[i] != DELAY_MARKER && t[i].0 !in nak ==>
      TableRun(t, nak) == TableResult((done + [Put(t[i].0, t[i].1)]) + TableRun(t[i + 1..], nak).issued, TableRun(t[i + 1..], nak).completed)
  {
    assert t[i..][1..] == t[i + 1..];
    var rest := TableRun(t[i + 1..], nak).issued;
    assert done + ([Put(t[i].0, t[i].1)] + rest) == (done + [Put(t[i].0, t[i].1)]) + rest;
  }

  /**
   * The loop of ov2640_init over its register table: walks the entries up to
   * the terminator, skips delay markers, and gives up at the first write the
   * device does not acknowledge.
   */
  method WriteTable(bus: Bus, table: seq<Entry>) returns (err: EspErr)
    requires bus.Valid() && |table| > 0 && table[|table| - 1] == TERMINATOR
    modifies bus
    ensures bus.Valid()
    ensures bus.ops == old(bus.ops) + TableRun(table, bus.nak).issued
    ensures err == (if TableRun(table, bus.nak).completed then ESP_OK else ESP_FAIL)
  {
    ghost var nak := bus.nak;
    ghost var base := bus.ops;
    ghost var done: seq<Op> := [];
    var i := 0;
    assert table[i..] == table;
    while table[i] != TERMINATOR
      invariant 0 <= i < |table|
      invariant bus.Valid() && bus.nak == nak
      invariant bus.ops == base + done
      invariant TableRun(table, nak) == TableResult(done + TableRun(table[i..], nak).issued, TableRun(table[i..], nak).completed)
      decreases |table| - i
    {
      TableRunStep(table, nak, i, done);
      if table[i] == DELAY_MARKER {
        // the 100 ms pause is not modelled
        i := i + 1;
        continue;
      }
      var (reg, value) := table[i];
      var e := bus.WriteReg(reg, value);
      LogStep(base, done, Put(reg, value));
      if e != ESP_OK {
        return ESP_FAIL;
      }
      done := done + [Put(reg, value)];
      i := i + 1;
    }
    assert done + [] == done;
    return ESP_OK;
  }

  /** The register file once ov2640_init has selected the sensor bank. */
  function SensorSelected(f: RegFile, nak: set<byte>): RegFile
  {
    Exec(f, nak, Put(BANK_SEL, BANK_SENSOR))
  }

  /** Both identity reads succeed and the product ID is the OV2640's. */
  predicate IdentityOk(f: RegFile, nak: set<byte>, rf: ReadFault)
  {
    Readable(nak, rf, REG_PID) && Readable(nak, rf, REG_VER)
    && SensorSelected(f, nak).Read(REG_PID) == OV2640_PID
  }

  /** The transactions ov2640_init issues on a device in state `f`, with register table `table`. */
  function InitProgramme(f: RegFile, nak: set<byte>, rf: ReadFault, table: seq<Entry>): seq<Op>
  {
    if !Readable(nak, rf, REG_PID) then [Put(BANK_SEL, BANK_SENSOR), Get(REG_PID)]
    else if !IdentityOk(f, nak, rf) then [Put(BANK_SEL, BANK_SENSOR), Get(REG_PID), Get(REG_VER)]
    else [Put(BANK_SEL, BANK_SENSOR), Get(REG_PID), Get(REG_VER)] + TableRun(table, nak).issued
  }

  predicate InitSucceeds(f: RegFile, nak: set<byte>, rf: ReadFault, table: seq<Entry>)
  {
    IdentityOk(f, nak, rf) && TableRun(table, nak).completed
  }

  /** The identity reads ov2640_init issues after its bank select. */
  function IdReads(nak: set<byte>, rf: ReadFault): seq<Op>
  {
    if !Readable(nak, rf, REG_PID) then [Get(REG_PID)] else [Get(REG_PID), Get(REG_VER)]
  }

  /** A failed identity check changes nothing but the bank selection, and writes nothing else. */
  lemma InitRejected(f: RegFile, nak: set<byte>, rf: ReadFault, table: seq<Entry>)
    requires !IdentityOk(f, nak, rf)
    ensures After(f, nak, InitProgramme(f, nak, rf, table)) == SensorSelected(f, nak)
    ensures Acked(nak, InitProgramme(f, nak, rf, table)) == Acked(nak, [Put(BANK_SEL, BANK_SENSOR)])
  {
    var sel := [Put(BANK_SEL, BANK_SENSOR)];
    assert InitProgramme(f, nak, rf, table) == sel + IdReads(nak, rf);
    ReadsChangeNothing(SensorSelected(f, nak), nak, IdReads(nak, rf));
    AckedAppend(nak, sel, IdReads(nak, rf));
    AfterAppend(f, nak, sel, IdReads(nak, rf));
    assert Acked(nak, sel) + [] == Acked(nak, sel);
  }

  /**
   * Bring-up succeeds exactly when the identity check passes and the device
   * acknowledges every write of the table; the device has then accepted the
   * first bank select and exactly the table's writes, in table order.
   */
  lemma InitAccepted(f: RegFile, nak: set<byte>, rf: ReadFault, table: seq<Entry>)
    ensures InitSucceeds(f, nak, rf, table) <==>
      IdentityOk(f, nak, rf) && forall i :: 0 <= i < |TableWrites(table)| ==> TableWrites(table)[i].reg !in nak
    ensures InitSucceeds(f, nak, rf, table) ==>
      Acked(nak, InitProgramme(f, nak, rf, table)) == Acked(nak, [Put(BANK_SEL, BANK_SENSOR)]) + TableWrites(table)
  {
    TableRunCompletes(table, nak);
    if InitSucceeds(f, nak, rf, table) {
      TableRunIsPrefix(table, nak);
      var sel := [Put(BANK_SEL, BANK_SENSOR)];
      var w := TableWrites(table);
      assert InitProgramme(f, nak, rf, table) == (sel + IdReads(nak, rf)) + w;
      ReadsChangeNothing(f, nak, IdReads(nak, rf));
      AckedAppend(nak, sel, IdReads(nak, rf));
      assert Acked(nak, sel) + [] == Acked(nak, sel);
      AckedAll(nak, w);
      AckedAppend(nak, sel + IdReads(nak, rf), w);
    }
  }

  /** `ov2640_init`. */
  method Init(bus: Bus) returns (err: EspErr)
    requires bus.Valid()
    modifies bus
    ensures bus.Valid()
    ensures bus.ops == old(bus.ops) + InitProgramme(old(bus.file), bus.nak, bus.fault, INIT_REGS)
    ensures err == (if InitSucceeds(old(bus.file), bus.nak, bus.fault, INIT_REGS) then ESP_OK else ESP_FAIL)
  {
    ghost var f := bus.file;
    var selected := bus.SelectBank(BANK_SENSOR);
    assert bus.file == SensorSelected(f, bus.nak);
    var e, pid := bus.ReadReg(REG_PID);
    if e != ESP_OK {
      return ESP_FAIL;
    }
    var ver;
    e, ver := bus.ReadReg(REG_VER);
    if e != ESP_OK {
      return ESP_FAIL;
    }
    if pid != OV2640_PID {
      return ESP_FAIL;
    }
    err := WriteTable(bus, INIT_REGS);
  }

  // ------------------------------------------------------------------
  // Frame size
  // ------------------------------------------------------------------

  // framesize_t (include/camera_i2s.h)
  const FRAMESIZE_QVGA: int := 0
  const FRAMESIZE_CIF: int := 1
  const FRAMESIZE_HVGA: int := 2
  const FRAMESIZE_VGA: int := 3
  const FRAMESIZE_SVGA: int := 4
  const FRAMESIZE_UXGA: int := 5

  /** Width and height of each frame size the driver supports. */
  function Dimensions(fs: int): Option<(nat, nat)>
  {
    if fs == FRAMESIZE_QVGA then Some((320, 240))
    else if fs == FRAMESIZE_CIF then Some((352, 288))
    else if fs == FRAMESIZE_HVGA then Some((480, 320))
    else if fs == FRAMESIZE_VGA then Some((640, 480))
    else if fs == FRAMESIZE_SVGA then Some((800, 600))
    else if fs == FRAMESIZE_UXGA then Some((1600, 1200))
    else None
  }

  /** `n >> 3` passed as a `uint8_t` register value. */
  function High(n: nat): byte { (n / 8) % 0x100 }
  /** `n & 0xFF` passed as a `uint8_t` register value. */
  function Low(n: nat): byte { n % 0x100 }

  /** Reading a size back from its two register values. */
  function DecodeSize(high: byte, low: byte): nat { high * 8 + low % 8 }

  /** The split is lossless for every size below 2048 pixels. */
  lemma SizeRoundTrip(n: nat)
    requires n < 2048
    ensures DecodeSize(High(n), Low(n)) == n
  {
  }

  /**
   * Every supported frame size fits the split, and the enum order is the order
   * of pixel counts: a larger framesize_t value means a strictly larger frame.
   */
  lemma DimensionsOrdered(a: int, b: int)
    requires Dimensions(a).Some? && Dimensions(b).Some?
    ensures Dimensions(a).value.0 < 2048 && Dimensions(a).value.1 < 2048
    ensures a < b <==>
      Dimensions(a).value.0 * Dimensions(a).value.1 < Dimensions(b).value.0 * Dimensions(b).value.1
  {
  }

  /** The writes of the window size for a frame of `w` x `h` pixels. */
  function WindowOps(w: nat, h: nat): seq<Op>
  {
    [Put(HSIZE8, High(w)), Put(VSIZE8, High(h)), Put(HSIZE, Low(w)), Put(VSIZE, Low(h))]
  }

  /** The writes that select JPEG output. */
  const JPEG_OPS: seq<Op> := [Put(IMAGE_MODE, 0x00), Put(RESET, 0x00), Put(CTRL0, 0x00)]

  /** The transactions ov2640_set_framesize issues. */
  function FramesizeProgramme(fs: int): seq<Op>
  {
    if Dimensions(fs).None? then [Put(BANK_SEL, BANK_DSP)]
    else [Put(BANK_SEL, BANK_DSP)] + WindowOps(Dimensions(fs).value.0, Dimensions(fs).value.1) + JPEG_OPS
  }

  /**
   * An unsupported size selects the DSP bank and writes nothing else. A
   * supported one splits each dimension over a high and a low register so
   * that it reads back exactly, then selects JPEG output.
   */
  lemma FramesizeWrites(fs: int)
    ensures var p := FramesizeProgramme(fs);
      p[0] == Put(BANK_SEL, BANK_DSP)
      && (Dimensions(fs).None? ==> |p| == 1)
      && (Dimensions(fs).Some? ==>
            var (w, h) := Dimensions(fs).value;
            |p| == 8 && (forall i :: 0 <= i < 8 ==> p[i].Put?)
            && p[1].reg == HSIZE8 && p[3].reg == HSIZE && DecodeSize(p[1].value, p[3].value) == w
            && p[2].reg == VSIZE8 && p[4].reg == VSIZE && DecodeSize(p[2].value, p[4].value) == h
            && p[5..] == [Put(IMAGE_MODE, 0x00), Put(RESET, 0x00), Put(CTRL0, 0x00)])
  {
    if Dimensions(fs).Some? {
      var (w, h) := Dimensions(fs).value;
      DimensionsOrdered(fs, fs);
      SizeRoundTrip(w);
      SizeRoundTrip(h);
    }
  }

  /** The switch of ov2640_set_framesize: the four window-size writes. */
  method WriteWindow(bus: Bus, w: nat, h: nat)
    requires bus.Valid()
    modifies bus
    ensures bus.Valid()
    ensures bus.ops == old(bus.ops) + WindowOps(w, h)
  {
    var hw, hh, lw, lh := High(w), High(h), Low(w), Low(h);
    ghost var base := bus.ops;
    var e := bus.WriteReg(HSIZE8, hw);
    e := bus.WriteReg(VSIZE8, hh);
    LogStep(base, [Put(HSIZE8, hw)], Put(VSIZE8, hh));
    e := bus.WriteReg(HSIZE, lw);
    LogStep(base, [Put(HSIZE8, hw), Put(VSIZE8, hh)], Put(HSIZE, lw));
    e := bus.WriteReg(VSIZE, lh);
    LogStep(base, [Put(HSIZE8, hw), Put(VSIZE8, hh), Put(HSIZE, lw)], Put(VSIZE, lh));
  }

  /** The tail of ov2640_set_framesize: JPEG output. */
  method EnableJpeg(bus: Bus)
    requires bus.Valid()
    modifies bus
    ensures bus.Valid()
    ensures bus.ops == old(bus.ops) + JPEG_OPS
  {
    ghost var prog := JPEG_OPS;
    assert bus.ops == old(bus.ops) + prog[..0];
    var e := bus.WriteReg(IMAGE_MODE, 0x00);
    LogPrefix(old(bus.ops), prog, 0);
    e := bus.WriteReg(RESET, 0x00);
    LogPrefix(old(bus.ops), prog, 1);
    e := bus.WriteReg(CTRL0, 0x00);
    LogPrefix(old(bus.ops), prog, 2);
    assert prog[..3] == prog;
  }

  /** `ov2640_set_framesize`: write failures are not reported. */
  method SetFramesize(bus: Bus, fs: int) returns (err: EspErr)
    requires bus.Valid()
    modifies bus
    ensures bus.Valid()
    ensures bus.ops == old(bus.ops) + FramesizeProgramme(fs)
    ensures err == (if Dimensions(fs).Some? then ESP_OK else ESP_FAIL)
  {
    var e := bus.SelectBank(BANK_DSP);
    var size := Dimensions(fs);
    if size.None? {
      return ESP_FAIL;
    }
    ghost var selected := bus.ops;
    WriteWindow(bus, size.value.0, size.value.1);
    ghost var windowed := bus.ops;
    EnableJpeg(bus);
    LogAppend(selected, WindowOps(size.value.0, size.value.1), JPEG_OPS);
    LogAppend(old(bus.ops), [Put(BANK_SEL, BANK_DSP)], WindowOps(size.value.0, size.value.1) + JPEG_OPS);
    LogAppend([Put(BANK_SEL, BANK_DSP)], WindowOps(size.value.0, size.value.1), JPEG_OPS);
    return ESP_OK;
  }

  // ------------------------------------------------------------------
  // Quality and levels
  // ------------------------------------------------------------------

  /** JPEG quality scale as written to QS: at most 63. */
  function ClampQuality(q: byte): (r: byte)
    ensures r <= 63
    ensures q <= 63 ==> r == q
    ensures q > 63 ==> r == 63
  {
    if q > 63 then 63 else q
  }

  function QualityProgramme(q: byte): seq<Op>
  {
    [Put(BANK_SEL, BANK_DSP), Put(QS, ClampQuality(q))]
  }

  /** `ov2640_set_quality`: always ESP_OK. */
  method SetQuality(bus: Bus, q: byte) returns (err: EspErr)
    requires bus.Valid()
    modifies bus
    ensures bus.Valid()
    ensures bus.ops == old(bus.ops) + QualityProgramme(q)
    ensures err == ESP_OK
  {
    var e := bus.SelectBank(BANK_DSP);
    var quality := q;
    if quality > 63 {
      quality := 63;
    }
    e := bus.WriteReg(QS, quality);
    return ESP_OK;
  }

  /** `(level + 2) * 16` stored in a `uint8_t`: reduced modulo 256. */
  function LevelValue(level: int): byte
  {
    ((level + 2) * 16) % 0x100
  }

  /** Reading a register value back as a level of the documented range -2..2. */
  function LevelOf(v: byte): int { v / 16 - 2 }

  /**
   * On the documented range the encoding is 0, 16, 32, 48, 64 and reads back
   * to the same level; outside it, levels sixteen apart are indistinguishable.
   */
  lemma LevelEncoding(level: int)
    ensures -2 <= level <= 2 ==> LevelValue(level) == 32 + 16 * level && LevelOf(LevelValue(level)) == level
    ensures LevelValue(level + 16) == LevelValue(level)
  {
  }

  function BrightnessProgramme(level: int): seq<Op>
  {
    [Put(BANK_SEL, BANK_SENSOR), Put(AEW, LevelValue(level)), Put(AEB, LevelValue(level))]
  }

  function ContrastProgramme(level: int): seq<Op>
  {
    [Put(BANK_SEL, BANK_SENSOR), Put(COM8, LevelValue(level))]
  }

  function SaturationProgramme(level: int): seq<Op>
  {
    [Put(BANK_SEL, BANK_DSP), Put(CTRL1, LevelValue(level))]
  }

  /** `ov2640_set_brightness`: the same value to both AE window limits. */
  method SetBrightness(bus: Bus, level: int) returns (err: EspErr)
    requires bus.Valid()
    modifies bus
    ensures bus.Valid()
    ensures bus.ops == old(bus.ops) + BrightnessProgramme(level)
    ensures err == ESP_OK
  {
    var e := bus.SelectBank(BANK_SENSOR);
    var value := LevelValue(level);
    e := bus.WriteReg(AEW, value);
    e := bus.WriteReg(AEB, value);
    return ESP_OK;
  }

  /** `ov2640_set_contrast`. */
  method SetContrast(bus: Bus, level: int) returns (err: EspErr)
    requires bus.Valid()
    modifies bus
    ensures bus.Valid()
    ensures bus.ops == old(bus.ops) + ContrastProgramme(level)
    ensures err == ESP_OK
  {
    var e := bus.SelectBank(BANK_SENSOR);
    var value := LevelValue(level);
    e := bus.WriteReg(COM8, value);
    return ESP_OK;
  }

  /** `ov2640_set_saturation`. */
  method SetSaturation(bus: Bus, level: int) returns (err: EspErr)
    requires bus.Valid()
    modifies bus
    ensures bus.Valid()
    ensures bus.ops == old(bus.ops) + SaturationProgramme(level)
    ensures err == ESP_OK
  {
    var e := bus.SelectBank(BANK_DSP);
    var value := LevelValue(level);
    e := bus.WriteReg(CTRL1, value);
    return ESP_OK;
  }

  // ------------------------------------------------------------------
  // Mirror and flip
  // ------------------------------------------------------------------

  /**
   * `v | mask` (when `on`) or `v & ~mask` for one of the two REG04 bits: the
   * bit of `mask` becomes `on`, the bits below and above it are kept.
   */
  function WithBit(v: byte, mask: byte, on: bool): (r: byte)
    requires mask == MIRROR_BIT || mask == FLIP_BIT
    ensures (r / mask) % 2 == (if on then 1 else 0)
    ensures r % mask == v % mask && r / (2 * mask) == v / (2 * mask)
  {
    var isSet := (v / mask) % 2 == 1;
    if on == isSet then v else if on then v + mask else v - mask
  }

  /**
   * The transactions of set_hmirror / set_vflip: a sensor-bank select, a read
   * of REG04, and a write back of the value read with the one bit changed.
   * The result of the read is not checked: when it fails, the byte written
   * back is the never-assigned local with the bit applied (`rf.junk`).
   */
  function RmwProgramme(f: RegFile, nak: set<byte>, rf: ReadFault, mask: byte, on: bool): seq<Op>
    requires mask == MIRROR_BIT || mask == FLIP_BIT
  {
    var read := if Readable(nak, rf, REG04) then SensorSelected(f, nak).Read(REG04) else rf.junk;
    [Put(BANK_SEL, BANK_SENSOR), Get(REG04), Put(REG04, WithBit(read, mask, on))]
  }

  /**
   * On a device that acknowledges the bank select and REG04, the
   * read-modify-write leaves REG04 of the sensor bank with only the one bit
   * changed and every other register as it was. When REG04 is acknowledged
   * but its read returns no byte, REG04 still receives a write: the bit is
   * as asked, its other bits are those of a value the driver never set.
   * When REG04 is not acknowledged, only the bank selection changes.
   */
  lemma RmwEffect(f: RegFile, nak: set<byte>, rf: ReadFault, mask: byte, on: bool)
    requires mask == MIRROR_BIT || mask == FLIP_BIT
    requires BANK_SEL !in nak
    ensures var g := After(f, nak, RmwProgramme(f, nak, rf, mask, on));
      g.bank == BANK_SENSOR
      && (REG04 in nak ==> g == SensorSelected(f, nak))
      && (Readable(nak, rf, REG04) ==>
            g.At(BANK_SENSOR, REG04) == WithBit(f.At(BANK_SENSOR, REG04), mask, on))
      && (REG04 !in nak && REG04 in rf.mute ==>
            g.At(BANK_SENSOR, REG04) == WithBit(rf.junk, mask, on)
            && (g.At(BANK_SENSOR, REG04) / mask) % 2 == (if on then 1 else 0))
      && (REG04 !in nak ==>
            forall b: byte, r: byte :: (b, r) != (BANK_SENSOR, REG04) ==> g.At(b, r) == f.At(b, r))
  {
    var p := RmwProgramme(f, nak, rf, mask, on);
    var s := SensorSelected(f, nak);
    assert p[..1][..0] == [] && p[..1][0] == p[0];
    assert After(f, nak, p[..1]) == s;
    assert p[..2][..1] == p[..1] && p[..2][1] == Get(REG04);
    assert After(f, nak, p[..2]) == s;
    assert p[..2] == p[..|p| - 1];
  }

  /** `ov2640_set_hmirror` / `ov2640_set_vflip`, which differ only in the bit. */
  method SetReg04Bit(bus: Bus, mask: byte, enable: bool) returns (err: EspErr)
    requires bus.Valid() && (mask == MIRROR_BIT || mask == FLIP_BIT)
    modifies bus
    ensures bus.Valid()
    ensures bus.ops == old(bus.ops) + RmwProgramme(old(bus.file), bus.nak, bus.fault, mask, enable)
    ensures err == ESP_OK
  {
    ghost var f := bus.file;
    var e := bus.SelectBank(BANK_SENSOR);
    assert bus.file == SensorSelected(f, bus.nak);
    var reg;
    e, reg := bus.ReadReg(REG04);
    reg := WithBit(reg, mask, enable);
    e := bus.WriteReg(REG04, reg);
    return ESP_OK;
  }

  /** `ov2640_set_hmirror`. */
  method SetHmirror(bus: Bus, enable: bool) returns (err: EspErr)
    requires bus.Valid()
    modifies bus
    ensures bus.Valid()
    ensures bus.ops == old(bus.ops) + RmwProgramme(old(bus.file), bus.nak, bus.fault, MIRROR_BIT, enable)
    ensures err == ESP_OK
  {
    err := SetReg04Bit(bus, MIRROR_BIT, enable);
  }

  /** `ov2640_set_vflip`. */
  method SetVflip(bus: Bus, enable: bool) returns (err: EspErr)
    requires bus.Valid()
    modifies bus
    ensures bus.Valid()
    ensures bus.ops == old(bus.ops) + RmwProgramme(old(bus.file), bus.nak, bus.fault, FLIP_BIT, enable)
    ensures err == ESP_OK
  {
    err := SetReg04Bit(bus, FLIP_BIT, enable);
  }
}

/**
 * The SCCB (I2C) register bus of the OV2640 sensor, as the driver in
 * src/camera_i2s_driver.cpp uses it: single-register writes and reads, and a
 * bank-select register (0xFF) that decides whether an address means a DSP or
 * a sensor register.
 *
 * The device is modelled as a register file keyed by (bank, address) plus a
 * fixed set of addresses it does not acknowledge; a transaction on such an
 * address fails and changes nothing. Every transaction the driver issues is
 * recorded in a ghost log, and the register file is always the result of
 * running that log from the bus's initial contents.
 */
module Sccb {
  import opened Common

  const BANK_SEL: byte := 0xFF
  const BANK_DSP: byte := 0x00
  const BANK_SENSOR: byte := 0x01

  datatype RegFile = RegFile(bank: byte, regs: map<(byte, byte), byte>)
  {
    /** Register `reg` of bank `b`; a register never written reads as 0. */
    function At(b: byte, reg: byte): byte
    {
      if (b, reg) in regs then regs[(b, reg)] else 0
    }

    /** What a read of `reg` returns: the bank selector itself, or the register in the selected bank. */
    function Read(reg: byte): byte
    {
      if reg == BANK_SEL then bank else At(bank, reg)
    }

    /** A write of `value` to `reg`: selects a bank, or sets one register of the selected bank. */
    function Write(reg: byte, value: byte): (f: RegFile)
      ensures f.Read(reg) == value
      ensures reg == BANK_SEL ==> f.regs == regs
      ensures reg != BANK_SEL ==> f.bank == bank
      ensures forall b: byte, r: byte :: (b, r) != (bank, reg) ==> f.At(b, r) == At(b, r)
    {
      if reg == BANK_SEL then this.(bank := value) else this.(regs := regs[(bank, reg) := value])
    }
  }

  /** One bus transaction as the driver issues it. */
  datatype Op = Put(reg: byte, value: byte) | Get(reg: byte)

  /** Effect of one transaction on a device that does not acknowledge the addresses in `nak`. */
  function Exec(f: RegFile, nak: set<byte>, op: Op): RegFile
  {
    match op
    case Put(reg, value) => if reg in nak then f else f.Write(reg, value)
    case Get(_) => f
  }

  /** The register file after running `ops` from `f`. */
  function After(f: RegFile, nak: set<byte>, ops: seq<Op>): RegFile
    decreases |ops|
  {
    if ops == [] then f else Exec(After(f, nak, ops[..|ops| - 1]), nak, ops[|ops| - 1])
  }

  /** The writes of `ops` that the device acknowledged, in order. */
  function Acked(nak: set<byte>, ops: seq<Op>): (w: seq<Op>)
    ensures forall i :: 0 <= i < |w| ==> w[i].Put? && w[i].reg !in nak && w[i] in ops
    decreases |ops|
  {
    if ops == [] then []
    else
      var last := ops[|ops| - 1];
      var rest := Acked(nak, ops[..|ops| - 1]);
      assert forall i :: 0 <= i < |rest| ==> rest[i] in ops by {
        forall i | 0 <= i < |rest| ensures rest[i] in ops {
          assert rest[i] in ops[..|ops| - 1];
        }
      }
      rest + (if last.Put? && last.reg !in nak then [last] else [])
  }

  /** Running two programmes one after the other is running their concatenation. */
  lemma {:induction false} AfterAppend(f: RegFile, nak: set<byte>, a: seq<Op>, b: seq<Op>)
    ensures After(f, nak, a + b) == After(After(f, nak, a), nak, b)
    decreases |b|
  {
    if b == [] {
      assert a + b == a;
    } else {
      var b' := b[..|b| - 1];
      assert (a + b)[..|a + b| - 1] == a + b';
      assert (a + b)[|a + b| - 1] == b[|b| - 1];
      AfterAppend(f, nak, a, b');
    }
  }

  /** The acknowledged writes of a concatenation are those of each part, in order. */
  lemma {:induction false} AckedAppend(nak: set<byte>, a: seq<Op>, b: seq<Op>)
    ensures Acked(nak, a + b) == Acked(nak, a) + Acked(nak, b)
    decreases |b|
  {
    if b == [] {
      assert a + b == a;
    } else {
      var b' := b[..|b| - 1];
      assert (a + b)[..|a + b| - 1] == a + b';
      assert (a + b)[|a + b| - 1] == b[|b| - 1];
      AckedAppend(nak, a, b');
    }
  }

  /** Extending a log that is `base + done` by one transaction. */
  lemma LogStep(base: seq<Op>, done: seq<Op>, op: Op)
    ensures (base + done) + [op] == base + (done + [op])
  {
  }

  /** Extending a log by a whole programme. */
  lemma LogAppend(base: seq<Op>, done: seq<Op>, more: seq<Op>)
    ensures (base + done) + more == base + (done + more)
  {
  }

  /** Extending a log that holds the first `k` transactions of `prog` by the next one. */
  lemma LogPrefix(base: seq<Op>, prog: seq<Op>, k: nat)
    requires k < |prog|
    ensures (base + prog[..k]) + [prog[k]] == base + prog[..k + 1]
  {
    assert prog[..k + 1] == prog[..k] + [prog[k]];
  }

  /** A programme of writes the device acknowledges lands in full, in order. */
  lemma {:induction false} AckedAll(nak: set<byte>, ops: seq<Op>)
    requires forall i :: 0 <= i < |ops| ==> ops[i].Put? && ops[i].reg !in nak
    ensures Acked(nak, ops) == ops
    decreases |ops|
  {
    if ops != [] {
      AckedAll(nak, ops[..|ops| - 1]);
    }
  }

  /** Reads change nothing: a programme of reads leaves the register file as it was. */
  lemma {:induction false} ReadsChangeNothing(f: RegFile, nak: set<byte>, ops: seq<Op>)
    requires forall i :: 0 <= i < |ops| ==> ops[i].Get?
    ensures After(f, nak, ops) == f && Acked(nak, ops) == []
    decreases |ops|
  {
    if ops != [] {
      ReadsChangeNothing(f, nak, ops[..|ops| - 1]);
    }
  }

  /**
   * How reads go wrong once the address was acknowledged: for the addresses
   * in `mute` the device hands back no byte (`requestFrom` does not return
   * 1), and a failed read leaves the caller's variable holding `junk`, a
   * value the driver never set.
   */
  datatype ReadFault = ReadFault(mute: set<byte>, junk: byte)

  /** A read of `reg` returns the register's content. */
  predicate Readable(nak: set<byte>, rf: ReadFault, reg: byte)
  {
    reg !in nak && reg !in rf.mute
  }

  class Bus {
    /** the device's registers */
    var file: RegFile
    /** addresses the device does not acknowledge */
    const nak: set<byte>
    /** reads that fail after the address was acknowledged */
    const fault: ReadFault
    /** every transaction issued on this bus, in order */
    ghost var ops: seq<Op>
    ghost const file0: RegFile

    ghost predicate Valid()
      reads this
    {
      file == After(file0, nak, ops)
    }

    constructor (initial: RegFile, absent: set<byte>, faults: ReadFault)
      ensures Valid() && file == initial && nak == absent && fault == faults && ops == []
    {
      file := initial;
      nak := absent;
      fault := faults;
      ops := [];
      file0 := initial;
    }

    /** `sccb_write_reg`: ESP_FAIL when the device does not acknowledge the address. */
    method WriteReg(reg: byte, value: byte) returns (err: EspErr)
      requires Valid()
      modifies this
      ensures Valid()
      ensures ops == old(ops) + [Put(reg, value)]
      ensures err == (if reg in nak then ESP_FAIL else ESP_OK)
    {
      if reg in nak {
        err := ESP_FAIL;
      } else {
        file := file.Write(reg, value);
        err := ESP_OK;
      }
      ops := ops + [Put(reg, value)];
      assert ops[..|ops| - 1] == old(ops);
    }

    /**
     * `sccb_read_reg`: ESP_FAIL when the device does not acknowledge the
     * address, or acknowledges it but returns no byte. On failure the
     * source never assigns the caller's variable; the model hands back
     * `fault.junk`, a byte the driver did not choose.
     */
    method ReadReg(reg: byte) returns (err: EspErr, value: byte)
      requires Valid()
      modifies this
      ensures Valid()
      ensures ops == old(ops) + [Get(reg)] && file == old(file)
      ensures err == (if Readable(nak, fault, reg) then ESP_OK else ESP_FAIL)
      ensures err == ESP_OK ==> value == file.Read(reg)
      ensures err != ESP_OK ==> value == fault.junk
    {
      if reg in nak || reg in fault.mute {
        err, value := ESP_FAIL, fault.junk;
      } else {
        err, value := ESP_OK, file.Read(reg);
      }
      ops := ops + [Get(reg)];
      assert ops[..|ops| - 1] == old(ops);
    }

    /** `sccb_select_bank`: a write to the bank-select register. */
    method SelectBank(bank: byte) returns (err: EspErr)
      requires Valid()
      modifies this
      ensures Valid()
      ensures ops == old(ops) + [Put(BANK_SEL, bank)]
      ensures err == (if BANK_SEL in nak then ESP_FAIL else ESP_OK)
      ensures BANK_SEL !in nak ==> file.bank == bank && file.regs == old(file.regs)
      ensures BANK_SEL in nak ==> file == old(file)
    {
      err := WriteReg(BANK_SEL, bank);
    }
  }
}

/** The ADXL355 register protocol: command bytes, the initialisation sequence and the
    bit-level decoding of acceleration and temperature samples. The SPI bus is a class
    that records every transaction it carries; what the device answers and which
    transactions fail are fixed in advance by two oracles of the bus. */
module Adxl355 {
  import opened Wrappers
  import opened Bytes

  const SPI_READ: byte := 0x01
  const SPI_WRITE: byte := 0x00
  const EXPECTED_DEVICE_ID: byte := 0xED
  /** 2^(20-1) - 1, the largest magnitude of a 20-bit two's-complement sample. */
  const ACCEL_MAX_I20: int := 524_287

  /** Register addresses, which the driver takes from its register table. */
  datatype RegisterMap = RegisterMap(devid: byte, filter: byte, range: byte,
                                     powerCtl: byte, temp2: byte, xdata3: byte)

  /** Register values of the output-data-rate, high-pass corner and range settings. */
  datatype Settings = Settings(odr: byte, hpf: byte, range: byte)

  /** A configuration whose settings may be absent; absent ones take the defaults. */
  datatype Config = Config(odr: Option<byte>, hpf: Option<byte>, range: Option<byte>)

  function OrDefault(o: Option<byte>, d: byte): byte {
    match o
    case Some(v) => v
    case None => d
  }

  function Applied(c: Config, defaults: Settings): (s: Settings)
    ensures c.odr.Some? ==> s.odr == c.odr.value
    ensures c.odr.None? ==> s.odr == defaults.odr
    ensures c.hpf.Some? ==> s.hpf == c.hpf.value
    ensures c.hpf.None? ==> s.hpf == defaults.hpf
    ensures c.range.Some? ==> s.range == c.range.value
    ensures c.range.None? ==> s.range == defaults.range
  {
    Settings(OrDefault(c.odr, defaults.odr), OrDefault(c.hpf, defaults.hpf), OrDefault(c.range, defaults.range))
  }

  // ---------------------------------------------------------------------------
  // Command bytes

  /** First byte of a register write: the address in bits 7..1, bit 0 clear. */
  function WriteCommand(reg: byte): (c: byte)
    ensures c & 1 == 0
    ensures c >> 1 == reg & 0x7F
  {
    (reg << 1) | SPI_WRITE
  }

  /** First byte of a register read: the address in bits 7..1, bit 0 set. */
  function ReadCommand(reg: byte): (c: byte)
    ensures c & 1 == 1
    ensures c >> 1 == reg & 0x7F
  {
    (reg << 1) | SPI_READ
  }

  /** A read command never equals a write command, and a command identifies its
      (7-bit) register. */
  lemma CommandsAreUnambiguous(r: byte, s: byte)
    ensures ReadCommand(r) != WriteCommand(s)
    ensures ReadCommand(r) == WriteCommand(s) | 1 <==> r & 0x7F == s & 0x7F
    ensures WriteCommand(r) == WriteCommand(s) <==> r & 0x7F == s & 0x7F
  {
  }

  // ---------------------------------------------------------------------------
  // Sample decoding

  /** The two's-complement value of four bytes, most significant first. */
  function FromBytes(u3: byte, u2: byte, u1: byte, u0: byte): (v: int)
    ensures -0x8000_0000 <= v < 0x8000_0000
  {
    var u := u3 as int * 0x100_0000 + u2 as int * 0x1_0000 + u1 as int * 0x100 + u0 as int;
    if u < 0x8000_0000 then u else u - 0x1_0000_0000
  }

  /** Rust's `as i32` on a 32-bit pattern. */
  function I32(w: bv32): int {
    FromBytes(ByteOf(w, 3), ByteOf(w, 2), ByteOf(w, 1), ByteOf(w, 0))
  }

  /** Arithmetic (sign-propagating) right shift by 12 of an i32 bit pattern:
      the vacated top 12 bits are copies of the sign bit. */
  function Sar12(w: bv32): bv32 {
    if w & 0x8000_0000 == 0 then w >> 12 else (w >> 12) | 0xFFF0_0000
  }

  /** The three data bytes of one axis placed in the top 20 bits of a word;
      the low nibble of the third byte is masked off. */
  function AxisWord(b0: byte, b1: byte, b2: byte): bv32 {
    ((b0 as bv32) << 24) | ((b1 as bv32) << 16) | (((b2 & 0xF0) as bv32) << 8)
  }

  /** One decoded axis: the word shifted right by 12 with sign extension. */
  function DecodeAxis(b0: byte, b1: byte, b2: byte): int {
    I32(Sar12(AxisWord(b0, b1, b2)))
  }

  /** The unsigned 20-bit field `b0:b1:high nibble of b2`. */
  function Field20(b0: byte, b1: byte, b2: byte): (f: int)
    ensures 0 <= f < 0x10_0000
  {
    b0 as int * 4096 + b1 as int * 16 + b2 as int / 16
  }

  /** Two's-complement value of a 20-bit field. */
  function Signed20(f: int): int
    requires 0 <= f < 0x10_0000
  {
    if f < 0x8_0000 then f else f - 0x10_0000
  }

  lemma SmallSum(a: byte, c: byte)
    requires a < 16 && c < 16
    ensures (a * 16 + c) as int == a as int * 16 + c as int
  {
  }

  lemma HighNibble(a: byte)
    ensures (a >> 4) as int == a as int / 16
  {
  }

  lemma HighNibbleSet(a: byte)
    ensures ((a >> 4) | 0xF0) as int == a as int / 16 + 0xF0
  {
    assert (a >> 4) | 0xF0 == (a >> 4) + 0xF0;
    HighNibble(a);
  }

  /** The byte that joins the low nibble of a to the high nibble of c. */
  lemma NibblePair(a: byte, c: byte)
    ensures ((a << 4) | (c >> 4)) as int == (a as int % 16) * 16 + c as int / 16
  {
    var hi, lo := a & 0xF, c >> 4;
    assert (a << 4) | (c >> 4) == hi * 16 + lo;
    assert hi as int == a as int % 16;
    assert lo as int == c as int / 16;
    SmallSum(hi, lo);
  }

  /** The bytes of the shifted word: the 20-bit field, with the top 12 bits copies of
      bit 7 of the first data byte. */
  lemma ShiftedWordBytes(b0: byte, b1: byte, b2: byte)
    ensures var w := Sar12(AxisWord(b0, b1, b2));
      && ByteOf(w, 3) == (if b0 & 0x80 == 0 then 0 else 0xFF)
      && ByteOf(w, 2) == (if b0 & 0x80 == 0 then b0 >> 4 else (b0 >> 4) | 0xF0)
      && ByteOf(w, 1) == (b0 << 4) | (b1 >> 4)
      && ByteOf(w, 0) == (b1 << 4) | (b2 >> 4)
  {
  }

  /** Regrouping the nibbles of three bytes into the 20-bit field. */
  lemma FieldFromNibbles(a: int, b: int, c: int)
    requires 0 <= a < 256 && 0 <= b < 256 && 0 <= c < 256
    ensures (a / 16) * 0x1_0000 + ((a % 16) * 16 + b / 16) * 0x100 + (b % 16) * 16 + c / 16
         == a * 4096 + b * 16 + c / 16
  {
  }

  lemma DecodeNonNegative(b0: byte, b1: byte, b2: byte)
    requires b0 & 0x80 == 0
    ensures DecodeAxis(b0, b1, b2) == Field20(b0, b1, b2)
  {
    ShiftedWordBytes(b0, b1, b2);
    var p1, p0 := (b0 << 4) | (b1 >> 4), (b1 << 4) | (b2 >> 4);
    assert DecodeAxis(b0, b1, b2) == FromBytes(0, b0 >> 4, p1, p0);
    HighNibble(b0);
    NibblePair(b0, b1);
    NibblePair(b1, b2);
    FieldFromNibbles(b0 as int, b1 as int, b2 as int);
    assert b0 as int < 128;
  }

  lemma DecodeNegative(b0: byte, b1: byte, b2: byte)
    requires b0 & 0x80 != 0
    ensures DecodeAxis(b0, b1, b2) == Field20(b0, b1, b2) - 0x10_0000
  {
    ShiftedWordBytes(b0, b1, b2);
    var p1, p0 := (b0 << 4) | (b1 >> 4), (b1 << 4) | (b2 >> 4);
    assert DecodeAxis(b0, b1, b2) == FromBytes(0xFF, (b0 >> 4) | 0xF0, p1, p0);
    HighNibbleSet(b0);
    NibblePair(b0, b1);
    NibblePair(b1, b2);
    FieldFromNibbles(b0 as int, b1 as int, b2 as int);
  }

  /** Each axis decodes to the two's-complement value of its 20-bit field. */
  lemma DecodeAxisIsTwosComplement(b0: byte, b1: byte, b2: byte)
    ensures DecodeAxis(b0, b1, b2) == Signed20(Field20(b0, b1, b2))
  {
    if b0 & 0x80 == 0 {
      DecodeNonNegative(b0, b1, b2);
      assert b0 as int < 128;
    } else {
      DecodeNegative(b0, b1, b2);
      assert b0 as int >= 128;
    }
  }

  /** Every decoded axis lies in [-2^19, 2^19 - 1]; the upper end is ACCEL_MAX_I20. */
  lemma DecodeAxisRange(b0: byte, b1: byte, b2: byte)
    ensures -ACCEL_MAX_I20 - 1 <= DecodeAxis(b0, b1, b2) <= ACCEL_MAX_I20
  {
    DecodeAxisIsTwosComplement(b0, b1, b2);
  }

  /** The low nibble of the third byte never affects the decoded value. */
  lemma DecodeAxisIgnoresLowNibble(b0: byte, b1: byte, b2: byte, c2: byte)
    requires b2 & 0xF0 == c2 & 0xF0
    ensures DecodeAxis(b0, b1, b2) == DecodeAxis(b0, b1, c2)
  {
    assert AxisWord(b0, b1, b2) == AxisWord(b0, b1, c2);
  }

  /** The three bytes the device sends for a 20-bit value (low nibble zero). */
  function EncodeAxis(v: int): (bs: (byte, byte, byte))
    requires -ACCEL_MAX_I20 - 1 <= v <= ACCEL_MAX_I20
  {
    var u := if v < 0 then v + 0x10_0000 else v;
    (ToByte(u / 4096), ToByte((u / 16) % 256), ToByte((u % 16) * 16))
  }


  lemma Regroup(u: int)
    requires 0 <= u < 0x10_0000
    ensures (u / 4096) * 4096 + ((u / 16) % 256) * 16 + ((u % 16) * 16) / 16 == u
  {
    var q, m := u / 16, u % 16;
    assert u == q * 16 + m;
    assert (m * 16) / 16 == m;
    assert u / 4096 == q / 256;
    assert q == (q / 256) * 256 + q % 256;
  }

  lemma EncodeAxisField(v: int)
    requires -ACCEL_MAX_I20 - 1 <= v <= ACCEL_MAX_I20
    ensures Field20(EncodeAxis(v).0, EncodeAxis(v).1, EncodeAxis(v).2) == if v < 0 then v + 0x10_0000 else v
  {
    var u := if v < 0 then v + 0x10_0000 else v;
    Regroup(u);
  }

  lemma DecodeEncodeAxis(v: int)
    requires -ACCEL_MAX_I20 - 1 <= v <= ACCEL_MAX_I20
    ensures DecodeAxis(EncodeAxis(v).0, EncodeAxis(v).1, EncodeAxis(v).2) == v
  {
    var e := EncodeAxis(v);
    EncodeAxisField(v);
    DecodeAxisIsTwosComplement(e.0, e.1, e.2);
  }

  lemma DecodeAxisExtremes()
    ensures DecodeAxis(0x7F, 0xFF, 0xF0) == ACCEL_MAX_I20
    ensures DecodeAxis(0x80, 0x00, 0x00) == -ACCEL_MAX_I20 - 1
    ensures DecodeAxis(0xFF, 0xFF, 0xF0) == -1
  {
    DecodeAxisIsTwosComplement(0x7F, 0xFF, 0xF0);
    DecodeAxisIsTwosComplement(0x80, 0x00, 0x00);
    DecodeAxisIsTwosComplement(0xFF, 0xFF, 0xF0);
  }

  datatype I32x3 = I32x3(x: int, y: int, z: int)

  /** The 10-byte XDATA3 frame: x from bytes 1-3, y from 4-6, z from 7-9. */
  function DecodeFrame(f: seq<byte>): (v: I32x3)
    requires |f| == 10
  {
    I32x3(DecodeAxis(f[1], f[2], f[3]), DecodeAxis(f[4], f[5], f[6]), DecodeAxis(f[7], f[8], f[9]))
  }

  /** Every axis of a decoded frame lies in the 20-bit range, and byte 0 (the
      command slot) plays no part. */
  lemma DecodeFrameInRange(f: seq<byte>, c: byte)
    requires |f| == 10
    ensures var v := DecodeFrame(f);
      && -ACCEL_MAX_I20 - 1 <= v.x <= ACCEL_MAX_I20
      && -ACCEL_MAX_I20 - 1 <= v.y <= ACCEL_MAX_I20
      && -ACCEL_MAX_I20 - 1 <= v.z <= ACCEL_MAX_I20
    ensures DecodeFrame([c] + f[1..]) == DecodeFrame(f)
  {
    DecodeAxisIsTwosComplement(f[1], f[2], f[3]);
    DecodeAxisIsTwosComplement(f[4], f[5], f[6]);
    DecodeAxisIsTwosComplement(f[7], f[8], f[9]);
    assert ([c] + f[1..])[1..] == f[1..];
  }

  /** The 12-bit temperature: low nibble of the first byte, then the second byte. */
  function TempRaw(t1: byte, t2: byte): (r: bv16)
    ensures r < 4096
    ensures r >> 8 == (t1 & 0x0F) as bv16 && r & 0xFF == t2 as bv16
  {
    (((t1 & 0x0F) as bv16) << 8) | ((t2 as bv16) & 0x00FF)
  }

  // ---------------------------------------------------------------------------
  // The SPI bus

  datatype Transaction = Write(tx: seq<byte>) | Transfer(tx: seq<byte>)

  class SpiBus {
    /** Every transaction issued so far, in order, with the bytes sent. */
    var trace: seq<Transaction>
    /** Whether the n-th transaction on this bus fails. */
    const fails: nat -> bool
    /** The byte the device clocks out at position j of the n-th transaction. */
    const miso: (nat, nat) -> byte

    constructor (fails: nat -> bool, miso: (nat, nat) -> byte)
      ensures trace == [] && this.fails == fails && this.miso == miso
    {
      this.fails := fails;
      this.miso := miso;
      trace := [];
    }

    /** The bytes received by a successful n-th transfer of the given length. */
    function Received(n: nat, len: nat): (r: seq<byte>)
      ensures |r| == len
    {
      seq(len, (j: int) requires 0 <= j => miso(n, j))
    }

    method Write(tx: seq<byte>) returns (ok: bool)
      modifies this
      ensures trace == old(trace) + [Transaction.Write(tx)]
      ensures ok == !fails(|old(trace)|)
    {
      ok := !fails(|trace|);
      trace := trace + [Transaction.Write(tx)];
    }

    /** Full-duplex transfer: on success the received bytes overwrite the buffer;
        on failure the buffer is left as it was. */
    method TransferInPlace(buf: array<byte>) returns (ok: bool)
      modifies this, buf
      ensures trace == old(trace) + [Transfer(old(buf[..]))]
      ensures ok == !fails(|old(trace)|)
      ensures buf[..] == if ok then Received(|old(trace)|, buf.Length) else old(buf[..])
    {
      var n := |trace|;
      trace := trace + [Transfer(buf[..])];
      ok := !fails(n);
      if ok {
        forall j | 0 <= j < buf.Length {
          buf[j] := miso(n, j);
        }
      }
    }
  }

  // ---------------------------------------------------------------------------
  // The driver

  /** The FILTER register value: the high-pass corner in bits 7..4, the data rate below. */
  function FilterValue(s: Settings): byte {
    (s.hpf << 4) | s.odr
  }

  /** The transactions `new` issues, in order, when none of them fails. */
  function InitTransactions(regs: RegisterMap, s: Settings): (t: seq<Transaction>)
    ensures |t| == 3
  {
    [ Transfer([ReadCommand(regs.devid), 0]),
      Transaction.Write([WriteCommand(regs.filter), FilterValue(s)]),
      Transaction.Write([WriteCommand(regs.range), s.range]) ]
  }

  /** How many transactions `new` issues when the first of them is the k-th on the bus:
      it stops right after the first failing one. */
  function InitSteps(fails: nat -> bool, k: nat): (n: nat)
    ensures 1 <= n <= 3
  {
    if fails(k) then 1 else if fails(k + 1) then 2 else 3
  }

  /** The result of `new` when its first transaction is the k-th on the bus. */
  function InitOutcome(fails: nat -> bool, k: nat): Result<()> {
    if fails(k) then Err(BusError(k))
    else if fails(k + 1) then Err(BusError(k + 1))
    else if fails(k + 2) then Err(BusError(k + 2))
    else Ok(())
  }

  /** `new` succeeds exactly when none of its three transactions fails, and otherwise
      reports the last transaction it issued, which is the one that failed. No device
      id enters into it. */
  lemma InitOutcomeCharacterised(fails: nat -> bool, k: nat)
    ensures InitOutcome(fails, k).Ok? <==> !fails(k) && !fails(k + 1) && !fails(k + 2)
    ensures InitOutcome(fails, k).Err? ==>
      && InitOutcome(fails, k).error == BusError(k + InitSteps(fails, k) - 1)
      && fails(k + InitSteps(fails, k) - 1)
      && forall j :: k <= j < k + InitSteps(fails, k) - 1 ==> !fails(j)
  {
  }

  class Device {
    const spi: SpiBus
    const regs: RegisterMap
    const settings: Settings

    constructor (spi: SpiBus, regs: RegisterMap, settings: Settings)
      ensures this.spi == spi && this.regs == regs && this.settings == settings
    {
      this.spi := spi;
      this.regs := regs;
      this.settings := settings;
    }

    method WriteReg(reg: byte, value: byte) returns (r: Result<()>)
      modifies spi
      ensures spi.trace == old(spi.trace) + [Transaction.Write([WriteCommand(reg), value])]
      ensures r == if spi.fails(|old(spi.trace)|) then Err(BusError(|old(spi.trace)|)) else Ok(())
    {
      var n := |spi.trace|;
      var ok := spi.Write([WriteCommand(reg), value]);
      r := if ok then Ok(()) else Err(BusError(n));
    }

    method ReadReg(reg: byte) returns (r: Result<byte>)
      modifies spi
      ensures spi.trace == old(spi.trace) + [Transfer([ReadCommand(reg), 0])]
      ensures r == if spi.fails(|old(spi.trace)|) then Err(BusError(|old(spi.trace)|))
                   else Ok(spi.miso(|old(spi.trace)|, 1))
    {
      var n := |spi.trace|;
      var bytes := new byte[] [ReadCommand(reg), 0];
      assert bytes[..] == [ReadCommand(reg), 0];
      var ok := spi.TransferInPlace(bytes);
      if ok {
        r := Ok(bytes[1]);
      } else {
        r := Err(BusError(n));
      }
    }

    method GetDeviceId() returns (r: Result<byte>)
      modifies spi
      ensures spi.trace == old(spi.trace) + [Transfer([ReadCommand(regs.devid), 0])]
      ensures r == if spi.fails(|old(spi.trace)|) then Err(BusError(|old(spi.trace)|))
                   else Ok(spi.miso(|old(spi.trace)|, 1))
    {
      r := ReadReg(regs.devid);
    }

    /** Read into a buffer, discarding any transfer error. */
    method Read(bytes: array<byte>)
      modifies spi, bytes
      ensures spi.trace == old(spi.trace) + [Transfer(old(bytes[..]))]
      ensures bytes[..] == if spi.fails(|old(spi.trace)|) then old(bytes[..])
                           else spi.Received(|old(spi.trace)|, bytes.Length)
    {
      var _ := spi.TransferInPlace(bytes);
    }

    /** The body of `new`: read the device id, then write FILTER := (hpf << 4) | odr and
        RANGE := range. The id is not checked; the first failing transaction ends the
        sequence with its error. */
    method Configure() returns (r: Result<()>)
      modifies spi
      ensures spi.trace == old(spi.trace) + InitTransactions(regs, settings)[..InitSteps(spi.fails, |old(spi.trace)|)]
      ensures r == InitOutcome(spi.fails, |old(spi.trace)|)
    {
      ghost var t := InitTransactions(regs, settings);
      ghost var k := |spi.trace|;
      var id := GetDeviceId();
      if id.Err? {
        assert spi.trace == old(spi.trace) + t[..1];
        return Err(id.error);
      }
      if id.value != EXPECTED_DEVICE_ID {
        // a mismatching id is not reported
      }
      var w := WriteReg(regs.filter, FilterValue(settings));
      if w.Err? {
        assert spi.trace == old(spi.trace) + t[..2];
        return Err(w.error);
      }
      w := WriteReg(regs.range, settings.range);
      assert spi.trace == old(spi.trace) + t[..3];
      r := w;
    }

    /** Put the device in measurement mode: POWER_CTL := 0. */
    method Start() returns (r: Result<()>)
      modifies spi
      ensures spi.trace == old(spi.trace) + [Transaction.Write([WriteCommand(regs.powerCtl), 0])]
      ensures r == if spi.fails(|old(spi.trace)|) then Err(BusError(|old(spi.trace)|)) else Ok(())
    {
      r := WriteReg(regs.powerCtl, 0);
    }

    /** The raw 12-bit temperature; a failed transfer is ignored and reads as zero bytes. */
    method ReadTempRaw() returns (t: bv16)
      modifies spi
      ensures spi.trace == old(spi.trace) + [Transfer([ReadCommand(regs.temp2), 0, 0])]
      ensures t < 4096
      ensures var n := |old(spi.trace)|;
        t == if spi.fails(n) then 0 else TempRaw(spi.miso(n, 1), spi.miso(n, 2))
    {
      var bytes := new byte[] [ReadCommand(regs.temp2), 0, 0];
      assert bytes[..] == [ReadCommand(regs.temp2), 0, 0];
      Read(bytes);
      t := TempRaw(bytes[1], bytes[2]);
    }

    /** One acceleration sample: a 10-byte read starting at XDATA3. Transfer errors are
        discarded, so the result is always Ok; after a failed transfer the frame still
        holds the command byte and zeros. */
    method AccelRaw() returns (r: Result<I32x3>)
      modifies spi
      ensures spi.trace == old(spi.trace) + [Transfer(XDataRequest(regs))]
      ensures r.Ok?
      ensures var n := |old(spi.trace)|;
        r.value == DecodeFrame(if spi.fails(n) then XDataRequest(regs) else spi.Received(n, 10))
    {
      var bytes := new byte[10];
      bytes[0] := ReadCommand(regs.xdata3);
      forall j | 1 <= j < 10 {
        bytes[j] := 0;
      }
      assert bytes[..] == XDataRequest(regs);
      Read(bytes);
      r := Ok(DecodeFrame(bytes[..]));
    }
  }

  /** The bytes sent to read the three axes: the XDATA3 read command and nine zeros. */
  function XDataRequest(regs: RegisterMap): (f: seq<byte>)
    ensures |f| == 10 && f[0] == ReadCommand(regs.xdata3)
  {
    [ReadCommand(regs.xdata3)] + seq(9, _ => 0)
  }

  /** A frame that failed to transfer decodes to the zero sample. */
  lemma FailedFrameIsZero(regs: RegisterMap)
    ensures DecodeFrame(XDataRequest(regs)) == I32x3(0, 0, 0)
  {
    var f := XDataRequest(regs);
    assert f[1] == f[2] == f[3] == f[4] == f[5] == f[6] == f[7] == f[8] == f[9] == 0;
    DecodeAxisIsTwosComplement(0, 0, 0);
  }

  /** Driver construction: read the device id, then write FILTER and RANGE (see
      Device.Configure); the device is returned only if all three succeeded. */
  method New(spi: SpiBus, regs: RegisterMap, defaults: Settings, config: Config)
    returns (r: Result<Device>)
    modifies spi
    ensures spi.trace == old(spi.trace)
                         + InitTransactions(regs, Applied(config, defaults))[..InitSteps(spi.fails, |old(spi.trace)|)]
    ensures r.Err? == InitOutcome(spi.fails, |old(spi.trace)|).Err?
    ensures r.Err? ==> r.error == InitOutcome(spi.fails, |old(spi.trace)|).error
    ensures r.Ok? ==> fresh(r.value) && r.value.spi == spi && r.value.regs == regs
                      && r.value.settings == Applied(config, defaults)
  {
    var device := new Device(spi, regs, Applied(config, defaults));
    var c := device.Configure();
    r := if c.Ok? then Ok(device) else Err(c.error);
  }
}

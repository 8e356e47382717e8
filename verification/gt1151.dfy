/**
 * The GT1151 capacitive touch controller driver (src/touch_gt1151.py). The
 * I2C bus is an abstract device: a register file addressed by 16-bit
 * register numbers with an auto-incrementing register pointer, plus a log of
 * every bus transfer in the order it happened.
 */
module Gt1151 {
  import opened Wrappers
  import opened Bytes

  const StatusReg := 0x814E
  const PointReg := 0x814F
  const VersionReg := 0x8140
  const PointStride := 8
  const MaxPoints := 5

  /** One transfer on the bus, as seen by the device at `address`. */
  datatype Transfer =
    | BlockWrite(address: int, command: byte, data: seq<byte>)
    | ByteRead(address: int)

  /** The register command byte `_write_reg`/`_read_reg` send: `(reg >> 8) & 0xFF`. */
  function RegHigh(reg: int): byte
  {
    ((reg / 256) % 256) as byte
  }

  /** The first data byte they send: `reg & 0xFF`. */
  function RegLow(reg: int): byte
  {
    (reg % 256) as byte
  }

  /** The register a command byte and first data byte select. */
  function Selected(command: byte, low: byte): int
  {
    command as int * 256 + low as int
  }

  /** Splitting a register number into command and data byte loses nothing
      for the 16-bit registers the device has. */
  lemma RegSplitRoundTrip(reg: int)
    requires 0 <= reg < 0x1_0000
    ensures Selected(RegHigh(reg), RegLow(reg)) == reg
  {
  }

  /** A register's content; registers never written read as zero. */
  function Reg(mem: map<int, byte>, r: int): byte
  {
    if r in mem then mem[r] else 0
  }

  /** `n` consecutive registers from `start`. */
  function Peek(mem: map<int, byte>, start: int, n: nat): (s: seq<byte>)
    ensures |s| == n
    ensures forall k :: 0 <= k < n ==> s[k] == Reg(mem, start + k)
  {
    seq(n, k => Reg(mem, start + k))
  }

  /** The register file after writing `data` from register `start` on. */
  function Store(mem: map<int, byte>, start: int, data: seq<byte>): (m: map<int, byte>)
    ensures forall k :: 0 <= k < |data| ==> Reg(m, start + k) == data[k]
    ensures forall r :: (r < start || r >= start + |data|) ==> Reg(m, r) == Reg(mem, r)
    decreases |data|
  {
    if data == [] then mem else Store(mem[start := data[0]], start + 1, data[1..])
  }

  /** `n` single-byte reads from the device at `address`. */
  function Reads(address: int, n: nat): (t: seq<Transfer>)
    ensures |t| == n && forall k :: 0 <= k < n ==> t[k] == ByteRead(address)
  {
    seq(n, k => ByteRead(address))
  }

  /** The bus (`smbus.SMBus`) with the touch controller on it. */
  class SMBus {
    var mem: map<int, byte>
    var pointer: int
    var log: seq<Transfer>
    var closed: bool

    constructor (registers: map<int, byte>)
      ensures mem == registers && log == [] && !closed
    {
      mem := registers;
      pointer := 0;
      log := [];
      closed := false;
    }

    /** `write_i2c_block_data`: the command byte and the first data byte
        select a register; the remaining bytes are stored from there on. */
    method WriteI2cBlockData(address: int, command: byte, data: seq<byte>)
      modifies this
      ensures log == old(log) + [BlockWrite(address, command, data)]
      ensures data != [] ==> pointer == Selected(command, data[0]) + |data| - 1
      ensures data != [] ==> mem == Store(old(mem), Selected(command, data[0]), data[1..])
      ensures data == [] ==> mem == old(mem) && pointer == old(pointer)
      ensures closed == old(closed)
    {
      log := log + [BlockWrite(address, command, data)];
      if data != [] {
        var reg := Selected(command, data[0]);
        mem := Store(mem, reg, data[1..]);
        pointer := reg + |data| - 1;
      }
    }

    /** `read_byte`: the register under the pointer; the pointer advances. */
    method ReadByte(address: int) returns (b: byte)
      modifies this
      ensures b == Reg(old(mem), old(pointer))
      ensures pointer == old(pointer) + 1
      ensures log == old(log) + [ByteRead(address)]
      ensures mem == old(mem) && closed == old(closed)
    {
      b := Reg(mem, pointer);
      pointer := pointer + 1;
      log := log + [ByteRead(address)];
    }

    method Close()
      modifies this
      ensures closed && mem == old(mem) && log == old(log) && pointer == old(pointer)
    {
      closed := true;
    }
  }

  /** `TouchPoint`. */
  datatype TouchPoint = TouchPoint(x: int, y: int, size: int, trackId: int)

  /** Bit 7 of the status register (`status & 0x80`): point data is ready.
      For a byte, bit 7 is set exactly when the byte is at least 0x80. */
  function StatusReady(status: byte): bool
  {
    status >= 0x80
  }

  /** The low nibble of the status register (`status & 0x0F`): the number
      of points. */
  function PointCount(status: byte): (n: int)
    ensures 0 <= n < 16
  {
    status as int % 16
  }

  /** A little-endian 16-bit field, `hi << 8 | lo` (the two bytes occupy
      disjoint bits, so the `|` is an addition). */
  function Le16(lo: byte, hi: byte): (v: int)
    ensures 0 <= v < 0x1_0000
    ensures v / 256 == hi as int && v % 256 == lo as int
  {
    hi as int * 256 + lo as int
  }

  /** Point record `i`: track id, x, y and size from its 8-byte slot. */
  function DecodePoint(data: seq<byte>, i: nat): (p: TouchPoint)
    requires PointStride * i + 7 <= |data|
    ensures p.trackId == data[8 * i] as int
    ensures p.x == Le16(data[8 * i + 1], data[8 * i + 2])
    ensures p.y == Le16(data[8 * i + 3], data[8 * i + 4])
    ensures p.size == Le16(data[8 * i + 5], data[8 * i + 6])
    ensures 0 <= p.x < 0x1_0000 && 0 <= p.y < 0x1_0000 && 0 <= p.size < 0x1_0000
  {
    var base := PointStride * i;
    TouchPoint(
      x := Le16(data[base + 1], data[base + 2]),
      y := Le16(data[base + 3], data[base + 4]),
      size := Le16(data[base + 5], data[base + 6]),
      trackId := data[base] as int)
  }

  /** The first `count` point records of `data`, in slot order. */
  function DecodePoints(data: seq<byte>, count: nat): (ps: seq<TouchPoint>)
    requires PointStride * count <= |data|
    ensures |ps| == count
    ensures forall i :: 0 <= i < count ==> ps[i] == DecodePoint(data, i)
  {
    seq(count, i requires 0 <= i < count => DecodePoint(data, i))
  }

  /** What `read_points` returns for a given register file. */
  function PointsFrom(mem: map<int, byte>): (r: Option<seq<TouchPoint>>)
    ensures r.Some? ==> |r.value| == PointCount(Reg(mem, StatusReg)) && 1 <= |r.value| <= MaxPoints
    ensures r.Some? ==> forall i :: 0 <= i < |r.value| ==>
              r.value[i] == DecodePoint(Peek(mem, PointReg, PointStride * |r.value|), i)
  {
    var status := Reg(mem, StatusReg);
    var count := PointCount(status);
    if !StatusReady(status) || count < 1 || count > MaxPoints then None
    else Some(DecodePoints(Peek(mem, PointReg, PointStride * count), count))
  }

  /** The latch-clearing write: `0x00` to the status register. */
  function ClearLatch(address: int): Transfer
  {
    BlockWrite(address, RegHigh(StatusReg), [RegLow(StatusReg), 0])
  }

  /** The transfers `_read_reg(reg, n)` makes. */
  function ReadRegTransfers(address: int, reg: int, n: nat): seq<Transfer>
  {
    [BlockWrite(address, RegHigh(reg), [RegLow(reg)])] + Reads(address, n)
  }

  /** The transfers `read_points` makes for a given register file: read the
      status; if it announces 1 to 5 points, read their records; in every
      case, clear the latch last. */
  function ReadPointsTransfers(address: int, mem: map<int, byte>): seq<Transfer>
  {
    var status := Reg(mem, StatusReg);
    var count := PointCount(status);
    ReadRegTransfers(address, StatusReg, 1)
    + (if !StatusReady(status) || count < 1 || count > MaxPoints then []
       else ReadRegTransfers(address, PointReg, PointStride * count))
    + [ClearLatch(address)]
  }

  /** The number of writes in a transfer sequence to the status register. */
  function StatusWrites(address: int, t: seq<Transfer>): nat
  {
    if t == [] then 0
    else (if IsStatusWrite(address, t[0]) then 1 else 0) + StatusWrites(address, t[1..])
  }

  /** A write that puts a payload (not just the register pointer) into the
      status register. */
  predicate IsStatusWrite(address: int, t: Transfer)
  {
    t.BlockWrite? && t.address == address && t.command == RegHigh(StatusReg)
    && |t.data| >= 2 && t.data[0] == RegLow(StatusReg)
  }

  lemma {:induction false} StatusWritesAppend(address: int, s: seq<Transfer>, t: seq<Transfer>)
    ensures StatusWrites(address, s + t) == StatusWrites(address, s) + StatusWrites(address, t)
    decreases |s|
  {
    if s != [] {
      assert (s + t)[0] == s[0];
      assert (s + t)[1..] == s[1..] + t;
      StatusWritesAppend(address, s[1..], t);
    } else {
      assert s + t == t;
    }
  }

  lemma {:induction false} ReadRegWritesNoStatus(address: int, reg: int, n: nat)
    ensures StatusWrites(address, ReadRegTransfers(address, reg, n)) == 0
  {
    var t := ReadRegTransfers(address, reg, n);
    NoStatusWrites(address, t);
  }

  lemma {:induction false} NoStatusWrites(address: int, t: seq<Transfer>)
    requires forall k :: 0 <= k < |t| ==> !IsStatusWrite(address, t[k])
    ensures StatusWrites(address, t) == 0
    decreases |t|
  {
    if t != [] {
      NoStatusWrites(address, t[1..]);
    }
  }

  /** Whatever the status says, `read_points` writes to the status register
      exactly once, with payload `0x00`, and that write is its last transfer. */
  lemma ReadPointsClearsLatchOnce(address: int, mem: map<int, byte>)
    ensures var t := ReadPointsTransfers(address, mem);
      StatusWrites(address, t) == 1 && t[|t| - 1] == ClearLatch(address)
  {
    var status := Reg(mem, StatusReg);
    var count := PointCount(status);
    var head := ReadRegTransfers(address, StatusReg, 1);
    var mid := if !StatusReady(status) || count < 1 || count > MaxPoints then []
               else ReadRegTransfers(address, PointReg, PointStride * count);
    ReadRegWritesNoStatus(address, StatusReg, 1);
    if mid != [] {
      ReadRegWritesNoStatus(address, PointReg, PointStride * count);
    }
    StatusWritesAppend(address, head, mid);
    StatusWritesAppend(address, head + mid, [ClearLatch(address)]);
    assert StatusWrites(address, [ClearLatch(address)]) == 1;
  }

  /** Without the ready bit or with a point count outside 1..5 no point data
      is read and there is no result. */
  lemma NotReadyReadsNothing(address: int, mem: map<int, byte>)
    requires var status := Reg(mem, StatusReg);
      !StatusReady(status) || PointCount(status) < 1 || PointCount(status) > MaxPoints
    ensures PointsFrom(mem) == None
    ensures ReadPointsTransfers(address, mem)
         == [BlockWrite(address, 0x81, [0x4E]), ByteRead(address), BlockWrite(address, 0x81, [0x4E, 0])]
  {
  }

  /** With 1 to 5 points announced, exactly `8 * count` bytes are read from
      0x814F and exactly `count` points come back. */
  lemma ReadyReadsAllPoints(address: int, mem: map<int, byte>)
    requires var status := Reg(mem, StatusReg);
      StatusReady(status) && 1 <= PointCount(status) <= MaxPoints
    ensures var count := PointCount(Reg(mem, StatusReg));
      && PointsFrom(mem).Some? && |PointsFrom(mem).value| == count
      && ReadPointsTransfers(address, mem)
         == [BlockWrite(address, 0x81, [0x4E]), ByteRead(address), BlockWrite(address, 0x81, [0x4F])]
            + Reads(address, 8 * count) + [ClearLatch(address)]
  {
  }

  /** Status 0x81 with one record `[0, 10, 0, 20, 0, 0, 0, 0]` decodes to the
      single point (10, 20) of size 0 and track 0. */
  lemma OnePointExample()
    ensures var mem := map[0x814E := 0x81 as byte, 0x8150 := 10, 0x8152 := 20];
      PointsFrom(mem) == Some([TouchPoint(10, 20, 0, 0)])
  {
    var mem := map[0x814E := 0x81 as byte, 0x8150 := 10, 0x8152 := 20];
    assert Reg(mem, StatusReg) == 0x81;
    var data := Peek(mem, PointReg, 8);
    assert data == [0, 10, 0, 20, 0, 0, 0, 0];
    assert DecodePoint(data, 0) == TouchPoint(10, 20, 0, 0);
    assert DecodePoints(data, 1) == [TouchPoint(10, 20, 0, 0)];
  }

  /** The driver object, `GT1151`. */
  class GT1151 {
    const bus: SMBus
    const address: int
    const resetPin: int
    const intPin: int
    const pollMs: int
    var gpioReady: bool
    /** The pin pairs handed to `GPIO.cleanup`, in order. */
    var gpioCleanups: seq<(int, int)>

    /** Opening the driver sets up the GPIO pins. */
    constructor (bus: SMBus, address: int, resetPin: int, intPin: int, pollMs: int)
      ensures this.bus == bus && this.address == address
      ensures this.resetPin == resetPin && this.intPin == intPin && this.pollMs == pollMs
      ensures gpioReady && gpioCleanups == []
    {
      this.bus := bus;
      this.address := address;
      this.resetPin := resetPin;
      this.intPin := intPin;
      this.pollMs := pollMs;
      gpioReady := true;
      gpioCleanups := [];
    }

    /** `close`: close the bus; release the GPIO pins only if they are still
        set up, so a second close releases nothing. */
    method Close()
      modifies this, bus
      ensures bus.closed && !gpioReady
      ensures gpioCleanups == old(gpioCleanups) + (if old(gpioReady) then [(resetPin, intPin)] else [])
      ensures bus.mem == old(bus.mem) && bus.log == old(bus.log)
    {
      bus.Close();
      if gpioReady {
        gpioCleanups := gpioCleanups + [(resetPin, intPin)];
        gpioReady := false;
      }
    }

    /** `_write_reg`. */
    method WriteReg(reg: int, payload: seq<byte>)
      modifies bus
      ensures bus.log == old(bus.log) + [BlockWrite(address, RegHigh(reg), [RegLow(reg)] + payload)]
      ensures bus.mem == Store(old(bus.mem), Selected(RegHigh(reg), RegLow(reg)), payload)
      ensures bus.closed == old(bus.closed)
    {
      var data := [RegLow(reg)] + payload;
      bus.WriteI2cBlockData(address, RegHigh(reg), data);
      assert data[1..] == payload;
    }

    /** `_read_reg`: select the register, then read `length` bytes. */
    method ReadReg(reg: int, length: nat) returns (data: seq<byte>)
      modifies bus
      ensures data == Peek(old(bus.mem), Selected(RegHigh(reg), RegLow(reg)), length)
      ensures bus.log == old(bus.log) + ReadRegTransfers(address, reg, length)
      ensures bus.mem == old(bus.mem) && bus.closed == old(bus.closed)
    {
      bus.WriteI2cBlockData(address, RegHigh(reg), [RegLow(reg)]);
      assert Store(bus.mem, Selected(RegHigh(reg), RegLow(reg)), []) == bus.mem;
      ghost var start := bus.pointer;
      ghost var log0 := bus.log;
      data := [];
      for i := 0 to length
        invariant bus.pointer == start + i
        invariant bus.mem == old(bus.mem) && bus.closed == old(bus.closed)
        invariant data == Peek(old(bus.mem), start, i)
        invariant bus.log == log0 + Reads(address, i)
      {
        var b := bus.ReadByte(address);
        data := data + [b];
      }
    }

    /** `read_version`: the four version bytes (their ASCII decoding is not
        modelled). */
    method ReadVersion() returns (data: seq<byte>)
      modifies bus
      ensures data == Peek(old(bus.mem), VersionReg, 4)
      ensures bus.log == old(bus.log) + ReadRegTransfers(address, VersionReg, 4)
      ensures bus.mem == old(bus.mem)
    {
      data := ReadReg(VersionReg, 4);
    }

    /** `read_points`. */
    method ReadPoints() returns (points: Option<seq<TouchPoint>>)
      modifies bus
      ensures points == PointsFrom(old(bus.mem))
      ensures bus.log == old(bus.log) + ReadPointsTransfers(address, old(bus.mem))
      ensures bus.mem == Store(old(bus.mem), StatusReg, [0])
      ensures bus.closed == old(bus.closed)
    {
      ghost var mem0, log0 := bus.mem, bus.log;
      RegSplitRoundTrip(StatusReg);
      RegSplitRoundTrip(PointReg);
      assert [RegLow(StatusReg)] + [0x00] == [RegLow(StatusReg), 0];
      var statusBytes := ReadReg(StatusReg, 1);
      var status := statusBytes[0];
      assert status == Reg(mem0, StatusReg);
      ghost var head := bus.log;
      if status < 0x80 {
        WriteReg(StatusReg, [0x00]);
        assert bus.log == head + [ClearLatch(address)];
        return None;
      }
      var count := status as int % 16;
      if count < 1 || count > MaxPoints {
        WriteReg(StatusReg, [0x00]);
        assert bus.log == head + [ClearLatch(address)];
        return None;
      }
      var data := ReadReg(PointReg, count * PointStride);
      ghost var middle := bus.log;
      WriteReg(StatusReg, [0x00]);
      assert bus.log == middle + [ClearLatch(address)];
      var decoded := DecodeRecords(data, count);
      return Some(decoded);
    }
  }

  /** The record-decoding loop of `read_points`: one point per 8-byte slot. */
  method DecodeRecords(data: seq<byte>, count: nat) returns (points: seq<TouchPoint>)
    requires PointStride * count <= |data|
    ensures points == DecodePoints(data, count)
  {
    points := [];
    for i := 0 to count
      invariant points == DecodePoints(data, i)
    {
      var base := i * PointStride;
      var trackId := data[base] as int;
      var x := data[base + 2] as int * 256 + data[base + 1] as int;
      var y := data[base + 4] as int * 256 + data[base + 3] as int;
      var size := data[base + 6] as int * 256 + data[base + 5] as int;
      points := points + [TouchPoint(x := x, y := y, size := size, trackId := trackId)];
    }
  }
}

// The virtual frequency converter: a Modbus slave over a list of registers, and a motor whose
// frequency follows its setpoint.

module InnovertModel {
  import opened Lists
  import opened Bytes
  import opened Crc16

  const REG_SIZE := 820
  const MAX_READ := 125
  const FREQ_SET := 100
  const FREQ_MAX := 105
  const ACCEL_TIME := 107
  const DECEL_TIME := 108
  const RUN_COMMAND := 102
  const RUN_STATE := 28
  const ADDRESS_REG := 702

  const ILLEGAL_FUNCTION: byte := 1
  const ILLEGAL_ADDRESS: byte := 2
  const ILLEGAL_VALUE: byte := 3

  /** The registers that each measurement overwrites. */
  const Owned: set<nat> := {1, 2, 3, 4, 5, 7, 8, 9, 22, 23, 27, 28}

  datatype Device = Device(address: nat, regs: seq<int>, state: nat, freq: real, hours: real)

  /** What handling a frame comes to; `Raised` is an exception that leaves the handler. */
  datatype Outcome = Silent | Response(frame: seq<byte>) | Raised

  predicate Fits(v: int) { 0 <= v < 0x1_0000 }

  predicate AllFit(words: seq<int>) { forall i :: 0 <= i < |words| ==> Fits(words[i]) }

  /** The registers are all there, and those that no measurement overwrites hold 16-bit values. */
  ghost predicate Sound(d: Device) {
    && |d.regs| == REG_SIZE && d.state <= 2 && d.freq >= 0.0
    && forall r: nat :: r < REG_SIZE && r !in Owned ==> Fits(d.regs[r])
  }

  function WordAt(raw: seq<byte>, i: nat): nat
    requires i + 1 < |raw|
  {
    256 * (raw[i] as int) + raw[i + 1] as int
  }

  function BytesOf(words: seq<int>): (r: seq<byte>)
    requires AllFit(words)
    ensures |r| == 2 * |words|
  {
    if words == [] then [] else [words[0] / 256, words[0] % 256] + BytesOf(words[1..])
  }

  /** `count` words from offset `from` on. */
  function WordsFrom(raw: seq<byte>, from: nat, count: nat): (r: seq<int>)
    requires from + 2 * count <= |raw|
    ensures |r| == count && AllFit(r)
    decreases count
  {
    if count == 0 then [] else [WordAt(raw, from)] + WordsFrom(raw, from + 2, count - 1)
  }

  /** The register list with `words` written over it from `start` on. */
  function Splice(regs: seq<int>, start: nat, words: seq<int>): seq<int>
    requires start + |words| <= |regs|
  {
    regs[..start] + words + regs[start + |words|..]
  }

  // ---- Requests ----

  /** The value a write from `start` on gives to register `r`. */
  function ValueFor(start: nat, words: seq<int>, r: nat): Option<int> {
    if start <= r < start + |words| then Some(words[r - start]) else None
  }

  function Commanded(state: nat, v: Option<int>): nat {
    if v.Some? && 0 <= v.value <= 2 then v.value else state
  }

  /** The motor's state after a write: register 28 has the last word. */
  function StateAfter(state: nat, start: nat, words: seq<int>): nat {
    var s1 := Commanded(state, ValueFor(start, words, RUN_COMMAND));
    Commanded(s1, ValueFor(start, words, RUN_STATE))
  }

  function AddressAfter(address: nat, start: nat, words: seq<int>): (r: nat)
    ensures r == address || 1 <= r <= 247
  {
    match ValueFor(start, words, ADDRESS_REG)
    case Some(v) => if 1 <= v <= 247 then v else address
    case None => address
  }

  function WriteRegs(d: Device, start: nat, words: seq<int>): (Device, Option<byte>)
    requires |d.regs| == REG_SIZE
  {
    if start + |words| > REG_SIZE then (d, Some(ILLEGAL_ADDRESS))
    else
      var t := d.(address := AddressAfter(d.address, start, words), regs := Splice(d.regs, start, words),
                  state := StateAfter(d.state, start, words));
      (t, None)
  }

  function ReadCheck(start: nat, count: nat): Option<byte> {
    if count < 1 || count > MAX_READ then Some(ILLEGAL_VALUE)
    else if start + count > REG_SIZE then Some(ILLEGAL_ADDRESS)
    else None
  }

  /** The function code with its error flag. */
  function Flagged(fc: byte): byte { if fc >= 128 then fc else fc + 128 }

  function Failure(address: byte, fc: byte, code: byte): seq<byte> { Append([address, Flagged(fc), code]) }

  function AnswerWrite(w: (Device, Option<byte>), raw: seq<byte>): (Device, Outcome)
    requires |raw| >= 6 && w.0.address < 256
  {
    match w.1
    case Some(code) => (w.0, Response(Failure(w.0.address, raw[1], code)))
    case None => (w.0, Response(Append([w.0.address, raw[1], raw[2], raw[3], raw[4], raw[5]])))
  }

  function HandleRead(d: Device, raw: seq<byte>): (Device, Outcome)
    requires |raw| >= 8 && |d.regs| == REG_SIZE && d.address < 256
  {
    var start, count := WordAt(raw, 2), WordAt(raw, 4);
    match ReadCheck(start, count)
    case Some(code) => (d, Response(Failure(d.address, raw[1], code)))
    case None =>
      var words := d.regs[start..start + count];
      if AllFit(words) then (d, Response(Append([d.address, raw[1], 2 * count] + BytesOf(words)))) else (d, Raised)
  }

  function HandleWriteMany(d: Device, raw: seq<byte>): (Device, Outcome)
    requires |raw| >= 9 && |d.regs| == REG_SIZE && d.address < 256
  {
    var start, count, bytes := WordAt(raw, 2), WordAt(raw, 4), raw[6];
    if |raw| < 9 + bytes as int then (d, Silent)
    else if |raw| < 7 + 2 * count then (d, Raised)
    else AnswerWrite(WriteRegs(d, start, WordsFrom(raw, 7, count)), raw)
  }

  /** A frame as the serial line delivers it. */
  function Handle(d: Device, raw: seq<byte>): (Device, Outcome)
    requires |d.regs| == REG_SIZE
  {
    if !Check(raw) || raw[0] as int != d.address then (d, Silent)
    else if raw[1] == 3 then (if |raw| < 8 then (d, Silent) else HandleRead(d, raw))
    else if raw[1] == 6 then
      (if |raw| < 8 then (d, Silent) else AnswerWrite(WriteRegs(d, WordAt(raw, 2), [WordAt(raw, 4)]), raw))
    else if raw[1] == 16 then (if |raw| < 9 then (d, Silent) else HandleWriteMany(d, raw))
    else (d, Response(Failure(raw[0], raw[1], ILLEGAL_FUNCTION)))
  }

  // ---- Measurements ----

  function Max(a: real, b: real): real { if a < b then b else a }

  function Min(a: real, b: real): real { if a < b then a else b }

  /** The settings that a measurement reads, in hertz and seconds. */
  function SetFreq(regs: seq<int>): real
    requires |regs| == REG_SIZE
  {
    regs[FREQ_SET] as real / 10.0
  }

  function MaxFreq(regs: seq<int>): real
    requires |regs| == REG_SIZE
  {
    Max(0.1, regs[FREQ_MAX] as real / 10.0)
  }

  function RampTime(regs: seq<int>, r: nat): real
    requires |regs| == REG_SIZE && r < REG_SIZE
  {
    Max(0.1, regs[r] as real / 10.0)
  }

  /** The time since the last measurement, unless it is implausible. */
  function Elapsed(dt: real): (r: real)
    ensures 0.0 < r <= 5.0
  {
    if dt <= 0.0 || dt > 5.0 then 0.1 else dt
  }

  /** A running motor moves towards its setpoint, a stopped one towards zero. */
  function Ramp(running: bool, f: real, target: real, top: real, up: real, down: real): real {
    if running then
      var g := if target > f then Min(target, f + up) else if target < f then Max(target, f - down) else f;
      Max(0.0, Min(g, top))
    else Max(0.0, f - down)
  }

  /** What the registers set: where the motor may go, and its rates in hertz per second. */
  datatype Settings = Settings(target: real, top: real, up: real, down: real)

  function SettingsOf(regs: seq<int>): Settings
    requires |regs| == REG_SIZE
  {
    var top := MaxFreq(regs);
    Settings(SetFreq(regs), top, top / RampTime(regs, ACCEL_TIME), top / RampTime(regs, DECEL_TIME))
  }

  /** The hertz that a rate covers in a time. */
  function Way(rate: real, time: real): real { rate * time }

  function NextFreq(d: Device, dt: real): real
    requires |d.regs| == REG_SIZE
  {
    var s := SettingsOf(d.regs);
    Ramp(d.state != 0, d.freq, s.target, s.top, Way(s.up, Elapsed(dt)), Way(s.down, Elapsed(dt)))
  }

  /** What the registers say about the motor itself. */
  datatype Plate = Plate(volt: real, freq: real, current: real, idle: real, poles: real, rpm: real)

  function PlateOf(regs: seq<int>): (pl: Plate)
    requires |regs| == REG_SIZE
    ensures pl.freq >= 0.1 && pl.poles >= 2.0
  {
    Plate(Max(1.0, regs[209] as real), Max(0.1, regs[215] as real / 10.0), regs[210] as real / 10.0,
          regs[211] as real / 100.0, Max(2.0, regs[213] as real), regs[212] as real)
  }

  /** `int(x)`, which truncates towards zero. */
  function Trunc(x: real): int { if x >= 0.0 then x.Floor else -((-x).Floor) }

  /** The relative errors that one measurement adds. */
  datatype Noise = Noise(voltage: real, current: real, bus: real, input: real)

  function Jitter(base: real, error: real): real { base * (1.0 + error) }

  /** The output voltage follows the frequency up to the rated one. */
  function Drive(pl: Plate, f: real): real
    requires pl.freq > 0.0
  {
    Min(pl.volt, if f > 0.01 then pl.volt * (f / pl.freq) else 0.0)
  }

  function Voltage(pl: Plate, f: real, error: real): real
    requires pl.freq > 0.0
  {
    var v := Drive(pl, f);
    if v > 0.01 then Jitter(v, error) else 0.0
  }

  /** The idle current and a share of the rest that follows the frequency. */
  function Load(pl: Plate, f: real): real
    requires pl.freq > 0.0
  {
    pl.current * (pl.idle + (1.0 - pl.idle) * (f / pl.freq))
  }

  function Current(pl: Plate, f: real, error: real): real
    requires pl.freq > 0.0
  {
    if f > 0.01 then Jitter(Load(pl, f), error) else 0.0
  }

  /** The share of the synchronous speed that is lost, between 0 and a tenth. */
  function Slip(pl: Plate): (r: real)
    requires pl.poles > 0.0
    ensures 0.0 <= r <= 0.1
  {
    var rated := 120.0 * pl.freq / pl.poles;
    Max(0.0, Min(0.1, if rated > 0.0 then (rated - pl.rpm) / rated else 0.03))
  }

  /** Revolutions a minute at the output frequency `f`. */
  function Speed(pl: Plate, f: real): real
    requires pl.poles > 0.0
  {
    if f > 0.01 then 120.0 * f / pl.poles * (1.0 - Slip(pl)) else 0.0
  }

  function Input(s: Settings, running: bool, error: real): real {
    if running && s.top > 0.0 then Jitter(s.target / s.top * 10.0, error) else 0.0
  }

  /** The values one measurement writes, besides the frequencies and the state. */
  datatype Measured = Measured(current: int, rpm: int, bus: int, hours: int, voltage: int, input: int)

  function MeasuredAt(d: Device, f: real, hours: real, noise: Noise): Measured
    requires |d.regs| == REG_SIZE
  {
    var pl := PlateOf(d.regs);
    Measured(Trunc(Current(pl, f, noise.current) * 10.0), Trunc(Speed(pl, f)), Trunc(Jitter(565.0, noise.bus) * 10.0),
             Trunc(hours), Trunc(Voltage(pl, f, noise.voltage)),
               Trunc(Input(SettingsOf(d.regs), d.state != 0, noise.input) * 100.0))
  }

  /** The registers after a measurement of the output frequency `f`. */
  function Stored(d: Device, f: real, hours: real, m: Measured): Device
    requires |d.regs| == REG_SIZE
  {
    var running := d.state != 0;
    d.(freq := f, hours := hours,
       regs := d.regs[1 := if running then d.regs[FREQ_SET] else 0][2 := Trunc(f * 10.0)][3 := m.current][4 := m.rpm]
                     [5 := m.bus][7 := 0][8 := m.hours][9 := m.voltage][22 := if running then 1 else 0][23 := m.input]
                     [27 := 0][28 := d.state])
  }

  /** The hours a running motor has run. */
  function NextHours(d: Device, dt: real): real { if d.state != 0 then d.hours + Elapsed(dt) / 3600.0 else d.hours }

  function Tick(d: Device, dt: real, noise: Noise): Device
    requires |d.regs| == REG_SIZE
  {
    var f, hours := NextFreq(d, dt), NextHours(d, dt);
    Stored(d, f, hours, MeasuredAt(d, f, hours, noise))
  }
}

// What the settings and the plate of the motor mean: how long its ramps take, how its hours count, and
// what is measured at its rated point.

module InnovertPlate {
  import opened InnovertModel
  import opened InnovertMotor

  // ---- Ramp times ----

  /** Measurements made more than zero and at most five seconds apart. */
  predicate Plausible(ms: seq<(real, Noise)>) { forall i :: 0 <= i < |ms| ==> 0.0 < ms[i].0 <= 5.0 }

  function Seconds(ms: seq<(real, Noise)>): real { if ms == [] then 0.0 else ms[0].0 + Seconds(ms[1..]) }

  /** Plausible times count as they are; each other one counts a tenth of a second. */
  lemma {:induction false} TimeCounts(ms: seq<(real, Noise)>)
    ensures Plausible(ms) ==> TotalTime(ms) == Seconds(ms)
    ensures (forall i :: 0 <= i < |ms| ==> ms[i].0 <= 0.0 || ms[i].0 > 5.0) ==> TotalTime(ms) == |ms| as real / 10.0
  {
    if ms != [] { TimeCounts(ms[1..]); }
  }

  lemma Share(top: real, time: real, t: real)
    requires top > 0.0 && time > 0.0 && t >= 0.0
    ensures top / time * t >= top <==> t >= time
    ensures top / time * t * time == top * t
  {
    Quotient(top, time);
    assert top / time * time == top;
    if t >= time { ProductGrows(time, t, top / time); } else { ProductStrict(t, time, top / time); }
  }

  lemma ProductStrict(a: real, b: real, c: real)
    requires a < b && c > 0.0
    ensures c * a < c * b
  {}

  function Rate(top: real, time: real): real
    requires time > 0.0
  {
    top / time
  }

  lemma SettingsRead(d: Device)
    requires Sound(d) && d.regs[105] >= 1
    ensures var s, top := SettingsOf(d.regs), d.regs[105] as real / 10.0;
            && s.target == d.regs[100] as real / 10.0 && s.top == top
            && (d.regs[107] >= 1 ==> s.up == Rate(top, d.regs[107] as real / 10.0))
            && (d.regs[108] >= 1 ==> s.down == Rate(top, d.regs[108] as real / 10.0))
  {}

  /** The frequency grows from zero in proportion to the time, and is at the maximum when `time` has passed. */
  predicate RampsUp(f: real, t: real, top: real, time: real) {
    (f == top <==> t >= time) && (t <= time ==> f * time == top * t)
  }

  /** It falls to zero in proportion to the time, and is there when `time` has passed. */
  predicate RampsDown(f: real, t: real, top: real, time: real) {
    (f == 0.0 <==> t >= time) && (t <= time ==> f * time == top * (time - t))
  }

  /** From standstill, with a setpoint at or above the maximum: the motor runs at its maximum, register 105 in
      tenths of a hertz, exactly when the acceleration time, register 107 in tenths of a second, has passed;
      until then its frequency grows in proportion. */
  lemma FullSpeedTime(d: Device, ms: seq<(real, Noise)>)
    requires Sound(d) && d.state != 0 && d.freq == 0.0 && Plausible(ms)
    requires 1 <= d.regs[105] <= d.regs[100] && d.regs[107] >= 1
    ensures RampsUp(Measurements(d, ms).freq, Seconds(ms), d.regs[105] as real / 10.0, d.regs[107] as real / 10.0)
  {
    assert |d.regs| == REG_SIZE;
    hide SettingsOf, Way, Sound, Rate, RampsUp, Measurements, Seconds, TotalTime;
    var s := SettingsOf(d.regs);
    SettingsRead(d);
    TimeCounts(ms);
    TimeForward(ms);
    MotorConverges(d, ms, s);
    RisesTo(s, d.regs[105] as real / 10.0, d.regs[107] as real / 10.0, d.regs[100] as real / 10.0, Seconds(ms),
      Measurements(d, ms).freq);
  }

  lemma RisesTo(s: Settings, top: real, time: real, target: real, t: real, f: real)
    requires 0.0 < top <= target && time > 0.0 && t >= 0.0
    requires s.top == top && s.target == target && s.up == Rate(top, time)
    requires f == Min(Goal(true, s.target, s.top), 0.0 + Way(s.up, t))
    ensures RampsUp(f, t, top, time)
  {
    Share(top, time, t);
  }

  /** A motor that is stopped at its maximum stands exactly when the deceleration time, register 108 in
      tenths of a second, has passed; until then its frequency falls in proportion. */
  lemma StandstillTime(d: Device, ms: seq<(real, Noise)>)
    requires Sound(d) && d.state == 0 && Plausible(ms) && d.regs[105] >= 1 && d.regs[108] >= 1
    requires d.freq == d.regs[105] as real / 10.0
    ensures RampsDown(Measurements(d, ms).freq, Seconds(ms), d.regs[105] as real / 10.0, d.regs[108] as real / 10.0)
  {
    assert |d.regs| == REG_SIZE;
    hide SettingsOf, Way, Sound, Rate, RampsDown, Measurements, Seconds, TotalTime;
    var s := SettingsOf(d.regs);
    SettingsRead(d);
    TimeCounts(ms);
    TimeForward(ms);
    MotorConverges(d, ms, s);
    FallsFrom(s, d.regs[105] as real / 10.0, d.regs[108] as real / 10.0, Seconds(ms), Measurements(d, ms).freq);
  }

  lemma FallsFrom(s: Settings, top: real, time: real, t: real, f: real)
    requires top > 0.0 && time > 0.0 && t >= 0.0 && s.top == top && s.down == Rate(top, time)
    requires f == Max(0.0, top - Way(s.down, t))
    ensures RampsDown(f, t, top, time)
  {
    Share(top, time, t);
  }

  // ---- Operating hours ----

  /** The hours of a running motor count the time, those of a stopped one stand still; the register holds
      the whole hours. */
  lemma {:induction false} HoursCount(d: Device, ms: seq<(real, Noise)>)
    requires Sound(d) && d.hours >= 0.0 && Plausible(ms)
    ensures var t := Measurements(d, ms);
            && t.hours * 3600.0 == d.hours * 3600.0 + (if d.state != 0 then Seconds(ms) else 0.0)
            && (ms != [] ==> |t.regs| == REG_SIZE && t.regs[8] == t.hours.Floor)
    decreases |ms|
  {
    if ms != [] {
      hide SettingsOf, NextFreq, MeasuredAt;
      var t := Tick(d, ms[0].0, ms[0].1);
      TickKeepsSettings(d, ms[0].0, ms[0].1);
      HoursOnce(d, ms[0].0, ms[0].1);
      HoursCount(t, ms[1..]);
    }
  }

  lemma HoursOnce(d: Device, dt: real, noise: Noise)
    requires Sound(d) && d.hours >= 0.0 && 0.0 < dt <= 5.0
    ensures var t := Tick(d, dt, noise);
            && t.hours * 3600.0 == d.hours * 3600.0 + (if d.state != 0 then dt else 0.0)
            && t.hours >= 0.0 && t.regs[8] == t.hours.Floor
  {}

  // ---- The rated point ----

  const Exact := Noise(0.0, 0.0, 0.0, 0.0)

  /** At the rated frequency, register 215 in tenths of a hertz, a measurement without noise finds what the plate
      says: the rated current of register 210, the rated voltage of register 209, and the rated speed of
      register 212 if that is at most the synchronous speed, which register 213 gives, and at least nine
      tenths of it. */
  lemma RatedPoint(d: Device, dt: real)
    requires Sound(d) && d.regs[215] >= 1 && d.regs[209] >= 1 && d.regs[213] >= 2
    requires NextFreq(d, dt) == d.regs[215] as real / 10.0
    ensures var t := Tick(d, dt, Exact);
            var synchronous := 12.0 * d.regs[215] as real / d.regs[213] as real;
            && t.regs[3] == d.regs[210] && t.regs[9] == d.regs[209]
            && (0.9 * synchronous <= d.regs[212] as real <= synchronous ==> t.regs[4] == d.regs[212])
  {
    var pl, f := PlateOf(d.regs), d.regs[215] as real / 10.0;
    PlateRead(d);
    TickStores(d, dt, f);
    hide PlateOf, Tick, NextFreq, Current, Voltage, Speed;
    RatedLoad(pl);
    RatedSpeed(pl);
    assert 120.0 * f / pl.poles == 12.0 * d.regs[215] as real / d.regs[213] as real;
    Whole(d.regs[210]);
    Whole(d.regs[209]);
    Whole(d.regs[212]);
  }

  lemma Whole(v: int)
    requires v >= 0
    ensures Trunc(v as real) == v && Trunc(v as real / 10.0 * 10.0) == v
  {}

  lemma RatedLoad(pl: Plate)
    requires pl.freq >= 0.1 && pl.volt >= 1.0
    ensures Current(pl, pl.freq, 0.0) == pl.current && Voltage(pl, pl.freq, 0.0) == pl.volt
  {
    assert pl.freq / pl.freq == 1.0;
    assert pl.idle + (1.0 - pl.idle) * 1.0 == 1.0;
  }

  lemma RatedSpeed(pl: Plate)
    requires pl.freq >= 0.1 && pl.poles >= 2.0
    ensures var synchronous := 120.0 * pl.freq / pl.poles;
            0.9 * synchronous <= pl.rpm <= synchronous ==> Speed(pl, pl.freq) == pl.rpm
  {
    var synchronous := 120.0 * pl.freq / pl.poles;
    Quotient(120.0 * pl.freq, pl.poles);
    if 0.9 * synchronous <= pl.rpm <= synchronous { SlipAt(synchronous, pl.rpm); }
  }

  lemma SlipAt(synchronous: real, rpm: real)
    requires synchronous > 0.0 && 0.9 * synchronous <= rpm <= synchronous
    ensures var slip := (synchronous - rpm) / synchronous;
            0.0 <= slip <= 0.1 && synchronous * (1.0 - slip) == rpm
  {
    var slip := (synchronous - rpm) / synchronous;
    assert slip * synchronous == synchronous - rpm;
    Fraction(synchronous - rpm, synchronous);
    if slip > 0.1 { ProductStrict(0.1, slip, synchronous); }
  }

  /** At half the rated frequency the voltage is half the rated one, and the current lies half way between
      the idle current, register 211 in percent of the rated one, and the rated current. */
  lemma HalfLoad(d: Device, dt: real)
    requires Sound(d) && d.regs[215] >= 1 && d.regs[209] >= 1
    requires NextFreq(d, dt) == d.regs[215] as real / 20.0
    ensures var t := Tick(d, dt, Exact);
            && t.regs[3] == (d.regs[210] * (100 + d.regs[211])) / 200
            && t.regs[9] == d.regs[209] / 2
  {
    var pl, f := PlateOf(d.regs), d.regs[215] as real / 20.0;
    PlateRead(d);
    TickStores(d, dt, f);
    hide PlateOf, Tick, NextFreq, Current, Voltage, MiddleLoad, Trunc;
    HalfShare(d.regs[215] as real);
    HalfOutput(pl, f);
    HalfOf(d.regs[209], 2);
    HalfCurrent(d.regs[210], d.regs[211]);
  }

  lemma PlateRead(d: Device)
    requires Sound(d) && d.regs[215] >= 1 && d.regs[209] >= 1
    ensures var pl := PlateOf(d.regs);
            && pl.volt == d.regs[209] as real && pl.freq == d.regs[215] as real / 10.0
            && pl.current == d.regs[210] as real / 10.0 && pl.idle == d.regs[211] as real / 100.0
            && pl.rpm == d.regs[212] as real && (d.regs[213] >= 2 ==> pl.poles == d.regs[213] as real)
  {}

  lemma TickStores(d: Device, dt: real, f: real)
    requires Sound(d) && NextFreq(d, dt) == f
    ensures var t, pl := Tick(d, dt, Exact), PlateOf(d.regs);
            && t.regs[3] == Trunc(Current(pl, f, 0.0) * 10.0) && t.regs[9] == Trunc(Voltage(pl, f, 0.0))
            && t.regs[4] == Trunc(Speed(pl, f))
  {
    hide PlateOf, Current, Voltage, Speed, NextFreq, SettingsOf, Trunc;
  }

  lemma HalfShare(r: real)
    requires r > 0.0
    ensures (r / 20.0) / (r / 10.0) == 0.5
  {}

  function MiddleLoad(rated: real, idle: real): real { rated * (idle + (1.0 - idle) * 0.5) }

  lemma HalfOutput(pl: Plate, f: real)
    requires pl.freq >= 0.1 && pl.volt >= 1.0 && f > 0.01 && f / pl.freq == 0.5
    ensures Current(pl, f, 0.0) == MiddleLoad(pl.current, pl.idle)
            && Voltage(pl, f, 0.0) == pl.volt / 2.0
  {}

  lemma HalfOf(v: int, n: int)
    requires v >= 0 && n > 0
    ensures Trunc(v as real / n as real) == v / n
  {
    var q := v / n;
    assert v == n * q + v % n;
    WholePart(v as real / n as real, q, v as real, n as real);
  }

  lemma WholePart(x: real, q: int, v: real, n: real)
    requires n > 0.0 && x == v / n && q >= 0 && q as real * n <= v < (q as real + 1.0) * n
    ensures Trunc(x) == q
  {
    assert x * n == v;
    Between(q as real, q as real + 1.0, x, v, n);
  }

  lemma Between(low: real, high: real, x: real, v: real, n: real)
    requires n > 0.0 && x * n == v && low * n <= v < high * n
    ensures low <= x < high
  {
    SameOrder(low, x, n);
    SameOrder(high, x, n);
  }

  lemma SameOrder(a: real, b: real, n: real)
    requires n > 0.0
    ensures a * n <= b * n <==> a <= b
  {
    if b < a { ProductStrict(b, a, n); } else { ProductGrows(a, b, n); }
  }

  lemma HalfCurrent(current: int, idle: int)
    requires current >= 0 && idle >= 0
    ensures Trunc(MiddleLoad(current as real / 10.0, idle as real / 100.0) * 10.0) == (current * (100 + idle)) / 200
  {
    var c, i := current as real / 10.0, idle as real / 100.0;
    assert i + (1.0 - i) * 0.5 == (100 + idle) as real / 200.0;
    assert c * ((100 + idle) as real / 200.0) * 10.0 == (current * (100 + idle)) as real / 200.0;
    HalfOf(current * (100 + idle), 200);
  }
}

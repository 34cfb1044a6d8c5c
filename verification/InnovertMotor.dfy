// The motor: its frequency goes straight to its goal, and its speed fits a register or does not.

module InnovertMotor {
  import opened InnovertModel
  import opened InnovertTheorems

  // ---- The frequency ramp ----

  /** How far a motor can move towards its goal in each of a series of measurements. */
  datatype Stride = Stride(up: real, down: real)

  predicate Forward(ss: seq<Stride>) { forall i :: 0 <= i < |ss| ==> ss[i].up >= 0.0 && ss[i].down >= 0.0 }

  function Frequencies(running: bool, f: real, target: real, top: real, ss: seq<Stride>): real
    decreases |ss|
  {
    if ss == [] then f
    else Frequencies(running, Ramp(running, f, target, top, ss[0].up, ss[0].down), target, top, ss[1..])
  }

  function SumUp(ss: seq<Stride>): real { if ss == [] then 0.0 else ss[0].up + SumUp(ss[1..]) }

  function SumDown(ss: seq<Stride>): real { if ss == [] then 0.0 else ss[0].down + SumDown(ss[1..]) }

  lemma {:induction false} SumsGrow(ss: seq<Stride>)
    requires Forward(ss)
    ensures SumUp(ss) >= 0.0 && SumDown(ss) >= 0.0
  {
    if ss != [] { SumsGrow(ss[1..]); }
  }

  /** Where a motor is heading: a running one to its setpoint, as far as the maximum allows. */
  function Goal(running: bool, target: real, top: real): real { if running then Min(target, top) else 0.0 }

  /** A running motor is cut down to the maximum. */
  function Capped(running: bool, f: real, top: real): real { if running then Min(f, top) else f }

  lemma RampStep(running: bool, f: real, target: real, top: real, up: real, down: real)
    requires 0.0 <= f && 0.0 <= target && 0.0 < top && 0.0 <= up && 0.0 <= down
    ensures var goal := Goal(running, target, top);
            var g := Ramp(running, f, target, top, up, down);
            && 0.0 <= g && (running ==> g <= top)
            && (f <= goal ==> f <= g <= goal && g == Min(goal, f + up))
            && (f >= goal ==> goal <= g <= f && g == Max(goal, Capped(running, f - down, top)))
  {}

  /** How low a series of strides can bring a motor that starts above its goal: the first one also cuts a
      running motor down to its maximum. */
  function Lowered(running: bool, f: real, top: real, ss: seq<Stride>): real {
    if ss == [] then f else Capped(running, f - ss[0].down, top) - SumDown(ss[1..])
  }

  lemma LoweredPlain(running: bool, f: real, top: real, ss: seq<Stride>)
    requires Forward(ss) && (running ==> f <= top)
    ensures Lowered(running, f, top, ss) == f - SumDown(ss)
  {}

  /** The frequency moves straight towards its goal, reaches it as soon as its strides allow, and stays
      there: it never overshoots, however the strides are divided, and wherever it starts. */
  lemma {:induction false} RampConverges(running: bool, f: real, target: real, top: real, ss: seq<Stride>)
    requires 0.0 <= f && 0.0 <= target && 0.0 < top && Forward(ss)
    ensures var goal := Goal(running, target, top);
            var g := Frequencies(running, f, target, top, ss);
            && (f <= goal ==> g == Min(goal, f + SumUp(ss)))
            && (f >= goal ==> g == Max(goal, Lowered(running, f, top, ss)))
    decreases |ss|
  {
    if ss != [] {
      var g := Ramp(running, f, target, top, ss[0].up, ss[0].down);
      RampStep(running, f, target, top, ss[0].up, ss[0].down);
      SumsGrow(ss[1..]);
      LoweredPlain(running, g, top, ss[1..]);
      RampConverges(running, g, target, top, ss[1..]);
    }
  }

  // ---- The ramp in the device ----

  ghost predicate Has(d: Device, s: Settings) { Sound(d) && s == SettingsOf(d.regs) }

  lemma WaysAdd(rate: real, e: real, t: real)
    ensures Way(rate, e + t) == Way(rate, e) + Way(rate, t)
  {}

  lemma WayForward(rate: real, time: real)
    requires rate >= 0.0 && time >= 0.0
    ensures Way(rate, time) >= 0.0 && (rate > 0.0 && time > 0.0 ==> Way(rate, time) > 0.0)
  {}

  function StrideOf(s: Settings, dt: real): Stride { Stride(Way(s.up, Elapsed(dt)), Way(s.down, Elapsed(dt))) }

  ghost predicate SameSettings(d: Device, t: Device) {
    && |d.regs| == REG_SIZE && |t.regs| == REG_SIZE
    && t.regs[FREQ_SET] == d.regs[FREQ_SET] && t.regs[FREQ_MAX] == d.regs[FREQ_MAX]
    && t.regs[ACCEL_TIME] == d.regs[ACCEL_TIME] && t.regs[DECEL_TIME] == d.regs[DECEL_TIME]
  }

  lemma TickKeepsSettings(d: Device, dt: real, noise: Noise)
    requires Sound(d)
    ensures var t := Tick(d, dt, noise);
            Sound(t) && t.state == d.state && SameSettings(d, t) && t.freq == NextFreq(d, dt)
  {
    TickSound(d, dt, noise);
    TickSpares(d, dt, noise, FREQ_SET);
    TickSpares(d, dt, noise, FREQ_MAX);
    TickSpares(d, dt, noise, ACCEL_TIME);
    TickSpares(d, dt, noise, DECEL_TIME);
  }

  lemma StillHas(d: Device, t: Device, s: Settings)
    requires Has(d, s) && Sound(t) && SameSettings(d, t)
    ensures Has(t, s)
  {}

  lemma NextFreqStride(d: Device, dt: real, s: Settings)
    requires Has(d, s)
    ensures NextFreq(d, dt) == Ramp(d.state != 0, d.freq, s.target, s.top, StrideOf(s, dt).up, StrideOf(s, dt).down)
  {
    hide Ramp, SettingsOf, Way;
  }

  lemma TickStride(d: Device, dt: real, noise: Noise, s: Settings)
    requires Has(d, s)
    ensures var t := Tick(d, dt, noise);
            Has(t, s) && t.state == d.state
            && t.freq == Ramp(d.state != 0, d.freq, s.target, s.top, StrideOf(s, dt).up, StrideOf(s, dt).down)
  {
    TickKeepsSettings(d, dt, noise);
    StillHas(d, Tick(d, dt, noise), s);
    NextFreqStride(d, dt, s);
  }

  /** The device after a series of measurements. */
  function Measurements(d: Device, ms: seq<(real, Noise)>): Device
    requires |d.regs| == REG_SIZE
    decreases |ms|
  {
    if ms == [] then d else Measurements(Tick(d, ms[0].0, ms[0].1), ms[1..])
  }

  function Strides(s: Settings, ms: seq<(real, Noise)>): seq<Stride> {
    if ms == [] then [] else [StrideOf(s, ms[0].0)] + Strides(s, ms[1..])
  }

  function TotalTime(ms: seq<(real, Noise)>): real {
    if ms == [] then 0.0 else Elapsed(ms[0].0) + TotalTime(ms[1..])
  }

  lemma {:induction false} MeasurementsRamp(d: Device, ms: seq<(real, Noise)>, s: Settings)
    requires Has(d, s)
    ensures Measurements(d, ms).freq == Frequencies(d.state != 0, d.freq, s.target, s.top, Strides(s, ms))
    decreases |ms|
  {
    if ms != [] {
      TickStride(d, ms[0].0, ms[0].1, s);
      assert Strides(s, ms)[1..] == Strides(s, ms[1..]);
      MeasurementsRamp(Tick(d, ms[0].0, ms[0].1), ms[1..], s);
    }
  }

  lemma {:induction false} StridesForward(s: Settings, ms: seq<(real, Noise)>)
    requires s.up >= 0.0 && s.down >= 0.0
    ensures Forward(Strides(s, ms))
  {
    if ms != [] {
      hide Way;
      StridesForward(s, ms[1..]);
      WayForward(s.up, Elapsed(ms[0].0));
      WayForward(s.down, Elapsed(ms[0].0));
    }
  }

  lemma {:induction false} UpStridesAdd(s: Settings, ms: seq<(real, Noise)>)
    ensures SumUp(Strides(s, ms)) == Way(s.up, TotalTime(ms))
  {
    if ms != [] {
      hide Way;
      UpStridesAdd(s, ms[1..]);
      WaysAdd(s.up, Elapsed(ms[0].0), TotalTime(ms[1..]));
      assert Strides(s, ms)[1..] == Strides(s, ms[1..]);
    }
  }

  lemma {:induction false} DownStridesAdd(s: Settings, ms: seq<(real, Noise)>)
    ensures SumDown(Strides(s, ms)) == Way(s.down, TotalTime(ms))
  {
    if ms != [] {
      hide Way;
      DownStridesAdd(s, ms[1..]);
      WaysAdd(s.down, Elapsed(ms[0].0), TotalTime(ms[1..]));
      assert Strides(s, ms)[1..] == Strides(s, ms[1..]);
    }
  }

  /** How low measurements can bring a motor that starts above its goal. */
  function LoweredBy(running: bool, f: real, s: Settings, ms: seq<(real, Noise)>): real {
    if ms == [] then f
    else Capped(running, f - Way(s.down, Elapsed(ms[0].0)), s.top) - Way(s.down, TotalTime(ms[1..]))
  }

  /** From `f` to `g`: straight towards the goal, as far as the measurements give it time, and no further. */
  predicate OnItsWay(running: bool, f: real, g: real, s: Settings, ms: seq<(real, Noise)>) {
    var goal := Goal(running, s.target, s.top);
    && (f <= goal ==> g == Min(goal, f + Way(s.up, TotalTime(ms))))
    && (f >= goal ==> g == Max(goal, LoweredBy(running, f, s, ms)))
  }

  /** Within the maximum, or stopped, the way down is the rate times the time. */
  lemma LoweredByTime(running: bool, f: real, s: Settings, ms: seq<(real, Noise)>)
    requires s.down >= 0.0 && (running ==> f <= s.top)
    ensures LoweredBy(running, f, s, ms) == f - Way(s.down, TotalTime(ms))
  {
    if ms != [] {
      hide Way;
      WaysAdd(s.down, Elapsed(ms[0].0), TotalTime(ms[1..]));
      WayForward(s.down, Elapsed(ms[0].0));
    }
  }

  lemma LoweredStrides(running: bool, f: real, s: Settings, ms: seq<(real, Noise)>)
    ensures Lowered(running, f, s.top, Strides(s, ms)) == LoweredBy(running, f, s, ms)
  {
    if ms != [] {
      hide Way;
      DownStridesAdd(s, ms[1..]);
      assert Strides(s, ms)[1..] == Strides(s, ms[1..]);
    }
  }

  lemma StridesConverge(running: bool, f: real, s: Settings, ms: seq<(real, Noise)>)
    requires s.target >= 0.0 && s.top > 0.0 && s.up > 0.0 && s.down > 0.0 && 0.0 <= f
    ensures OnItsWay(running, f, Frequencies(running, f, s.target, s.top, Strides(s, ms)), s, ms)
  {
    hide Way;
    StridesForward(s, ms);
    UpStridesAdd(s, ms);
    LoweredStrides(running, f, s, ms);
    RampConverges(running, f, s.target, s.top, Strides(s, ms));
  }

  lemma Quotient(a: real, b: real)
    requires a > 0.0 && b > 0.0
    ensures a / b > 0.0
  {}

  lemma SettingsSensible(d: Device, s: Settings)
    requires Has(d, s)
    ensures s.target >= 0.0 && s.top > 0.0 && s.up > 0.0 && s.down > 0.0
  {
    assert Fits(d.regs[FREQ_SET]);
    Quotient(MaxFreq(d.regs), RampTime(d.regs, ACCEL_TIME));
    Quotient(MaxFreq(d.regs), RampTime(d.regs, DECEL_TIME));
  }

  /** Left alone, the motor's frequency goes straight to the setpoint (or the maximum, if that is lower), or
      to zero when stopped, at the rates that the registers set, and stays there. */
  lemma MotorConverges(d: Device, ms: seq<(real, Noise)>, s: Settings)
    requires Has(d, s)
    ensures OnItsWay(d.state != 0, d.freq, Measurements(d, ms).freq, s, ms)
    ensures (d.state != 0 ==> d.freq <= s.top) ==>
              LoweredBy(d.state != 0, d.freq, s, ms) == d.freq - Way(s.down, TotalTime(ms))
  {
    hide Way, SettingsOf;
    SettingsSensible(d, s);
    MeasurementsRamp(d, ms, s);
    StridesConverge(d.state != 0, d.freq, s, ms);
    if d.state != 0 ==> d.freq <= s.top { LoweredByTime(d.state != 0, d.freq, s, ms); }
  }

  // ---- The speed register ----

  const SPEED_REG := 4

  lemma SpeedSign(pl: Plate, f: real)
    requires pl.poles >= 2.0 && f >= 0.0
    ensures Speed(pl, f) >= 0.0
  {
    Fraction(120.0 * f, pl.poles);
    Product(120.0 * f / pl.poles, 1.0 - Slip(pl));
  }

  lemma Fraction(a: real, b: real)
    requires a >= 0.0 && b > 0.0
    ensures a / b >= 0.0
  {}

  lemma Product(a: real, b: real)
    requires a >= 0.0 && b >= 0.0
    ensures a * b >= 0.0
  {}

  lemma FractionGrows(a: real, b: real, c: real)
    requires a <= b && c > 0.0
    ensures a / c <= b / c
  {}

  lemma ProductGrows(a: real, b: real, c: real)
    requires a <= b && c >= 0.0
    ensures a * c <= b * c
  {}

  /** A faster output frequency is never a slower motor. */
  lemma SpeedGrows(pl: Plate, f: real, g: real)
    requires pl.poles >= 2.0 && 0.0 <= f <= g
    ensures Speed(pl, f) <= Speed(pl, g)
  {
    FractionGrows(120.0 * f, 120.0 * g, pl.poles);
    ProductGrows(120.0 * f / pl.poles, 120.0 * g / pl.poles, 1.0 - Slip(pl));
    SpeedSign(pl, g);
  }

  lemma TruncFits(x: real)
    requires x >= 0.0
    ensures Fits(Trunc(x)) <==> x < 65536.0
  {}

  ghost predicate HasPlate(d: Device, pl: Plate) { Sound(d) && pl == PlateOf(d.regs) && pl.poles >= 2.0 }

  lemma TickKeepsPlate(d: Device, dt: real, noise: Noise, pl: Plate)
    requires HasPlate(d, pl)
    ensures HasPlate(Tick(d, dt, noise), pl) && Tick(d, dt, noise).regs[SPEED_REG] == Trunc(Speed(pl, NextFreq(d, dt)))
  {
    TickKeepsSettings(d, dt, noise);
    TickSpares(d, dt, noise, 209);
    TickSpares(d, dt, noise, 210);
    TickSpares(d, dt, noise, 211);
    TickSpares(d, dt, noise, 212);
    TickSpares(d, dt, noise, 213);
    TickSpares(d, dt, noise, 215);
  }

  /** After a series of measurements the speed register has the speed at the last frequency. */
  lemma {:induction false} SpeedMeasured(d: Device, ms: seq<(real, Noise)>, pl: Plate)
    requires HasPlate(d, pl) && ms != []
    ensures Sound(Measurements(d, ms)) && Measurements(d, ms).address == d.address
    ensures Measurements(d, ms).regs[SPEED_REG] == Trunc(Speed(pl, Measurements(d, ms).freq))
    decreases |ms|
  {
    var t := Tick(d, ms[0].0, ms[0].1);
    TickKeepsPlate(d, ms[0].0, ms[0].1, pl);
    TickKeepsSettings(d, ms[0].0, ms[0].1);
    if |ms| > 1 { SpeedMeasured(t, ms[1..], pl); } else { assert Measurements(d, ms) == t; }
  }

  /** Whether a master's read of register `r` raises instead of being answered. */
  predicate ReadRaises(d: Device, r: nat)
    requires |d.regs| == REG_SIZE && d.address < 256 && r < REG_SIZE
  {
    Handle(d, Encode(d.address, Read(r, 1))).1.Raised?
  }

  lemma ReadRaisesWhen(d: Device, r: nat)
    requires Sound(d) && d.address < 256 && r in Owned
    ensures ReadRaises(d, r) <==> !Fits(d.regs[r])
  {
    ReadRaisesOnlyForMeasured(d, r, 1);
  }

  predicate SpeedReadRaises(d: Device)
    requires |d.regs| == REG_SIZE && d.address < 256
  {
    ReadRaises(d, SPEED_REG)
  }

  /** After a series of measurements a read of the speed register raises exactly when the speed at the last
      frequency is 65536 or more. */
  lemma RaisesAfter(d: Device, ms: seq<(real, Noise)>, pl: Plate)
    requires HasPlate(d, pl) && ms != [] && d.address < 256
    ensures Sound(Measurements(d, ms)) && Measurements(d, ms).address < 256
    ensures SpeedReadRaises(Measurements(d, ms)) <==> Speed(pl, Measurements(d, ms).freq) >= 65536.0
  {
    var t := Measurements(d, ms);
    SpeedMeasured(d, ms, pl);
    ReadRaisesWhen(t, SPEED_REG);
    SpeedSign(pl, t.freq);
    TruncFits(Speed(pl, t.freq));
  }

  /** `n` measurements, five seconds apart. */
  function Series(n: nat): seq<(real, Noise)> {
    if n == 0 then [] else [(5.0, Noise(0.0, 0.0, 0.0, 0.0))] + Series(n - 1)
  }

  lemma {:induction false} SeriesTime(n: nat)
    ensures TotalTime(Series(n)) == 5.0 * n as real && |Series(n)| == n
  {
    if n > 0 { SeriesTime(n - 1); }
  }

  /** Some series of measurements is long enough for any distance. */
  lemma LongEnough(distance: real, rate: real) returns (n: nat)
    requires rate > 0.0
    ensures n > 0 && Way(rate, 5.0 * n as real) >= distance
  {
    var need := distance / (rate * 5.0);
    n := if need < 0.0 then 1 else need.Floor + 1;
    assert n as real >= need;
    ProductGrows(need, n as real, rate * 5.0);
    assert need * (rate * 5.0) == distance;
    assert (n as real) * (rate * 5.0) == rate * (5.0 * n as real);
  }

  lemma SeriesLongEnough(from: real, goal: real, rate: real) returns (ms: seq<(real, Noise)>)
    requires rate > 0.0
    ensures ms != [] && goal <= from + Way(rate, TotalTime(ms))
  {
    var n := LongEnough(goal - from, rate);
    ms := Series(n);
    SeriesTime(n);
  }

  /** A motor on its way up to its goal reaches it. */
  lemma ReachesGoal(d: Device, s: Settings) returns (ms: seq<(real, Noise)>)
    requires Has(d, s) && d.freq <= Goal(d.state != 0, s.target, s.top)
    ensures ms != [] && Measurements(d, ms).freq == Goal(d.state != 0, s.target, s.top)
  {
    hide Way, SettingsOf;
    SettingsSensible(d, s);
    ms := SeriesLongEnough(d.freq, Goal(d.state != 0, s.target, s.top), s.up);
    MotorConverges(d, ms, s);
  }

  /** A stride that is not longer than the given distance. */
  lemma ShortStride(distance: real, rate: real) returns (dt: real)
    requires distance > 0.0 && rate > 0.0
    ensures 0.0 < dt <= 5.0 && Way(rate, dt) <= distance
  {
    Quotient(distance, rate);
    dt := Min(5.0, distance / rate);
    assert rate * (distance / rate) == distance;
    ProductGrows(dt, distance / rate, rate);
  }

  /** A motor above its goal can be found as little below its frequency (or its maximum) as one likes. */
  lemma StaysAbove(d: Device, s: Settings, g: real) returns (ms: seq<(real, Noise)>)
    requires Has(d, s) && d.freq > Goal(d.state != 0, s.target, s.top) && g < d.freq
    ensures ms != [] && Measurements(d, ms).freq >= Capped(d.state != 0, g, s.top)
  {
    hide Way, SettingsOf;
    SettingsSensible(d, s);
    var dt := ShortStride(d.freq - g, s.down);
    ms := [(dt, Noise(0.0, 0.0, 0.0, 0.0))];
    MotorConverges(d, ms, s);
    assert ms[1..] == [];
    NoWay(s.down);
  }

  lemma NoWay(rate: real)
    ensures Way(rate, 0.0) == 0.0
  {}

  ghost predicate SomeReadRaises(d: Device)
    requires Sound(d) && d.address < 256
  {
    exists ms: seq<(real, Noise)> :: ms != [] && ReadRaisesAfter(d, ms)
  }

  ghost predicate ReadRaisesAfter(d: Device, ms: seq<(real, Noise)>)
    requires |d.regs| == REG_SIZE
  {
    var t := Measurements(d, ms);
    |t.regs| == REG_SIZE && t.address < 256 && SpeedReadRaises(t)
  }

  /** The settings, the plate and the frequency that let the speed grow too large for its register.  A
      motor above its goal only slows down, from its maximum if it runs above that, and has slowed down a
      little by the next measurement. */
  predicate TooFast(d: Device, s: Settings, pl: Plate)
    requires pl.poles > 0.0
  {
    var goal := Goal(d.state != 0, s.target, s.top);
    if d.freq <= goal then Speed(pl, goal) >= 65536.0
    else if d.state != 0 && d.freq > s.top then Speed(pl, s.top) >= 65536.0
    else Speed(pl, d.freq) > 65536.0
  }

  /** Some series of measurements makes a read of the speed register raise exactly if the settings, the
      plate and the present frequency are too fast. */
  lemma SpeedReadable(d: Device, s: Settings, pl: Plate)
    requires Has(d, s) && HasPlate(d, pl) && d.address < 256
    ensures SomeReadRaises(d) <==> TooFast(d, s, pl)
  {
    if TooFast(d, s, pl) {
      var ms := FastMeasurements(d, s, pl);
      RaisesAfter(d, ms, pl);
      assert ReadRaisesAfter(d, ms);
    } else {
      forall ms: seq<(real, Noise)> | ms != [] ensures !ReadRaisesAfter(d, ms) { ReadableAfter(d, s, pl, ms); }
    }
  }

  /** A frequency a little lower at which the speed is still too large. */
  lemma SlightlySlower(pl: Plate, f: real) returns (g: real)
    requires pl.poles >= 2.0 && f >= 0.0 && Speed(pl, f) > 65536.0
    ensures 0.0 <= g < f && Speed(pl, g) >= 65536.0
  {
    var left := 1.0 - Slip(pl);
    SpeedFactor(pl, f);
    g := f * (65536.0 / Speed(pl, f));
    ShareBelow(f, 65536.0, Speed(pl, f));
    SpeedFactor(pl, g);
    var k := 120.0 / pl.poles * left;
    assert k * g == (k * f) * (65536.0 / Speed(pl, f));
    assert k * g == 65536.0;
    FactorBound(pl);
    if g <= 0.01 { ProductGrows(k, 60.0, g); }
  }

  lemma SpeedFactor(pl: Plate, f: real)
    requires pl.poles >= 2.0
    ensures f > 0.01 ==> Speed(pl, f) == 120.0 / pl.poles * (1.0 - Slip(pl)) * f
  {
    assert 120.0 * f / pl.poles == 120.0 / pl.poles * f;
  }

  lemma FactorBound(pl: Plate)
    requires pl.poles >= 2.0
    ensures 0.0 < 120.0 / pl.poles * (1.0 - Slip(pl)) <= 60.0
  {
    Quotient(120.0, pl.poles);
    assert 120.0 / pl.poles <= 60.0;
    ProductGrows(120.0 / pl.poles, 60.0, 1.0 - Slip(pl));
    ProductGrows(0.9, 1.0 - Slip(pl), 120.0 / pl.poles);
  }

  lemma ShareBelow(f: real, a: real, b: real)
    requires f > 0.0 && 0.0 < a < b
    ensures 0.0 <= f * (a / b) < f
  {
    var q := a / b;
    Quotient(a, b);
    assert q * b == a;
    if q >= 1.0 { ProductGrows(1.0, q, b); }
    Product(f, q);
    Product(f, 1.0 - q);
    assert f * q + f * (1.0 - q) == f;
  }

  /** Above a speed of zero a slower frequency is a slower motor. */
  lemma SlowerStrictly(pl: Plate, g: real, f: real)
    requires pl.poles >= 2.0 && 0.0 <= g < f && Speed(pl, f) > 0.0
    ensures Speed(pl, g) < Speed(pl, f)
  {
    var k := 120.0 / pl.poles * (1.0 - Slip(pl));
    SpeedFactor(pl, f);
    SpeedFactor(pl, g);
    FactorBound(pl);
    assert k * f - k * g == k * (f - g);
  }

  lemma FastMeasurements(d: Device, s: Settings, pl: Plate) returns (ms: seq<(real, Noise)>)
    requires Has(d, s) && HasPlate(d, pl) && TooFast(d, s, pl)
    ensures ms != [] && Measurements(d, ms).freq >= 0.0 && Speed(pl, Measurements(d, ms).freq) >= 65536.0
  {
    SettingsSensible(d, s);
    if d.freq <= Goal(d.state != 0, s.target, s.top) {
      ms := ReachesGoal(d, s);
    } else if d.state != 0 && d.freq > s.top {
      ms := StaysAbove(d, s, s.top);
      SpeedGrows(pl, s.top, Measurements(d, ms).freq);
    } else {
      var g := SlightlySlower(pl, d.freq);
      ms := StaysAbove(d, s, g);
      SpeedGrows(pl, g, Measurements(d, ms).freq);
    }
  }

  /** Measurements find a motor that is above its goal slowed down, and no faster than its maximum if it runs. */
  lemma SlowsDown(d: Device, s: Settings, ms: seq<(real, Noise)>)
    requires Has(d, s) && d.freq > Goal(d.state != 0, s.target, s.top) && ms != []
    ensures var g := Measurements(d, ms).freq; 0.0 <= g < d.freq && (d.state != 0 ==> g <= s.top)
  {
    hide Way, SettingsOf;
    SettingsSensible(d, s);
    MotorConverges(d, ms, s);
    WayForward(s.down, Elapsed(ms[0].0));
    TimeForward(ms[1..]);
    WayForward(s.down, TotalTime(ms[1..]));
  }

  lemma {:induction false} TimeForward(ms: seq<(real, Noise)>)
    ensures TotalTime(ms) >= 0.0
  {
    if ms != [] { TimeForward(ms[1..]); }
  }

  lemma ReadableAfter(d: Device, s: Settings, pl: Plate, ms: seq<(real, Noise)>)
    requires Has(d, s) && HasPlate(d, pl) && d.address < 256 && ms != [] && !TooFast(d, s, pl)
    ensures !ReadRaisesAfter(d, ms)
  {
    var f, g, goal := d.freq, Measurements(d, ms).freq, Goal(d.state != 0, s.target, s.top);
    SettingsSensible(d, s);
    MotorConverges(d, ms, s);
    RaisesAfter(d, ms, pl);
    if f <= goal {
      TimeForward(ms);
      WayForward(s.up, TotalTime(ms));
      SpeedGrows(pl, g, goal);
    } else {
      SlowsDown(d, s, ms);
      if d.state != 0 && f > s.top {
        SpeedGrows(pl, g, s.top);
      } else if Speed(pl, f) > 0.0 {
        SlowerStrictly(pl, g, f);
      } else {
        SpeedGrows(pl, g, f);
      }
    }
  }

  // ---- Orders that make the speed unreadable ----

  /** Setpoint and maximum 6553.5 Hz, no acceleration time, two poles, run. */
  const Overspeed: seq<Event> := [
    Ask(WriteOne(FREQ_SET, 65535)), Ask(WriteOne(FREQ_MAX, 65535)), Ask(WriteOne(ACCEL_TIME, 0)),
    Ask(WriteOne(213, 2)), Ask(WriteOne(RUN_COMMAND, 1))]

  /** What one granted write of a register other than the state and the address does. */
  lemma WroteOne(d: Device, r: nat, v: int, es: seq<Event>)
    requires Sound(d) && d.address < 256 && r < REG_SIZE && r != ADDRESS_REG && r != RUN_STATE && Fits(v)
    requires AllWellFormed([Ask(WriteOne(r, v))] + es) && AllWellFormed(es)
    ensures var t := Serve(d, WriteOne(r, v));
            && Sound(t) && t.address == d.address && t.freq == d.freq
            && t.state == (if r == RUN_COMMAND && v <= 2 then v else d.state)
            && (forall q: nat :: q < REG_SIZE ==> t.regs[q] == if q == r then v else d.regs[q])
            && Live(d, [Ask(WriteOne(r, v))] + es) == Live(t, es)
  {
    var q := WriteOne(r, v);
    HappenSound(d, Ask(q));
    forall i: nat | i < REG_SIZE ensures Serve(d, q).regs[i] == if i == r then v else d.regs[i] {
      SpliceAt(d.regs, r, [v], i);
    }
    assert ([Ask(q)] + es)[0] == Ask(q) && ([Ask(q)] + es)[1..] == es;
  }

  /** The device after the five orders, and before the rest of the history. */
  lemma Ordered(d: Device, rest: seq<Event>) returns (t: Device)
    requires Sound(d) && d.address < 256 && AllWellFormed(rest)
    ensures AllWellFormed(Overspeed + rest) && Sound(t) && t.address == d.address
            && Live(d, Overspeed + rest) == Live(t, rest)
    ensures t.state == 1 && t.regs[FREQ_SET] == 65535 && t.regs[FREQ_MAX] == 65535 && t.regs[ACCEL_TIME] == 0
            && t.regs[213] == 2
  {
    var e5 := [Ask(WriteOne(RUN_COMMAND, 1))] + rest;
    var e4 := [Ask(WriteOne(213, 2))] + e5;
    var e3 := [Ask(WriteOne(ACCEL_TIME, 0))] + e4;
    var e2 := [Ask(WriteOne(FREQ_MAX, 65535))] + e3;
    var e1 := [Ask(WriteOne(FREQ_SET, 65535))] + e2;
    assert Overspeed + rest == e1;
    WroteOne(d, FREQ_SET, 65535, e2);
    var d1 := Serve(d, WriteOne(FREQ_SET, 65535));
    WroteOne(d1, FREQ_MAX, 65535, e3);
    var d2 := Serve(d1, WriteOne(FREQ_MAX, 65535));
    WroteOne(d2, ACCEL_TIME, 0, e4);
    var d3 := Serve(d2, WriteOne(ACCEL_TIME, 0));
    WroteOne(d3, 213, 2, e5);
    var d4 := Serve(d3, WriteOne(213, 2));
    WroteOne(d4, RUN_COMMAND, 1, rest);
    t := Serve(d4, WriteOne(RUN_COMMAND, 1));
  }

  lemma OverspeedFreq(d: Device, dt: real)
    requires Sound(d) && d.state == 1 && d.regs[FREQ_SET] == 65535 && d.regs[FREQ_MAX] == 65535
             && d.regs[ACCEL_TIME] == 0
    requires Elapsed(dt) >= 0.1
    ensures NextFreq(d, dt) == 6553.5
  {
    var s := SettingsOf(d.regs);
    assert s.target == 6553.5 && s.top == 6553.5 && s.up == 65535.0;
    assert s.up * Elapsed(dt) >= 6553.5;
    SettingsSensible(d, s);
    Product(s.down, Elapsed(dt));
    AtTop(d.freq, s.target, s.up * Elapsed(dt), s.down * Elapsed(dt));
  }

  lemma AtTop(f: real, top: real, up: real, down: real)
    requires f >= 0.0 && top > 0.0 && up >= top && down >= 0.0
    ensures Ramp(true, f, top, top, up, down) == top
  {}

  lemma OverspeedSpeed(pl: Plate)
    requires pl.poles == 2.0
    ensures Speed(pl, 6553.5) >= 350000.0
  {
    var left := 1.0 - Slip(pl);
    assert left >= 0.9;
    assert 120.0 * 6553.5 / pl.poles == 393210.0;
  }

  /** From whatever state, after these five orders and one measurement at least a tenth of a second later, a
      read of the speed register raises. */
  lemma SpeedReadCanRaise(d: Device, dt: real, noise: Noise)
    requires Sound(d) && d.address < 256 && Elapsed(dt) >= 0.1
    ensures AllWellFormed(Overspeed + [Measure(dt, noise)])
    ensures SpeedReadRaises(Live(d, Overspeed + [Measure(dt, noise)]))
  {
    var last := [Measure(dt, noise)];
    var t := Ordered(d, last);
    var u := Tick(t, dt, noise);
    assert last[1..] == [];
    HappenSound(t, last[0]);
    assert Live(t, last) == Live(u, []) == u;
    var pl := PlateOf(t.regs);
    OverspeedFreq(t, dt);
    OverspeedSpeed(pl);
    TickKeepsPlate(t, dt, noise, pl);
    TruncFits(Speed(pl, 6553.5));
    ReadRaisesWhen(u, SPEED_REG);
  }
}

// The measured values that do not fit a register: for each register, when the noise of a measurement can
// make a read of it raise.

module InnovertLimits {
  import opened InnovertModel
  import opened InnovertTheorems
  import opened InnovertMotor

  /** The noise that a measurement draws: up to half a percent on the voltages, two on the current and one on
      the input. */
  predicate Drawn(n: Noise) {
    && -0.005 <= n.voltage <= 0.005 && -0.02 <= n.current <= 0.02
    && -0.005 <= n.bus <= 0.005 && -0.01 <= n.input <= 0.01
  }

  /** The relative error that register `r` can have. */
  function Spread(r: nat): real {
    if r == 3 then 0.02 else if r == 5 || r == 9 then 0.005 else if r == 23 then 0.01 else 0.0
  }

  function ErrorOf(n: Noise, r: nat): real {
    if r == 3 then n.current else if r == 5 then n.bus else if r == 9 then n.voltage
    else if r == 23 then n.input else 0.0
  }

  /** What a measurement without noise would store in register `r`, before it is cut to a whole number. */
  function Quantity(d: Device, dt: real, r: nat): real
    requires |d.regs| == REG_SIZE
  {
    var pl, s, f, running := PlateOf(d.regs), SettingsOf(d.regs), NextFreq(d, dt), d.state != 0;
    if r == 1 then (if running then d.regs[FREQ_SET] as real else 0.0)
    else if r == 2 then f * 10.0
    else if r == 3 then Current(pl, f, 0.0) * 10.0
    else if r == 4 then Speed(pl, f)
    else if r == 5 then 5650.0
    else if r == 8 then NextHours(d, dt)
    else if r == 9 then Voltage(pl, f, 0.0)
    else if r == 22 then (if running then 1.0 else 0.0)
    else if r == 23 then Input(s, running, 0.0) * 100.0
    else if r == 28 then d.state as real
    else 0.0
  }

  predicate OutOfRange(x: real) { x >= 65536.0 || x <= -1.0 }

  lemma TruncInRange(x: real)
    ensures Fits(Trunc(x)) <==> !OutOfRange(x)
  {}

  lemma TruncWhole(v: int)
    ensures Trunc(v as real) == v
  {}

  lemma JitterScaled(base: real, error: real, scale: real)
    ensures Jitter(base, error) * scale == Jitter(Jitter(base, 0.0) * scale, error)
  {}

  lemma NoJitter(x: real)
    ensures Jitter(x, 0.0) == x
  {}

  lemma JitterOfZero(error: real)
    ensures Jitter(0.0, error) == 0.0
  {}

  lemma JitterNegated(x: real, error: real)
    ensures Jitter(-x, error) == -Jitter(x, error)
  {}

  lemma JitterGrows(x: real, e: real, e': real)
    requires x >= 0.0 && -1.0 <= e <= e'
    ensures 0.0 <= Jitter(x, e) <= Jitter(x, e')
  {
    Product(x, 1.0 + e);
    ProductGrows(1.0 + e, 1.0 + e', x);
  }

  /** Among the errors up to `spread` the largest one decides. */
  lemma LargestErrorDecides(q: real, spread: real, e: real)
    requires 0.0 <= spread < 1.0 && -spread <= e <= spread
    ensures OutOfRange(Jitter(q, e)) ==> OutOfRange(Jitter(q, spread))
  {
    hide Jitter;
    if q >= 0.0 {
      JitterGrows(q, e, spread);
    } else {
      JitterGrows(-q, e, spread);
      JitterNegated(q, e);
      JitterNegated(q, spread);
    }
  }

  lemma CurrentStored(pl: Plate, f: real, e: real)
    requires pl.freq > 0.0
    ensures Current(pl, f, e) * 10.0 == Jitter(Current(pl, f, 0.0) * 10.0, e)
  {
    hide Jitter, Load;
    if f > 0.01 {
      JitterScaled(Load(pl, f), e, 10.0);
    } else {
      assert 0.0 * 10.0 == 0.0;
      JitterOfZero(e);
    }
  }

  lemma VoltageStored(pl: Plate, f: real, e: real)
    requires pl.freq > 0.0
    ensures Voltage(pl, f, e) == Jitter(Voltage(pl, f, 0.0), e)
  {
    hide Jitter, Drive;
    NoJitter(Drive(pl, f));
    JitterOfZero(e);
  }

  lemma InputStored(s: Settings, running: bool, e: real)
    ensures Input(s, running, e) * 100.0 == Jitter(Input(s, running, 0.0) * 100.0, e)
  {
    hide Jitter;
    if s.top > 0.0 { JitterScaled(s.target / s.top * 10.0, e, 100.0); }
    JitterOfZero(e);
  }

  lemma BusStored(e: real)
    ensures Jitter(565.0, e) * 10.0 == Jitter(5650.0, e)
  {}

  /** A measurement stores the quantity with its error, cut to a whole number. */
  lemma StoredWithError(d: Device, dt: real, n: Noise, r: nat)
    requires |d.regs| == REG_SIZE && r in Owned
    ensures Tick(d, dt, n).regs[r] == Trunc(Jitter(Quantity(d, dt, r), ErrorOf(n, r)))
  {
    hide Jitter, Trunc, Current, Voltage, Input, Speed, PlateOf, SettingsOf, NextFreq, NextHours;
    CurrentStored(PlateOf(d.regs), NextFreq(d, dt), n.current);
    VoltageStored(PlateOf(d.regs), NextFreq(d, dt), n.voltage);
    InputStored(SettingsOf(d.regs), d.state != 0, n.input);
    BusStored(n.bus);
    NoJitter(Quantity(d, dt, r));
    TruncWhole(d.regs[FREQ_SET]);
    TruncWhole(d.state);
    TruncWhole(0);
    TruncWhole(1);
  }

  ghost predicate SomeNoiseRaises(d: Device, dt: real, r: nat)
    requires Sound(d) && r in Owned
  {
    exists n: Noise :: Drawn(n) && RaisesWith(d, dt, n, r)
  }

  ghost predicate RaisesWith(d: Device, dt: real, n: Noise, r: nat)
    requires Sound(d) && r in Owned
  {
    var t := Tick(d, dt, n);
    |t.regs| == REG_SIZE && t.address < 256 && ReadRaises(t, r)
  }

  /** The noise that gives register `r` its largest error. */
  function Largest(r: nat): (n: Noise)
    ensures Drawn(n) && ErrorOf(n, r) == Spread(r)
  {
    Noise(0.005, 0.02, 0.005, 0.01)
  }

  lemma RaisesWhen(d: Device, dt: real, n: Noise, r: nat)
    requires Sound(d) && d.address < 256 && r in Owned
    ensures RaisesWith(d, dt, n, r) <==> OutOfRange(Jitter(Quantity(d, dt, r), ErrorOf(n, r)))
  {
    hide Jitter, Quantity, Trunc, Tick;
    TickSound(d, dt, n);
    ReadRaisesWhen(Tick(d, dt, n), r);
    StoredWithError(d, dt, n, r);
    TruncInRange(Jitter(Quantity(d, dt, r), ErrorOf(n, r)));
  }

  /** Of each measured register: the noise of a measurement can make a read of it raise exactly if its
      quantity, with the largest error, reaches 65536 or falls to -1. */
  lemma MeasurementReadable(d: Device, dt: real, r: nat)
    requires Sound(d) && d.address < 256 && r in Owned
    ensures SomeNoiseRaises(d, dt, r) <==> OutOfRange(Jitter(Quantity(d, dt, r), Spread(r)))
  {
    hide Jitter, Quantity, RaisesWith;
    if OutOfRange(Jitter(Quantity(d, dt, r), Spread(r))) {
      RaisesWhen(d, dt, Largest(r), r);
      assert RaisesWith(d, dt, Largest(r), r);
    } else {
      forall n: Noise | Drawn(n) ensures !RaisesWith(d, dt, n, r) {
        RaisesWhen(d, dt, n, r);
        LargestErrorDecides(Quantity(d, dt, r), Spread(r), ErrorOf(n, r));
      }
    }
  }

  /** The set frequency, the bus voltage, the constants and the two states always fit. */
  lemma AlwaysReadable(d: Device, dt: real, r: nat)
    requires Sound(d) && d.address < 256 && r in {1, 5, 7, 22, 27, 28}
    ensures !SomeNoiseRaises(d, dt, r)
  {
    hide SomeNoiseRaises;
    MeasurementReadable(d, dt, r);
    if r == 5 {
      BusFits();
    } else {
      hide Jitter, PlateOf, SettingsOf, NextFreq;
      NoJitter(Quantity(d, dt, r));
      assert Fits(d.regs[FREQ_SET]);
    }
  }

  lemma BusFits()
    ensures !OutOfRange(Jitter(5650.0, 0.005))
  {}

  /** The input register can raise exactly if the motor runs and its setpoint is some 65 times its maximum. */
  lemma InputReadable(d: Device, dt: real, s: Settings)
    requires Has(d, s) && d.address < 256
    ensures SomeNoiseRaises(d, dt, 23) <==> d.state != 0 && 1010.0 * s.target >= 65536.0 * s.top
  {
    MeasurementReadable(d, dt, 23);
    SettingsSensible(d, s);
    assert Quantity(d, dt, 23) == Input(s, d.state != 0, 0.0) * 100.0;
    if d.state != 0 { RatioReaches(s.target, s.top); }
  }

  lemma RatioReaches(a: real, b: real)
    requires a >= 0.0 && b > 0.0
    ensures OutOfRange(Jitter(Jitter(a / b * 10.0, 0.0) * 100.0, 0.01)) <==> 1010.0 * a >= 65536.0 * b
  {
    var q := a / b;
    assert q * b == a;
    Fraction(a, b);
    if q * 1010.0 >= 65536.0 {
      ProductGrows(65536.0, q * 1010.0, b);
    } else if 1010.0 * a >= 65536.0 * b {
      FractionGrows(65536.0 * b, 1010.0 * a, b);
    }
  }
}

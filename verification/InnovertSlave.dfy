// The virtual device as an object whose registers, state and address the handlers update.

module InnovertSlave {
  import opened Lists
  import opened Bytes
  import opened Crc16
  import opened InnovertModel
  import opened InnovertTheorems
  import opened InnovertMotor

  class Inovert {
    var address: nat
    var regs: seq<int>
    var state: nat
    var freq: real
    var hours: real

    ghost function Abs(): Device
      reads this
    {
      Device(address, regs, state, freq, hours)
    }

    ghost predicate Valid()
      reads this
    {
      Sound(Abs())
    }

    /** `regs` are the default register values. */
    constructor (address: nat, regs: seq<int>)
      requires Sound(Device(address, regs, 0, 0.0, 0.0))
      ensures Valid() && Abs() == Device(address, regs, 0, 0.0, 0.0)
    {
      this.address, this.regs, state, freq, hours := address, regs, 0, 0.0, 0.0;
    }

    /** Writes words one by one, and then acts on the registers that control the device. */
    method WriteRegs(start: nat, words: seq<int>) returns (err: Option<byte>)
      requires |regs| == REG_SIZE && AllFit(words)
      modifies this
      ensures (Abs(), err) == InnovertModel.WriteRegs(old(Abs()), start, words)
    {
      if start + |words| > REG_SIZE { return Some(ILLEGAL_ADDRESS); }
      ghost var before := regs;
      for i := 0 to |words|
        invariant |regs| == REG_SIZE && regs == Splice(before, start, words[..i])
        invariant address == old(address) && state == old(state) && freq == old(freq) && hours == old(hours)
      {
        assert words[..i + 1] == words[..i] + [words[i]];
        regs := regs[start + i := words[i]];
      }
      assert words[..|words|] == words;
      OnWrite(start, words);
      err := None;
    }

    /** What a write does besides storing: registers 102 and 28 command the motor, register 702 moves the
        device to another address. */
    method OnWrite(start: nat, words: seq<int>)
      requires AllFit(words)
      modifies this`state, this`address
      ensures state == StateAfter(old(state), start, words) && address == AddressAfter(old(address), start, words)
    {
      var command := ValueFor(start, words, RUN_COMMAND);
      if command.Some? && command.value <= 2 { state := command.value; }
      var direct := ValueFor(start, words, RUN_STATE);
      if direct.Some? && direct.value <= 2 { state := direct.value; }
      var moved := ValueFor(start, words, ADDRESS_REG);
      if moved.Some? && 1 <= moved.value <= 247 { address := moved.value; }
    }

    /** The payload of a read, register by register; `None` stands for the exception that a value raises
        when it does not fit. */
    method Pack(words: seq<int>) returns (body: Option<seq<byte>>)
      ensures body == if AllFit(words) then Some(BytesOf(words)) else None
    {
      var bytes: seq<byte> := [];
      var i := 0;
      while i < |words|
        invariant 0 <= i <= |words| && AllFit(words[..i]) && bytes == BytesOf(words[..i])
      {
        if !Fits(words[i]) { return None; }
        assert words[..i + 1] == words[..i] + [words[i]];
        BytesOfLast(words[..i], words[i]);
        bytes := bytes + [words[i] / 256, words[i] % 256];
        i := i + 1;
      }
      assert words[..i] == words;
      body := Some(bytes);
    }

    method HandleRead(raw: seq<byte>) returns (o: Outcome)
      requires |raw| >= 8 && |regs| == REG_SIZE && address < 256
      ensures (Abs(), o) == InnovertModel.HandleRead(Abs(), raw)
    {
      var start, count := WordAt(raw, 2), WordAt(raw, 4);
      var err := ReadCheck(start, count);
      if err.Some? { return Response(Failure(address, raw[1], err.value)); }
      var body := Pack(regs[start..start + count]);
      o := if body.None? then Raised else Response(Append([address, raw[1], 2 * count] + body.value));
    }

    method AnswerWrite(err: Option<byte>, raw: seq<byte>) returns (o: Outcome)
      requires |raw| >= 6 && address < 256
      ensures o == InnovertModel.AnswerWrite((Abs(), err), raw).1
    {
      if err.Some? {
        o := Response(Failure(address, raw[1], err.value));
      } else {
        o := Response(Append([address, raw[1], raw[2], raw[3], raw[4], raw[5]]));
      }
    }

    method HandleWrite(start: nat, words: seq<int>, raw: seq<byte>) returns (o: Outcome)
      requires |raw| >= 6 && |regs| == REG_SIZE && AllFit(words) && address < 256
      modifies this
      ensures (Abs(), o) == InnovertModel.AnswerWrite(InnovertModel.WriteRegs(old(Abs()), start, words), raw)
    {
      var err := WriteRegs(start, words);
      o := AnswerWrite(err, raw);
    }

    method HandleWriteMany(raw: seq<byte>) returns (o: Outcome)
      requires |raw| >= 9 && |regs| == REG_SIZE && address < 256
      modifies this
      ensures (Abs(), o) == InnovertModel.HandleWriteMany(old(Abs()), raw)
    {
      var start, count, bytes := WordAt(raw, 2), WordAt(raw, 4), raw[6];
      if |raw| < 9 + bytes as int { return Silent; }
      if |raw| < 7 + 2 * count { return Raised; }
      o := HandleWrite(start, WordsFrom(raw, 7, count), raw);
    }

    method Handle(raw: seq<byte>) returns (o: Outcome)
      requires Valid()
      modifies this
      ensures Valid() && (Abs(), o) == InnovertModel.Handle(old(Abs()), raw)
      ensures o.Response? ==> GoodResponse(Abs(), o.frame)
    {
      AnyFrame(Abs(), raw);
      if !Check(raw) || raw[0] as int != address { return Silent; }
      if raw[1] == 3 {
        if |raw| < 8 { return Silent; }
        o := HandleRead(raw);
      } else if raw[1] == 6 {
        if |raw| < 8 { return Silent; }
        o := HandleWrite(WordAt(raw, 2), [WordAt(raw, 4)], raw);
      } else if raw[1] == 16 {
        if |raw| < 9 { return Silent; }
        o := HandleWriteMany(raw);
      } else {
        o := Response(Failure(raw[0], raw[1], ILLEGAL_FUNCTION));
      }
    }

    method Move(target: real, top: real, up: real, down: real) returns (f: real)
      ensures f == Ramp(state != 0, freq, target, top, up, down)
    {
      f := freq;
      if state != 0 {
        if target > f { f := Min(target, f + up); } else if target < f { f := Max(target, f - down); }
        f := Max(0.0, Min(f, top));
      } else {
        f := Max(0.0, f - down);
      }
    }

    method NextFrequency(dt: real) returns (f: real)
      requires |regs| == REG_SIZE
      ensures f == NextFreq(Abs(), dt)
    {
      hide SettingsOf, Way;
      var s := SettingsOf(regs);
      f := Move(s.target, s.top, Way(s.up, Elapsed(dt)), Way(s.down, Elapsed(dt)));
    }

    method NextRunHours(dt: real) returns (h: real)
      ensures h == NextHours(Abs(), dt)
    {
      h := if state != 0 then hours + Elapsed(dt) / 3600.0 else hours;
    }

    /** Stores the measured values for the output frequency `f`. */
    method Store(f: real, h: real, m: Measured)
      requires |regs| == REG_SIZE
      modifies this`regs, this`freq, this`hours
      ensures Abs() == Stored(old(Abs()), f, h, m)
    {
      freq, hours := f, h;
      regs := regs[1 := if state != 0 then regs[FREQ_SET] else 0];
      regs := regs[2 := Trunc(f * 10.0)][3 := m.current][4 := m.rpm][5 := m.bus][7 := 0];
      regs := regs[8 := m.hours][9 := m.voltage][22 := if state != 0 then 1 else 0];
      regs := regs[23 := m.input][27 := 0][28 := state];
    }

    method Measure(f: real, h: real, noise: Noise) returns (m: Measured)
      requires |regs| == REG_SIZE
      ensures m == MeasuredAt(Abs(), f, h, noise)
    {
      var pl, s := PlateOf(regs), SettingsOf(regs);
      var current, voltage := Current(pl, f, noise.current), Voltage(pl, f, noise.voltage);
      var input := Input(s, state != 0, noise.input);
      m := Measured(Trunc(current * 10.0), Trunc(Speed(pl, f)), Trunc(Jitter(565.0, noise.bus) * 10.0),
                    Trunc(h), Trunc(voltage), Trunc(input * 100.0));
    }

    method Tick(dt: real, noise: Noise)
      requires Valid()
      modifies this
      ensures Valid() && Abs() == InnovertModel.Tick(old(Abs()), dt, noise)
    {
      TickKeepsSettings(Abs(), dt, noise);
      var f := NextFrequency(dt);
      var h := NextRunHours(dt);
      var m := Measure(f, h, noise);
      Store(f, h, m);
    }
  }
}

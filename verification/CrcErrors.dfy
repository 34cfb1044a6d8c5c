// What the CRC check notices: every burst of up to 16 bits, and every one of 17 but the generator's own
// pattern.

module CrcErrors {
  import opened Bytes
  import opened Crc16

  /** Where two bit sequences differ. */
  function Differences(xs: seq<bool>, ys: seq<bool>): seq<bool>
    requires |xs| == |ys|
  {
    seq(|xs|, i requires 0 <= i < |xs| => xs[i] != ys[i])
  }

  function Zeros(n: nat): seq<bool> { seq(n, _ => false) }

  lemma {:induction false} AddBitsLinear(a: nat, b: nat, xs: seq<bool>, ys: seq<bool>)
    requires |xs| == |ys|
    ensures Xor(AddBits(a, xs), AddBits(b, ys)) == AddBits(Xor(a, b), Differences(xs, ys))
    decreases |xs|
  {
    if xs != [] {
      var x, y := Bit(xs[0]), Bit(ys[0]);
      ShiftLinear(Xor(a, x), Xor(b, y));
      XorSwap(a, x, b, y);
      XorZero(x);
      XorZero(y);
      assert Xor(x, y) == Bit(Differences(xs, ys)[0]);
      assert Differences(xs, ys)[1..] == Differences(xs[1..], ys[1..]);
      AddBitsLinear(Shift(Xor(a, x)), Shift(Xor(b, y)), xs[1..], ys[1..]);
    }
  }

  lemma {:induction false} AddZeros(c: nat, n: nat)
    requires c < FULL
    ensures AddBits(c, Zeros(n)) == 0 <==> c == 0
    decreases n
  {
    if n > 0 {
      XorZero(c);
      ShiftFits(c);
      ShiftInjective(c);
      assert Zeros(n)[1..] == Zeros(n - 1);
      AddZeros(Shift(c), n - 1);
    }
  }

  lemma ZeroWindow(window: seq<bool>)
    requires |window| <= 16
    ensures ValueOf(window) < FULL
    ensures AddBits(0, window) == Shifts(ValueOf(window), |window|) < FULL
    ensures AddBits(0, window) == 0 <==> ValueOf(window) == 0
  {
    ValueBelow(window);
    Pow2Grows(|window|, 16);
    AddBitsAtOnce(0, window);
    XorZero(ValueOf(window));
    ShiftsInjective(ValueOf(window), 0, |window|);
    ShiftsZero(|window|);
  }

  lemma {:induction false} Pow2Grows(m: nat, n: nat)
    requires m <= n
    ensures Pow2(m) <= Pow2(n) && Pow2(16) == FULL
    decreases n - m
  {
    assert Pow2(16) == FULL by { assert Pow2(8) == 256 && Pow2(12) == 4096; }
    if m < n { Pow2Grows(m + 1, n); }
  }

  lemma {:induction false} ValueZero(bits: seq<bool>)
    ensures ValueOf(bits) == 0 <==> bits == Zeros(|bits|)
  {
    if bits != [] {
      ValueZero(bits[1..]);
      assert Zeros(|bits|)[1..] == Zeros(|bits| - 1);
      assert bits == [bits[0]] + bits[1..] && Zeros(|bits|) == [false] + Zeros(|bits| - 1);
    }
  }

  /** `d` is zero outside the `n` bits from `start` on. */
  ghost predicate Burst(d: seq<bool>, start: nat, n: nat) {
    forall i :: 0 <= i < |d| && !(start <= i < start + n) ==> !d[i]
  }

  lemma SplitBurst(d: seq<bool>, start: nat, n: nat) returns (window: seq<bool>, after: nat)
    requires Burst(d, start, n) && start <= |d|
    ensures d == Zeros(start) + window + Zeros(after)
    ensures |window| == (if start + n <= |d| then n else |d| - start) && window == d[start..start + |window|]
  {
    var end := if start + n <= |d| then start + n else |d|;
    window, after := d[start..end], |d| - end;
    assert d[..start] == Zeros(start);
    assert d[end..] == Zeros(after);
    assert d == d[..start] + d[start..end] + d[end..];
  }

  lemma WindowAlone(before: nat, window: seq<bool>, after: nat)
    ensures AddBits(0, window) < FULL ==>
            (AddBits(0, Zeros(before) + window + Zeros(after)) == 0 <==> AddBits(0, window) == 0)
  {
    AddBitsAppend(0, Zeros(before) + window, Zeros(after));
    AddBitsAppend(0, Zeros(before), window);
    AddZeros(0, before);
    if AddBits(0, window) < FULL { AddZeros(AddBits(0, window), after); }
  }

  lemma ZerosJoin(before: nat, window: seq<bool>, after: nat)
    ensures var d := Zeros(before) + window + Zeros(after);
            d == Zeros(|d|) <==> window == Zeros(|window|)
  {
    var d := Zeros(before) + window + Zeros(after);
    if d == Zeros(|d|) {
      forall i | 0 <= i < |window| ensures !window[i] { assert d[before + i] == window[i]; }
    }
  }

  /** A burst of at most 16 bits leaves a register that was zero at something else. */
  lemma ShortBurstLeavesTrace(d: seq<bool>, start: nat)
    requires Burst(d, start, 16)
    ensures AddBits(0, d) == 0 <==> d == Zeros(|d|)
  {
    var from := if start <= |d| then start else |d|;
    var window, after := SplitBurst(d, from, 16);
    WindowAlone(from, window, after);
    ZerosJoin(from, window, after);
    ZeroWindow(window);
    ValueZero(window);
  }

  // ---- The check on a changed frame ----

  lemma {:induction false} BitsInjective(f: seq<byte>, g: seq<byte>)
    requires |f| == |g| && Bits(f) == Bits(g)
    ensures f == g
  {
    if f != [] {
      assert Pow2(8) == 256;
      BitsValue(f[0], 8);
      BitsValue(g[0], 8);
      assert Bits(f)[..8] == BitsOf(f[0], 8) && Bits(g)[..8] == BitsOf(g[0], 8);
      assert Bits(f)[8..] == Bits(f[1..]) && Bits(g)[8..] == Bits(g[1..]);
      BitsInjective(f[1..], g[1..]);
    }
  }

  /** The bits, in the order they are sent, in which two frames of one length differ. */
  function Error(f: seq<byte>, g: seq<byte>): seq<bool>
    requires |f| == |g|
  {
    RegisterIsBits(0, f);
    RegisterIsBits(0, g);
    Differences(Bits(f), Bits(g))
  }

  lemma SameBits(xs: seq<bool>, ys: seq<bool>)
    requires |xs| == |ys| && Differences(xs, ys) == Zeros(|xs|)
    ensures xs == ys
  {
    forall i | 0 <= i < |xs| ensures xs[i] == ys[i] { assert Differences(xs, ys)[i] == Zeros(|xs|)[i]; }
  }

  lemma NoError(f: seq<byte>, g: seq<byte>)
    requires |f| == |g|
    ensures |Error(f, g)| == 8 * |f|
    ensures Error(f, g) == Zeros(8 * |f|) <==> f == g
  {
    RegisterIsBits(0, f);
    RegisterIsBits(0, g);
    if Error(f, g) == Zeros(8 * |f|) {
      SameBits(Bits(f), Bits(g));
      BitsInjective(f, g);
    }
  }

  /** Whether an accepted frame with an error is accepted depends on the error alone. */
  lemma ErrorDecides(f: seq<byte>, g: seq<byte>)
    requires Check(f) && |g| == |f|
    ensures Check(g) <==> AddBits(0, Error(f, g)) == 0
  {
    CheckIsZeroCrc(f);
    CheckIsZeroCrc(g);
    RegisterIsBits(0xFFFF, f);
    RegisterIsBits(0xFFFF, g);
    AddBitsLinear(0xFFFF, 0xFFFF, Bits(f), Bits(g));
    XorZero(0xFFFF);
    XorZero(Crc(g));
  }

  /** An accepted frame of any length, changed in nothing but 16 consecutive bits, is accepted only if it
      has not been changed at all. */
  lemma BurstDetected(f: seq<byte>, g: seq<byte>, start: nat)
    requires Check(f) && |g| == |f| && Burst(Error(f, g), start, 16)
    ensures Check(g) <==> g == f
  {
    ErrorDecides(f, g);
    NoError(f, g);
    ShortBurstLeavesTrace(Error(f, g), start);
  }

  // ---- Sixteen bits is the limit ----

  /** The generator polynomial in transmission order. */
  const GENERATOR: seq<bool> := BitsOf(0x4003, 16) + [true]

  lemma {:induction false} PowerShifts(n: nat)
    ensures Shifts(Pow2(n), n) == 1
  {
    if n > 0 { PowerShifts(n - 1); }
  }

  lemma GeneratorXor()
    ensures Xor(0x2001, 0xA001) == 0x8000
  {
    assert Xor(0x1, 0x5) == 0x4;
    assert Xor(0x2, 0xA) == 0x8;
    assert Xor(0x4, 0x14) == 0x10;
    assert Xor(0x8, 0x28) == 0x20;
    assert Xor(0x10, 0x50) == 0x40;
    assert Xor(0x20, 0xA0) == 0x80;
    assert Xor(0x40, 0x140) == 0x100;
    assert Xor(0x80, 0x280) == 0x200;
    assert Xor(0x100, 0x500) == 0x400;
    assert Xor(0x200, 0xA00) == 0x800;
    assert Xor(0x400, 0x1400) == 0x1000;
    assert Xor(0x800, 0x2800) == 0x2000;
    assert Xor(0x1000, 0x5000) == 0x4000;
  }

  lemma TopPower()
    ensures Pow2(15) == 0x8000
  {
    assert Pow2(8) == 256 && Pow2(12) == 4096;
  }

  lemma ShiftOdd(c: nat, half: nat, r: nat)
    requires c == 2 * half + 1 && Xor(half, POLY) == r
    ensures Shift(c) == r
  {}

  lemma GeneratorVanishes(c: nat, n: nat)
    requires c == 0x4003 && n == 15
    ensures Shifts(c, n + 1) == 1
  {
    GeneratorXor();
    ShiftOdd(c, 0x2001, 0x8000);
    TopPower();
    PowerShifts(n);
    assert Shifts(c, n + 1) == Shifts(Shift(c), n);
  }

  lemma {:induction false} ValueInjective(xs: seq<bool>, ys: seq<bool>)
    requires |xs| == |ys| && ValueOf(xs) == ValueOf(ys)
    ensures xs == ys
  {
    if xs != [] {
      assert Bit(xs[0]) == ValueOf(xs) % 2 && Bit(ys[0]) == ValueOf(ys) % 2;
      ValueInjective(xs[1..], ys[1..]);
      assert xs == [xs[0]] + xs[1..] && ys == [ys[0]] + ys[1..];
    }
  }

  /** Of all patterns of 17 bits only the generator itself, and no error at all, leave the register at zero. */
  lemma LongWindow(window: seq<bool>)
    requires |window| == 17
    ensures AddBits(0, window) < FULL
    ensures AddBits(0, window) == 0 <==> window == Zeros(17) || window == GENERATOR
  {
    var w, b := window[..16], window[16];
    assert window == w + [b];
    AddBitsAppend(0, w, [b]);
    var c := AddBits(0, w);
    assert [b][1..] == [];
    assert AddBits(c, [b]) == Shift(Xor(c, Bit(b)));
    ZeroWindow(w);
    XorFits(c, Bit(b));
    ShiftFits(Xor(c, Bit(b)));
    ShiftInjective(Xor(c, Bit(b)));
    XorSame(c, Bit(b));
    if b {
      LongWindowSet(w);
    } else {
      ValueZero(w);
      assert Zeros(17) == Zeros(16) + [false];
      assert Zeros(17)[16] == false;
    }
  }

  lemma LongWindowSet(w: seq<bool>)
    requires |w| == 16
    ensures AddBits(0, w) == 1 <==> w == BitsOf(0x4003, 16)
  {
    var c, n := 0x4003, |w|;
    ZeroWindow(w);
    GeneratorVanishes(c, n - 1);
    Pow2Grows(n, n);
    BitsValue(c, n);
    ShiftsInjective(ValueOf(w), c, n);
    if ValueOf(w) == c { ValueInjective(w, BitsOf(c, n)); }
  }

  /** A change within 17 consecutive bits goes unnoticed exactly if it is the generator's pattern. */
  lemma LongerBurst(f: seq<byte>, g: seq<byte>, start: nat)
    requires Check(f) && |g| == |f| && Burst(Error(f, g), start, 17) && start + 17 <= 8 * |f|
    ensures |Error(f, g)| == 8 * |f|
    ensures Check(g) <==> g == f || Error(f, g)[start..start + 17] == GENERATOR
  {
    ErrorDecides(f, g);
    NoError(f, g);
    var d := Error(f, g);
    var window, after := SplitBurst(d, start, 17);
    LongWindow(window);
    WindowAlone(start, window, after);
    ZerosJoin(start, window, after);
  }
}

// CRC-16/MODBUS (MODBUS over Serial Line V1.02, section 6.2.2).  The register is a linear and
// injective function of what is shifted into it, which is what makes the check detect bursts.

module Crc16 {
  import opened Bytes

  const POLY: nat := 0xA001
  const FULL: nat := 0x1_0000

  /** Exclusive or of two natural numbers, bit by bit. */
  function Xor(a: nat, b: nat): nat
    decreases a + b
  {
    if a == 0 && b == 0 then 0 else (if a % 2 != b % 2 then 1 else 0) + 2 * Xor(a / 2, b / 2)
  }

  /** One shift of the register. */
  function Shift(c: nat): nat { if c % 2 == 1 then Xor(c / 2, POLY) else c / 2 }

  function Shifts(c: nat, n: nat): nat
    decreases n
  {
    if n == 0 then c else Shifts(Shift(c), n - 1)
  }

  function AddByte(c: nat, b: byte): nat { Shifts(Xor(c, b), 8) }

  /** The register after `data`, from the value `c`. */
  function Register(c: nat, data: seq<byte>): nat
    decreases |data|
  {
    if data == [] then c else Register(AddByte(c, data[0]), data[1..])
  }

  function Crc(data: seq<byte>): nat { Register(0xFFFF, data) }

  predicate Check(frame: seq<byte>) {
    |frame| >= 3 && Crc(frame[..|frame| - 2]) == (frame[|frame| - 2] as int) + 256 * (frame[|frame| - 1] as int)
  }

  /** The loops of the program. */
  method ComputeCrc(data: seq<byte>) returns (crc: nat)
    ensures crc == Crc(data)
  {
    crc := 0xFFFF;
    assert data[0..] == data;
    for i := 0 to |data|
      invariant Register(crc, data[i..]) == Crc(data)
    {
      assert data[i..][1..] == data[i + 1..];
      ghost var next := AddByte(crc, data[i]);
      crc := Xor(crc, data[i]);
      for j := 0 to 8
        invariant Shifts(crc, 8 - j) == next
      {
        crc := if crc % 2 == 1 then Xor(crc / 2, 0xA001) else crc / 2;
      }
    }
  }

  // ---- Exclusive or ----

  lemma XorHalves(a: nat, b: nat)
    ensures Xor(a, b) / 2 == Xor(a / 2, b / 2)
    ensures Xor(a, b) % 2 == 1 <==> a % 2 != b % 2
  {}

  lemma {:induction false} XorCommutes(a: nat, b: nat)
    ensures Xor(a, b) == Xor(b, a)
    decreases a + b
  {
    if a + b > 0 { XorCommutes(a / 2, b / 2); }
  }

  lemma {:induction false} XorAssociates(a: nat, b: nat, c: nat)
    ensures Xor(Xor(a, b), c) == Xor(a, Xor(b, c))
    decreases a + b + c
  {
    if a + b + c > 0 {
      XorHalves(a, b);
      XorHalves(b, c);
      XorHalves(Xor(a, b), c);
      XorHalves(a, Xor(b, c));
      XorAssociates(a / 2, b / 2, c / 2);
    }
  }

  lemma {:induction false} XorZero(a: nat)
    ensures Xor(a, 0) == a && Xor(0, a) == a && Xor(a, a) == 0
  {
    if a > 0 { XorZero(a / 2); }
  }

  lemma XorSame(a: nat, b: nat)
    ensures Xor(a, b) == 0 <==> a == b
  {
    XorZero(a);
    if Xor(a, b) == 0 {
      XorAssociates(a, a, b);
      XorZero(b);
    }
  }

  lemma {:induction false} XorBelow(a: nat, b: nat, n: nat)
    requires a < Pow2(n) && b < Pow2(n)
    ensures Xor(a, b) < Pow2(n)
    decreases n
  {
    if n > 0 { XorBelow(a / 2, b / 2, n - 1); }
  }

  lemma XorFits(a: nat, b: nat)
    requires a < FULL && b < FULL
    ensures Xor(a, b) < FULL
  {
    assert Pow2(8) == 256;
    assert Pow2(16) == FULL by { assert Pow2(12) == 4096; }
    XorBelow(a, b, 16);
  }

  /** Rearranging four operands. */
  lemma XorSwap(a: nat, b: nat, c: nat, d: nat)
    ensures Xor(Xor(a, b), Xor(c, d)) == Xor(Xor(a, c), Xor(b, d))
  {
    XorAssociates(a, b, Xor(c, d));
    XorAssociates(b, c, d);
    XorCommutes(b, c);
    XorAssociates(c, b, d);
    XorAssociates(a, c, Xor(b, d));
  }

  // ---- Algebra of the shift ----

  lemma ShiftLinear(a: nat, b: nat)
    ensures Shift(Xor(a, b)) == Xor(Shift(a), Shift(b))
  {
    var x, y := a / 2, b / 2;
    XorHalves(a, b);
    if a % 2 == 1 && b % 2 == 1 {
      XorSwap(x, POLY, y, POLY);
      XorZero(POLY);
      XorZero(Xor(x, y));
    } else if a % 2 == 1 {
      XorAssociates(x, POLY, y);
      XorCommutes(POLY, y);
      XorAssociates(x, y, POLY);
    } else if b % 2 == 1 {
      XorAssociates(x, y, POLY);
    }
  }

  lemma ShiftFits(c: nat)
    requires c < FULL
    ensures Shift(c) < FULL
  {
    XorFits(c / 2, POLY);
  }

  /** Only zero is shifted to zero: after a set low bit the top bit of the result is set. */
  lemma ShiftInjective(c: nat)
    requires c < FULL
    ensures Shift(c) == 0 <==> c == 0
  {
    XorSame(c / 2, POLY);
  }

  /** Shifting never merges two values. */
  lemma {:induction false} ShiftsInjective(a: nat, b: nat, n: nat)
    requires a < FULL && b < FULL
    ensures Shifts(a, n) < FULL
    ensures Shifts(a, n) == Shifts(b, n) <==> a == b
    decreases n
  {
    if n > 0 {
      ShiftFits(a);
      ShiftFits(b);
      ShiftLinear(a, b);
      XorFits(a, b);
      ShiftInjective(Xor(a, b));
      XorSame(a, b);
      XorSame(Shift(a), Shift(b));
      ShiftsInjective(Shift(a), Shift(b), n - 1);
    }
  }

  lemma {:induction false} ShiftsZero(n: nat)
    ensures Shifts(0, n) == 0
  {
    if n > 0 { ShiftsZero(n - 1); }
  }

  // ---- Bits in transmission order ----

  function Bit(b: bool): nat { if b then 1 else 0 }

  /** The register after single bits. */
  function AddBits(c: nat, bits: seq<bool>): nat
    decreases |bits|
  {
    if bits == [] then c else AddBits(Shift(Xor(c, Bit(bits[0]))), bits[1..])
  }

  /** The lowest `n` bits of a number, least significant first, which is the order they are sent in. */
  function BitsOf(v: nat, n: nat): seq<bool>
    decreases n
  {
    if n == 0 then [] else [v % 2 == 1] + BitsOf(v / 2, n - 1)
  }

  function Bits(data: seq<byte>): seq<bool> {
    if data == [] then [] else BitsOf(data[0], 8) + Bits(data[1..])
  }

  function ValueOf(bits: seq<bool>): nat {
    if bits == [] then 0 else Bit(bits[0]) + 2 * ValueOf(bits[1..])
  }

  lemma {:induction false} BitsValue(v: nat, n: nat)
    requires v < Pow2(n)
    ensures |BitsOf(v, n)| == n && ValueOf(BitsOf(v, n)) == v
    decreases n
  {
    if n > 0 { BitsValue(v / 2, n - 1); }
  }

  lemma {:induction false} ValueBelow(bits: seq<bool>)
    ensures ValueOf(bits) < Pow2(|bits|)
  {
    if bits != [] { ValueBelow(bits[1..]); }
  }

  lemma FromHalves(z: nat, x: nat, w: nat)
    requires x <= 1 && z / 2 == w && (z % 2 == 1 <==> x == 1)
    ensures z == x + 2 * w
  {}

  lemma BitAndTwice(x: nat, w: nat)
    requires x <= 1
    ensures Xor(x, 2 * w) == x + 2 * w
  {
    var y := 2 * w;
    XorHalves(x, y);
    XorZero(w);
    assert x / 2 == 0 && y / 2 == w && y % 2 == 0;
    FromHalves(Xor(x, y), x, w);
  }

  lemma ShiftTwice(w: nat)
    ensures Shift(2 * w) == w
  {}

  lemma ShiftSum(c: nat, x: nat, y: nat, z: nat, w: nat)
    requires z == Xor(x, y) && w == Shift(y)
    ensures Shift(Xor(c, z)) == Xor(Shift(Xor(c, x)), w)
  {
    XorAssociates(c, x, y);
    ShiftLinear(Xor(c, x), y);
  }

  /** Shifting drops the low bit of what has been added; the rest is still to be shifted out. */
  lemma ShiftOut(c: nat, x: nat, w: nat)
    requires x <= 1
    ensures Shift(Xor(c, x + 2 * w)) == Xor(Shift(Xor(c, x)), w)
  {
    var y, z := 2 * w, x + 2 * w;
    BitAndTwice(x, w);
    ShiftTwice(w);
    ShiftSum(c, x, y, z, w);
  }

  /** Adding bits one by one is adding the word they make and then shifting it out. */
  lemma {:induction false} AddBitsAtOnce(c: nat, bits: seq<bool>)
    ensures AddBits(c, bits) == Shifts(Xor(c, ValueOf(bits)), |bits|)
    decreases |bits|
  {
    if bits == [] {
      XorZero(c);
    } else {
      AddBitsAtOnce(Shift(Xor(c, Bit(bits[0]))), bits[1..]);
      ShiftOut(c, Bit(bits[0]), ValueOf(bits[1..]));
    }
  }

  lemma {:induction false} AddBitsAppend(c: nat, xs: seq<bool>, ys: seq<bool>)
    ensures AddBits(c, xs + ys) == AddBits(AddBits(c, xs), ys)
    decreases |xs|
  {
    if xs == [] {
      assert xs + ys == ys;
    } else {
      assert (xs + ys)[1..] == xs[1..] + ys;
      AddBitsAppend(Shift(Xor(c, Bit(xs[0]))), xs[1..], ys);
    }
  }

  /** The byte-wise register is the bit-wise one. */
  lemma {:induction false} RegisterIsBits(c: nat, data: seq<byte>)
    ensures Register(c, data) == AddBits(c, Bits(data)) && |Bits(data)| == 8 * |data|
    decreases |data|
  {
    if data != [] {
      assert Pow2(8) == 256;
      BitsValue(data[0], 8);
      AddBitsAtOnce(c, BitsOf(data[0], 8));
      AddBitsAppend(c, BitsOf(data[0], 8), Bits(data[1..]));
      RegisterIsBits(AddByte(c, data[0]), data[1..]);
    }
  }

  // ---- The check ----

  lemma {:induction false} RegisterFits(c: nat, data: seq<byte>)
    requires c < FULL
    ensures Register(c, data) < FULL
    decreases |data|
  {
    if data != [] {
      XorFits(c, data[0]);
      ShiftsInjective(Xor(c, data[0]), 0, 8);
      RegisterFits(AddByte(c, data[0]), data[1..]);
    }
  }

  lemma {:induction false} RegisterAppend(c: nat, xs: seq<byte>, ys: seq<byte>)
    ensures Register(c, xs + ys) == Register(Register(c, xs), ys)
    decreases |xs|
  {
    if xs == [] {
      assert xs + ys == ys;
    } else {
      assert (xs + ys)[1..] == xs[1..] + ys;
      RegisterAppend(AddByte(c, xs[0]), xs[1..], ys);
    }
  }

  /** The register after a word of 16 bits is zero exactly if the word is the register. */
  lemma WordCancels(c: nat, bits: seq<bool>)
    requires c < FULL && |bits| == 16 && ValueOf(bits) < FULL
    ensures AddBits(c, bits) == 0 <==> c == ValueOf(bits)
  {
    var w, n := ValueOf(bits), |bits|;
    AddBitsAtOnce(c, bits);
    XorFits(c, w);
    ShiftsInjective(Xor(c, w), 0, n);
    ShiftsZero(n);
    XorSame(c, w);
  }

  lemma BitsOfTwo(low: byte, high: byte)
    ensures Bits([low, high]) == BitsOf(low, 8) + BitsOf(high, 8)
  {
    assert [low, high][1..] == [high] && [high][1..] == [];
    assert Bits([high]) == BitsOf(high, 8);
  }

  /** Two more bytes leave the register at zero exactly when they are the register, low byte first. */
  lemma TwoBytesCancel(c: nat, low: byte, high: byte)
    requires c < FULL
    ensures Register(c, [low, high]) == 0 <==> c == low as int + 256 * (high as int)
  {
    RegisterIsBits(c, [low, high]);
    BitsOfTwo(low, high);
    WordOfTwo(low, high);
    WordCancels(c, BitsOf(low, 8) + BitsOf(high, 8));
  }

  lemma Twice(p: nat, v: nat)
    ensures (2 * p) * v == 2 * (p * v)
  {}

  lemma {:induction false} ValueAppend(xs: seq<bool>, ys: seq<bool>)
    ensures ValueOf(xs + ys) == ValueOf(xs) + Pow2(|xs|) * ValueOf(ys)
  {
    if xs == [] {
      assert xs + ys == ys;
    } else {
      var v, p := ValueOf(ys), Pow2(|xs| - 1);
      ValueAppend(xs[1..], ys);
      Twice(p, v);
      ValueCons(xs, ys);
    }
  }

  lemma ValueCons(xs: seq<bool>, ys: seq<bool>)
    requires xs != []
    ensures ValueOf(xs + ys) == Bit(xs[0]) + 2 * ValueOf(xs[1..] + ys)
  {
    assert (xs + ys)[1..] == xs[1..] + ys;
  }

  lemma WordOfTwo(low: byte, high: byte)
    ensures var bits := BitsOf(low, 8) + BitsOf(high, 8); |bits| == 16 && ValueOf(bits) == low + 256 * high
  {
    assert Pow2(8) == 256;
    BitsValue(low, 8);
    BitsValue(high, 8);
    ValueAppend(BitsOf(low, 8), BitsOf(high, 8));
  }

  /** A frame passes the check exactly when it is long enough and its own CRC is zero. */
  lemma CheckIsZeroCrc(frame: seq<byte>)
    ensures Check(frame) <==> |frame| >= 3 && Crc(frame) == 0
  {
    if |frame| >= 3 {
      var n := |frame|;
      assert frame == frame[..n - 2] + [frame[n - 2], frame[n - 1]];
      RegisterAppend(0xFFFF, frame[..n - 2], [frame[n - 2], frame[n - 1]]);
      RegisterFits(0xFFFF, frame[..n - 2]);
      TwoBytesCancel(Crc(frame[..n - 2]), frame[n - 2], frame[n - 1]);
    }
  }

  function Append(frame: seq<byte>): (r: seq<byte>)
    ensures |r| == |frame| + 2 && (frame != [] ==> Check(r))
  {
    RegisterFits(0xFFFF, frame);
    var c := Crc(frame);
    assert (frame + [c % 256, c / 256])[..|frame|] == frame;
    frame + [c % 256, c / 256]
  }

  // ---- A known value ----

  lemma QuotientIs(x: nat, p: nat, q: nat)
    requires p > 0 && p * q <= x < p * q + p
    ensures x / p == q
  {
    SameProduct(p, x / p, q, x % p, x - p * q);
  }

  /** A number has one quotient and one remainder. */
  lemma SameProduct(p: nat, a: int, b: int, r: nat, t: nat)
    requires r < p && t < p && p * a + r == p * b + t
    ensures a == b
  {
    Spread(p, a, b);
    if a != b { MultipleFar(p, a - b); }
  }

  lemma Spread(p: nat, a: int, b: int)
    ensures p * (a - b) == p * a - p * b
  {}

  lemma MultipleFar(p: nat, d: int)
    requires p > 0 && d != 0
    ensures p * d >= p || p * d <= -(p as int)
  {
    if d >= 1 { Spread(p, d, 1); } else { Spread(p, d, -1); }
  }

  lemma HalfBit(x: nat, p: nat)
    requires p > 0
    ensures x / 2 / p == x / (2 * p)
  {
    var q := x / 2 / p;
    assert p * q <= x / 2 < p * q + p;
    QuotientIs(x, 2 * p, q) by { assert (2 * p) * q == 2 * (p * q); }
  }

  function Turned(x: int, p: nat): int
    requires p > 0
  {
    if x / p % 2 == 1 then x - p else x + p
  }

  /** Exclusive or with a power of two turns one bit over. */
  lemma {:induction false} XorBit(x: nat, k: nat, p: nat)
    requires p == Pow2(k)
    ensures p > 0 && Xor(x, p) == Turned(x, p)
    decreases k
  {
    if k == 0 {
      XorZero(x / 2);
      XorHalves(x, 1);
    } else {
      hide Xor, Turned;
      var q := Pow2(k - 1);
      XorBit(x / 2, k - 1, q);
      TurnedHalf(x, q);
      XorEven(x, q);
    }
  }

  lemma TurnedHalf(x: nat, q: nat)
    requires q > 0
    ensures x % 2 + 2 * Turned(x / 2, q) == Turned(x, 2 * q)
  {
    HalfBit(x, q);
  }

  lemma XorEven(x: nat, q: nat)
    ensures Xor(x, 2 * q) == x % 2 + 2 * Xor(x / 2, q)
  {}

  lemma PolyBits()
    ensures Pow2(13) == 0x2000 && Pow2(15) == 0x8000 && Pow2(0) == 1
    ensures Xor(Xor(1, 0x2000), 0x8000) == 0xA001
  {
    assert Pow2(5) == 32 && Pow2(10) == 1024;
    XorBit(1, 13, 0x2000);
    XorBit(0x2001, 15, 0x8000);
  }
  lemma ShiftXor(c: nat)
    requires c % 2 == 1
    ensures Shift(c) == Xor(c / 2, 0xA001)
  {}

  /** A shift of an odd value turns over bits 0, 13 and 15 of its half. */
  lemma ShiftOfOdd(c: nat)
    requires c % 2 == 1
    ensures Shift(c) == Turned(Turned(Turned(c / 2, 1), 0x2000), 0x8000)
  {
    hide Xor, Turned;
    var h := c / 2;
    PolyBits();
    ShiftXor(c);
    XorBit(h, 0, 1);
    XorBit(Turned(h, 1), 13, 0x2000);
    XorBit(Turned(Turned(h, 1), 0x2000), 15, 0x8000);
    XorAssociates(h, Xor(1, 0x2000), 0x8000);
    XorAssociates(h, 1, 0x2000);
  }

  lemma EightShifts(c: nat)
    ensures Shifts(c, 8) == Shift(Shift(Shift(Shift(Shift(Shift(Shift(Shift(c))))))))
  {
    hide Shift;
  }

  /** The CRC of a single zero byte, which tells the generator and the first value apart from any other. */
  lemma KnownCrc()
    ensures Crc([0]) == 0x40BF
  {
    hide Shift, Shifts, Xor;
    var zero: seq<byte> := [0];
    XorZero(0xFFFF);
    EightShifts(0xFFFF);
    KnownShifts();
    assert zero[1..] == [] && AddByte(0xFFFF, 0) == 0x40BF;
    assert Register(0xFFFF, zero) == Register(AddByte(0xFFFF, 0), []);
  }

  lemma KnownShifts()
    ensures Shift(0xFFFF) == 0xDFFE && Shift(0xDFFE) == 0x6FFF && Shift(0x6FFF) == 0x97FE && Shift(0x97FE) == 0x4BFF
    ensures Shift(0x4BFF) == 0x85FE && Shift(0x85FE) == 0x42FF && Shift(0x42FF) == 0x817E && Shift(0x817E) == 0x40BF
  {
    hide Xor;
    ShiftOfOdd(0xFFFF);
    ShiftOfOdd(0x6FFF);
    ShiftOfOdd(0x4BFF);
    ShiftOfOdd(0x42FF);
  }
}

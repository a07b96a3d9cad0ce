// The CRC-8 of the Roadrunner's serial frames: the bit loop, its algebra, and the bursts it
// detects.

module Crc8 {
  type Byte = bv8

  function Xor(a: Byte, b: Byte): Byte { a ^ b }

  // One bit of the CRC register, polynomial 0x07.
  function Shift(v: Byte): Byte {
    if v & 0x80 != 0 then (v << 1) ^ 0x07 else v << 1
  }

  function Shifts(v: Byte, n: nat): Byte {
    if n == 0 then v else Shift(Shifts(v, n - 1))
  }

  function Fold(v: Byte): Byte { Shifts(v, 8) }

  function CrcFrom(v: Byte, data: seq<Byte>): Byte {
    if data == [] then v else Fold(Xor(CrcFrom(v, data[..|data| - 1]), data[|data| - 1]))
  }

  function Crc(data: seq<Byte>): Byte { CrcFrom(0, data) }

  method Compute(data: seq<Byte>) returns (value: Byte)
    ensures value == Crc(data)
  {
    value := 0;
    for i := 0 to |data|
      invariant value == Crc(data[..i])
    {
      assert data[..i + 1][..i] == data[..i];
      value := value ^ data[i];
      ghost var start := value;
      for bit := 0 to 8
        invariant value == Shifts(start, bit)
      {
        value := if value & 0x80 != 0 then (value << 1) ^ 0x07 else value << 1;
      }
    }
    assert data[..|data|] == data;
  }

  // ----- the CRC step is linear and loses nothing -----

  lemma ShiftLinear(a: Byte, b: Byte)
    ensures Shift(Xor(a, b)) == Xor(Shift(a), Shift(b))
  {
    DoubleLinear(a, b);
    TopBitLinear(a, b);
    var x, y := a << 1, b << 1;
    XorTwice(x, y, 0x07);
  }

  lemma DoubleLinear(a: Byte, b: Byte)
    ensures (a ^ b) << 1 == (a << 1) ^ (b << 1)
  {
  }

  lemma TopBitLinear(a: Byte, b: Byte)
    ensures (a ^ b) & 0x80 == 0 <==> (a & 0x80 == 0 <==> b & 0x80 == 0)
  {
  }

  lemma XorTwice(x: Byte, y: Byte, g: Byte)
    ensures (x ^ g) ^ (y ^ g) == x ^ y
    ensures (x ^ g) ^ y == (x ^ y) ^ g
    ensures x ^ (y ^ g) == (x ^ y) ^ g
  {
  }

  lemma {:induction false} ShiftsLinear(a: Byte, b: Byte, n: nat)
    ensures Shifts(Xor(a, b), n) == Xor(Shifts(a, n), Shifts(b, n))
  {
    hide Shift, Xor;
    if n > 0 {
      ShiftsLinear(a, b, n - 1);
      ShiftLinear(Shifts(a, n - 1), Shifts(b, n - 1));
    }
  }

  lemma ShiftInjective(a: Byte)
    ensures Shift(a) == 0 <==> a == 0
  {
  }

  lemma {:induction false} ShiftsInjective(a: Byte, n: nat)
    ensures Shifts(a, n) == 0 <==> a == 0
  {
    hide Shift;
    if n > 0 {
      ShiftsInjective(a, n - 1);
      ShiftInjective(Shifts(a, n - 1));
    }
  }

  function Corrupt(data: seq<Byte>, error: seq<Byte>): (r: seq<Byte>)
    requires |data| == |error|
    ensures |r| == |data| && forall i | 0 <= i < |r| :: r[i] == Xor(data[i], error[i])
  {
    seq(|data|, i requires 0 <= i < |data| => Xor(data[i], error[i]))
  }

  lemma XorAssociates(a: Byte, b: Byte, c: Byte, d: Byte)
    ensures Xor(Xor(a, b), Xor(c, d)) == Xor(Xor(a, c), Xor(b, d))
  {
    hide Xor;
    XorMoves(a, b, Xor(c, d));
    XorMoves(b, c, d);
    XorMoves(c, b, d);
    XorSwaps(b, c);
    XorMoves(a, c, Xor(b, d));
  }

  lemma XorMoves(a: Byte, b: Byte, c: Byte)
    ensures Xor(Xor(a, b), c) == Xor(a, Xor(b, c))
  {
  }

  lemma XorSwaps(a: Byte, b: Byte)
    ensures Xor(a, b) == Xor(b, a)
  {
  }

  lemma FoldLinear(a: Byte, b: Byte, c: Byte, d: Byte)
    ensures Fold(Xor(Xor(a, b), Xor(c, d))) == Xor(Fold(Xor(a, c)), Fold(Xor(b, d)))
  {
    hide Shifts, Xor;
    XorAssociates(a, b, c, d);
    ShiftsLinear(Xor(a, c), Xor(b, d), 8);
  }

  lemma CrcNext(data: seq<Byte>, n: nat)
    requires n < |data|
    ensures Crc(data[..n + 1]) == Fold(Xor(Crc(data[..n]), data[n]))
  {
    hide Shifts, Xor;
    assert data[..n + 1][..n] == data[..n];
  }

  lemma CrcOfNothing()
    ensures Crc([]) == 0 == Xor(0, 0)
  {
  }

  // The register after corrupted data is the register after the data, corrupted by the
  // register after the error alone.
  lemma {:induction false} CrcLinear(data: seq<Byte>, error: seq<Byte>)
    requires |data| == |error|
    ensures Crc(Corrupt(data, error)) == Xor(Crc(data), Crc(error))
  {
    hide Fold, CrcFrom, Xor;
    var n := |data| - 1;
    if data == [] {
      CrcOfNothing();
      assert data == [] && error == [] && Corrupt(data, error) == [];
    } else {
      var bad := Corrupt(data, error);
      assert bad[..n] == Corrupt(data[..n], error[..n]);
      CrcLinear(data[..n], error[..n]);
      FoldLinear(Crc(data[..n]), Crc(error[..n]), data[n], error[n]);
      CrcNext(bad, n);
      CrcNext(data, n);
      CrcNext(error, n);
      assert bad[..n + 1] == bad && data[..n + 1] == data && error[..n + 1] == error;
    }
  }

  // ----- bursts -----

  // Bit r of a byte, the first on the wire being bit 0.
  predicate Bit(b: Byte, r: nat)
    requires r < 8
  {
    if r == 0 then b & 0x80 != 0 else if r == 1 then b & 0x40 != 0
    else if r == 2 then b & 0x20 != 0 else if r == 3 then b & 0x10 != 0
    else if r == 4 then b & 0x08 != 0 else if r == 5 then b & 0x04 != 0
    else if r == 6 then b & 0x02 != 0 else b & 0x01 != 0
  }

  predicate ErrorBit(error: seq<Byte>, q: nat)
    requires q < 8 * |error|
  {
    Bit(error[q / 8], q % 8)
  }

  // Something is wrong, and all of it within 8 consecutive bits from bit p on.
  ghost predicate Burst(error: seq<Byte>, p: nat) {
    && (exists i | 0 <= i < |error| :: error[i] != 0)
    && forall q: nat | q < 8 * |error| :: ErrorBit(error, q) ==> p <= q < p + 8
  }

  lemma BitsMakeByte(b: Byte)
    requires forall r: nat | r < 8 :: !Bit(b, r)
    ensures b == 0
  {
    assert !Bit(b, 0) && !Bit(b, 1) && !Bit(b, 2) && !Bit(b, 3);
    assert !Bit(b, 4) && !Bit(b, 5) && !Bit(b, 6) && !Bit(b, 7);
  }

  // The first s bits of a byte.
  function HighMask(s: nat): Byte
    requires s < 8
  {
    if s == 0 then 0x00 else if s == 1 then 0x80 else if s == 2 then 0xC0 else if s == 3 then 0xE0
    else if s == 4 then 0xF0 else if s == 5 then 0xF8 else if s == 6 then 0xFC else 0xFE
  }

  lemma LowBits(b: Byte, s: nat)
    requires s < 8 && forall r: nat | r < s :: !Bit(b, r)
    ensures b & HighMask(s) == 0
  {
    assert s > 0 ==> !Bit(b, 0);
    assert s > 1 ==> !Bit(b, 1);
    assert s > 2 ==> !Bit(b, 2);
    assert s > 3 ==> !Bit(b, 3);
    assert s > 4 ==> !Bit(b, 4);
    assert s > 5 ==> !Bit(b, 5);
    assert s > 6 ==> !Bit(b, 6);
  }

  lemma HighBits(b: Byte, s: nat)
    requires s < 8 && forall r: nat | s <= r < 8 :: !Bit(b, r)
    ensures b & !HighMask(s) == 0
  {
    assert s <= 0 ==> !Bit(b, 0);
    assert s <= 1 ==> !Bit(b, 1);
    assert s <= 2 ==> !Bit(b, 2);
    assert s <= 3 ==> !Bit(b, 3);
    assert s <= 4 ==> !Bit(b, 4);
    assert s <= 5 ==> !Bit(b, 5);
    assert s <= 6 ==> !Bit(b, 6);
    assert !Bit(b, 7);
  }

  lemma FoldUnrolled(a: Byte)
    ensures Fold(a) == Shift(Shift(Shift(Shift(Shift(Shift(Shift(Shift(a))))))))
  {
    hide Shift;
    assert Shifts(a, 0) == a;
    assert Shifts(a, 1) == Shift(a);
    assert Shifts(a, 2) == Shift(Shifts(a, 1));
    assert Shifts(a, 3) == Shift(Shifts(a, 2));
    assert Shifts(a, 4) == Shift(Shifts(a, 3));
    assert Shifts(a, 5) == Shift(Shifts(a, 4));
    assert Shifts(a, 6) == Shift(Shifts(a, 5));
    assert Shifts(a, 7) == Shift(Shifts(a, 6));
  }

  // Two adjacent bytes carrying one burst never cancel in the register.
  lemma BurstShows(a: Byte, b: Byte, s: nat)
    requires s < 8 && a & HighMask(s) == 0 && b & !HighMask(s) == 0
    requires a != 0 || b != 0
    ensures Xor(Fold(a), b) != 0
  {
    FoldUnrolled(a);
  }

  lemma {:induction false} CrcOfZeros(error: seq<Byte>, n: nat)
    requires n <= |error| && forall i | 0 <= i < n :: error[i] == 0
    ensures Crc(error[..n]) == 0
  {
    hide Fold, Xor;
    if n > 0 {
      assert error[..n][..n - 1] == error[..n - 1];
      CrcOfZeros(error, n - 1);
      XorZero(0);
      FoldInjective(0);
    }
  }

  // Once the register is off, zero bytes never bring it back.
  lemma {:induction false} CrcKeepsError(error: seq<Byte>, m: nat, n: nat)
    requires m <= n <= |error| && forall i | m <= i < n :: error[i] == 0
    requires Crc(error[..m]) != 0
    ensures Crc(error[..n]) != 0
    decreases n
  {
    hide Fold, Xor;
    if m < n {
      assert error[..n][..n - 1] == error[..n - 1];
      CrcKeepsError(error, m, n - 1);
      XorZero(Crc(error[..n - 1]));
      FoldInjective(Crc(error[..n - 1]));
    }
  }

  lemma BurstBytes(error: seq<Byte>, p: nat)
    requires Burst(error, p)
    ensures p / 8 < |error|
    ensures forall j | 0 <= j < |error| && j != p / 8 && j != p / 8 + 1 :: error[j] == 0
    ensures error[p / 8] & HighMask(p % 8) == 0
    ensures p / 8 + 1 < |error| ==> error[p / 8 + 1] & !HighMask(p % 8) == 0
  {
    var i, s := p / 8, p % 8;
    forall j | 0 <= j < |error| && j != i && j != i + 1 ensures error[j] == 0 {
      forall r: nat | r < 8 ensures !Bit(error[j], r) {
        var q := 8 * j + r;
        assert q / 8 == j && q % 8 == r;
        assert ErrorBit(error, q) ==> p <= q < p + 8;
      }
      BitsMakeByte(error[j]);
    }
    if i < |error| {
      forall r: nat | r < s ensures !Bit(error[i], r) {
        var q := 8 * i + r;
        assert q / 8 == i && q % 8 == r;
        assert ErrorBit(error, q) ==> p <= q < p + 8;
      }
      LowBits(error[i], s);
    }
    if i + 1 < |error| {
      var next := error[i + 1];
      forall r: nat | s <= r < 8 ensures !Bit(next, r) {
        var q := 8 * (i + 1) + r;
        assert q / 8 == i + 1 && q % 8 == r;
        assert ErrorBit(error, q) ==> p <= q < p + 8;
      }
      HighBits(next, s);
    }
  }

  lemma XorZero(v: Byte)
    ensures Xor(0, v) == v && Xor(v, 0) == v
  {
  }

  lemma FoldInjective(v: Byte)
    ensures Fold(v) == 0 <==> v == 0
  {
    ShiftsInjective(v, 8);
  }

  // The code's detection law: no burst of at most 8 bits has a zero register.
  lemma BurstDetected(error: seq<Byte>, p: nat)
    requires Burst(error, p)
    ensures Crc(error) != 0
  {
    hide Fold, CrcFrom, Bit, HighMask, Xor, ErrorBit;
    BurstBytes(error, p);
    var i, s := p / 8, p % 8;
    CrcOfZeros(error, i);
    CrcNext(error, i);
    XorZero(error[i]);
    assert error[..|error|] == error;
    if i + 1 == |error| {
      assert error[i] != 0;
      FoldInjective(error[i]);
    } else {
      CrcNext(error, i + 1);
      BurstShows(error[i], error[i + 1], s);
      FoldInjective(Xor(Fold(error[i]), error[i + 1]));
      CrcKeepsError(error, i + 2, |error|);
    }
  }

  // ----- a known message -----

  lemma CrcMore(before: seq<Byte>, b: Byte, after: Byte)
    requires Fold(Xor(Crc(before), b)) == after
    ensures Crc(before + [b]) == after
  {
    assert (before + [b])[..|before|] == before;
  }

  // The register after each byte of the text "123456789".
  const DIGITS: seq<Byte> := [0x31, 0x32, 0x33, 0x34, 0x35, 0x36, 0x37, 0x38, 0x39]
  const REGISTERS: seq<Byte> := [0x00, 0x97, 0x72, 0xc0, 0xc2, 0xcb, 0xfd, 0x78, 0xc7, 0xf4]

  lemma DigitFolds(i: nat)
    requires i < 9
    ensures Fold(Xor(REGISTERS[i], DIGITS[i])) == REGISTERS[i + 1]
  {
    FoldUnrolled(Xor(REGISTERS[i], DIGITS[i]));
  }

  lemma {:induction false} DigitsCrc(n: nat)
    requires n <= 9
    ensures Crc(DIGITS[..n]) == REGISTERS[n]
  {
    hide Crc, Fold, Xor;
    if n == 0 {
      CrcOfNothing();
    } else {
      DigitsCrc(n - 1);
      DigitFolds(n - 1);
      CrcMore(DIGITS[..n - 1], DIGITS[n - 1], REGISTERS[n]);
      assert DIGITS[..n] == DIGITS[..n - 1] + [DIGITS[n - 1]];
    }
  }

  // The check value of this CRC: the one of "123456789".
  lemma CheckValue()
    ensures Crc([0x31, 0x32, 0x33, 0x34, 0x35, 0x36, 0x37, 0x38, 0x39]) == 0xf4
  {
    hide Crc;
    DigitsCrc(9);
    assert DIGITS[..9] == DIGITS;
  }
}

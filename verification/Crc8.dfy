/**
 The SHT30 checksum of components/sensors/sensors.c: CRC-8, polynomial 0x31, initial value
 0xFF, most significant bit first (Sensirion SHT3x-DIS datasheet, section 4.12).
 */
module Crc8 {

  /** An unsigned byte, most significant bit first. */
  datatype Byte = Byte(b7: bool, b6: bool, b5: bool, b4: bool, b3: bool, b2: bool, b1: bool, b0: bool) {
    function Xor(y: Byte): Byte {
      Byte(b7 != y.b7, b6 != y.b6, b5 != y.b5, b4 != y.b4, b3 != y.b3, b2 != y.b2, b1 != y.b1, b0 != y.b0)
    }

    function LeftShift(): Byte {
      Byte(b6, b5, b4, b3, b2, b1, b0, false)
    }

    /** Whether the number of one bits is odd. */
    predicate Odd() {
      ((b7 != b6) != (b5 != b4)) != ((b3 != b2) != (b1 != b0))
    }

    function Value(): nat {
      (if b7 then 128 else 0) + (if b6 then 64 else 0) + (if b5 then 32 else 0) + (if b4 then 16 else 0)
      + (if b3 then 8 else 0) + (if b2 then 4 else 0) + (if b1 then 2 else 0) + (if b0 then 1 else 0)
    }
  }

  const ZERO := Byte(false, false, false, false, false, false, false, false)
  const INITIAL := Byte(true, true, true, true, true, true, true, true)            // 0xFF
  const POLYNOMIAL := Byte(false, false, true, true, false, false, false, true)    // 0x31

  /** One iteration of the inner loop: shift out the top bit and reduce if it was set. */
  function Shift(crc: Byte): Byte {
    if crc.b7 then crc.LeftShift().Xor(POLYNOMIAL) else crc.LeftShift()
  }

  function Shifts(crc: Byte, n: nat): Byte
    decreases n, crc
  {
    if n == 0 then crc else Shift(Shifts(crc, n - 1))
  }

  /** The whole inner loop: eight iterations. */
  function ShiftByte(crc: Byte): Byte {
    Shifts(crc, 8)
  }

  /** The register after `data`, starting from any value. */
  function Register(crc: Byte, data: seq<Byte>): Byte {
    if data == [] then crc
    else ShiftByte(Register(crc, data[..|data| - 1]).Xor(data[|data| - 1]))
  }

  function Checksum(data: seq<Byte>): Byte {
    Register(INITIAL, data)
  }

  /** The nested loop of the driver. */
  method ComputeChecksum(data: seq<Byte>) returns (crc: Byte)
    ensures crc == Checksum(data)
  {
    crc := INITIAL;
    for i := 0 to |data|
      invariant crc == Register(INITIAL, data[..i])
    {
      assert data[..i + 1][..i] == data[..i];
      crc := crc.Xor(data[i]);
      ghost var start := crc;
      for b := 0 to 8
        invariant crc == Shifts(start, b)
      {
        crc := if crc.b7 then crc.LeftShift().Xor(POLYNOMIAL) else crc.LeftShift();
      }
    }
    assert data[..|data|] == data;
  }

  datatype Reading = Accepted(rawTemperature: nat, rawHumidity: nat) | CrcError

  function Word(high: Byte, low: Byte): nat {
    256 * high.Value() + low.Value()
  }

  lemma WordIsBigEndian(high: Byte, low: Byte)
    ensures Word(high, low) / 256 == high.Value() && Word(high, low) % 256 == low.Value()
  {
    assert high.Value() < 256 && low.Value() < 256;
  }

  /** The acceptance test on the six bytes read from the sensor. */
  method AcceptMeasurement(raw: seq<Byte>) returns (r: Reading)
    requires |raw| == 6
    ensures r.Accepted? <==> Register(INITIAL, raw[..3]) == ZERO == Register(INITIAL, raw[3..])
    ensures r.Accepted? ==> r.rawTemperature == Word(raw[0], raw[1]) && r.rawHumidity == Word(raw[3], raw[4])
    ensures r.Accepted? ==> r.rawTemperature / 256 == raw[0].Value() && r.rawTemperature % 256 == raw[1].Value()
    ensures r.Accepted? ==> r.rawHumidity / 256 == raw[3].Value() && r.rawHumidity % 256 == raw[4].Value()
  {
    hide Register, Word;
    var first := ComputeChecksum(raw[0..2]);
    var second := ComputeChecksum(raw[3..5]);
    ResidueZeroIffChecksumMatches(raw[0..2], raw[2]);
    ResidueZeroIffChecksumMatches(raw[3..5], raw[5]);
    assert raw[0..2] + [raw[2]] == raw[..3];
    assert raw[3..5] + [raw[5]] == raw[3..];
    if first != raw[2] || second != raw[5] {
      return CrcError;
    }
    WordIsBigEndian(raw[0], raw[1]);
    WordIsBigEndian(raw[3], raw[4]);
    r := Accepted(Word(raw[0], raw[1]), Word(raw[3], raw[4]));
  }

  // ---------------------------------------------------------------- linearity over GF(2)

  function XorAll(a: seq<Byte>, b: seq<Byte>): (r: seq<Byte>)
    requires |a| == |b|
    ensures |r| == |a| && forall i :: 0 <= i < |a| ==> r[i] == a[i].Xor(b[i])
  {
    seq(|a|, i requires 0 <= i < |a| => a[i].Xor(b[i]))
  }

  lemma ShiftIsLinear(x: Byte, y: Byte)
    ensures Shift(x.Xor(y)) == Shift(x).Xor(Shift(y))
  {
    var l, r := Shift(x.Xor(y)), Shift(x).Xor(Shift(y));
    assert l.b7 == r.b7;
    assert l.b6 == r.b6;
    assert l.b5 == r.b5;
    assert l.b4 == r.b4;
    assert l.b3 == r.b3;
    assert l.b2 == r.b2;
    assert l.b1 == r.b1;
    assert l.b0 == r.b0;
  }

  lemma {:induction false} ShiftsAreLinear(x: Byte, y: Byte, n: nat)
    ensures Shifts(x.Xor(y), n) == Shifts(x, n).Xor(Shifts(y, n))
  {
    if n > 0 {
      ShiftsAreLinear(x, y, n - 1);
      ShiftIsLinear(Shifts(x, n - 1), Shifts(y, n - 1));
    }
  }

  lemma {:induction false} ShiftsAreInjective(x: Byte, y: Byte, n: nat)
    requires Shifts(x, n) == Shifts(y, n)
    ensures x == y
  {
    if n > 0 {
      ShiftsAreInjective(x, y, n - 1);
    }
  }

  lemma ShiftsOfZero(n: nat)
    ensures Shifts(ZERO, n) == ZERO
  {
  }

  lemma ShiftKeepsParity(x: Byte)
    ensures Shift(x).Odd() == x.Odd()
  {
  }

  lemma {:induction false} ShiftsKeepParity(x: Byte, n: nat)
    ensures Shifts(x, n).Odd() == x.Odd()
  {
    if n > 0 {
      ShiftsKeepParity(x, n - 1);
      ShiftKeepsParity(Shifts(x, n - 1));
    }
  }

  lemma OddOfXor(x: Byte, y: Byte)
    ensures x.Xor(y).Odd() <==> (x.Odd() != y.Odd())
  {
  }

  lemma XorSwaps(a: Byte, b: Byte, c: Byte, d: Byte)
    ensures a.Xor(b).Xor(c.Xor(d)) == a.Xor(c).Xor(b.Xor(d))
  {
  }

  // The eight shifts of one byte are linear, injective, fix zero and keep bit parity.

  lemma ShiftByteIsLinear(x: Byte, y: Byte)
    ensures ShiftByte(x.Xor(y)) == ShiftByte(x).Xor(ShiftByte(y))
  {
    ShiftsAreLinear(x, y, 8);
  }

  lemma ShiftByteIsInjective(x: Byte, y: Byte)
    ensures ShiftByte(x) == ShiftByte(y) <==> x == y
  {
    if ShiftByte(x) == ShiftByte(y) {
      ShiftsAreInjective(x, y, 8);
    }
  }

  lemma ShiftByteOfZero()
    ensures ShiftByte(ZERO) == ZERO
  {
    ShiftsOfZero(8);
  }

  lemma ShiftByteKeepsParity(x: Byte)
    ensures ShiftByte(x).Odd() == x.Odd()
  {
    ShiftsKeepParity(x, 8);
  }

  /** Two runs of the register superpose, whatever their start values and data. */
  lemma {:induction false} RegisterIsLinear(s: Byte, t: Byte, a: seq<Byte>, b: seq<Byte>)
    requires |a| == |b|
    ensures Register(s.Xor(t), XorAll(a, b)) == Register(s, a).Xor(Register(t, b))
  {
    if a == [] {
    } else {
      var n := |a| - 1;
      assert XorAll(a, b)[..n] == XorAll(a[..n], b[..n]);
      RegisterIsLinear(s, t, a[..n], b[..n]);
      ShiftByteIsLinear(Register(s, a[..n]).Xor(a[n]), Register(t, b[..n]).Xor(b[n]));
      XorSwaps(Register(s, a[..n]), Register(t, b[..n]), a[n], b[n]);
    }
  }

  /** The difference of two checksums depends on nothing but the difference of the data. */
  lemma ChecksumDifference(a: seq<Byte>, b: seq<Byte>)
    requires |a| == |b|
    ensures Checksum(a).Xor(Checksum(b)) == Register(ZERO, XorAll(a, b))
  {
    RegisterIsLinear(INITIAL, INITIAL, a, b);
  }

  // ---------------------------------------------------------------- single-byte errors

  /** Distinct register values stay distinct under equal data. */
  lemma {:induction false} RegisterIsInjective(x: Byte, y: Byte, data: seq<Byte>)
    ensures Register(x, data) == Register(y, data) <==> x == y
  {
    if data == [] {
    } else {
      var n := |data| - 1;
      RegisterIsInjective(x, y, data[..n]);
      var p, q := Register(x, data[..n]).Xor(data[n]), Register(y, data[..n]).Xor(data[n]);
      ShiftByteIsInjective(p, q);
    }
  }

  lemma {:induction false} RegisterAppend(crc: Byte, a: seq<Byte>, b: seq<Byte>)
    ensures Register(crc, a + b) == Register(Register(crc, a), b)
  {
    if b == [] {
      assert a + b == a;
    } else {
      var n := |b| - 1;
      assert (a + b)[..|a + b| - 1] == a + b[..n];
      RegisterAppend(crc, a, b[..n]);
    }
  }

  /** The driver's comparison is the residue test: a stored byte is the checksum exactly when the
      register over data and stored byte ends at zero. */
  lemma ResidueZeroIffChecksumMatches(data: seq<Byte>, stored: Byte)
    ensures Register(INITIAL, data + [stored]) == ZERO <==> Checksum(data) == stored
  {
    RegisterAppend(INITIAL, data, [stored]);
    var c := Checksum(data);
    assert [stored][..0] == [];
    assert Register(c, [stored]) == ShiftByte(c.Xor(stored));
    ShiftByteOfZero();
    ShiftByteIsInjective(c.Xor(stored), ZERO);
  }

  /** A frame that differs from an accepted one inside a single byte is rejected, at every length. */
  lemma SingleByteErrorIsCaught(frame: seq<Byte>, k: nat, wrong: Byte)
    requires k < |frame| && Register(INITIAL, frame) == ZERO
    ensures Register(INITIAL, frame[k := wrong]) == ZERO <==> wrong == frame[k]
  {
    var bad := frame[k := wrong];
    var head, tail := frame[..k], frame[k + 1..];
    assert frame == head + [frame[k]] + tail;
    assert bad == head + [wrong] + tail;
    RegisterAppend(INITIAL, head + [frame[k]], tail);
    RegisterAppend(INITIAL, head + [wrong], tail);
    RegisterIsInjective(Register(INITIAL, head + [frame[k]]), Register(INITIAL, head + [wrong]), tail);
    assert (head + [wrong])[..k] == head && (head + [frame[k]])[..k] == head;
    hide Shifts, Shift;
    var p, q := Register(INITIAL, head).Xor(wrong), Register(INITIAL, head).Xor(frame[k]);
    ShiftByteIsInjective(p, q);
  }

  // ---------------------------------------------------------------- bit parity

  /** Parity of the number of one bits in a whole message. */
  function OddBits(data: seq<Byte>): bool {
    if data == [] then false else OddBits(data[..|data| - 1]) != data[|data| - 1].Odd()
  }

  lemma {:induction false} RegisterParity(crc: Byte, data: seq<Byte>)
    ensures Register(crc, data).Odd() <==> (crc.Odd() != OddBits(data))
  {
    if data == [] {
    } else {
      var n := |data| - 1;
      RegisterParity(crc, data[..n]);
      OddOfXor(Register(crc, data[..n]), data[n]);
      ShiftByteKeepsParity(Register(crc, data[..n]).Xor(data[n]));
    }
  }

  /** The checksum has the bit parity of the data it protects. */
  lemma ChecksumParity(data: seq<Byte>)
    ensures Checksum(data).Odd() == OddBits(data)
  {
    RegisterParity(INITIAL, data);
  }

  /** Any odd number of flipped bits, anywhere in data or checksum, is caught at every length. */
  lemma OddErrorIsCaught(frame: seq<Byte>, received: seq<Byte>)
    requires |frame| == |received| && Register(INITIAL, frame) == ZERO
    requires OddBits(XorAll(frame, received))
    ensures Register(INITIAL, received) != ZERO
  {
    RegisterIsLinear(INITIAL, INITIAL, frame, received);
    RegisterParity(ZERO, XorAll(frame, received));
  }

  // ---------------------------------------------------------------- the numbers meant

  /** The register as a number: shifting left doubles it and drops the ninth bit. */
  lemma ShiftInNumbers(x: Byte)
    ensures x.LeftShift().Value() == 2 * x.Value() % 256
    ensures x.b7 <==> x.Value() >= 128
    ensures POLYNOMIAL.Value() == 0x31 && INITIAL.Value() == 0xFF && ZERO.Value() == 0
    ensures Shift(x) == if x.Value() >= 128 then x.LeftShift().Xor(POLYNOMIAL) else x.LeftShift()
  {
  }

  /** The check value of the data sheet: the checksum of the bytes 0xBE and 0xEF is 0x92. */
  lemma CheckValue()
    ensures CHECK_DATA[0].Value() == 0xBE && CHECK_DATA[1].Value() == 0xEF
    ensures Checksum(CHECK_DATA).Value() == 0x92
  {
    var first, second := CHECK_DATA[0], CHECK_DATA[1];
    assert CHECK_DATA == [first, second] && [first][..0] == [] && [first, second][..1] == [first];
    assert Register(INITIAL, []) == INITIAL;
    assert Register(INITIAL, [first]) == ShiftByte(INITIAL.Xor(first));
    assert Checksum(CHECK_DATA) == ShiftByte(Register(INITIAL, [first]).Xor(second));
    FirstCheckByte();
    SecondCheckByte();
    hide Register, ShiftByte;
  }

  const CHECK_DATA: seq<Byte> := [Byte(true, false, true, true, true, true, true, false),
                                  Byte(true, true, true, false, true, true, true, true)]
  const AFTER_FIRST := Byte(false, false, false, false, true, true, false, false)

  lemma FirstCheckByte()
    ensures ShiftByte(INITIAL.Xor(CHECK_DATA[0])) == AFTER_FIRST
  {
    EightShifts(INITIAL.Xor(CHECK_DATA[0]));
    hide ShiftByte;
  }

  lemma SecondCheckByte()
    ensures ShiftByte(AFTER_FIRST.Xor(CHECK_DATA[1])) == Byte(true, false, false, true, false, false, true, false)
    ensures ShiftByte(AFTER_FIRST.Xor(CHECK_DATA[1])).Value() == 0x92
  {
    EightShifts(AFTER_FIRST.Xor(CHECK_DATA[1]));
    hide ShiftByte;
  }

  lemma EightShifts(x: Byte)
    ensures ShiftByte(x) == Shift(Shift(Shift(Shift(Shift(Shift(Shift(Shift(x))))))))
  {
    hide Shift;
    var a := Shift(x);
    var b := Shift(Shift(a));
    var c := Shift(Shift(b));
    assert Shifts(x, 1) == Shift(Shifts(x, 0)) == a;
    assert Shifts(x, 2) == Shift(a) && Shifts(x, 3) == b;
    assert Shifts(x, 4) == Shift(b) && Shifts(x, 5) == c;
    assert Shifts(x, 6) == Shift(c) && Shifts(x, 7) == Shift(Shift(c));
    assert Shifts(x, 8) == Shift(Shifts(x, 7));
  }
}

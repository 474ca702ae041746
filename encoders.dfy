/** Operand arithmetic of setSourceVoltage and setTPCOM: C integer division,
    the 16-bit operand type of writeRegister and the bytes actually sent. */
module Encoders {
  import opened SegDefs
  import opened Octets

  /** writeRegister's int16_t operand, as its 16 two's-complement bits. */
  type int16 = bv16

  /** The int16_t value -1, which writeRegister reads as "no operand". */
  const ABSENT: int16 := 0xFFFF

  /** The byte `(byte)v` that writeRegister sends for operand `v`. */
  function LowByte(v: int16): byte
  {
    (v & 0xFF) as byte
  }

  /** A byte passed as an int16_t operand (zero-extended). */
  function Widen(b: byte): int16
  {
    b as int16
  }

  /** C division, which truncates toward zero (Dafny's `/` is Euclidean). */
  function Quot(a: int, b: int): (q: int)
    requires b > 0
    ensures a >= 0 ==> q == a / b
    ensures a <= 0 ==> q == -((-a) / b)
  {
    if a >= 0 then a / b else -((-a) / b)
  }

  /** The low 16 bits of an int, which is all that survives the conversion of
      setSourceVoltage's int arithmetic to an int16_t operand. */
  function Low16(x: int): int16
  {
    (x % 0x10000) as int16
  }

  /** The step k = 2 * (v / 1000 - 8), modulo 2^16, that setSourceVoltage packs
      into both nibbles. */
  function SourceVoltageStep(v: int): int16
  {
    (Low16(Quot(v, 1000)) - 8) * 2
  }

  /** The operand setSourceVoltage(v) passes: `(k << 4) | k`, modulo 2^16. */
  function SourceVoltageOperand(v: int): int16
  {
    var k := SourceVoltageStep(v);
    (k << 4) | k
  }

  /** The byte setSourceVoltage(v) sends after the fixed operand 0x25. */
  function SourceVoltageByte(v: int): byte
  {
    LowByte(SourceVoltageOperand(v))
  }

  /** Reads the voltage magnitude, in volts, back from a source-voltage byte. */
  function SourceVoltageVolts(x: byte): int
  {
    (x & 0x0F) as int / 2 + 8
  }

  /** The magnitude setTPCOM sends: |v| / 30, truncated. */
  function TpcomMagnitude(v: int): nat
  {
    if v >= 0 then Quot(v, 30) else Quot(v, 30) * -1
  }

  /** Arduino's lowByte and highByte of a non-negative int. */
  function Lo(w: nat): byte { (w % 256) as byte }
  function Hi(w: nat): byte { (w / 256 % 256) as byte }

  /** The two operand bytes setTPCOM(v) sends: the little-endian halves of the
      magnitude, with the sign flag 0x04 or-ed into the high byte for v < 0. */
  function TpcomOperands(v: int): (byte, byte)
  {
    var w := TpcomMagnitude(v);
    if v >= 0 then (Lo(w), Hi(w)) else (Lo(w), Hi(w) | 4)
  }

  /** Reads the signed common-voltage step count back from the two bytes. */
  function TpcomSteps(lo: byte, hi: byte): int
  {
    var m := lo as int + 256 * (hi & 3) as int;
    if hi & 4 == 0 then m else -m
  }

  /** Values 13000, 15000 and 10000 mV encode as 0xAA, 0xEE and 0x44. */
  lemma SourceVoltageExamples()
    ensures SourceVoltageByte(13000) == 0xAA
    ensures SourceVoltageByte(15000) == 0xEE
    ensures SourceVoltageByte(10000) == 0x44
  {
    assert Quot(13000, 1000) == 13 && Quot(15000, 1000) == 15 && Quot(10000, 1000) == 10;
    assert Low16(13) == 13 by { assert 13 % 0x10000 == 13; }
    assert Low16(15) == 15 by { assert 15 % 0x10000 == 15; }
    assert Low16(10) == 10 by { assert 10 % 0x10000 == 10; }
  }

  /** In the device range 8..15 V both nibbles of the byte equal the step k,
      and the magnitude reads back from the byte. */
  lemma SourceVoltageNibbles(v: int)
    requires 8 <= Quot(v, 1000) <= 15
    ensures SourceVoltageByte(v) >> 4 == LowByte(SourceVoltageStep(v))
    ensures SourceVoltageByte(v) & 0x0F == LowByte(SourceVoltageStep(v))
    ensures SourceVoltageVolts(SourceVoltageByte(v)) == Quot(v, 1000)
  {
    var w := Quot(v, 1000);
    assert Low16(w) == w as int16 by { assert w % 0x10000 == w; }
    if w == 8 { } else if w == 9 { } else if w == 10 { } else if w == 11 { }
    else if w == 12 { } else if w == 13 { } else if w == 14 { } else { }
  }

  /** The step is even, so the operand is even: it never equals the -1 marker of
      an absent operand, and setSourceVoltage's byte is always sent. */
  lemma SourceVoltageNeverAbsent(v: int)
    ensures SourceVoltageOperand(v) & 1 == 0
    ensures SourceVoltageOperand(v) != ABSENT
  {
  }

  /** setTPCOM examples: 0, +15000 and -15000 mV. */
  lemma TpcomExamples()
    ensures TpcomOperands(0) == (0x00, 0x00)
    ensures TpcomOperands(15000) == (0xF4, 0x01)
    ensures TpcomOperands(-15000) == (0xF4, 0x05)
  {
    assert TpcomMagnitude(15000) == 500 && TpcomMagnitude(-15000) == 500 && TpcomMagnitude(0) == 0;
    assert Lo(500) == 0xF4 by { assert 500 % 256 == 0xF4; }
    assert Hi(500) == 0x01 by { assert 500 / 256 % 256 == 1; }
    assert Lo(0) == 0 && Hi(0) == 0;
  }

  /** A magnitude below 1024 splits into a low byte and a high byte below 4,
      so the sign flag 0x04 never collides with magnitude bits. */
  lemma TpcomMagnitudeBytes(w: nat)
    requires w < 1024
    ensures Hi(w) as int < 4 && Lo(w) as int + 256 * Hi(w) as int == w
  {
    ByteValue(w % 256);
    ByteValue(w / 256);
    assert w / 256 % 256 == w / 256;
  }

  /** With a high byte below 4, the decoder reads the magnitude from the two
      bytes, and negates it exactly when the sign flag is set. */
  lemma TpcomStepsBytes(lo: byte, h: byte)
    requires h as int < 4
    ensures TpcomSteps(lo, h) == lo as int + 256 * h as int
    ensures TpcomSteps(lo, h | 4) == -(lo as int + 256 * h as int)
  {
    assert h < 4;
    assert h & 4 == 0 && (h | 4) & 4 != 0;
    assert h & 3 == h && (h | 4) & 3 == h;
  }

  /** Within +-30720 mV the two bytes decode to v / 30 (truncated), sign
      included: the encoding loses only the division remainder. */
  lemma TpcomRoundTrip(v: int)
    requires -30720 < v < 30720
    ensures TpcomSteps(TpcomOperands(v).0, TpcomOperands(v).1) == Quot(v, 30)
  {
    var w := TpcomMagnitude(v);
    TpcomMagnitudeBytes(w);
    TpcomStepsBytes(Lo(w), Hi(w));
  }

  /** v and -v send the same low byte, and the high byte of -v is that of v with
      the sign flag set; below 30720 mV the flag bit is otherwise clear, so the
      two encodings differ exactly in bit 0x04 of the high byte. */
  lemma TpcomSignFlag(v: int)
    requires v > 0
    ensures TpcomOperands(-v).0 == TpcomOperands(v).0
    ensures TpcomOperands(-v).1 == TpcomOperands(v).1 | 4
    ensures v < 30720 ==> TpcomOperands(v).1 & 4 == 0 && TpcomOperands(-v).1 == TpcomOperands(v).1 + 4
  {
    assert TpcomMagnitude(-v) == TpcomMagnitude(v);
    if v < 30720 {
      TpcomMagnitudeBytes(TpcomMagnitude(v));
      var h := Hi(TpcomMagnitude(v));
      assert h < 4;
    }
  }

  /** Both TPCOM bytes, widened to int16_t, differ from the absent marker and
      narrow back to themselves. */
  lemma TpcomNeverAbsent(b: byte)
    ensures Widen(b) != ABSENT
    ensures LowByte(Widen(b)) == b
  {
  }
}

/** The bytes of the register transactions the driver sends on the bus. */
module Bus {
  import opened Octets
  import opened SegDefs
  import opened Encoders
  import opened Wire

  /** The bytes writeRegister sends for one int16_t operand: none for -1,
      otherwise its low byte. */
  function Operand(v: int16): (bs: seq<byte>)
    ensures |bs| == if v == ABSENT then 0 else 1
  {
    if v == ABSENT then [] else [LowByte(v)]
  }

  /** The transaction writeRegister(address, v1, v2, v3, v4) sends. */
  function RegisterBytes(address: byte, v1: int16, v2: int16, v3: int16, v4: int16): (bs: seq<byte>)
    ensures |bs| > 0 && bs[0] == address
  {
    [address] + Operand(v1) + Operand(v2) + Operand(v3) + Operand(v4)
  }

  /** The transaction for each number of leading operands present. */
  lemma RegisterBytesCases(address: byte, v1: int16, v2: int16, v3: int16, v4: int16)
    ensures var bs := RegisterBytes(address, v1, v2, v3, v4);
      (v1 == ABSENT && v2 == ABSENT && v3 == ABSENT && v4 == ABSENT ==> bs == [address]) &&
      (v1 != ABSENT && v2 == ABSENT && v3 == ABSENT && v4 == ABSENT ==> bs == [address, LowByte(v1)]) &&
      (v1 != ABSENT && v2 != ABSENT && v3 == ABSENT && v4 == ABSENT ==>
         bs == [address, LowByte(v1), LowByte(v2)]) &&
      (v1 != ABSENT && v2 != ABSENT && v3 != ABSENT && v4 == ABSENT ==>
         bs == [address, LowByte(v1), LowByte(v2), LowByte(v3)]) &&
      (v1 != ABSENT && v2 != ABSENT && v3 != ABSENT && v4 != ABSENT ==>
         bs == [address, LowByte(v1), LowByte(v2), LowByte(v3), LowByte(v4)])
  {
  }

  /** The address comes first; each present operand follows in slot order
      and each -1 is skipped on its own; a register write moves 1 to 5 bytes. */
  lemma RegisterBytesShape(address: byte, v1: int16, v2: int16, v3: int16, v4: int16)
    ensures var bs := RegisterBytes(address, v1, v2, v3, v4);
      1 <= |bs| <= 5 && bs[0] == address &&
      bs[1..] == Operand(v1) + Operand(v2) + Operand(v3) + Operand(v4) &&
      (v1 != ABSENT ==> bs[1] == LowByte(v1)) &&
      (v1 == ABSENT && v2 != ABSENT ==> bs[1] == LowByte(v2)) &&
      (v1 != ABSENT && v2 != ABSENT && v3 != ABSENT && v4 != ABSENT ==>
         bs == [address, LowByte(v1), LowByte(v2), LowByte(v3), LowByte(v4)]) &&
      (v1 == ABSENT && v2 == ABSENT && v3 == ABSENT && v4 == ABSENT ==> bs == [address])
  {
    var bs := RegisterBytes(address, v1, v2, v3, v4);
    var ops := Operand(v1) + Operand(v2) + Operand(v3) + Operand(v4);
    assert bs == [address] + ops;
    assert bs[1..] == ops;
    if v1 == ABSENT {
      assert ops == Operand(v2) + (Operand(v3) + Operand(v4));
    }
    RegisterBytesCases(address, v1, v2, v3, v4);
  }

  /** The transaction readRegister(address) sends: the address with the read
      flag, then the filler byte during which the reply is clocked in. */
  function ReadBytes(address: byte): seq<byte>
  {
    [address | REGREAD, 0xFF]
  }
}

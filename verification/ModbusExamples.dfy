/** The examples of the MODBUS Application Protocol V1.1b3: the requests of the master, byte for byte. */
module ModbusExamples {
  import opened Modbus

  /** Sections 6.1 to 6.4: coils 20 to 38, discrete inputs 197 to 218, registers 108 to 110, input register 9. */
  lemma Reads()
    ensures Encode(CoilsRead(19, 19)) == [0x01, 0x00, 0x13, 0x00, 0x13]
    ensures Encode(DiscreteRead(196, 22)) == [0x02, 0x00, 0xC4, 0x00, 0x16]
    ensures Encode(HoldingRead(107, 3)) == [0x03, 0x00, 0x6B, 0x00, 0x03]
    ensures Encode(InputRead(8, 1)) == [0x04, 0x00, 0x08, 0x00, 0x01]
  {
  }

  /** Sections 6.5 and 6.6: coil 173 is set, register 2 becomes 3. */
  lemma SingleWrites()
    ensures Encode(CoilWrite(172, true)) == [0x05, 0x00, 0xAC, 0xFF, 0x00]
    ensures Encode(RegisterWrite(1, 3)) == [0x06, 0x00, 0x01, 0x00, 0x03]
  {
  }

  lemma Further(b: bool, bs: seq<bool>, all: seq<bool>)
    requires all == [b] + bs
    ensures PackByte(all) == (if b then 1 else 0) + 2 * PackByte(bs)
  {
    assert all[1..] == bs;
  }

  lemma NoBits()
    ensures PackByte([]) == 0
  {
  }

  lemma FirstByte()
    ensures PackByte([true, false, true, true, false, false, true, true]) == 0xCD
  {
    hide PackByte;
    NoBits();
    Further(true, [], [true]);
    Further(true, [true], [true, true]);
    Further(false, [true, true], [false, true, true]);
    Further(false, [false, true, true], [false, false, true, true]);
    Further(true, [false, false, true, true], [true, false, false, true, true]);
    Further(true, [true, false, false, true, true], [true, true, false, false, true, true]);
    Further(false, [true, true, false, false, true, true], [false, true, true, false, false, true, true]);
    Further(true, [false, true, true, false, false, true, true], [true, false, true, true, false, false, true, true]);
  }

  lemma SecondByte()
    ensures PackByte([true, false]) == 0x01
  {
    hide PackByte;
    NoBits();
    Further(false, [], [false]);
    Further(true, [false], [true, false]);
  }

  /** Section 6.11: ten coils from number 20 on are written. */
  lemma CoilsWritten()
    ensures Encode(CoilsWrite(19, [true, false, true, true, false, false, true, true, true, false]))
         == [0x0F, 0x00, 0x13, 0x00, 0x0A, 0x02, 0xCD, 0x01]
  {
    hide PackByte, PackBits;
    var bits := [true, false, true, true, false, false, true, true, true, false];
    FirstByte();
    SecondByte();
    assert bits[..8] == [true, false, true, true, false, false, true, true] && bits[8..] == [true, false];
    PackBitsFirst(bits);
    PackBitsFirst(bits[8..]);
    assert PackBits(bits) == [0xCD, 0x01];
  }

  lemma OneMore(vs: seq<word>, v: word, all: seq<word>)
    requires all == vs + [v]
    ensures RegBytes(all) == RegBytes(vs) + [Hi(v), Lo(v)]
  {
    assert all[..|all| - 1] == vs;
  }

  lemma NoRegisters()
    ensures RegBytes([]) == []
  {
  }

  /** Section 6.12: two registers from number 2 on are written. */
  lemma RegistersWritten()
    ensures Encode(RegistersWrite(1, [0x000A, 0x0102])) == [0x10, 0x00, 0x01, 0x00, 0x02, 0x04, 0x00, 0x0A, 0x01, 0x02]
  {
    hide RegBytes;
    NoRegisters();
    OneMore([], 0x000A, [0x000A]);
    OneMore([0x000A], 0x0102, [0x000A, 0x0102]);
  }

  lemma SameThree()
    ensures RegBytes([0x00FF, 0x00FF, 0x00FF]) == [0x00, 0xFF, 0x00, 0xFF, 0x00, 0xFF]
  {
    hide RegBytes;
    NoRegisters();
    OneMore([], 0x00FF, [0x00FF]);
    OneMore([0x00FF], 0x00FF, [0x00FF, 0x00FF]);
    OneMore([0x00FF, 0x00FF], 0x00FF, [0x00FF, 0x00FF, 0x00FF]);
  }

  /** Section 6.17: six registers from number 4 on are read when three from number 15 on have been written. */
  lemma ReadAndWritten()
    ensures Encode(RegistersReadWrite(14, [0x00FF, 0x00FF, 0x00FF], 3, 6))
         == [0x17, 0x00, 0x03, 0x00, 0x06, 0x00, 0x0E, 0x00, 0x03, 0x06, 0x00, 0xFF, 0x00, 0xFF, 0x00, 0xFF]
  {
    hide RegBytes;
    SameThree();
  }
}

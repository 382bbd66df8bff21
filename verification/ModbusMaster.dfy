/** The master's side as it runs: the encoders that fill the transmit buffer, and the check of a response.
*/
module ModbusMaster {
  import opened Modbus

  const MODBUS_MASTER_MAX_BUFFER_SIZE: nat := 512

  // ---------- bits, one by one ----------

  function Pow2(k: nat): (r: nat)
    ensures r > 0
  {
    if k == 0 then 1 else 2 * Pow2(k - 1)
  }

  /** Bitwise or. */
  function Or(a: nat, b: nat): nat
    decreases a + b
  {
    if a == 0 && b == 0 then 0 else 2 * Or(a / 2, b / 2) + if a % 2 == 1 || b % 2 == 1 then 1 else 0
  }

  lemma {:induction false} OrZero(a: nat)
    ensures Or(a, 0) == a
  {
    if a > 0 { OrZero(a / 2); }
  }

  /** A bit above all others is added. */
  lemma {:induction false} OrNewBit(a: nat, k: nat)
    requires a < Pow2(k)
    ensures Or(a, Pow2(k)) == a + Pow2(k)
  {
    if k == 0 {
      assert Or(0, 0) == 0;
      assert Or(0, 1) == 2 * Or(0, 0) + 1;
    } else {
      OrNewBit(a / 2, k - 1);
      assert Pow2(k) / 2 == Pow2(k - 1) && Pow2(k) % 2 == 0;
    }
  }

  lemma {:induction false} PackByteSmall(bs: seq<bool>)
    ensures PackByte(bs) < Pow2(|bs|)
  {
    if bs != [] { PackByteSmall(bs[1..]); }
  }

  /** The next bit of a byte is set by an or. */
  lemma {:induction false} PackByteAppend(bs: seq<bool>, b: bool)
    ensures PackByte(bs + [b]) == if b then Or(PackByte(bs), Pow2(|bs|)) else PackByte(bs)
  {
    PackByteSmall(bs);
    OrNewBit(PackByte(bs), |bs|);
    PackByteSum(bs, b);
  }

  lemma {:induction false} PackByteSum(bs: seq<bool>, b: bool)
    ensures PackByte(bs + [b]) == PackByte(bs) + if b then Pow2(|bs|) else 0
  {
    if bs == [] {
      assert [b][1..] == [] && bs + [b] == [b];
    } else {
      assert (bs + [b])[1..] == bs[1..] + [b];
      PackByteSum(bs[1..], b);
    }
  }

  lemma Slice(bs: seq<bool>, o: nat, a: nat, b: nat)
    requires a <= b && o + b <= |bs|
    ensures bs[o..][a..b] == bs[o + a..o + b]
  {
  }

  /** Byte `i` of a bit string holds the bits from 8 * i on. */
  lemma {:induction false} PackBitsAt(bs: seq<bool>, i: nat)
    requires 8 * i < |bs|
    ensures PackBits(bs)[i] == PackByte(bs[8 * i..if 8 * i + 8 < |bs| then 8 * i + 8 else |bs|])
    decreases i
  {
    hide PackBits, PackByte;
    PackBitsFirst(bs);
    if |bs| <= 8 {
      assert bs[0..|bs|] == bs;
    } else if i > 0 {
      PackBitsAt(bs[8..], i - 1);
      var e := if 8 * i + 8 < |bs| then 8 * i + 8 else |bs|;
      Slice(bs, 8, 8 * (i - 1), e - 8);
      assert ([PackByte(bs[..8])] + PackBits(bs[8..]))[i] == PackBits(bs[8..])[i - 1];
    }
  }

  lemma RegBytesAppend(vs: seq<word>, v: word)
    ensures RegBytes(vs + [v]) == RegBytes(vs) + [Hi(v), Lo(v)]
  {
    var w := vs + [v];
    assert w[..|w| - 1] == vs;
  }

  lemma NextRegBytes(vs: seq<word>, i: nat)
    requires i < |vs|
    ensures RegBytes(vs[..i + 1]) == RegBytes(vs[..i]) + [Hi(vs[i]), Lo(vs[i])]
  {
    hide RegBytes, Hi, Lo;
    assert vs[..i + 1] == vs[..i] + [vs[i]];
    RegBytesAppend(vs[..i], vs[i]);
  }

  lemma NoRegBytes()
    ensures RegBytes([]) == []
  {
  }

  // ---------- the master ----------

  class MasterCtx {
    const txBuf: array<byte>
    var txNdx: nat
    const pduOffset: nat
    var reqFunc: byte
    var reqSlave: byte
    var reqRegAddr: word
    var reqNb: word
    var reqValue: word

    /** `pduOffset` is 1 for a serial line and 7 for TCP. */
    constructor (pduOffset: nat)
      requires pduOffset <= 7
      ensures Ok() && this.pduOffset == pduOffset && fresh(txBuf)
    {
      txBuf := new byte[MODBUS_MASTER_MAX_BUFFER_SIZE];
      this.pduOffset := pduOffset;
      txNdx, reqFunc, reqSlave, reqRegAddr, reqNb, reqValue := pduOffset, 0, 0, 0, 0, 0;
    }

    predicate Ok()
      reads this
    {
      txBuf.Length == MODBUS_MASTER_MAX_BUFFER_SIZE && pduOffset <= 7 && pduOffset <= txNdx <= txBuf.Length
    }

    /** The PDU in the transmit buffer. */
    function Pdu(): seq<byte>
      reads this, txBuf
      requires Ok()
    {
      txBuf[pduOffset..txNdx]
    }

    function Remembered(): Expect
      reads this
    {
      Expect(reqFunc, reqRegAddr, reqNb, reqValue)
    }

    /** The request is in the buffer and what it needs is remembered. */
    ghost predicate Holds(r: Request, slave: byte, stale: word)
      reads this, txBuf
    {
      Ok() && Encodable(r) && Pdu() == Encode(r) && Remembered() == Expected(r, stale) && reqSlave == slave
    }

    /** Appends a byte: tx_buf[tx_ndx++] = b. */
    method Append(b: byte)
      requires Ok() && txNdx < txBuf.Length
      modifies this`txNdx, txBuf
      ensures Ok() && Pdu() == old(Pdu()) + [b] && txNdx == old(txNdx) + 1
    {
      txBuf[txNdx] := b;
      txNdx := txNdx + 1;
      assert txBuf[pduOffset..txNdx] == txBuf[pduOffset..txNdx - 1] + [b];
    }

    lemma NoPdu()
      requires Ok() && txNdx == pduOffset
      ensures Pdu() == []
    {
    }

    /** mb_master_fill_io_status_req */
    method FillIoStatusReq(func: byte, regAddr: word, nbOrV: word)
      requires Ok()
      modifies this`txNdx, txBuf
      ensures Ok() && Pdu() == Head(func, regAddr, nbOrV) && txNdx == pduOffset + 5
    {
      hide Hi, Lo, Pdu;
      txNdx := pduOffset;
      NoPdu();
      Append(func);
      Append(Hi(regAddr));
      Append(Lo(regAddr));
      Append(Hi(nbOrV));
      Append(Lo(nbOrV));
    }

    method Remember(func: byte, slave: byte, regAddr: word, nb: word)
      modifies this`reqFunc, this`reqSlave, this`reqRegAddr, this`reqNb
      ensures Remembered() == Expect(func, regAddr, nb, reqValue) && reqSlave == slave
    {
      reqFunc, reqSlave, reqRegAddr, reqNb := func, slave, regAddr, nb;
    }

    /** mb_master_read_coils_req */
    method ReadCoilsReq(slave: byte, regAddr: word, nb: word)
      requires Ok()
      modifies this, txBuf
      ensures Holds(CoilsRead(regAddr, nb), slave, old(reqValue))
    {
      hide Head;
      Remember(READ_COILS, slave, regAddr, nb);
      FillIoStatusReq(READ_COILS, regAddr, nb);
    }

    /** mb_master_read_discrete_inputs */
    method ReadDiscreteInputs(slave: byte, regAddr: word, nb: word)
      requires Ok()
      modifies this, txBuf
      ensures Holds(DiscreteRead(regAddr, nb), slave, old(reqValue))
    {
      hide Head;
      Remember(READ_DISCRETE_INPUTS, slave, regAddr, nb);
      FillIoStatusReq(READ_DISCRETE_INPUTS, regAddr, nb);
    }

    /** mb_master_read_holding_registers */
    method ReadHoldingRegisters(slave: byte, regAddr: word, nb: word)
      requires Ok()
      modifies this, txBuf
      ensures Holds(HoldingRead(regAddr, nb), slave, old(reqValue))
    {
      hide Head;
      Remember(READ_HOLDING_REGISTER, slave, regAddr, nb);
      FillIoStatusReq(READ_HOLDING_REGISTER, regAddr, nb);
    }

    /** mb_master_read_input_registers */
    method ReadInputRegisters(slave: byte, regAddr: word, nb: word)
      requires Ok()
      modifies this, txBuf
      ensures Holds(InputRead(regAddr, nb), slave, old(reqValue))
    {
      hide Head;
      Remember(READ_INPUT_REGISTER, slave, regAddr, nb);
      FillIoStatusReq(READ_INPUT_REGISTER, regAddr, nb);
    }

    /** mb_master_write_single_coil */
    method WriteSingleCoil(slave: byte, regAddr: word, value: byte)
      requires Ok()
      modifies this, txBuf
      ensures Holds(CoilWrite(regAddr, value != 0), slave, old(reqValue))
    {
      hide Head;
      Remember(WRITE_SINGLE_COIL, slave, regAddr, 1);
      reqValue := if value != 0 then 0xFF00 else 0;
      FillIoStatusReq(WRITE_SINGLE_COIL, regAddr, if value != 0 then 0xFF00 else 0);
    }

    /** mb_master_write_single_register */
    method WriteSingleRegister(slave: byte, regAddr: word, value: word)
      requires Ok()
      modifies this, txBuf
      ensures Holds(RegisterWrite(regAddr, value), slave, old(reqValue))
    {
      hide Head;
      Remember(WRITE_REGISTER, slave, regAddr, 1);
      reqValue := value;
      FillIoStatusReq(WRITE_REGISTER, regAddr, value);
    }

    method AppendWord(v: word)
      requires Ok() && txNdx + 2 <= txBuf.Length
      modifies this`txNdx, txBuf
      ensures Ok() && Pdu() == old(Pdu()) + [Hi(v), Lo(v)] && txNdx == old(txNdx) + 2
    {
      hide Hi, Lo, Pdu;
      Append(Hi(v));
      Append(Lo(v));
    }

    /** The loop over the registers of a request, high byte first. */
    method AppendRegisters(values: seq<word>)
      requires Ok() && txNdx + 2 * |values| <= txBuf.Length
      modifies this`txNdx, txBuf
      ensures Ok() && Pdu() == old(Pdu()) + RegBytes(values)
    {
      hide Hi, Lo, Pdu, RegBytes;
      ghost var head, at := Pdu(), txNdx;
      NoRegBytes();
      var i := 0;
      while i < |values|
        invariant i <= |values| && Ok() && txNdx == at + 2 * i && Pdu() == head + RegBytes(values[..i])
      {
        NextRegBytes(values, i);
        AppendWord(values[i]);
        i := i + 1;
      }
      assert values[..i] == values;
    }

    /** mb_master_write_multiple_registers */
    method WriteMultipleRegisters(slave: byte, regAddr: word, values: seq<word>)
      requires Ok() && |values| < 65536 && pduOffset + |Encode(RegistersWrite(regAddr, values))| <= txBuf.Length
      modifies this, txBuf
      ensures Holds(RegistersWrite(regAddr, values), slave, old(reqValue))
    {
      hide Head, RegBytes, RegByteCount;
      var nb := |values|;
      Remember(WRITE_MULTIPLE_REGISTERS, slave, regAddr, nb);
      FillIoStatusReq(WRITE_MULTIPLE_REGISTERS, regAddr, nb);
      Append(RegByteCount(nb));
      AppendRegisters(values);
    }

    /** The five bytes about the registers to write. */
    method AppendWritePart(writeAddr: word, nbWrite: word)
      requires Ok() && txNdx + 5 <= txBuf.Length
      modifies this`txNdx, txBuf
      ensures Ok() && txNdx == old(txNdx) + 5
      ensures Pdu() == old(Pdu()) + [Hi(writeAddr), Lo(writeAddr), Hi(nbWrite), Lo(nbWrite), RegByteCount(nbWrite)]
    {
      hide RegByteCount, Hi, Lo, Pdu;
      Append(Hi(writeAddr));
      Append(Lo(writeAddr));
      Append(Hi(nbWrite));
      Append(Lo(nbWrite));
      Append(RegByteCount(nbWrite));
    }

    /** mb_master_write_and_read_registers */
    method WriteAndReadRegisters(slave: byte, writeAddr: word, values: seq<word>, readAddr: word, nbRead: word)
      requires Ok() && |values| < 65536
      requires pduOffset + |Encode(RegistersReadWrite(writeAddr, values, readAddr, nbRead))| <= txBuf.Length
      modifies this, txBuf
      ensures Holds(RegistersReadWrite(writeAddr, values, readAddr, nbRead), slave, old(reqValue))
    {
      hide Head, RegBytes, RegByteCount, Hi, Lo;
      var nbWrite := |values|;
      Remember(READWRITE_MULTIPLE_REGISTERS, slave, readAddr, nbRead);
      FillIoStatusReq(READWRITE_MULTIPLE_REGISTERS, readAddr, nbRead);
      AppendWritePart(writeAddr, nbWrite);
      AppendRegisters(values);
    }

    /** One byte of coils: bit after bit is set in tx_buf[tx_ndx]. */
    method PackOne(values: seq<bool>, pos0: nat) returns (pos: nat)
      requires Ok() && txNdx < txBuf.Length && pos0 < |values|
      modifies txBuf
      ensures Ok() && txBuf[..txNdx] == old(txBuf[..txNdx])
      ensures pos == (if pos0 + 8 < |values| then pos0 + 8 else |values|)
      ensures txBuf[txNdx] == PackByte(values[pos0..pos])
    {
      hide PackByte, Or, Pow2;
      pos := pos0;
      var bit := 0;
      txBuf[txNdx] := 0;
      NoBits(values[pos0..pos0]);
      while bit < 8 && pos < |values|
        invariant bit <= 8 && pos == pos0 + bit <= |values| && txBuf[..txNdx] == old(txBuf[..txNdx])
        invariant txBuf[txNdx] == PackByte(values[pos0..pos])
      {
        PackByteAppend(values[pos0..pos], values[pos]);
        assert values[pos0..pos + 1] == values[pos0..pos] + [values[pos]];
        if values[pos] { txBuf[txNdx] := Or(txBuf[txNdx], Pow2(bit)); }
        bit, pos := bit + 1, pos + 1;
      }
    }

    /** The loop over the coils of a request. */
    method AppendCoils(values: seq<bool>, byteCount: byte)
      requires Ok() && txNdx + byteCount <= txBuf.Length && byteCount <= (|values| + 7) / 8
      modifies this`txNdx, txBuf
      ensures Ok() && Pdu() == old(Pdu()) + PackBits(values)[..byteCount]
    {
      hide PackByte, PackBits;
      ghost var head, at := Pdu(), txNdx;
      var i, pos := 0, 0;
      while i < byteCount
        invariant i <= byteCount && Ok() && txNdx == at + i && Pdu() == head + PackBits(values)[..i]
        invariant i < byteCount ==> pos == 8 * i < |values|
      {
        PackBitsAt(values, i);
        pos := PackOne(values, pos);
        assert txBuf[pduOffset..txNdx + 1] == txBuf[..txNdx][pduOffset..] + [txBuf[txNdx]];
        assert txBuf[..txNdx][pduOffset..] == txBuf[pduOffset..txNdx];
        assert PackBits(values)[..i + 1] == PackBits(values)[..i] + [PackBits(values)[i]];
        txNdx, i := txNdx + 1, i + 1;
      }
    }

    /** mb_master_write_multiple_coils */
    method WriteMultipleCoils(slave: byte, regAddr: word, values: seq<bool>)
      requires Ok() && |values| < 65536 && pduOffset + |Encode(CoilsWrite(regAddr, values))| <= txBuf.Length
      modifies this, txBuf
      ensures Holds(CoilsWrite(regAddr, values), slave, old(reqValue))
    {
      hide Head, PackBits, Encode, CoilByteCount;
      CoilsText(regAddr, values);
      var nb := |values|;
      Remember(WRITE_MULTIPLE_COILS, slave, regAddr, nb);
      FillIoStatusReq(WRITE_MULTIPLE_COILS, regAddr, nb);
      var byteCount := CoilByteCount(nb);
      Append(byteCount);
      AppendCoils(values, byteCount);
    }
  }

  lemma CoilsText(addr: word, bits: seq<bool>)
    requires |bits| < 65536
    ensures CoilByteCount(|bits|) <= |PackBits(bits)|
    ensures Encode(CoilsWrite(addr, bits))
         == Head(WRITE_MULTIPLE_COILS, addr, |bits|) + [CoilByteCount(|bits|)] + PackBits(bits)[..CoilByteCount(|bits|)]
  {
    hide Head, PackBits;
  }

  lemma NoBits(bs: seq<bool>)
    requires bs == []
    ensures PackByte(bs) == 0
  {
  }
}

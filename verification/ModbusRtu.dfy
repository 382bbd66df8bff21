/** Modbus over a serial line: how the slave collects a frame, the CRC gate, and the frames that master
  and slave send.
*/
module ModbusRtu {
  import opened Modbus
  import opened ModbusEndToEnd
  import opened ModbusSlave
  import opened ModbusMaster
  import Crc

  const MB_SER_RTU_PDU_SIZE_MIN: nat := 4
  const MB_SER_RTU_PDU_SIZE_MAX: nat := 256
  /** A read from the serial line gives at most as many bytes as rx_bounce_buf has. */
  const RX_BOUNCE: nat := 128

  // ---------- bytes as numbers and as bits, by their halves ----------

  function Nibble(n: nat): bv8
    requires n < 16
  {
    n as bv8
  }

  /** High and low half together. */
  function Halves(h: bv8, l: bv8): bv8 { (h << 4) | l }

  function HighHalf(x: bv8): bv8 { x >> 4 }

  function LowHalf(x: bv8): bv8 { x & 0xF }

  function Octet(b: byte): bv8 { Halves(Nibble(b / 16), Nibble(b % 16)) }

  function Number(x: bv8): (b: byte)
  {
    HalfBounds(x);
    16 * (HighHalf(x) as int) + LowHalf(x) as int
  }

  lemma HalfBounds(x: bv8)
    ensures HighHalf(x) as int < 16 && LowHalf(x) as int < 16
  {
  }

  lemma NibbleBack(n: nat)
    requires n < 16
    ensures Nibble(n) as int == n && Nibble(n) < 16
  {
  }

  lemma NibbleAgain(x: bv8)
    requires x as int < 16
    ensures Nibble(x as int) == x
  {
  }

  lemma HalvesBack(h: bv8, l: bv8)
    requires h < 16 && l < 16
    ensures HighHalf(Halves(h, l)) == h && LowHalf(Halves(h, l)) == l
  {
  }

  lemma HalvesTogether(x: bv8)
    ensures Halves(HighHalf(x), LowHalf(x)) == x
  {
  }

  lemma NumberOctet(x: bv8)
    ensures Octet(Number(x)) == x
  {
    hide Nibble, Halves, HighHalf, LowHalf;
    HalfBounds(x);
    NibbleAgain(HighHalf(x));
    NibbleAgain(LowHalf(x));
    HalvesTogether(x);
  }

  lemma OctetNumber(b: byte)
    ensures Number(Octet(b)) == b
  {
    hide Nibble, Halves, HighHalf, LowHalf;
    NibbleBack(b / 16);
    NibbleBack(b % 16);
    HalvesBack(Nibble(b / 16), Nibble(b % 16));
  }

  function Octets(s: seq<byte>): (r: seq<bv8>)
    ensures |r| == |s| && forall i :: 0 <= i < |s| ==> r[i] == Octet(s[i])
  {
    seq(|s|, i requires 0 <= i < |s| => Octet(s[i]))
  }

  /** The CRC of bytes, as the two bytes that are sent. */
  function CrcLo(s: seq<byte>): byte { Number(Crc.LowByte(Crc.Crc16(Octets(s)))) }

  function CrcHi(s: seq<byte>): byte { Number(Crc.HighByte(Crc.Crc16(Octets(s)))) }

  predicate CrcZero(s: seq<byte>) { Crc.Crc16(Octets(s)) == 0 }

  /** A frame: address, PDU and CRC. */
  function Frame0(addr: byte, pdu: seq<byte>): seq<byte> { [addr] + pdu }

  function RtuFrame(addr: byte, pdu: seq<byte>): (f: seq<byte>)
    ensures |f| == |pdu| + 3
  {
    Frame0(addr, pdu) + [CrcLo(Frame0(addr, pdu)), CrcHi(Frame0(addr, pdu))]
  }

  /** A frame passes the gate exactly if it ends in the CRC of the rest. */
  lemma Gate(s: seq<byte>, a: byte, b: byte)
    ensures CrcZero(s + [a, b]) <==> a == CrcLo(s) && b == CrcHi(s)
  {
    hide Octet, Number, Crc.LowByte, Crc.HighByte, Crc.Crc16;
    assert Octets(s + [a, b]) == Octets(s) + [Octet(a), Octet(b)];
    Crc.CrcGate(Octets(s), Octet(a), Octet(b));
    OctetNumber(a);
    OctetNumber(b);
    NumberOctet(Crc.LowByte(Crc.Crc16(Octets(s))));
    NumberOctet(Crc.HighByte(Crc.Crc16(Octets(s))));
  }

  lemma ExampleBytes()
    ensures Octet(0x02) == 0x02 && Octet(0x07) == 0x07
    ensures Number(Crc.LowByte(0x1241)) == 0x41 && Number(Crc.HighByte(0x1241)) == 0x12
  {
  }

  /** The example of section 6.2.2 of MODBUS over Serial Line V1.02: address 02, function 07, and the CRC, low byte
      first. */
  lemma FrameExample()
    ensures RtuFrame(0x02, [0x07]) == [0x02, 0x07, 0x41, 0x12]
  {
    hide Octet, Number, Crc.Crc16, Crc.LowByte, Crc.HighByte;
    ExampleBytes();
    Crc.StandardExample();
    assert Frame0(0x02, [0x07]) == [0x02, 0x07];
    assert Octets([0x02, 0x07]) == [0x02, 0x07];
  }

  method CrcOf(frame: array<byte>, len: nat) returns (crc: bv16)
    requires len <= frame.Length
    ensures crc == Crc.Crc16(Octets(frame[..len]))
  {
    hide Octet, Crc.Crc16;
    var octets := new bv8[len](i requires 0 <= i < len reads frame => Octet(frame[i]));
    crc := Crc.CalcCrc(octets, len);
    assert octets[..len] == Octets(frame[..len]);
  }

  // ---------- collecting ----------

  /** modbus_rtu_rx: too many bytes, and those collected so far are dropped. */
  function Collect(got: seq<byte>, chunk: seq<byte>): (r: seq<byte>)
    ensures |got| < MB_SER_RTU_PDU_SIZE_MAX && |chunk| <= RX_BOUNCE ==> |r| < MB_SER_RTU_PDU_SIZE_MAX
  {
    if |got| + |chunk| >= MB_SER_RTU_PDU_SIZE_MAX then chunk else got + chunk
  }

  function CollectAll(got: seq<byte>, chunks: seq<seq<byte>>): (r: seq<byte>)
    decreases |chunks|
  {
    if chunks == [] then got else CollectAll(Collect(got, chunks[0]), chunks[1..])
  }

  function Join(chunks: seq<seq<byte>>): seq<byte>
    decreases |chunks|
  {
    if chunks == [] then [] else chunks[0] + Join(chunks[1..])
  }

  /** What is collected is the end of what came in. */
  lemma {:induction false} CollectShortens(got: seq<byte>, chunks: seq<seq<byte>>)
    ensures |CollectAll(got, chunks)| <= |got| + |Join(chunks)|
    decreases |chunks|
  {
    if chunks != [] { CollectShortens(Collect(got, chunks[0]), chunks[1..]); }
  }

  lemma {:induction false} CollectsIff(got: seq<byte>, chunks: seq<seq<byte>>)
    requires |got| < MB_SER_RTU_PDU_SIZE_MAX
    requires forall i :: 0 <= i < |chunks| ==> |chunks[i]| <= RX_BOUNCE
    ensures CollectAll(got, chunks) == got + Join(chunks) <==> |got| + |Join(chunks)| < MB_SER_RTU_PDU_SIZE_MAX
    decreases |chunks|
  {
    if chunks == [] {
      assert got + [] == got;
    } else {
      var c := Collect(got, chunks[0]);
      assert (got + chunks[0]) + Join(chunks[1..]) == got + Join(chunks);
      if |got| + |chunks[0]| >= MB_SER_RTU_PDU_SIZE_MAX {
        CollectShortens(c, chunks[1..]);
      } else {
        CollectsIff(c, chunks[1..]);
      }
    }
  }

  // ---------- the slave ----------

  /** mb_rtu_start_handling_rx_frame and mb_rtu_handle_rx_frame: `n` bytes have been collected. */
  function RtuAnswer(d: Device, buf: seq<byte>, n: nat, my: byte): (r: (Device, seq<seq<byte>>))
    requires n < MB_SER_RTU_PDU_SIZE_MAX == |buf|
  {
    if n < MB_SER_RTU_PDU_SIZE_MIN || !CrcZero(buf[..n]) then (d, [])
    else if buf[0] == my || buf[0] == MB_ADDRESS_BROADCAST then
      var o := Respond(d, buf[1..], n - 3);
      (o.0, if buf[0] == MB_ADDRESS_BROADCAST then [] else [RtuFrame(buf[0], o.1)])
    else (d, [])
  }

  /** A frame that the slave `my` has to answer. */
  predicate ToMe(buf: seq<byte>, n: nat, my: byte)
    requires n < MB_SER_RTU_PDU_SIZE_MAX == |buf|
  {
    n >= MB_SER_RTU_PDU_SIZE_MIN && CrcZero(buf[..n]) && buf[0] == my != MB_ADDRESS_BROADCAST
  }

  /** A counter of type uint32_t that goes up if `c`. */
  function CountIf(count: nat, c: bool): nat { if c then (count + 1) % 0x1_0000_0000 else count }

  /** INC_ERR_CNT */
  function Saturate(count: nat): nat { if count < 0xFFFF then count + 1 else count }

  /** What the counters show after `n` events. */
  function Shown(n: nat): nat { if n == 0 then 0 else CountIf(Shown(n - 1), true) }

  function ErrorsShown(n: nat): nat { if n == 0 then 0 else Saturate(ErrorsShown(n - 1)) }

  lemma NextCount(n: nat)
    ensures CountIf(n % 0x1_0000_0000, true) == (n + 1) % 0x1_0000_0000
  {
    var a, r := n / 0x1_0000_0000, n % 0x1_0000_0000;
    assert n + 1 == a * 0x1_0000_0000 + (r + 1);
  }

  /** Frame counters start again after 2^32. */
  lemma {:induction false} CountersShow(n: nat)
    ensures Shown(n) == n % 0x1_0000_0000
  {
    hide CountIf;
    if n > 0 {
      CountersShow(n - 1);
      NextCount(n - 1);
    }
  }

  /** Error counters stay at 65535. */
  lemma {:induction false} ErrorCountersShow(n: nat)
    ensures ErrorsShown(n) == if n < 65535 then n else 65535
  {
    if n > 0 { ErrorCountersShow(n - 1); }
  }

  class RtuSlave {
    const dev: RefDevice
    const myAddress: byte
    const dataBuffer: array<byte>
    var dataNdx: nat
    var rxBufferOverflow: nat
    var rxShortFrame: nat
    var rxCrcError: nat
    var rxFrames: nat
    var myFrames: nat
    var reqFails: nat
    var txFrames: nat
    var written: seq<seq<byte>>       // what went to the serial line

    constructor (dev: RefDevice, myAddress: byte)
      ensures Ok() && this.dev == dev && this.myAddress == myAddress && dataNdx == 0 && written == [] && fresh(dataBuffer)
    {
      this.dev, this.myAddress := dev, myAddress;
      dataBuffer := new byte[MB_SER_RTU_PDU_SIZE_MAX];
      dataNdx, written := 0, [];
      rxBufferOverflow, rxShortFrame, rxCrcError, rxFrames, myFrames, reqFails, txFrames := 0, 0, 0, 0, 0, 0, 0;
    }

    predicate Ok()
      reads this
    {
      dataBuffer.Length == MB_SER_RTU_PDU_SIZE_MAX && dataNdx < MB_SER_RTU_PDU_SIZE_MAX
    }

    /** What has been collected. */
    function Got(): seq<byte>
      reads this, dataBuffer
      requires Ok()
    {
      dataBuffer[..dataNdx]
    }

    /** The loop over the bytes of a read. */
    method Take(rxBuf: array<byte>, len: nat)
      requires Ok() && len <= rxBuf.Length && dataNdx + len <= dataBuffer.Length && rxBuf != dataBuffer
      modifies dataBuffer
      ensures dataBuffer[..dataNdx] == old(dataBuffer[..dataNdx]) && dataBuffer[dataNdx..dataNdx + len] == rxBuf[..len]
    {
      for i := 0 to len
        modifies dataBuffer
        invariant dataBuffer[..dataNdx] == old(dataBuffer[..dataNdx]) && dataBuffer[dataNdx..dataNdx + i] == rxBuf[..i]
      {
        dataBuffer[dataNdx + i] := rxBuf[i];
      }
    }

    /** modbus_rtu_rx, without the timer */
    method Rx(rxBuf: array<byte>, len: nat)
      requires Ok() && len <= rxBuf.Length && len <= RX_BOUNCE && rxBuf != dataBuffer
      modifies this`dataNdx, this`rxBufferOverflow, dataBuffer
      ensures Ok() && Got() == Collect(old(Got()), rxBuf[..len])
      ensures rxBufferOverflow == if old(dataNdx) + len >= MB_SER_RTU_PDU_SIZE_MAX then Saturate(old(rxBufferOverflow)) else old(rxBufferOverflow)
    {
      if dataNdx + len >= MB_SER_RTU_PDU_SIZE_MAX {
        dataNdx := 0;
        rxBufferOverflow := Saturate(rxBufferOverflow);
      }
      ghost var got, at := dataBuffer[..dataNdx], dataNdx;
      Take(rxBuf, len);
      dataNdx := dataNdx + len;
      assert dataBuffer[..dataNdx] == dataBuffer[..at] + dataBuffer[at..at + len];
    }

    /** Finishes the frame around the response in the buffer, and sends it. */
    method Send(addr: byte, rspLen: nat, takes: bool)
      requires Ok() && rspLen <= MB_PDU_SIZE_MAX
      modifies this`written, this`txFrames, dataBuffer
      ensures written == old(written) + if takes then [RtuFrame(addr, old(dataBuffer[1..1 + rspLen]))] else []
      ensures txFrames == CountIf(old(txFrames), takes)
    {
      hide Crc.Crc16;
      ghost var rsp := dataBuffer[1..1 + rspLen];
      dataBuffer[0] := addr;
      var ndx := 1 + rspLen;
      assert dataBuffer[1..ndx] == rsp && dataBuffer[..ndx] == Frame0(addr, rsp);
      var crc := CrcOf(dataBuffer, ndx);
      dataBuffer[ndx] := Number(Crc.LowByte(crc));
      dataBuffer[ndx + 1] := Number(Crc.HighByte(crc));
      assert dataBuffer[..ndx] == Frame0(addr, rsp);
      assert dataBuffer[..ndx + 2] == dataBuffer[..ndx] + [dataBuffer[ndx], dataBuffer[ndx + 1]];
      if takes {
        written := written + [dataBuffer[..ndx + 2]];
        txFrames := CountIf(txFrames, true);
      }
    }

    /** mb_rtu_handle_rx_frame */
    method HandleRxFrame(takes: bool)
      requires Ok() && dataNdx >= MB_SER_RTU_PDU_SIZE_MIN && CrcZero(dataBuffer[..dataNdx])
      modifies this, dev, dataBuffer
      ensures Ok() && dataNdx == 0
      ensures dev.state == RtuAnswer(old(dev.state), old(dataBuffer[..]), old(dataNdx), myAddress).0
      ensures written == old(written) + if takes then RtuAnswer(old(dev.state), old(dataBuffer[..]), old(dataNdx), myAddress).1 else []
      ensures myFrames == CountIf(old(myFrames), ToMe(old(dataBuffer[..]), old(dataNdx), myAddress))
      ensures txFrames == CountIf(old(txFrames), takes && ToMe(old(dataBuffer[..]), old(dataNdx), myAddress))
      ensures reqFails == CountIf(old(reqFails), ToMe(old(dataBuffer[..]), old(dataNdx), myAddress)
                                  && Dispatch(old(dev.state), old(dataBuffer[1..]), old(dataNdx) - 3).status != 0)
      ensures rxFrames == old(rxFrames) && rxCrcError == old(rxCrcError) && rxShortFrame == old(rxShortFrame)
    {
      hide Respond, Dispatch, CrcZero, RtuFrame;
      ghost var buf := dataBuffer[..];
      var addr, len := dataBuffer[0], dataNdx - 3;
      assert dataBuffer[1..] == buf[1..] && dataBuffer[..dataNdx] == buf[..dataNdx];
      if addr == myAddress || addr == MB_ADDRESS_BROADCAST {
        ResponseFits(dev.state, buf[1..], len);
        var ok, rspLen := RequestRx(dev, dataBuffer, 1, len);
        if addr != MB_ADDRESS_BROADCAST {
          myFrames := CountIf(myFrames, true);
          if !ok { reqFails := CountIf(reqFails, true); }
          Send(addr, rspLen, takes);
        }
      }
      dataNdx := 0;
    }

    /** mb_rtu_start_handling_rx_frame, when the line has been quiet for t3.5 */
    method StartHandlingRxFrame(takes: bool)
      requires Ok()
      modifies this, dev, dataBuffer
      ensures Ok() && dataNdx == 0
      ensures dev.state == RtuAnswer(old(dev.state), old(dataBuffer[..]), old(dataNdx), myAddress).0
      ensures written == old(written) + if takes then RtuAnswer(old(dev.state), old(dataBuffer[..]), old(dataNdx), myAddress).1 else []
      ensures myFrames == CountIf(old(myFrames), ToMe(old(dataBuffer[..]), old(dataNdx), myAddress))
      ensures txFrames == CountIf(old(txFrames), takes && ToMe(old(dataBuffer[..]), old(dataNdx), myAddress))
      ensures reqFails == CountIf(old(reqFails), ToMe(old(dataBuffer[..]), old(dataNdx), myAddress)
                                  && Dispatch(old(dev.state), old(dataBuffer[1..]), old(dataNdx) - 3).status != 0)
      ensures rxFrames == CountIf(old(rxFrames), true)
      ensures rxShortFrame == if 0 < old(dataNdx) < MB_SER_RTU_PDU_SIZE_MIN then Saturate(old(rxShortFrame)) else old(rxShortFrame)
      ensures rxCrcError == if old(dataNdx) >= MB_SER_RTU_PDU_SIZE_MIN && !CrcZero(old(dataBuffer[..dataNdx])) then Saturate(old(rxCrcError)) else old(rxCrcError)
    {
      hide Crc.Crc16, Respond, Dispatch, RtuFrame;
      rxFrames := CountIf(rxFrames, true);
      assert dataBuffer[..][..dataNdx] == dataBuffer[..dataNdx];
      if dataNdx == 0 { return; }
      if dataNdx < MB_SER_RTU_PDU_SIZE_MIN {
        rxShortFrame := Saturate(rxShortFrame);
        dataNdx := 0;
        return;
      }
      var crc := CrcOf(dataBuffer, dataNdx);
      if crc != 0 {
        rxCrcError := Saturate(rxCrcError);
        dataNdx := 0;
        return;
      }
      HandleRxFrame(takes);
    }
  }

  // ---------- the master ----------

  class RtuMaster {
    const ctx: MasterCtx
    var written: seq<seq<byte>>

    constructor ()
      ensures ctx.Ok() && ctx.pduOffset == 1 && written == []
    {
      ctx := new MasterCtx(1);
      written := [];
    }

    /** modbus_rtu_master_request */
    method Request(slave: byte, takes: bool)
      requires ctx.Ok() && ctx.pduOffset == 1 && ctx.txNdx + 2 <= ctx.txBuf.Length
      modifies this, ctx`txNdx, ctx.txBuf
      ensures ctx.Ok() && written == old(written) + if takes then [RtuFrame(slave, old(ctx.Pdu()))] else []
    {
      hide Crc.Crc16;
      var b := ctx.txBuf;
      ghost var pdu := ctx.Pdu();
      b[0] := slave;
      var n := ctx.txNdx;
      assert b[1..n] == pdu && b[..n] == Frame0(slave, pdu);
      var crc := CrcOf(b, n);
      b[n] := Number(Crc.LowByte(crc));
      b[n + 1] := Number(Crc.HighByte(crc));
      ctx.txNdx := n + 2;
      assert b[..n] == Frame0(slave, pdu) && b[..n + 2] == b[..n] + [b[n], b[n + 1]];
      if takes { written := written + [b[..ctx.txNdx]]; }
    }
  }

  // ---------- what goes over the line ----------

  lemma FrameCrc(addr: byte, pdu: seq<byte>)
    ensures CrcZero(RtuFrame(addr, pdu))
  {
    hide CrcZero, CrcLo, CrcHi;
    Gate(Frame0(addr, pdu), CrcLo(Frame0(addr, pdu)), CrcHi(Frame0(addr, pdu)));
  }

  lemma FrameAt(addr: byte, pdu: seq<byte>, buf: seq<byte>)
    requires RtuFrame(addr, pdu) <= buf && |buf| == MB_SER_RTU_PDU_SIZE_MAX
    ensures buf[0] == addr && buf[..|pdu| + 3] == RtuFrame(addr, pdu) && pdu <= buf[1..]
  {
    hide CrcLo, CrcHi;
    var f := RtuFrame(addr, pdu);
    assert buf[0] == f[0] && pdu == f[1..1 + |pdu|];
  }

  /** The parts of a frame. */
  lemma FrameParts(addr: byte, pdu: seq<byte>)
    ensures var f := RtuFrame(addr, pdu); f[0] == addr && f[1..|f| - 2] == pdu
  {
    hide CrcLo, CrcHi;
  }

  /** The one frame that the slave sends: its own address, a response that is as it should be, and a CRC that passes
      the gate. */
  ghost predicate GoodAnswer(d: Device, unit: byte, r: Request, f: seq<byte>, back: seq<byte>, stale: word)
    requires Encodable(r) && |back| >= MB_PDU_SIZE_MAX
  {
    && |f| >= 4 && f[0] == unit && CrcZero(f)
    && Answers(d, r, f[1..|f| - 2]) && Handled(d, r, (After(d, r), f[1..|f| - 2]), back, stale)
  }

  lemma AnswerGood(d: Device, unit: byte, r: Request, buf: seq<byte>, back: seq<byte>, stale: word)
    requires Encodable(r) && Encode(r) <= buf && Buffer(buf, |Encode(r)|) && |back| >= MB_PDU_SIZE_MAX
    ensures GoodAnswer(d, unit, r, RtuFrame(unit, Respond(d, buf, |Encode(r)|).1), back, stale)
    ensures Respond(d, buf, |Encode(r)|).0 == After(d, r)
  {
    hide RtuFrame, CrcZero, Respond, Encode, Handled, Answers, After;
    var o := Respond(d, buf, |Encode(r)|);
    EndToEnd(d, r, buf, back, stale);
    DeviceAfter(d, r, buf);
    ResponseFits(d, buf, |Encode(r)|);
    FrameCrc(unit, o.1);
    FrameParts(unit, o.1);
    assert o == (After(d, r), o.1);
  }

  /** What the slave does about a frame that passes the gate. */
  lemma RtuAnswerIs(d: Device, my: byte, unit: byte, pdu: seq<byte>, buf: seq<byte>)
    requires |buf| == MB_SER_RTU_PDU_SIZE_MAX && 1 <= |pdu| < MB_SER_RTU_PDU_SIZE_MAX - 3 && RtuFrame(unit, pdu) <= buf
    ensures pdu <= buf[1..] && Buffer(buf[1..], |pdu|)
    ensures var a, o := RtuAnswer(d, buf, |pdu| + 3, my), Respond(d, buf[1..], |pdu|);
      && a.0 == (if unit == my || unit == 0 then o.0 else d)
      && a.1 == if unit == my && unit != 0 then [RtuFrame(unit, o.1)] else []
  {
    hide RtuFrame, CrcZero, Respond;
    FrameAt(unit, pdu, buf);
    FrameCrc(unit, pdu);
  }

  /** A request from the line, to any unit: the device of the slave `my` changes as it should, and it sends one good
      answer if the request is for it alone, whatever the cut into chunks and whatever the buffer held. */
  lemma RtuTransaction(d: Device, my: byte, unit: byte, r: Request, chunks: seq<seq<byte>>, buf: seq<byte>, back: seq<byte>, stale: word)
    requires InRange(r) && |buf| == MB_SER_RTU_PDU_SIZE_MAX && |back| >= MB_PDU_SIZE_MAX
    requires forall i :: 0 <= i < |chunks| ==> |chunks[i]| <= RX_BOUNCE
    requires Encodable(r) && Join(chunks) == RtuFrame(unit, Encode(r)) && CollectAll([], chunks) <= buf
    ensures |CollectAll([], chunks)| == |Encode(r)| + 3 < MB_SER_RTU_PDU_SIZE_MAX
    ensures var a := RtuAnswer(d, buf, |CollectAll([], chunks)|, my);
      && a.0 == DeviceFor(d, unit, my, r)
      && if unit == my && unit != 0 then |a.1| == 1 && GoodAnswer(d, unit, r, a.1[0], back, stale) else a.1 == []
  {
    hide RtuFrame, CrcZero, Respond, RtuAnswer, Encode, After, InRange, GoodAnswer, Join, CollectAll;
    InRangeShort(r);
    CollectsIff([], chunks);
    assert [] + Join(chunks) == Join(chunks);
    RtuAnswerIs(d, my, unit, Encode(r), buf);
    AnswerGood(d, unit, r, buf[1..], back, stale);
  }

  /** A frame that was changed on the way within two adjacent bytes does nothing. */
  lemma CorruptedIgnored(d: Device, my: byte, f: seq<byte>, g: seq<byte>, i: nat, buf: seq<byte>)
    requires CrcZero(f) && |f| == |g| < MB_SER_RTU_PDU_SIZE_MAX == |buf| && g <= buf && f != g && i + 1 < |f|
    requires forall k :: 0 <= k < |f| && k != i && k != i + 1 ==> f[k] == g[k]
    ensures RtuAnswer(d, buf, |g|, my) == (d, [])
  {
    hide Crc.Crc16, Octet, Respond;
    OctetsDiffer(f, g);
    Crc.BurstDetected(Octets(f), Octets(g), i);
    assert buf[..|g|] == g;
  }

  lemma OctetsDiffer(f: seq<byte>, g: seq<byte>)
    requires |f| == |g| && f != g
    ensures Octets(f) != Octets(g)
  {
    hide Octet;
    var k :| 0 <= k < |f| && f[k] != g[k];
    OctetNumber(f[k]);
    OctetNumber(g[k]);
    assert Octets(f)[k] != Octets(g)[k];
  }

  /** The longest frame that the standard allows: of its two halves only the second is kept. */
  lemma LongFrameCounterexample(slave: byte, pdu: seq<byte>) returns (chunks: seq<seq<byte>>)
    requires |pdu| == MB_PDU_SIZE_MAX
    ensures |chunks| == 2 && |chunks[0]| == |chunks[1]| == RX_BOUNCE && Join(chunks) == RtuFrame(slave, pdu)
    ensures CollectAll([], chunks) == chunks[1] != Join(chunks)
  {
    hide RtuFrame;
    var f := RtuFrame(slave, pdu);
    chunks := [f[..128], f[128..]];
    assert chunks[1..] == [f[128..]] && [f[128..]][1..] == [];
    assert Join([f[128..]]) == f[128..] + [] == f[128..];
    assert f[..128] + f[128..] == f && [] + f[..128] == f[..128];
    assert CollectAll(f[..128], [f[128..]]) == CollectAll(f[128..], []);
  }
}

/** A request of the master, handled by the slave over the reference device, and the answer judged by
  the master: what happens, for every request, every device and whatever else is in the buffers.
*/
module ModbusEndToEnd {
  import opened Modbus

  /** The counts that the slave takes.  They are not quite those of the standard, which also allows
      2000 coils or discrete inputs, 125 input registers, and 123 registers to write. */
  predicate InRange(r: Request)
  {
    match r
    case CoilsRead(_, n) => 1 <= n <= 1999
    case DiscreteRead(_, n) => 1 <= n <= 1999
    case HoldingRead(_, n) => 1 <= n <= 125
    case InputRead(_, n) => 1 <= n <= 124
    case CoilWrite(_, _) => true
    case RegisterWrite(_, _) => true
    case CoilsWrite(_, bits) => 1 <= |bits| <= 1968
    case RegistersWrite(_, vs) => 1 <= |vs| <= 120
    case RegistersReadWrite(_, vs, _, n) => 1 <= |vs| <= 121 && 1 <= n <= 125
  }

  /** The device has all the cells that the request is about. */
  predicate Reaches(d: Device, r: Request)
  {
    d.fault == ENOERR &&
    match r
    case CoilsRead(addr, n) => addr + n <= |d.coils|
    case DiscreteRead(addr, n) => addr + n <= |d.discrete|
    case HoldingRead(addr, n) => addr + n <= |d.holding|
    case InputRead(addr, n) => addr + n <= |d.input|
    case CoilWrite(addr, _) => addr < |d.coils|
    case RegisterWrite(addr, _) => addr < |d.holding|
    case CoilsWrite(addr, bits) => addr + |bits| <= |d.coils|
    case RegistersWrite(addr, vs) => addr + |vs| <= |d.holding|
    case RegistersReadWrite(writeAddr, vs, addr, n) => writeAddr + |vs| <= |d.holding| && addr + n <= |d.holding|
  }

  /** The device afterwards: exactly the addressed cells have the values of the request. */
  function Effect(d: Device, r: Request): Device
    requires Reaches(d, r)
  {
    match r
    case CoilWrite(addr, on) => d.(coils := Overwrite(d.coils, addr, [on]))
    case RegisterWrite(addr, v) => d.(holding := Overwrite(d.holding, addr, [v]))
    case CoilsWrite(addr, bits) => d.(coils := Overwrite(d.coils, addr, bits))
    case RegistersWrite(addr, vs) => d.(holding := Overwrite(d.holding, addr, vs))
    case RegistersReadWrite(addr, vs, _, _) => d.(holding := Overwrite(d.holding, addr, vs))
    case _ => d
  }

  /** The device after any request: as asked, or unchanged; only a combined write and read whose second
      half is refused has done its first half. */
  function After(d: Device, r: Request): Device
  {
    if !InRange(r) then d
    else if Reaches(d, r) then Effect(d, r)
    else
      match r
      case RegistersReadWrite(addr, vs, _, _) =>
        if d.fault == ENOERR && addr + |vs| <= |d.holding| then d.(holding := Overwrite(d.holding, addr, vs)) else d
      case _ => d
  }

  /** The device after a request to a unit: requests to address 0 are for everybody. */
  function DeviceFor(d: Device, unit: byte, my: byte, r: Request): Device
  {
    if unit == my || unit == 0 then After(d, r) else d
  }

  /** What a callback of the master finds where its pointer leads; that can be NULL. */
  datatype Values = BitValues(bits: seq<bool>) | RegValues(regs: seq<word>) | NoValues

  /** What the master should report: after a read, the values the device holds; after the write of a
      single cell, the value written. */
  function Reported(d: Device, r: Request): Values
    requires Reaches(d, r)
  {
    match r
    case CoilsRead(addr, n) => BitValues(d.coils[addr..addr + n])
    case DiscreteRead(addr, n) => BitValues(d.discrete[addr..addr + n])
    case HoldingRead(addr, n) => RegValues(d.holding[addr..addr + n])
    case InputRead(addr, n) => RegValues(d.input[addr..addr + n])
    case CoilWrite(_, on) => RegValues([if on then 0xFF00 else 0])
    case RegisterWrite(_, v) => RegValues([v])
    case _ => NoValues
  }

  /** The values handed to the callback by modbus_rtu_handler_response_rx, which begin at pdu[2], or for
      the write of a single cell at pdu[3].  After a combined write and read it is handed none. */
  function Delivered(x: Expect, pdu: seq<byte>): Values
    requires |pdu| >= MB_PDU_SIZE_MAX
  {
    if (x.func == READ_COILS || x.func == READ_DISCRETE_INPUTS) && x.nb <= 2008 then BitValues(Bits(pdu[2..], x.nb))
    else if (x.func == READ_HOLDING_REGISTER || x.func == READ_INPUT_REGISTER) && x.nb <= 125 then RegValues(Regs(pdu[2..], x.nb))
    else if x.func == WRITE_SINGLE_COIL || x.func == WRITE_REGISTER then RegValues([Word(pdu[3], pdu[4])])
    else NoValues
  }

  /** The request as the slave reads it: of the count of a holding register read it takes the low byte. */
  function Seen(r: Request): Request
  {
    match r
    case HoldingRead(addr, n) => HoldingRead(addr, n % 256)
    case _ => r
  }

  /** Why the slave refuses a request: 3 for its counts, 2 for cells that are not there, 6 for a device that is too
      slow, 4 for any other fault. */
  function RefusalCode(d: Device, r: Request): byte
  {
    if !InRange(r) then 3
    else
      match d.fault
      case ENOERR => 2
      case ENOREG => 2
      case ETIMEDOUT => 6
      case _ => 4
  }

  /** Bit `k` behind the first two bytes is cell `k`, or 0 behind the last cell. */
  predicate CarriesBit(rsp: seq<byte>, cells: seq<bool>, k: nat)
    requires k < 8 * (|rsp| - 2)
  {
    BitOf(rsp[2 + k / 8], k % 8) == (k < |cells| && cells[k])
  }

  /** The response `rsp` carries exactly the `cells`, eight to the byte, the first in the lowest place. */
  predicate CarriesBits(rsp: seq<byte>, cells: seq<bool>)
  {
    && |rsp| == 2 + (|cells| + 7) / 8 && rsp[1] == |rsp| - 2
    && forall k :: 0 <= k < 8 * (|rsp| - 2) ==> CarriesBit(rsp, cells, k)
  }

  /** The response `rsp` carries exactly the `cells`, high byte first. */
  predicate CarriesRegs(rsp: seq<byte>, cells: seq<word>)
  {
    && |rsp| == 2 + 2 * |cells| && rsp[1] == |rsp| - 2
    && Regs(rsp[2..], |cells|) == cells
  }

  /** The response to `r`, byte for byte: of a read, what the device holds afterwards; of a write, the first five bytes
      of the request; or the reason for refusing it. */
  predicate Answers(d: Device, r: Request, rsp: seq<byte>)
    requires Encodable(r)
  {
    var q, d' := Seen(r), After(d, Seen(r));
    && rsp != []
    && if InRange(q) && Reaches(d, q) then
         && rsp[0] == Encode(r)[0]
         && match q
            case CoilsRead(addr, n) => CarriesBits(rsp, d'.coils[addr..addr + n])
            case DiscreteRead(addr, n) => CarriesBits(rsp, d'.discrete[addr..addr + n])
            case HoldingRead(addr, n) => CarriesRegs(rsp, d'.holding[addr..addr + n])
            case InputRead(addr, n) => CarriesRegs(rsp, d'.input[addr..addr + n])
            case RegistersReadWrite(_, _, addr, n) => CarriesRegs(rsp, d'.holding[addr..addr + n])
            case _ => rsp == Encode(r)[..5]
       else rsp == [128 + Encode(r)[0], RefusalCode(d, q)]
  }

  /** All about one request: the response fits a PDU; the device is as it should be afterwards; if the
      count is in range and the device has the cells, the master accepts the response and is handed what
      the device holds; otherwise the master does not accept it. */
  ghost predicate Handled(d: Device, r: Request, o: (Device, seq<byte>), back: seq<byte>, stale: word)
    requires Encodable(r) && |back| >= MB_PDU_SIZE_MAX
  {
    && |o.1| <= MB_PDU_SIZE_MAX && o.0 == After(d, r)
    && (InRange(r) && Reaches(d, r) && o.1 <= back ==> Delivered(Expected(r, stale), back) == Reported(o.0, r))
    && (o.1 <= back ==> (Validate(Expected(r, stale), back, |o.1|) <==> InRange(r) && Reaches(d, r)))
  }

  /** An exception is never accepted. */
  lemma ExceptionRefused(x: Expect, func: byte, status: byte, back: seq<byte>)
    requires |back| >= MB_PDU_SIZE_MAX && x.func == func < 128 && [ErrorFunction(func), status] <= back
    ensures !Validate(x, back, 2)
  {
    assert back[0] == [ErrorFunction(func), status][0];
  }

  lemma HeadAt(func: byte, addr: word, nb: word, buf: seq<byte>)
    requires Head(func, addr, nb) <= buf
    ensures |buf| >= 5 && buf[0] == func && Word(buf[1], buf[2]) == addr && Word(buf[3], buf[4]) == nb && buf[4] == nb % 256
  {
    var h := Head(func, addr, nb);
    assert buf[0] == h[0] && buf[1] == h[1] && buf[2] == h[2] && buf[3] == h[3] && buf[4] == h[4];
  }

  lemma PrefixSplit(a: seq<byte>, b: seq<byte>, buf: seq<byte>)
    requires a + b <= buf
    ensures a <= buf && b <= buf[|a|..]
  {
    assert a == (a + b)[..|a|] && b == (a + b)[|a|..];
  }

  /** A header of five bytes, more bytes, and a body, at the beginning of a buffer. */
  lemma Parts(h: seq<byte>, c: seq<byte>, body: seq<byte>, buf: seq<byte>)
    requires |h| == 5 && (h + c) + body <= buf
    ensures h <= buf && |buf| >= 5 + |c| && body <= buf[5 + |c|..]
    ensures forall k :: 0 <= k < |c| ==> buf[5 + k] == c[k]
  {
    PrefixSplit(h + c, body, buf);
    PrefixSplit(h, c, buf);
    forall k | 0 <= k < |c| ensures buf[5 + k] == c[k] { assert buf[5..][k] == c[k]; }
  }

  /** A function code, a byte count and a body. */
  lemma CountAt(func: byte, count: byte, body: seq<byte>, buf: seq<byte>)
    requires [func, count] + body <= buf
    ensures |buf| >= 2 && buf[0] == func && buf[1] == count && body <= buf[2..]
  {
    var h: seq<byte> := [func, count];
    PrefixSplit(h, body, buf);
    assert buf[0] == h[0] && buf[1] == h[1];
  }

  lemma BitsResponse(func: byte, bs: seq<bool>, x: Expect, back: seq<byte>)
    requires 1 <= |bs| < 2000 && x.func == func && (func == READ_COILS || func == READ_DISCRETE_INPUTS) && x.nb == |bs|
    requires |back| >= MB_PDU_SIZE_MAX && [func, CoilByteCount(|bs|)] + PackBits(bs) <= back
    ensures Validate(x, back, 2 + (|bs| + 7) / 8) && Delivered(x, back) == BitValues(bs)
  {
    hide PackBits, Regs, Bits, CoilByteCount;
    ByteCounts(|bs|);
    CountAt(func, CoilByteCount(|bs|), PackBits(bs), back);
    BitsRoundTrip(bs, back[2..]);
  }

  lemma CoilsReadHandled(d: Device, addr: word, n: word, buf: seq<byte>, back: seq<byte>, stale: word)
    requires Buffer(buf, 5) && Encode(CoilsRead(addr, n)) <= buf && |back| >= MB_PDU_SIZE_MAX
    ensures Handled(d, CoilsRead(addr, n), Respond(d, buf, 5), back, stale)
  {
    hide PackBits, Bits, RegBytes, Regs, Word, Validate, Delivered;
    HeadAt(READ_COILS, addr, n, buf);
    var o, x := Respond(d, buf, 5), Expected(CoilsRead(addr, n), stale);
    if o.1 <= back {
      if InRange(CoilsRead(addr, n)) && Reaches(d, CoilsRead(addr, n)) {
        BitsResponse(READ_COILS, d.coils[addr..addr + n], x, back);
      } else {
        ExceptionRefused(x, READ_COILS, o.1[1], back);
      }
    }
  }

  lemma DiscreteReadHandled(d: Device, addr: word, n: word, buf: seq<byte>, back: seq<byte>, stale: word)
    requires Buffer(buf, 5) && Encode(DiscreteRead(addr, n)) <= buf && |back| >= MB_PDU_SIZE_MAX
    ensures Handled(d, DiscreteRead(addr, n), Respond(d, buf, 5), back, stale)
  {
    hide PackBits, Bits, RegBytes, Regs, Word, Validate, Delivered;
    HeadAt(READ_DISCRETE_INPUTS, addr, n, buf);
    var o, x := Respond(d, buf, 5), Expected(DiscreteRead(addr, n), stale);
    if o.1 <= back {
      if InRange(DiscreteRead(addr, n)) && Reaches(d, DiscreteRead(addr, n)) {
        BitsResponse(READ_DISCRETE_INPUTS, d.discrete[addr..addr + n], x, back);
      } else {
        ExceptionRefused(x, READ_DISCRETE_INPUTS, o.1[1], back);
      }
    }
  }

  predicate ReadsRegisters(func: byte)
  {
    func == READ_HOLDING_REGISTER || func == READ_INPUT_REGISTER || func == READWRITE_MULTIPLE_REGISTERS
  }

  lemma RegsResponse(func: byte, vs: seq<word>, x: Expect, back: seq<byte>, len: nat)
    requires |vs| <= 125 && x.func == func && ReadsRegisters(func) && len == 2 + 2 * |vs|
    requires |back| >= MB_PDU_SIZE_MAX && [func, RegByteCount(|vs|)] + RegBytes(vs) <= back
    ensures Validate(x, back, len) <==> x.nb == |vs|
    ensures x.nb == |vs| && func != READWRITE_MULTIPLE_REGISTERS ==> Delivered(x, back) == RegValues(vs)
  {
    hide RegBytes, Delivered, Validate, RegByteCount;
    ByteCounts(|vs|);
    CountAt(func, RegByteCount(|vs|), RegBytes(vs), back);
    RegsValid(x, back, |vs|, len);
    if x.nb == |vs| && func != READWRITE_MULTIPLE_REGISTERS { RegsDelivered(x, back, vs); }
  }

  lemma RegsValid(x: Expect, back: seq<byte>, n: nat, len: nat)
    requires |back| >= MB_PDU_SIZE_MAX && ReadsRegisters(x.func) && back[0] == x.func && n <= 125 && back[1] == 2 * n
    requires len == 2 + 2 * n
    ensures Validate(x, back, len) <==> x.nb == n
  {
    hide Word;
  }

  lemma RegsDelivered(x: Expect, back: seq<byte>, vs: seq<word>)
    requires ReadsRegisters(x.func) && x.func != READWRITE_MULTIPLE_REGISTERS
    requires |back| >= MB_PDU_SIZE_MAX && x.nb == |vs| <= 125 && RegBytes(vs) <= back[2..]
    ensures Delivered(x, back) == RegValues(vs)
  {
    hide RegBytes, Regs, Bits;
    RegsRoundTrip(vs, back[2..]);
  }

  lemma InputReadHandled(d: Device, addr: word, n: word, buf: seq<byte>, back: seq<byte>, stale: word)
    requires Buffer(buf, 5) && Encode(InputRead(addr, n)) <= buf && |back| >= MB_PDU_SIZE_MAX
    ensures Handled(d, InputRead(addr, n), Respond(d, buf, 5), back, stale)
  {
    hide PackBits, Bits, RegBytes, Regs, Word, Validate, Delivered;
    HeadAt(READ_INPUT_REGISTER, addr, n, buf);
    var o, x := Respond(d, buf, 5), Expected(InputRead(addr, n), stale);
    if o.1 <= back {
      if InRange(InputRead(addr, n)) && Reaches(d, InputRead(addr, n)) {
        RegsResponse(READ_INPUT_REGISTER, d.input[addr..addr + n], x, back, |o.1|);
      } else {
        ExceptionRefused(x, READ_INPUT_REGISTER, o.1[1], back);
      }
    }
  }

  /** The slave answers for the low byte of the count; the master notices when that is not the count. */
  lemma HoldingReadHandled(d: Device, addr: word, n: word, buf: seq<byte>, back: seq<byte>, stale: word)
    requires Buffer(buf, 5) && Encode(HoldingRead(addr, n)) <= buf && |back| >= MB_PDU_SIZE_MAX
    ensures Handled(d, HoldingRead(addr, n), Respond(d, buf, 5), back, stale)
  {
    hide PackBits, Bits, RegBytes, Regs, Word, Validate, Delivered;
    HeadAt(READ_HOLDING_REGISTER, addr, n, buf);
    var o, x := Respond(d, buf, 5), Expected(HoldingRead(addr, n), stale);
    var m: byte := n % 256;
    if o.1 <= back {
      if 1 <= m <= 125 && Access(d, |d.holding|, addr, m) == ENOERR {
        RegsResponse(READ_HOLDING_REGISTER, d.holding[addr..addr + m], x, back, |o.1|);
      } else {
        ExceptionRefused(x, READ_HOLDING_REGISTER, o.1[1], back);
      }
    }
  }

  /** The responses to writes repeat the first five bytes of the request. */
  lemma EchoAt(buf: seq<byte>, back: seq<byte>)
    requires |buf| >= 5 && |back| >= 5 && buf[..5] <= back
    ensures back[0] == buf[0] && back[1] == buf[1] && back[2] == buf[2] && back[3] == buf[3] && back[4] == buf[4]
  {
    var e := buf[..5];
    assert back[0] == e[0] && back[1] == e[1] && back[2] == e[2] && back[3] == e[3] && back[4] == e[4];
  }

  predicate IsWrite(r: Request) { r.CoilWrite? || r.RegisterWrite? || r.CoilsWrite? || r.RegistersWrite? }

  /** The slave's answer to a write: the first five bytes of the request, or an exception. */
  ghost predicate Echoed(d: Device, r: Request, buf: seq<byte>, o: (Device, seq<byte>))
    requires |buf| >= 5
  {
    && o.0 == After(d, r)
    && if InRange(r) && Reaches(d, r) then o.1 == buf[..5]
       else o.1 == [ErrorFunction(buf[0]), RefusalCode(d, r)]
  }

  /** The first five bytes of a write are what the master expects to see again. */
  lemma WriteHeadAt(r: Request, buf: seq<byte>, stale: word)
    requires IsWrite(r) && Encodable(r) && Encode(r) <= buf
    ensures |buf| >= 5
    ensures var x := Expected(r, stale); buf[0] == x.func && Word(buf[1], buf[2]) == x.addr
    ensures Word(buf[3], buf[4]) == (if r.CoilWrite? || r.RegisterWrite? then Expected(r, stale).value else Expected(r, stale).nb)
  {
    hide RegBytes, PackBits, Head;
    match r
    case CoilWrite(addr, on) => HeadAt(WRITE_SINGLE_COIL, addr, if on then 0xFF00 else 0, buf);
    case RegisterWrite(addr, v) => HeadAt(WRITE_REGISTER, addr, v, buf);
    case CoilsWrite(addr, bits) =>
      CoilsWriteAt(addr, bits, buf);
      HeadAt(WRITE_MULTIPLE_COILS, addr, |bits|, buf);
    case RegistersWrite(addr, vs) =>
      RegistersWriteAt(addr, vs, buf);
      HeadAt(WRITE_MULTIPLE_REGISTERS, addr, |vs|, buf);
  }

  /** The master accepts the echo of a write, and no exception. */
  lemma WriteHandled(d: Device, r: Request, buf: seq<byte>, o: (Device, seq<byte>), back: seq<byte>, stale: word)
    requires IsWrite(r) && Encodable(r) && Encode(r) <= buf && |back| >= MB_PDU_SIZE_MAX
    requires |buf| >= 5 && Echoed(d, r, buf, o)
    ensures Handled(d, r, o, back, stale)
  {
    hide Encode, Effect, Reaches, InRange, Regs, Bits, Word;
    WriteHeadAt(r, buf, stale);
    if InRange(r) && Reaches(d, r) {
      if o.1 <= back { EchoAt(buf, back); }
    } else {
      if o.1 <= back { ExceptionRefused(Expected(r, stale), buf[0], RefusalCode(d, r), back); }
    }
  }

  lemma CoilWriteEchoed(d: Device, addr: word, on: bool, buf: seq<byte>)
    requires Buffer(buf, 5) && Encode(CoilWrite(addr, on)) <= buf
    ensures Echoed(d, CoilWrite(addr, on), buf, Respond(d, buf, 5))
  {
    hide Regs, Bits, PackBits, RegBytes, Head, Overwrite;
    HeadAt(WRITE_SINGLE_COIL, addr, if on then 0xFF00 else 0, buf);
    var o := Respond(d, buf, 5);
    assert buf[4] == 0 && buf[3] == if on then 0xFF else 0;
    if !Reaches(d, CoilWrite(addr, on)) { assert o.1[1] == RefusalCode(d, CoilWrite(addr, on)); }
  }

  lemma RegisterWriteEchoed(d: Device, addr: word, v: word, buf: seq<byte>)
    requires Buffer(buf, 5) && Encode(RegisterWrite(addr, v)) <= buf
    ensures Echoed(d, RegisterWrite(addr, v), buf, Respond(d, buf, 5))
  {
    hide Regs, Bits, PackBits, RegBytes, Head, Overwrite;
    HeadAt(WRITE_REGISTER, addr, v, buf);
    var o := Respond(d, buf, 5);
    if !Reaches(d, RegisterWrite(addr, v)) { assert o.1[1] == RefusalCode(d, RegisterWrite(addr, v)); }
  }

  lemma RegistersWriteText(addr: word, vs: seq<word>)
    requires |vs| < 65536
    ensures Encode(RegistersWrite(addr, vs)) == (Head(WRITE_MULTIPLE_REGISTERS, addr, |vs|) + [RegByteCount(|vs|)]) + RegBytes(vs)
  {
  }

  lemma OnePart(h: seq<byte>, c: byte, body: seq<byte>, buf: seq<byte>)
    requires |h| == 5 && (h + [c]) + body <= buf
    ensures |buf| >= 6 && buf[5] == c && body <= buf[6..] && h <= buf
  {
    Parts(h, [c], body, buf);
    assert buf[5 + 0] == c;
  }

  lemma RegistersWriteAt(addr: word, vs: seq<word>, buf: seq<byte>)
    requires |vs| < 65536 && Encode(RegistersWrite(addr, vs)) <= buf
    ensures |buf| >= 6 && buf[5] == RegByteCount(|vs|) && RegBytes(vs) <= buf[6..]
    ensures Head(WRITE_MULTIPLE_REGISTERS, addr, |vs|) <= buf
  {
    hide *;
    RegistersWriteText(addr, vs);
    OnePart(Head(WRITE_MULTIPLE_REGISTERS, addr, |vs|), RegByteCount(|vs|), RegBytes(vs), buf);
  }

  lemma RegistersWriteEchoed(d: Device, addr: word, vs: seq<word>, buf: seq<byte>, len: nat)
    requires |vs| < 65536 && Encode(RegistersWrite(addr, vs)) <= buf && Buffer(buf, len) && len == 6 + 2 * |vs|
    ensures Echoed(d, RegistersWrite(addr, vs), buf, Respond(d, buf, len))
  {
    hide RegBytes, Regs, Word, Encode, Head;
    RegistersWriteAt(addr, vs, buf);
    HeadAt(WRITE_MULTIPLE_REGISTERS, addr, |vs|, buf);
    RegsRoundTrip(vs, buf[6..]);
    var o := Respond(d, buf, len);
    if !(InRange(RegistersWrite(addr, vs)) && Reaches(d, RegistersWrite(addr, vs))) { assert o.1[1] == RefusalCode(d, RegistersWrite(addr, vs)); }
  }

  lemma CoilsWriteText(addr: word, bits: seq<bool>)
    requires |bits| < 65536
    ensures CoilByteCount(|bits|) <= |PackBits(bits)|
    ensures Encode(CoilsWrite(addr, bits))
         == (Head(WRITE_MULTIPLE_COILS, addr, |bits|) + [CoilByteCount(|bits|)]) + PackBits(bits)[..CoilByteCount(|bits|)]
    ensures |bits| <= 2040 ==> PackBits(bits)[..CoilByteCount(|bits|)] == PackBits(bits)
  {
    hide PackBits, Head;
  }

  lemma CoilsWriteAt(addr: word, bits: seq<bool>, buf: seq<byte>)
    requires |bits| < 65536 && Encode(CoilsWrite(addr, bits)) <= buf
    ensures |buf| >= 6 && buf[5] == CoilByteCount(|bits|)
    ensures |bits| <= 2040 ==> PackBits(bits) <= buf[6..]
    ensures Head(WRITE_MULTIPLE_COILS, addr, |bits|) <= buf
  {
    hide *;
    CoilsWriteText(addr, bits);
    OnePart(Head(WRITE_MULTIPLE_COILS, addr, |bits|), CoilByteCount(|bits|), PackBits(bits)[..CoilByteCount(|bits|)], buf);
  }

  lemma CoilsWriteEchoed(d: Device, addr: word, bits: seq<bool>, buf: seq<byte>, len: nat)
    requires |bits| < 65536 && Encode(CoilsWrite(addr, bits)) <= buf && Buffer(buf, len) && len == |Encode(CoilsWrite(addr, bits))|
    ensures Echoed(d, CoilsWrite(addr, bits), buf, Respond(d, buf, len))
  {
    hide PackBits, Bits, Word, Head;
    CoilsWriteAt(addr, bits, buf);
    HeadAt(WRITE_MULTIPLE_COILS, addr, |bits|, buf);
    if |bits| <= 1968 { BitsRoundTrip(bits, buf[6..]); }
    var o := Respond(d, buf, len);
    if !(InRange(CoilsWrite(addr, bits)) && Reaches(d, CoilsWrite(addr, bits))) { assert o.1[1] == RefusalCode(d, CoilsWrite(addr, bits)); }
  }

  lemma ReadWriteText(writeAddr: word, vs: seq<word>, addr: word, n: word, c: seq<byte>)
    requires |vs| < 65536 && c == [Hi(writeAddr), Lo(writeAddr), Hi(|vs|), Lo(|vs|), RegByteCount(|vs|)]
    ensures Encode(RegistersReadWrite(writeAddr, vs, addr, n)) == (Head(READWRITE_MULTIPLE_REGISTERS, addr, n) + c) + RegBytes(vs)
  {
    hide RegBytes, Head, RegByteCount, Hi, Lo;
  }

  lemma ReadWriteAt(writeAddr: word, vs: seq<word>, addr: word, n: word, buf: seq<byte>)
    requires |vs| < 65536 && Encode(RegistersReadWrite(writeAddr, vs, addr, n)) <= buf
    ensures |buf| >= 10 && Word(buf[5], buf[6]) == writeAddr && Word(buf[7], buf[8]) == |vs| && buf[9] == RegByteCount(|vs|)
    ensures RegBytes(vs) <= buf[10..]
    ensures Head(READWRITE_MULTIPLE_REGISTERS, addr, n) <= buf
  {
    hide RegBytes, Head, RegByteCount, Encode;
    var c := [Hi(writeAddr), Lo(writeAddr), Hi(|vs|), Lo(|vs|), RegByteCount(|vs|)];
    ReadWriteText(writeAddr, vs, addr, n, c);
    Parts(Head(READWRITE_MULTIPLE_REGISTERS, addr, n), c, RegBytes(vs), buf);
    assert buf[5 + 0] == c[0] && buf[5 + 1] == c[1] && buf[5 + 2] == c[2] && buf[5 + 3] == c[3] && buf[5 + 4] == c[4];
  }

  lemma ReadWriteHandled(d: Device, r: Request, buf: seq<byte>, len: nat, back: seq<byte>, stale: word)
    requires r.RegistersReadWrite? && Encodable(r) && Encode(r) <= buf && Buffer(buf, len) && len == 10 + 2 * |r.values|
    requires |back| >= MB_PDU_SIZE_MAX
    ensures Handled(d, r, Respond(d, buf, len), back, stale)
  {
    hide RegBytes, Regs, Word, Encode, Head, Bits, Validate;
    ReadWriteAt(r.writeAddr, r.values, r.addr, r.n, buf);
    HeadAt(READWRITE_MULTIPLE_REGISTERS, r.addr, r.n, buf);
    RegsRoundTrip(r.values, buf[10..]);
    var o, x := Respond(d, buf, len), Expected(r, stale);
    if InRange(r) && Reaches(d, r) {
      var vs := o.0.holding[r.addr..r.addr + r.n];
      if o.1 <= back { RegsResponse(READWRITE_MULTIPLE_REGISTERS, vs, x, back, |o.1|); }
    } else {
      if o.1 <= back { ExceptionRefused(x, READWRITE_MULTIPLE_REGISTERS, o.1[1], back); }
    }
  }

  // ---------- the response, byte for byte ----------

  lemma {:induction false} PackByteRest(bs: seq<bool>, k: nat)
    requires |bs| <= k
    ensures !BitOf(PackByte(bs), k)
    decreases k
  {
    if k > 0 { PackByteRest(if bs == [] then [] else bs[1..], k - 1); }
  }

  /** Behind the last bit there are zeros. */
  lemma {:induction false} PackBitsRest(bs: seq<bool>, k: nat)
    requires |bs| <= k < 8 * |PackBits(bs)|
    ensures !BitOf(PackBits(bs)[k / 8], k % 8)
    decreases |bs|
  {
    hide PackBits, PackByte, BitOf;
    PackBitsFirst(bs);
    if |bs| <= 8 {
      PackByteRest(bs, k);
    } else {
      PackBitsRest(bs[8..], k - 8);
      assert k / 8 == (k - 8) / 8 + 1 && k % 8 == (k - 8) % 8;
    }
  }

  lemma BitCarried(rsp: seq<byte>, bs: seq<bool>, k: nat)
    requires |rsp| >= 2 && rsp[2..] == PackBits(bs) && k < 8 * (|rsp| - 2)
    ensures CarriesBit(rsp, bs, k)
  {
    hide PackBits, BitOf;
    assert rsp[2..][k / 8] == rsp[2 + k / 8];
    if k < |bs| { PackBitsBit(bs, k); } else { PackBitsRest(bs, k); }
  }

  lemma BitsCarried(func: byte, bs: seq<bool>)
    requires |bs| < 2000
    ensures CarriesBits([func, CoilByteCount(|bs|)] + PackBits(bs), bs)
  {
    hide PackBits, CarriesBit, CoilByteCount;
    ByteCounts(|bs|);
    var count := CoilByteCount(|bs|);
    var rsp := [func, count] + PackBits(bs);
    assert rsp[2..] == PackBits(bs) && rsp[1] == count;
    forall k | 0 <= k < 8 * (|rsp| - 2) ensures CarriesBit(rsp, bs, k) {
      BitCarried(rsp, bs, k);
    }
  }

  lemma RegsCarried(func: byte, vs: seq<word>)
    requires |vs| <= 125
    ensures CarriesRegs([func, RegByteCount(|vs|)] + RegBytes(vs), vs)
  {
    hide RegBytes, Regs, RegByteCount;
    ByteCounts(|vs|);
    var rsp := [func, RegByteCount(|vs|)] + RegBytes(vs);
    assert rsp[2..] == RegBytes(vs);
    RegsRoundTrip(vs, rsp[2..]);
  }

  lemma EncodeFirst(r: Request)
    requires Encodable(r)
    ensures Encode(r)[0] ==
      match r
      case CoilsRead(_, _) => READ_COILS
      case DiscreteRead(_, _) => READ_DISCRETE_INPUTS
      case HoldingRead(_, _) => READ_HOLDING_REGISTER
      case InputRead(_, _) => READ_INPUT_REGISTER
      case CoilWrite(_, _) => WRITE_SINGLE_COIL
      case RegisterWrite(_, _) => WRITE_REGISTER
      case CoilsWrite(_, _) => WRITE_MULTIPLE_COILS
      case RegistersWrite(_, _) => WRITE_MULTIPLE_REGISTERS
      case RegistersReadWrite(_, _, _, _) => READWRITE_MULTIPLE_REGISTERS
  {
    hide RegBytes, PackBits;
  }

  lemma CoilsReadAnswered(d: Device, addr: word, n: word, buf: seq<byte>)
    requires Buffer(buf, 5) && Encode(CoilsRead(addr, n)) <= buf
    ensures Answers(d, CoilsRead(addr, n), Respond(d, buf, 5).1)
  {
    hide PackBits, BitOf, RegBytes, Regs, Word, Encode, CarriesBits;
    EncodeFirst(CoilsRead(addr, n));
    HeadIs(CoilsRead(addr, n));
    HeadAt(READ_COILS, addr, n, buf);
    if InRange(CoilsRead(addr, n)) && Reaches(d, CoilsRead(addr, n)) { BitsCarried(READ_COILS, d.coils[addr..addr + n]); }
  }

  lemma DiscreteReadAnswered(d: Device, addr: word, n: word, buf: seq<byte>)
    requires Buffer(buf, 5) && Encode(DiscreteRead(addr, n)) <= buf
    ensures Answers(d, DiscreteRead(addr, n), Respond(d, buf, 5).1)
  {
    hide PackBits, BitOf, RegBytes, Regs, Word, Encode, CarriesBits;
    EncodeFirst(DiscreteRead(addr, n));
    HeadIs(DiscreteRead(addr, n));
    HeadAt(READ_DISCRETE_INPUTS, addr, n, buf);
    if InRange(DiscreteRead(addr, n)) && Reaches(d, DiscreteRead(addr, n)) {
      BitsCarried(READ_DISCRETE_INPUTS, d.discrete[addr..addr + n]);
    }
  }

  lemma InputReadAnswered(d: Device, addr: word, n: word, buf: seq<byte>)
    requires Buffer(buf, 5) && Encode(InputRead(addr, n)) <= buf
    ensures Answers(d, InputRead(addr, n), Respond(d, buf, 5).1)
  {
    hide PackBits, BitOf, RegBytes, Regs, Word, Encode, CarriesRegs;
    EncodeFirst(InputRead(addr, n));
    HeadIs(InputRead(addr, n));
    HeadAt(READ_INPUT_REGISTER, addr, n, buf);
    if InRange(InputRead(addr, n)) && Reaches(d, InputRead(addr, n)) {
      RegsCarried(READ_INPUT_REGISTER, d.input[addr..addr + n]);
    }
  }

  lemma HoldingReadAnswered(d: Device, addr: word, n: word, buf: seq<byte>)
    requires Buffer(buf, 5) && Encode(HoldingRead(addr, n)) <= buf
    ensures Answers(d, HoldingRead(addr, n), Respond(d, buf, 5).1)
  {
    hide PackBits, BitOf, RegBytes, Regs, Word, Encode, CarriesRegs;
    EncodeFirst(HoldingRead(addr, n));
    HeadIs(HoldingRead(addr, n));
    HeadAt(READ_HOLDING_REGISTER, addr, n, buf);
    var q := HoldingRead(addr, n % 256);
    if InRange(q) && Reaches(d, q) { RegsCarried(READ_HOLDING_REGISTER, d.holding[addr..addr + q.n]); }
  }

  lemma HeadIs(r: Request)
    requires Encodable(r)
    ensures match r
            case CoilsRead(addr, n) => Encode(r) == Head(READ_COILS, addr, n)
            case DiscreteRead(addr, n) => Encode(r) == Head(READ_DISCRETE_INPUTS, addr, n)
            case HoldingRead(addr, n) => Encode(r) == Head(READ_HOLDING_REGISTER, addr, n)
            case InputRead(addr, n) => Encode(r) == Head(READ_INPUT_REGISTER, addr, n)
            case _ => true
  {
    hide RegBytes, PackBits, Head;
  }

  lemma WriteAnswered(d: Device, r: Request, buf: seq<byte>, o: (Device, seq<byte>))
    requires IsWrite(r) && Encodable(r) && Encode(r) <= buf && Echoed(d, r, buf, o)
    ensures Answers(d, r, o.1)
  {
    hide Encode, Reaches, InRange, After, RefusalCode;
    assert buf[..5] == Encode(r)[..5] && buf[0] == Encode(r)[0];
    EncodeFirst(r);
  }

  lemma ReadWriteAnswered(d: Device, r: Request, buf: seq<byte>, len: nat)
    requires r.RegistersReadWrite? && Encodable(r) && Encode(r) <= buf && Buffer(buf, len) && len == 10 + 2 * |r.values|
    ensures Answers(d, r, Respond(d, buf, len).1)
  {
    hide RegBytes, Regs, Word, Encode, Head, Bits, CarriesRegs;
    EncodeFirst(r);
    ReadWriteAt(r.writeAddr, r.values, r.addr, r.n, buf);
    HeadAt(READWRITE_MULTIPLE_REGISTERS, r.addr, r.n, buf);
    RegsRoundTrip(r.values, buf[10..]);
    var o := Respond(d, buf, len);
    if InRange(r) && Reaches(d, r) { RegsCarried(READWRITE_MULTIPLE_REGISTERS, o.0.holding[r.addr..r.addr + r.n]); }
  }

  // ---------- any response at all ----------

  lemma SameWord(a: byte, b: byte, w: word)
    ensures Word(a, b) == w <==> a == Hi(w) && b == Lo(w)
  {
  }

  lemma WriteText(r: Request, stale: word)
    requires IsWrite(r) && Encodable(r)
    ensures Encode(r)[..5] == Head(Expected(r, stale).func, r.addr, if r.CoilWrite? || r.RegisterWrite? then Expected(r, stale).value else Expected(r, stale).nb)
    ensures Expected(r, stale).addr == r.addr
  {
    hide Head, RegBytes, PackBits;
    match r
    case CoilWrite(addr, on) =>
    case RegisterWrite(addr, v) =>
    case CoilsWrite(addr, bits) =>
      hide Encode;
      CoilsWriteText(addr, bits);
    case RegistersWrite(addr, vs) =>
      hide Encode;
      RegistersWriteText(addr, vs);
  }

  lemma HeadSame(back: seq<byte>, func: byte, addr: word, nb: word)
    requires |back| >= 5
    ensures back[..5] == Head(func, addr, nb) <==>
      back[0] == func && Word(back[1], back[2]) == addr && Word(back[3], back[4]) == nb
  {
    hide Word, Hi, Lo;
    SameWord(back[1], back[2], addr);
    SameWord(back[3], back[4], nb);
    var h := Head(func, addr, nb);
    assert back[..5] == h <==> back[0] == h[0] && back[1] == h[1] && back[2] == h[2] && back[3] == h[3] && back[4] == h[4];
  }

  /** After a write the master accepts the first five bytes of its request, and nothing else. */
  lemma WriteAcceptedIff(r: Request, stale: word, back: seq<byte>, len: nat)
    requires IsWrite(r) && Encodable(r) && |back| >= 5
    ensures Validate(Expected(r, stale), back, len) <==> len == 5 && back[..5] == Encode(r)[..5]
  {
    hide Encode, Head, Word;
    WriteText(r, stale);
    var x := Expected(r, stale);
    HeadSame(back, x.func, r.addr, if r.CoilWrite? || r.RegisterWrite? then x.value else x.nb);
  }

  /** A master that has not asked for anything accepts nothing. */
  lemma UnaskedRefused(x: Expect, back: seq<byte>, len: nat)
    requires |back| >= 5 && x.func !in {1, 2, 3, 4, 5, 6, 15, 16, 23}
    ensures !Validate(x, back, len)
  {
  }

  /** After a read it accepts what has the function code of its request, the length that the byte count says, and room
      for the cells asked for; of a count of registers the lowest bit does not matter. */
  lemma ReadAcceptedIff(r: Request, stale: word, back: seq<byte>, len: nat)
    requires !IsWrite(r) && Encodable(r) && |back| >= 5
    ensures var n: int, count: int := r.n, back[1];
      Validate(Expected(r, stale), back, len) <==>
        && back[0] == Encode(r)[0] && len == 2 + count
        && if r.CoilsRead? || r.DiscreteRead? then n <= 8 * count else 2 * n <= count <= 2 * n + 1
  {
    hide Encode;
    EncodeFirst(r);
  }

  /** A request whose counts are in range fits a PDU, with a byte to spare. */
  lemma InRangeShort(r: Request)
    requires InRange(r)
    ensures Encodable(r) && |Encode(r)| <= 252
  {
    hide Hi, Lo;
  }

  /** End to end, for every request: `buf` is the slave's buffer in which the request has arrived, `back`
      the master's buffer in which the response arrives. */
  lemma EndToEnd(d: Device, r: Request, buf: seq<byte>, back: seq<byte>, stale: word)
    requires Encodable(r) && Encode(r) <= buf && Buffer(buf, |Encode(r)|) && |back| >= MB_PDU_SIZE_MAX
    ensures Handled(d, r, Respond(d, buf, |Encode(r)|), back, stale)
    ensures Answers(d, r, Respond(d, buf, |Encode(r)|).1)
    ensures InRange(r) ==> |Encode(r)| <= MB_PDU_SIZE_MAX
  {
    hide Respond, Handled, Answers, Echoed, InRange, Reaches, RegBytes, PackBits, Head, RegByteCount, CoilByteCount;
    if InRange(r) { InRangeShort(r); }
    var len := |Encode(r)|;
    var o := Respond(d, buf, len);
    match r
    case CoilsRead(addr, n) =>
      CoilsReadHandled(d, addr, n, buf, back, stale);
      CoilsReadAnswered(d, addr, n, buf);
    case DiscreteRead(addr, n) =>
      DiscreteReadHandled(d, addr, n, buf, back, stale);
      DiscreteReadAnswered(d, addr, n, buf);
    case HoldingRead(addr, n) =>
      HoldingReadHandled(d, addr, n, buf, back, stale);
      HoldingReadAnswered(d, addr, n, buf);
    case InputRead(addr, n) =>
      InputReadHandled(d, addr, n, buf, back, stale);
      InputReadAnswered(d, addr, n, buf);
    case CoilWrite(addr, on) =>
      CoilWriteEchoed(d, addr, on, buf);
      WriteHandled(d, r, buf, o, back, stale);
      WriteAnswered(d, r, buf, o);
    case RegisterWrite(addr, v) =>
      RegisterWriteEchoed(d, addr, v, buf);
      WriteHandled(d, r, buf, o, back, stale);
      WriteAnswered(d, r, buf, o);
    case CoilsWrite(addr, bits) =>
      CoilsWriteEchoed(d, addr, bits, buf, len);
      WriteHandled(d, r, buf, o, back, stale);
      WriteAnswered(d, r, buf, o);
    case RegistersWrite(addr, vs) =>
      RegistersWriteEchoed(d, addr, vs, buf, len);
      WriteHandled(d, r, buf, o, back, stale);
      WriteAnswered(d, r, buf, o);
    case RegistersReadWrite(_, _, _, _) =>
      ReadWriteHandled(d, r, buf, len, back, stale);
      ReadWriteAnswered(d, r, buf, len);
  }

  /** The part of it that is about the device. */
  lemma DeviceAfter(d: Device, r: Request, buf: seq<byte>)
    requires Encodable(r) && Encode(r) <= buf && Buffer(buf, |Encode(r)|)
    ensures Respond(d, buf, |Encode(r)|).0 == After(d, r)
  {
    hide Encode, Respond, After, Reported, Delivered, Validate, InRange, Reaches, Expected;
    EndToEnd(d, r, buf, buf, 0);
  }

  // ---------- any PDU at all ----------

  /** Every response fits a PDU, however malformed the request, and only an empty request gets an empty
      one. */
  lemma ResponseFits(d: Device, buf: seq<byte>, len: nat)
    requires Buffer(buf, len)
    ensures |Respond(d, buf, len).1| <= MB_PDU_SIZE_MAX
    ensures len > 0 ==> |Respond(d, buf, len).1| > 0
  {
  }

  /** A combined write and read that is too short is sent back, and nothing is done. */
  lemma ShortRequestEchoed(d: Device, buf: seq<byte>, len: nat)
    requires Buffer(buf, len) && buf[0] == READWRITE_MULTIPLE_REGISTERS && len < 10
    ensures Dispatch(d, buf, len).status == 0 && Respond(d, buf, len) == (d, buf[..len])
  {
  }

  /** The write half of a combined write and read was done, but not the read half. */
  predicate HalfDone(d: Device, buf: seq<byte>, len: nat)
    requires Buffer(buf, len)
  {
    && buf[0] == READWRITE_MULTIPLE_REGISTERS && len >= 10 && d.fault == ENOERR
    && 1 <= Word(buf[3], buf[4]) <= 0x7D && 1 <= Word(buf[7], buf[8]) <= 0x79 && 2 * Word(buf[7], buf[8]) == buf[9]
    && Word(buf[5], buf[6]) + Word(buf[7], buf[8]) <= |d.holding| < Word(buf[1], buf[2]) + Word(buf[3], buf[4])
  }

  /** An exception says that nothing was changed, unless a combined write and read has done its first
      half and that made a difference. */
  lemma ExceptionChangesNothingIff(d: Device, buf: seq<byte>, len: nat)
    requires Buffer(buf, len) && Dispatch(d, buf, len).status != 0
    ensures Respond(d, buf, len).0 == d <==>
      (HalfDone(d, buf, len) ==> Overwrite(d.holding, Word(buf[5], buf[6]), Regs(buf[10..], Word(buf[7], buf[8]))) == d.holding)
  {
    hide RegBytes, Regs, PackBits, Bits, Word, Overwrite;
  }

  /** And then something may have changed indeed. */
  lemma HalfDoneCounterexample() returns (d: Device, buf: seq<byte>)
    ensures Buffer(buf, 12) && HalfDone(d, buf, 12)
    ensures Dispatch(d, buf, 12).status == 2 && Respond(d, buf, 12).0 != d
  {
    d := Device([], [], [0], [], ENOERR);
    buf := [READWRITE_MULTIPLE_REGISTERS, 0, 1, 0, 1, 0, 0, 0, 1, 2, 0, 7] + seq(MB_PDU_SIZE_MAX, _ => 0);
    assert Word(buf[5], buf[6]) == 0 && Word(buf[7], buf[8]) == 1 && Word(buf[1], buf[2]) == 1 && Word(buf[3], buf[4]) == 1;
    assert buf[10] == 0 && buf[11] == 7 && buf[10..][0] == buf[10] && buf[10..][1] == buf[11];
    assert Regs(buf[10..], 1) == [7];
    var w := WriteHolding(d, 0, [7]);
    assert w.1 == ENOERR && w.0.holding == [7];
    assert Dispatch(d, buf, 12) == Refused(w.0, 2);
  }

  /** The count of a holding register read is taken modulo 256, so the slave may answer a request whose
      count is out of range; by EndToEnd the master does not accept the answer. */
  lemma CountTruncated(d: Device, addr: word, n: word, buf: seq<byte>)
    requires Buffer(buf, 5) && Encode(HoldingRead(addr, n)) <= buf
    ensures Dispatch(d, buf, 5).status == 0 <==> 1 <= n % 256 <= 125 && Access(d, |d.holding|, addr, n % 256) == ENOERR
  {
    HeadAt(READ_HOLDING_REGISTER, addr, n, buf);
  }

  lemma HoldingAnswer(d: Device, buf: seq<byte>, addr: word, n: byte)
    requires Buffer(buf, 5) && buf[0] == READ_HOLDING_REGISTER && Word(buf[1], buf[2]) == addr && buf[4] == n && 1 <= n <= 125
    ensures Dispatch(d, buf, 5) == ReadRegisters(d, READ_HOLDING_REGISTER, d.holding, addr, n)
  {
    hide ReadRegisters, ReadInput, WriteRegisters, WriteRegister, ReadWriteRegisters, ReadCoils, WriteCoil;
    hide WriteMultipleCoils, ReadDiscrete;
  }

  lemma OneRegisterRead(d: Device, v: byte)
    requires d.fault == ENOERR && d.holding == [v]
    ensures ReadRegisters(d, READ_HOLDING_REGISTER, d.holding, 0, 1) == Outcome(d, 0, [READ_HOLDING_REGISTER, 2, 0, v])
  {
    hide RegBytes;
    OneRegBytes(v);
    assert d.holding[0..1] == [v];
  }

  lemma OneRegBytes(v: byte)
    ensures RegBytes([v]) == [0, v]
  {
    assert [v][..0] == [];
  }

  lemma RefusedCount(n: word, stale: word, back: seq<byte>)
    requires |back| >= MB_PDU_SIZE_MAX && back[1] == 2 && n > 1
    ensures !Validate(Expected(HoldingRead(0, n), stale), back, 4)
  {
    hide Word;
  }

  /** 257 registers are asked for: the slave answers with one, and the master does not accept that. */
  lemma CountTruncatedExample(back: seq<byte>, stale: word) returns (d: Device, buf: seq<byte>)
    requires |back| >= MB_PDU_SIZE_MAX && [READ_HOLDING_REGISTER, 2, 0, 7] <= back
    ensures Buffer(buf, 5) && Encode(HoldingRead(0, 257)) <= buf
    ensures Dispatch(d, buf, 5) == Outcome(d, 0, [READ_HOLDING_REGISTER, 2, 0, 7])
    ensures !Validate(Expected(HoldingRead(0, 257), stale), back, 4)
  {
    hide Dispatch, Validate, Expected, ReadRegisters;
    d := Device([], [], [7], [], ENOERR);
    buf := [READ_HOLDING_REGISTER, 0, 0, 1, 1] + seq(MB_PDU_SIZE_MAX, _ => 0);
    HoldingAnswer(d, buf, 0, 1);
    OneRegisterRead(d, 7);
    assert back[1] == [READ_HOLDING_REGISTER, 2, 0, 7][1];
    RefusedCount(257, stale, back);
  }
}

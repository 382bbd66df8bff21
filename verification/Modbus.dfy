/** Modbus requests and responses (sections 6.1 to 6.6, 6.11, 6.12, 6.17 and 7 of the MODBUS Application
  Protocol V1.1b3): what the master sends, what the slave answers over a reference device, and which
  answers the master accepts.  Everything here is a function of values.
*/
module Modbus {
  type byte = x: int | 0 <= x < 256
  type word = x: int | 0 <= x < 65536

  const READ_COILS: byte := 1
  const READ_DISCRETE_INPUTS: byte := 2
  const READ_HOLDING_REGISTER: byte := 3
  const READ_INPUT_REGISTER: byte := 4
  const WRITE_SINGLE_COIL: byte := 5
  const WRITE_REGISTER: byte := 6
  const WRITE_MULTIPLE_COILS: byte := 15
  const WRITE_MULTIPLE_REGISTERS: byte := 16
  const READWRITE_MULTIPLE_REGISTERS: byte := 23

  const MB_PDU_SIZE_MAX: nat := 253

  const MB_ADDRESS_BROADCAST: byte := 0

  // ---------- words, registers and bits in bytes ----------

  function Hi(w: word): byte { w / 256 }

  function Lo(w: word): byte { w % 256 }

  function Word(hi: byte, lo: byte): word { 256 * hi + lo }

  lemma WordHalves(w: word)
    ensures Word(Hi(w), Lo(w)) == w
  {
  }

  /** Registers, high byte first. */
  function RegBytes(vs: seq<word>): (r: seq<byte>)
    ensures |r| == 2 * |vs|
  {
    if vs == [] then [] else RegBytes(vs[..|vs| - 1]) + [Hi(vs[|vs| - 1]), Lo(vs[|vs| - 1])]
  }

  function Regs(bs: seq<byte>, n: nat): (r: seq<word>)
    requires 2 * n <= |bs|
    ensures |r| == n
  {
    seq(n, i requires 0 <= i < n => Word(bs[2 * i], bs[2 * i + 1]))
  }

  /** The byte count of `n` registers, and of `n` coils; both are of type uint8_t. */
  function RegByteCount(n: nat): byte { 2 * n % 256 }

  function CoilByteCount(n: nat): byte { (n + 7) / 8 % 256 }

  lemma ByteCounts(n: nat)
    ensures n < 128 ==> RegByteCount(n) == 2 * n
    ensures n <= 2040 ==> CoilByteCount(n) == (n + 7) / 8
  {
  }

  /** Up to eight bits in a byte, the first in the lowest place. */
  function PackByte(bs: seq<bool>): (b: nat)
    ensures |bs| <= 8 ==> b < 256
    ensures |bs| <= 7 ==> b < 128
    ensures |bs| <= 6 ==> b < 64
    ensures |bs| <= 5 ==> b < 32
    ensures |bs| <= 4 ==> b < 16
    ensures |bs| <= 3 ==> b < 8
    ensures |bs| <= 2 ==> b < 4
    ensures |bs| <= 1 ==> b < 2
    ensures |bs| <= 0 ==> b < 1
  {
    if bs == [] then 0 else (if bs[0] then 1 else 0) + 2 * PackByte(bs[1..])
  }

  /** Bits, eight to the byte; the last byte is filled up with zeros. */
  function PackBits(bs: seq<bool>): (r: seq<byte>)
    ensures |r| == (|bs| + 7) / 8
  {
    if |bs| == 0 then []
    else if |bs| <= 8 then [PackByte(bs)]
    else [PackByte(bs[..8])] + PackBits(bs[8..])
  }

  function BitOf(b: nat, k: nat): bool { if k == 0 then b % 2 == 1 else BitOf(b / 2, k - 1) }

  function Bits(bs: seq<byte>, n: nat): (r: seq<bool>)
    requires n <= 8 * |bs|
    ensures |r| == n
  {
    seq(n, i requires 0 <= i < n => BitOf(bs[i / 8], i % 8))
  }

  lemma {:induction false} PackByteBit(bs: seq<bool>, k: nat)
    requires k < |bs|
    ensures BitOf(PackByte(bs), k) == bs[k]
    decreases |bs|
  {
    if k > 0 { PackByteBit(bs[1..], k - 1); }
  }

  lemma PackBitsFirst(bs: seq<bool>)
    requires bs != []
    ensures |bs| <= 8 ==> PackBits(bs) == [PackByte(bs)]
    ensures |bs| > 8 ==> PackBits(bs) == [PackByte(bs[..8])] + PackBits(bs[8..])
  {
  }

  lemma {:induction false} PackBitsBit(bs: seq<bool>, k: nat)
    requires k < |bs|
    ensures BitOf(PackBits(bs)[k / 8], k % 8) == bs[k]
    decreases |bs|
  {
    hide PackBits, PackByte, BitOf;
    PackBitsFirst(bs);
    if |bs| <= 8 {
      PackByteBit(bs, k);
    } else if k < 8 {
      PackByteBit(bs[..8], k);
      assert bs[..8][k] == bs[k];
    } else {
      PackBitsBit(bs[8..], k - 8);
      assert k / 8 == (k - 8) / 8 + 1 && k % 8 == (k - 8) % 8 && bs[8..][k - 8] == bs[k];
    }
  }

  /** Unpacking undoes packing, whatever follows. */
  lemma BitsRoundTrip(bs: seq<bool>, all: seq<byte>)
    requires PackBits(bs) <= all
    ensures Bits(all, |bs|) == bs
  {
    hide PackBits, BitOf;
    forall k | 0 <= k < |bs| ensures Bits(all, |bs|)[k] == bs[k] {
      PackBitsBit(bs, k);
      assert all[k / 8] == PackBits(bs)[k / 8];
    }
  }

  lemma {:induction false} RegBytesAt(vs: seq<word>, i: nat)
    requires i < |vs|
    ensures RegBytes(vs)[2 * i] == Hi(vs[i]) && RegBytes(vs)[2 * i + 1] == Lo(vs[i])
    decreases |vs|
  {
    if i < |vs| - 1 { RegBytesAt(vs[..|vs| - 1], i); }
  }

  lemma RegAt(all: seq<byte>, n: nat, i: nat, v: word)
    requires 2 * n <= |all| && i < n && all[2 * i] == Hi(v) && all[2 * i + 1] == Lo(v)
    ensures Regs(all, n)[i] == v
  {
    WordHalves(v);
  }

  /** Decoding undoes encoding, whatever follows. */
  lemma RegsRoundTrip(vs: seq<word>, all: seq<byte>)
    requires RegBytes(vs) <= all
    ensures Regs(all, |vs|) == vs
  {
    hide RegBytes, Hi, Lo, Regs;
    forall i | 0 <= i < |vs| ensures Regs(all, |vs|)[i] == vs[i] {
      RegBytesAt(vs, i);
      RegAt(all, |vs|, i, vs[i]);
    }
  }

  // ---------- the reference device ----------

  datatype ErrorCode = ENOERR | ENOREG | EINVAL | EPORTERR | ENORES | EIO | EILLSTATE | ETIMEDOUT

  /** Four tables of cells; a device with a fault refuses every access. */
  datatype Device = Device(coils: seq<bool>, discrete: seq<bool>, holding: seq<word>, input: seq<word>, fault: ErrorCode)

  /** What a callback answers to an access to `n` cells of a table of `size`. */
  function Access(d: Device, size: nat, addr: word, n: nat): ErrorCode
  {
    if d.fault != ENOERR then d.fault else if addr + n > size then ENOREG else ENOERR
  }

  function Overwrite<T>(cells: seq<T>, addr: nat, vs: seq<T>): (r: seq<T>)
    requires addr + |vs| <= |cells|
    ensures |r| == |cells|
    ensures forall i :: 0 <= i < |cells| ==> r[i] == if addr <= i < addr + |vs| then vs[i - addr] else cells[i]
  {
    cells[..addr] + vs + cells[addr + |vs|..]
  }

  /** prveMBError2Exception */
  function Exception(e: ErrorCode): byte
  {
    match e
    case ENOERR => 0
    case ENOREG => 2
    case ETIMEDOUT => 6
    case _ => 4
  }

  // ---------- the slave ----------

  /** What a function handler leaves: the device, an exception code or 0, and the response if it is 0. */
  datatype Outcome = Outcome(device: Device, status: byte, pdu: seq<byte>)

  function Refused(d: Device, status: byte): Outcome { Outcome(d, status, []) }

  /** A PDU in its buffer: `len` bytes of it came in, behind them are bytes of former times. */
  predicate Buffer(buf: seq<byte>, len: nat) { |buf| >= MB_PDU_SIZE_MAX && len <= |buf| }

  function ReadRegisters(d: Device, func: byte, cells: seq<word>, addr: word, n: nat): Outcome
    requires n <= 125
  {
    var e := Access(d, |cells|, addr, n);
    if e != ENOERR then Refused(d, Exception(e)) else Outcome(d, 0, [func, RegByteCount(n)] + RegBytes(cells[addr..addr + n]))
  }

  function ReadBits(d: Device, func: byte, cells: seq<bool>, addr: word, n: nat): Outcome
    requires n < 2000
  {
    var e := Access(d, |cells|, addr, n);
    if e != ENOERR then Refused(d, Exception(e)) else Outcome(d, 0, [func, CoilByteCount(n)] + PackBits(cells[addr..addr + n]))
  }

  /** modbus_func_handler_read_input_register */
  function ReadInput(d: Device, buf: seq<byte>, len: nat): Outcome
    requires Buffer(buf, len)
  {
    var n := Word(buf[3], buf[4]);
    if len == 5 && 1 <= n < 125 then ReadRegisters(d, READ_INPUT_REGISTER, d.input, Word(buf[1], buf[2]), n)
    else Refused(d, 3)
  }

  /** modbus_func_handler_read_holding_register, which takes the low byte for the count. */
  function ReadHolding(d: Device, buf: seq<byte>, len: nat): Outcome
    requires Buffer(buf, len)
  {
    var n := buf[4];
    if len == 5 && 1 <= n <= 125 then ReadRegisters(d, READ_HOLDING_REGISTER, d.holding, Word(buf[1], buf[2]), n)
    else Refused(d, 3)
  }

  /** modbus_func_handler_read_coils */
  function ReadCoils(d: Device, buf: seq<byte>, len: nat): Outcome
    requires Buffer(buf, len)
  {
    var n := Word(buf[3], buf[4]);
    if len == 5 && 1 <= n < 2000 then ReadBits(d, READ_COILS, d.coils, Word(buf[1], buf[2]), n) else Refused(d, 3)
  }

  /** modbus_func_handler_read_discrete_inputs */
  function ReadDiscrete(d: Device, buf: seq<byte>, len: nat): Outcome
    requires Buffer(buf, len)
  {
    var n := Word(buf[3], buf[4]);
    if len == 5 && 1 <= n < 2000 then ReadBits(d, READ_DISCRETE_INPUTS, d.discrete, Word(buf[1], buf[2]), n)
    else Refused(d, 3)
  }

  /** holding_regs_cb in mode MB_REG_WRITE */
  function WriteHolding(d: Device, addr: word, vs: seq<word>): (r: (Device, ErrorCode))
  {
    var e := Access(d, |d.holding|, addr, |vs|);
    if e != ENOERR then (d, e) else (d.(holding := Overwrite(d.holding, addr, vs)), e)
  }

  /** coil_cb in mode MB_REG_WRITE */
  function WriteCoils(d: Device, addr: word, vs: seq<bool>): (r: (Device, ErrorCode))
  {
    var e := Access(d, |d.coils|, addr, |vs|);
    if e != ENOERR then (d, e) else (d.(coils := Overwrite(d.coils, addr, vs)), e)
  }

  /** modbus_func_handler_write_holding_register */
  function WriteRegister(d: Device, buf: seq<byte>, len: nat): Outcome
    requires Buffer(buf, len)
  {
    if len != 5 then Refused(d, 3)
    else
      var w := WriteHolding(d, Word(buf[1], buf[2]), [Word(buf[3], buf[4])]);
      Outcome(w.0, Exception(w.1), buf[..5])
  }

  /** modbus_func_handler_write_multiple_holding_registers */
  function WriteRegisters(d: Device, buf: seq<byte>, len: nat): Outcome
    requires Buffer(buf, len)
  {
    var n := Word(buf[3], buf[4]);
    if len >= 6 && 1 <= n <= 120 && buf[5] == 2 * n then
      var w := WriteHolding(d, Word(buf[1], buf[2]), Regs(buf[6..], n));
      Outcome(w.0, Exception(w.1), buf[..5])
    else Refused(d, 3)
  }

  /** modbus_func_handler_write_coil */
  function WriteCoil(d: Device, buf: seq<byte>, len: nat): Outcome
    requires Buffer(buf, len)
  {
    if len == 5 && buf[4] == 0 && (buf[3] == 0xFF || buf[3] == 0) then
      var w := WriteCoils(d, Word(buf[1], buf[2]), [buf[3] == 0xFF]);
      Outcome(w.0, Exception(w.1), buf[..5])
    else Refused(d, 3)
  }

  /** modbus_func_handler_write_multiple_coils */
  function WriteMultipleCoils(d: Device, buf: seq<byte>, len: nat): Outcome
    requires Buffer(buf, len)
  {
    var n := Word(buf[3], buf[4]);
    if len > 5 && 1 <= n <= 1968 && buf[5] == (n + 7) / 8 then
      var w := WriteCoils(d, Word(buf[1], buf[2]), Bits(buf[6..], n));
      Outcome(w.0, Exception(w.1), buf[..5])
    else Refused(d, 3)
  }

  /** modbus_func_handler_read_write_multiple_holding_registers, which takes a request that is too short
      for a response. */
  function ReadWriteRegisters(d: Device, buf: seq<byte>, len: nat): Outcome
    requires Buffer(buf, len)
  {
    if len < 10 then Outcome(d, 0, buf[..len])
    else
      var n, m := Word(buf[3], buf[4]), Word(buf[7], buf[8]);
      if 1 <= n <= 0x7D && 1 <= m <= 0x79 && 2 * m == buf[9] then
        var w := WriteHolding(d, Word(buf[5], buf[6]), Regs(buf[10..], m));
        if w.1 != ENOERR then Refused(w.0, Exception(w.1))
        else ReadRegisters(w.0, READWRITE_MULTIPLE_REGISTERS, w.0.holding, Word(buf[1], buf[2]), n)
      else Refused(d, 3)
  }

  function Dispatch(d: Device, buf: seq<byte>, len: nat): Outcome
    requires Buffer(buf, len)
  {
    if buf[0] == READ_INPUT_REGISTER then ReadInput(d, buf, len)
    else if buf[0] == READ_HOLDING_REGISTER then ReadHolding(d, buf, len)
    else if buf[0] == WRITE_MULTIPLE_REGISTERS then WriteRegisters(d, buf, len)
    else if buf[0] == WRITE_REGISTER then WriteRegister(d, buf, len)
    else if buf[0] == READWRITE_MULTIPLE_REGISTERS then ReadWriteRegisters(d, buf, len)
    else if buf[0] == READ_COILS then ReadCoils(d, buf, len)
    else if buf[0] == WRITE_SINGLE_COIL then WriteCoil(d, buf, len)
    else if buf[0] == WRITE_MULTIPLE_COILS then WriteMultipleCoils(d, buf, len)
    else if buf[0] == READ_DISCRETE_INPUTS then ReadDiscrete(d, buf, len)
    else Refused(d, 1)
  }

  /** func | MB_FUNC_ERROR */
  function ErrorFunction(func: byte): byte { if func < 128 then func + 128 else func }

  /** modbus_rtu_handler_request_rx: the device afterwards, and the response. */
  function Respond(d: Device, buf: seq<byte>, len: nat): (r: (Device, seq<byte>))
    requires Buffer(buf, len)
  {
    var o := Dispatch(d, buf, len);
    (o.device, if o.status == 0 then o.pdu else [ErrorFunction(buf[0]), o.status])
  }

  // ---------- the master ----------

  datatype Request =
    | CoilsRead(addr: word, n: word)
    | DiscreteRead(addr: word, n: word)
    | HoldingRead(addr: word, n: word)
    | InputRead(addr: word, n: word)
    | CoilWrite(addr: word, on: bool)
    | RegisterWrite(addr: word, value: word)
    | CoilsWrite(addr: word, bits: seq<bool>)
    | RegistersWrite(addr: word, values: seq<word>)
    | RegistersReadWrite(writeAddr: word, values: seq<word>, addr: word, n: word)

  /** The counts are uint16_t. */
  predicate Encodable(r: Request)
  {
    match r
    case CoilsWrite(_, bits) => |bits| < 65536
    case RegistersWrite(_, vs) => |vs| < 65536
    case RegistersReadWrite(_, vs, _, _) => |vs| < 65536
    case _ => true
  }

  /** What the master remembers of its request: req_func, req_reg_addr, req_nb and req_value. */
  datatype Expect = Expect(func: byte, addr: word, nb: word, value: word)

  /** `stale` is the value of an earlier request, kept where the request sets none. */
  function Expected(r: Request, stale: word): Expect
    requires Encodable(r)
  {
    match r
    case CoilsRead(addr, n) => Expect(READ_COILS, addr, n, stale)
    case DiscreteRead(addr, n) => Expect(READ_DISCRETE_INPUTS, addr, n, stale)
    case HoldingRead(addr, n) => Expect(READ_HOLDING_REGISTER, addr, n, stale)
    case InputRead(addr, n) => Expect(READ_INPUT_REGISTER, addr, n, stale)
    case CoilWrite(addr, on) => Expect(WRITE_SINGLE_COIL, addr, 1, if on then 0xFF00 else 0)
    case RegisterWrite(addr, v) => Expect(WRITE_REGISTER, addr, 1, v)
    case CoilsWrite(addr, bits) => Expect(WRITE_MULTIPLE_COILS, addr, |bits|, stale)
    case RegistersWrite(addr, vs) => Expect(WRITE_MULTIPLE_REGISTERS, addr, |vs|, stale)
    case RegistersReadWrite(_, _, addr, n) => Expect(READWRITE_MULTIPLE_REGISTERS, addr, n, stale)
  }

  /** mb_master_fill_io_status_req */
  function Head(func: byte, addr: word, nb: word): (r: seq<byte>)
    ensures |r| == 5
  {
    [func, Hi(addr), Lo(addr), Hi(nb), Lo(nb)]
  }

  /** The PDU of a request. */
  function Encode(r: Request): (pdu: seq<byte>)
    requires Encodable(r)
    ensures |pdu| >= 5
  {
    match r
    case CoilsRead(addr, n) => Head(READ_COILS, addr, n)
    case DiscreteRead(addr, n) => Head(READ_DISCRETE_INPUTS, addr, n)
    case HoldingRead(addr, n) => Head(READ_HOLDING_REGISTER, addr, n)
    case InputRead(addr, n) => Head(READ_INPUT_REGISTER, addr, n)
    case CoilWrite(addr, on) => Head(WRITE_SINGLE_COIL, addr, if on then 0xFF00 else 0)
    case RegisterWrite(addr, v) => Head(WRITE_REGISTER, addr, v)
    case CoilsWrite(addr, bits) =>
      Head(WRITE_MULTIPLE_COILS, addr, |bits|) + [CoilByteCount(|bits|)] + PackBits(bits)[..CoilByteCount(|bits|)]
    case RegistersWrite(addr, vs) =>
      Head(WRITE_MULTIPLE_REGISTERS, addr, |vs|) + [RegByteCount(|vs|)] + RegBytes(vs)
    case RegistersReadWrite(writeAddr, vs, addr, n) =>
      Head(READWRITE_MULTIPLE_REGISTERS, addr, n)
      + [Hi(writeAddr), Lo(writeAddr), Hi(|vs|), Lo(|vs|), RegByteCount(|vs|)] + RegBytes(vs)
  }

  /** modbus_rtu_validate_response, of `len` bytes at the beginning of a buffer. */
  function Validate(x: Expect, pdu: seq<byte>, len: nat): bool
    requires |pdu| >= 5
  {
    var count: int := pdu[1];
    x.func == pdu[0] &&
    if x.func == READ_COILS || x.func == READ_DISCRETE_INPUTS then len == 2 + count && count * 8 >= x.nb
    else if x.func == READ_HOLDING_REGISTER || x.func == READ_INPUT_REGISTER || x.func == READWRITE_MULTIPLE_REGISTERS then
      len == 2 + count && count / 2 == x.nb
    else if x.func == WRITE_SINGLE_COIL || x.func == WRITE_REGISTER then
      len == 5 && Word(pdu[3], pdu[4]) == x.value && Word(pdu[1], pdu[2]) == x.addr
    else if x.func == WRITE_MULTIPLE_COILS || x.func == WRITE_MULTIPLE_REGISTERS then
      len == 5 && Word(pdu[1], pdu[2]) == x.addr && Word(pdu[3], pdu[4]) == x.nb
    else false
  }
}

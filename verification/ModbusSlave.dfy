/** The slave's side as it runs: the handlers decode the PDU in the frame buffer, call back the device
  and write the response over the request.
*/
module ModbusSlave {
  import opened Modbus

  /** The PDU begins at index `off` of the frame buffer. */
  predicate Frame(frame: array<byte>, off: nat, len: nat) { off + MB_PDU_SIZE_MAX <= frame.Length && off + len <= frame.Length }

  /** Only `n` bytes from index `at` on may have changed. */
  twostate predicate OnlyAt(frame: array<byte>, new at: nat, new n: nat)
    reads frame
    requires at + n <= frame.Length
  {
    forall i :: 0 <= i < frame.Length && !(at <= i < at + n) ==> frame[i] == old(frame[i])
  }

  /** Writes bytes into the frame. */
  method Put(frame: array<byte>, at: nat, bs: seq<byte>)
    requires at + |bs| <= frame.Length
    modifies frame
    ensures frame[at..at + |bs|] == bs && OnlyAt(frame, at, |bs|)
  {
    var i := 0;
    while i < |bs|
      invariant 0 <= i <= |bs| && frame[at..at + i] == bs[..i] && OnlyAt(frame, at, |bs|)
    {
      frame[at + i] := bs[i];
      i := i + 1;
    }
    assert bs[..i] == bs;
  }

  /** The callbacks of a slave, over the reference device. */
  class RefDevice {
    var state: Device

    constructor (state: Device)
      ensures this.state == state
    {
      this.state := state;
    }

    /** holding_regs_cb, mode MB_REG_READ */
    method HoldingRead(frame: array<byte>, at: nat, addr: word, n: nat) returns (e: ErrorCode)
      requires at + 2 * n <= frame.Length
      modifies frame
      ensures e == Access(state, |state.holding|, addr, n)
      ensures e == ENOERR ==> frame[at..at + 2 * n] == RegBytes(state.holding[addr..addr + n])
      ensures OnlyAt(frame, at, 2 * n)
    {
      e := Access(state, |state.holding|, addr, n);
      if e == ENOERR { Put(frame, at, RegBytes(state.holding[addr..addr + n])); }
    }

    /** input_regs_cb */
    method InputRead(frame: array<byte>, at: nat, addr: word, n: nat) returns (e: ErrorCode)
      requires at + 2 * n <= frame.Length
      modifies frame
      ensures e == Access(state, |state.input|, addr, n)
      ensures e == ENOERR ==> frame[at..at + 2 * n] == RegBytes(state.input[addr..addr + n])
      ensures OnlyAt(frame, at, 2 * n)
    {
      e := Access(state, |state.input|, addr, n);
      if e == ENOERR { Put(frame, at, RegBytes(state.input[addr..addr + n])); }
    }

    /** coil_cb, mode MB_REG_READ */
    method CoilRead(frame: array<byte>, at: nat, addr: word, n: nat) returns (e: ErrorCode)
      requires at + (n + 7) / 8 <= frame.Length
      modifies frame
      ensures e == Access(state, |state.coils|, addr, n)
      ensures e == ENOERR ==> frame[at..at + (n + 7) / 8] == PackBits(state.coils[addr..addr + n])
      ensures OnlyAt(frame, at, (n + 7) / 8)
    {
      e := Access(state, |state.coils|, addr, n);
      if e == ENOERR { Put(frame, at, PackBits(state.coils[addr..addr + n])); }
    }

    /** discrete_cb */
    method DiscreteRead(frame: array<byte>, at: nat, addr: word, n: nat) returns (e: ErrorCode)
      requires at + (n + 7) / 8 <= frame.Length
      modifies frame
      ensures e == Access(state, |state.discrete|, addr, n)
      ensures e == ENOERR ==> frame[at..at + (n + 7) / 8] == PackBits(state.discrete[addr..addr + n])
      ensures OnlyAt(frame, at, (n + 7) / 8)
    {
      e := Access(state, |state.discrete|, addr, n);
      if e == ENOERR { Put(frame, at, PackBits(state.discrete[addr..addr + n])); }
    }

    /** holding_regs_cb, mode MB_REG_WRITE */
    method HoldingWrite(regs: seq<word>, addr: word) returns (e: ErrorCode)
      modifies this
      ensures (state, e) == WriteHolding(old(state), addr, regs)
    {
      var w := WriteHolding(state, addr, regs);
      state, e := w.0, w.1;
    }

    /** coil_cb, mode MB_REG_WRITE */
    method CoilWrite(bits: seq<bool>, addr: word) returns (e: ErrorCode)
      modifies this
      ensures (state, e) == WriteCoils(old(state), addr, bits)
    {
      var w := WriteCoils(state, addr, bits);
      state, e := w.0, w.1;
    }
  }

  /** A handler's result is the outcome `o`: device, status, and the response at the beginning of the PDU. */
  ghost predicate Does(dev: RefDevice, frame: array<byte>, off: nat, status: byte, len: nat, o: Outcome)
    reads dev, frame
  {
    && dev.state == o.device && status == o.status
    && (status == 0 ==> len == |o.pdu| && off + len <= frame.Length && frame[off..off + len] == o.pdu)
  }

  /** The header of a response to a read: function code and byte count. */
  method PutCount(frame: array<byte>, off: nat, func: byte, count: byte)
    requires off + 2 <= frame.Length
    modifies frame
    ensures frame[off] == func && frame[off + 1] == count && OnlyAt(frame, off, 2)
  {
    frame[off] := func;
    frame[off + 1] := count;
  }

  lemma Glue(frame: array<byte>, off: nat, n: nat, func: byte, count: byte, body: seq<byte>)
    requires off + 2 + n <= frame.Length && frame[off] == func && frame[off + 1] == count && frame[off + 2..off + 2 + n] == body
    ensures frame[off..off + 2 + n] == [func, count] + body
  {
    assert frame[off..off + 2 + n] == frame[off..off + 2] + frame[off + 2..off + 2 + n];
  }

  /** The two byte count computations of the source. */
  method BitByteCount(n: nat) returns (count: byte)
    ensures count == CoilByteCount(n)
  {
    if n % 8 != 0 { count := (n / 8 + 1) % 256; } else { count := n / 8 % 256; }
  }

  lemma ExceptionIff(e: ErrorCode)
    ensures Exception(e) == 0 <==> e == ENOERR
  {
  }

  // ---------- the handlers ----------

  /** The header, the read callback and the length of a response with holding registers. */
  method ReplyHolding(dev: RefDevice, frame: array<byte>, off: nat, func: byte, addr: word, count: nat)
    returns (e: ErrorCode, len: nat)
    requires off + MB_PDU_SIZE_MAX <= frame.Length && count <= 125
    modifies frame
    ensures Does(dev, frame, off, Exception(e), len, ReadRegisters(dev.state, func, dev.state.holding, addr, count))
    ensures OnlyAt(frame, off, MB_PDU_SIZE_MAX)
  {
    hide RegBytes, RegByteCount;
    PutCount(frame, off, func, RegByteCount(count));
    len := 2;
    e := dev.HoldingRead(frame, off + 2, addr, count);
    if e == ENOERR {
      Glue(frame, off, 2 * count, func, RegByteCount(count), RegBytes(dev.state.holding[addr..addr + count]));
      len := len + 2 * count;
    }
  }

  /** modbus_func_handler_read_holding_register */
  method HandleReadHolding(dev: RefDevice, frame: array<byte>, off: nat, len0: nat) returns (status: byte, len: nat)
    requires Frame(frame, off, len0)
    modifies frame
    ensures Does(dev, frame, off, status, len, ReadHolding(dev.state, old(frame[off..]), len0)) && OnlyAt(frame, off, MB_PDU_SIZE_MAX)
  {
    hide ReadRegisters, Word, Exception;
    ghost var req := frame[off..];
    status, len := 0, len0;
    if len0 == 5 {
      var addr: int, count: int := Word(frame[off + 1], frame[off + 2]), frame[off + 4];
      assert addr == Word(req[1], req[2]) && count == req[4];
      if 1 <= count && count <= 0x7D {
        var e;
        e, len := ReplyHolding(dev, frame, off, READ_HOLDING_REGISTER, addr, count);
        ExceptionIff(e);
        if e != ENOERR { status := Exception(e); }
      } else {
        status := 3;
      }
    } else {
      status := 3;
    }
  }

  /** The header, the read callback and the length of a response with input registers. */
  method ReplyInput(dev: RefDevice, frame: array<byte>, off: nat, addr: word, count: nat) returns (e: ErrorCode, len: nat)
    requires off + MB_PDU_SIZE_MAX <= frame.Length && count <= 125
    modifies frame
    ensures Does(dev, frame, off, Exception(e), len, ReadRegisters(dev.state, READ_INPUT_REGISTER, dev.state.input, addr, count))
    ensures OnlyAt(frame, off, MB_PDU_SIZE_MAX)
  {
    hide RegBytes, RegByteCount;
    PutCount(frame, off, READ_INPUT_REGISTER, RegByteCount(count));
    len := 2;
    e := dev.InputRead(frame, off + 2, addr, count);
    if e == ENOERR {
      Glue(frame, off, 2 * count, READ_INPUT_REGISTER, RegByteCount(count), RegBytes(dev.state.input[addr..addr + count]));
      len := len + 2 * count;
    }
  }

  /** modbus_func_handler_read_input_register */
  method HandleReadInput(dev: RefDevice, frame: array<byte>, off: nat, len0: nat) returns (status: byte, len: nat)
    requires Frame(frame, off, len0)
    modifies frame
    ensures Does(dev, frame, off, status, len, ReadInput(dev.state, old(frame[off..]), len0)) && OnlyAt(frame, off, MB_PDU_SIZE_MAX)
  {
    hide ReadRegisters, Word, Exception;
    ghost var req := frame[off..];
    status, len := 0, len0;
    if len0 == 5 {
      var addr: int, count: int := Word(frame[off + 1], frame[off + 2]), Word(frame[off + 3], frame[off + 4]);
      assert addr == Word(req[1], req[2]) && count == Word(req[3], req[4]);
      if 1 <= count && count < 0x7D {
        var e;
        e, len := ReplyInput(dev, frame, off, addr, count);
        ExceptionIff(e);
        if e != ENOERR { status := Exception(e); }
      } else {
        status := 3;
      }
    } else {
      status := 3;
    }
  }

  /** The header, the read callback and the length of a response with coils. */
  method ReplyCoils(dev: RefDevice, frame: array<byte>, off: nat, addr: word, count: nat) returns (e: ErrorCode, len: nat)
    requires off + MB_PDU_SIZE_MAX <= frame.Length && 1 <= count < 2000
    modifies frame
    ensures Does(dev, frame, off, Exception(e), len, ReadBits(dev.state, READ_COILS, dev.state.coils, addr, count))
    ensures OnlyAt(frame, off, MB_PDU_SIZE_MAX)
  {
    hide PackBits, CoilByteCount;
    var n := BitByteCount(count);
    ByteCounts(count);
    PutCount(frame, off, READ_COILS, n);
    len := 2;
    e := dev.CoilRead(frame, off + 2, addr, count);
    if e == ENOERR {
      Glue(frame, off, n, READ_COILS, n, PackBits(dev.state.coils[addr..addr + count]));
      len := len + n;
    }
  }

  /** modbus_func_handler_read_coils */
  method HandleReadCoils(dev: RefDevice, frame: array<byte>, off: nat, len0: nat) returns (status: byte, len: nat)
    requires Frame(frame, off, len0)
    modifies frame
    ensures Does(dev, frame, off, status, len, ReadCoils(dev.state, old(frame[off..]), len0)) && OnlyAt(frame, off, MB_PDU_SIZE_MAX)
  {
    hide ReadBits, Word, Exception;
    ghost var req := frame[off..];
    status, len := 0, len0;
    if len0 == 5 {
      var addr: int, count: int := Word(frame[off + 1], frame[off + 2]), Word(frame[off + 3], frame[off + 4]);
      assert addr == Word(req[1], req[2]) && count == Word(req[3], req[4]);
      if 1 <= count && count < 2000 {
        var e;
        e, len := ReplyCoils(dev, frame, off, addr, count);
        ExceptionIff(e);
        if e != ENOERR { status := Exception(e); }
      } else {
        status := 3;
      }
    } else {
      status := 3;
    }
  }

  /** The header, the read callback and the length of a response with discrete inputs. */
  method ReplyDiscrete(dev: RefDevice, frame: array<byte>, off: nat, addr: word, count: nat) returns (e: ErrorCode, len: nat)
    requires off + MB_PDU_SIZE_MAX <= frame.Length && 1 <= count < 2000
    modifies frame
    ensures Does(dev, frame, off, Exception(e), len, ReadBits(dev.state, READ_DISCRETE_INPUTS, dev.state.discrete, addr, count))
    ensures OnlyAt(frame, off, MB_PDU_SIZE_MAX)
  {
    hide PackBits, CoilByteCount;
    var n := BitByteCount(count);
    ByteCounts(count);
    PutCount(frame, off, READ_DISCRETE_INPUTS, n);
    len := 2;
    e := dev.DiscreteRead(frame, off + 2, addr, count);
    if e == ENOERR {
      Glue(frame, off, n, READ_DISCRETE_INPUTS, n, PackBits(dev.state.discrete[addr..addr + count]));
      len := len + n;
    }
  }

  /** modbus_func_handler_read_discrete_inputs */
  method HandleReadDiscrete(dev: RefDevice, frame: array<byte>, off: nat, len0: nat) returns (status: byte, len: nat)
    requires Frame(frame, off, len0)
    modifies frame
    ensures Does(dev, frame, off, status, len, ReadDiscrete(dev.state, old(frame[off..]), len0)) && OnlyAt(frame, off, MB_PDU_SIZE_MAX)
  {
    hide ReadBits, Word, Exception;
    ghost var req := frame[off..];
    status, len := 0, len0;
    if len0 == 5 {
      var addr: int, count: int := Word(frame[off + 1], frame[off + 2]), Word(frame[off + 3], frame[off + 4]);
      assert addr == Word(req[1], req[2]) && count == Word(req[3], req[4]);
      if 1 <= count && count < 2000 {
        var e;
        e, len := ReplyDiscrete(dev, frame, off, addr, count);
        ExceptionIff(e);
        if e != ENOERR { status := Exception(e); }
      } else {
        status := 3;
      }
    } else {
      status := 3;
    }
  }

  /** modbus_func_handler_write_holding_register */
  method HandleWriteRegister(dev: RefDevice, frame: array<byte>, off: nat, len0: nat) returns (status: byte, len: nat)
    requires Frame(frame, off, len0)
    modifies dev
    ensures Does(dev, frame, off, status, len, WriteRegister(old(dev.state), frame[off..], len0))
  {
    hide Word, WriteHolding;
    ghost var req := frame[off..];
    status, len := 0, len0;
    if len0 == 5 {
      var addr, value := Word(frame[off + 1], frame[off + 2]), Word(frame[off + 3], frame[off + 4]);
      assert addr == Word(req[1], req[2]) && value == Word(req[3], req[4]);
      var e := dev.HoldingWrite([value], addr);
      if e != ENOERR { status := Exception(e); }
      assert frame[off..off + 5] == req[..5];
    } else {
      status := 3;
    }
  }

  /** modbus_func_handler_write_multiple_holding_registers */
  method HandleWriteRegisters(dev: RefDevice, frame: array<byte>, off: nat, len0: nat) returns (status: byte, len: nat)
    requires Frame(frame, off, len0)
    modifies dev
    ensures Does(dev, frame, off, status, len, WriteRegisters(old(dev.state), frame[off..], len0))
  {
    hide Word, WriteHolding, Regs;
    ghost var req := frame[off..];
    status, len := 0, len0;
    if len0 >= 6 {
      var addr: int, count: int := Word(frame[off + 1], frame[off + 2]), Word(frame[off + 3], frame[off + 4]);
      var byteCount := frame[off + 5];
      assert addr == Word(req[1], req[2]) && count == Word(req[3], req[4]) && byteCount == req[5];
      if 1 <= count && count <= 0x78 && byteCount == RegByteCount(count) {
        assert frame[off + 6..] == req[6..];
        var e := dev.HoldingWrite(Regs(frame[off + 6..], count), addr);
        if e != ENOERR {
          status := Exception(e);
        } else {
          len := 5;
        }
        assert frame[off..off + 5] == req[..5];
      } else {
        status := 3;
      }
    } else {
      status := 3;
    }
  }

  /** modbus_func_handler_write_coil */
  method HandleWriteCoil(dev: RefDevice, frame: array<byte>, off: nat, len0: nat) returns (status: byte, len: nat)
    requires Frame(frame, off, len0)
    modifies dev
    ensures Does(dev, frame, off, status, len, WriteCoil(old(dev.state), frame[off..], len0))
  {
    hide Word, WriteCoils;
    ghost var req := frame[off..];
    status, len := 0, len0;
    if len0 == 5 {
      var addr := Word(frame[off + 1], frame[off + 2]);
      assert addr == Word(req[1], req[2]) && frame[off + 3] == req[3] && frame[off + 4] == req[4];
      if frame[off + 4] == 0 && (frame[off + 3] == 0xFF || frame[off + 3] == 0) {
        var e := dev.CoilWrite([frame[off + 3] == 0xFF], addr);
        if e != ENOERR { status := Exception(e); }
        assert frame[off..off + 5] == req[..5];
      } else {
        status := 3;
      }
    } else {
      status := 3;
    }
  }

  /** modbus_func_handler_write_multiple_coils */
  method HandleWriteMultipleCoils(dev: RefDevice, frame: array<byte>, off: nat, len0: nat) returns (status: byte, len: nat)
    requires Frame(frame, off, len0)
    modifies dev
    ensures Does(dev, frame, off, status, len, WriteMultipleCoils(old(dev.state), frame[off..], len0))
  {
    hide Word, WriteCoils, Bits;
    ghost var req := frame[off..];
    status, len := 0, len0;
    if len0 > 5 {
      var addr: int, count: int := Word(frame[off + 1], frame[off + 2]), Word(frame[off + 3], frame[off + 4]);
      var byteCount := frame[off + 5];
      assert addr == Word(req[1], req[2]) && count == Word(req[3], req[4]) && byteCount == req[5];
      var verify := BitByteCount(count);
      ByteCounts(count);
      if 1 <= count && count <= 0x07B0 && verify == byteCount {
        assert frame[off + 6..] == req[6..];
        var e := dev.CoilWrite(Bits(frame[off + 6..], count), addr);
        if e != ENOERR {
          status := Exception(e);
        } else {
          len := 5;
        }
        assert frame[off..off + 5] == req[..5];
      } else {
        status := 3;
      }
    } else {
      status := 3;
    }
  }

  /** modbus_func_handler_read_write_multiple_holding_registers */
  method HandleReadWriteRegisters(dev: RefDevice, frame: array<byte>, off: nat, len0: nat) returns (status: byte, len: nat)
    requires Frame(frame, off, len0)
    modifies dev, frame
    ensures Does(dev, frame, off, status, len, ReadWriteRegisters(old(dev.state), old(frame[off..]), len0))
    ensures OnlyAt(frame, off, MB_PDU_SIZE_MAX)
  {
    hide Word, WriteHolding, Regs, ReadRegisters, Exception;
    ghost var req := frame[off..];
    status, len := 0, len0;
    if len0 >= 10 {
      var readAddr: int, readCount: int := Word(frame[off + 1], frame[off + 2]), Word(frame[off + 3], frame[off + 4]);
      var writeAddr, writeCount := Word(frame[off + 5], frame[off + 6]), Word(frame[off + 7], frame[off + 8]);
      var byteCount := frame[off + 9];
      assert readAddr == Word(req[1], req[2]) && readCount == Word(req[3], req[4]);
      assert writeAddr == Word(req[5], req[6]) && writeCount == Word(req[7], req[8]) && byteCount == req[9];
      if 1 <= readCount && readCount <= 0x7D && 1 <= writeCount && writeCount <= 0x79 && 2 * writeCount == byteCount {
        assert frame[off + 10..] == req[10..];
        var e := dev.HoldingWrite(Regs(frame[off + 10..], writeCount), writeAddr);
        if e == ENOERR {
          e, len := ReplyHolding(dev, frame, off, READWRITE_MULTIPLE_REGISTERS, readAddr, readCount);
        }
        ExceptionIff(e);
        if e != ENOERR { status := Exception(e); }
      } else {
        status := 3;
      }
    } else {
      assert frame[off..off + len0] == req[..len0];
    }
  }

  // ---------- the dispatcher ----------

  /** The switch on the function code. */
  method HandleFunction(dev: RefDevice, frame: array<byte>, off: nat, len0: nat) returns (status: byte, len: nat)
    requires Frame(frame, off, len0)
    modifies dev, frame
    ensures Does(dev, frame, off, status, len, Dispatch(old(dev.state), old(frame[off..]), len0))
    ensures OnlyAt(frame, off, MB_PDU_SIZE_MAX)
  {
    hide ReadInput, ReadHolding, WriteRegisters, WriteRegister, ReadWriteRegisters, ReadCoils, WriteCoil, WriteMultipleCoils, ReadDiscrete;
    var func := frame[off];
    assert func == frame[off..][0];
    if func == READ_INPUT_REGISTER { status, len := HandleReadInput(dev, frame, off, len0); }
    else if func == READ_HOLDING_REGISTER { status, len := HandleReadHolding(dev, frame, off, len0); }
    else if func == WRITE_MULTIPLE_REGISTERS { status, len := HandleWriteRegisters(dev, frame, off, len0); }
    else if func == WRITE_REGISTER { status, len := HandleWriteRegister(dev, frame, off, len0); }
    else if func == READWRITE_MULTIPLE_REGISTERS { status, len := HandleReadWriteRegisters(dev, frame, off, len0); }
    else if func == READ_COILS { status, len := HandleReadCoils(dev, frame, off, len0); }
    else if func == WRITE_SINGLE_COIL { status, len := HandleWriteCoil(dev, frame, off, len0); }
    else if func == WRITE_MULTIPLE_COILS { status, len := HandleWriteMultipleCoils(dev, frame, off, len0); }
    else if func == READ_DISCRETE_INPUTS { status, len := HandleReadDiscrete(dev, frame, off, len0); }
    else { status, len := 1, len0; }
  }

  /** modbus_rtu_handler_request_rx */
  method RequestRx(dev: RefDevice, frame: array<byte>, off: nat, len0: nat) returns (ok: bool, rspLen: nat)
    requires Frame(frame, off, len0)
    modifies dev, frame
    ensures off + rspLen <= frame.Length && OnlyAt(frame, off, MB_PDU_SIZE_MAX)
    ensures dev.state == Respond(old(dev.state), old(frame[off..]), len0).0
    ensures frame[off..off + rspLen] == Respond(old(dev.state), old(frame[off..]), len0).1
    ensures ok <==> Dispatch(old(dev.state), old(frame[off..]), len0).status == 0
  {
    hide Dispatch;
    var func := frame[off];
    assert func == frame[off..][0];
    var status, len := HandleFunction(dev, frame, off, len0);
    if status != 0 {
      frame[off] := ErrorFunction(func);
      frame[off + 1] := status;
      len := 2;
    }
    rspLen, ok := len, status == 0;
  }
}

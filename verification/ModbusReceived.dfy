/** What a request may depend on: the slave's handlers take the amount of data from the request and not from
  the number of bytes that came in, so a request that is too short is completed by what the buffer held
  before.
*/
module ModbusReceived {
  import opened Modbus
  import opened ModbusEndToEnd

  /** The response when `p` has come in and `t` is behind it in the buffer. */
  function RespondTo(d: Device, p: seq<byte>, t: seq<byte>): (Device, seq<byte>)
    requires |p| + |t| >= MB_PDU_SIZE_MAX
  {
    Respond(d, p + t, |p|)
  }

  /** The response and the device afterwards do not depend on what is behind the bytes that came in. */
  ghost predicate OnlyReceived(p: seq<byte>)
  {
    forall d, t, t' | |p| + |t| >= MB_PDU_SIZE_MAX && |p| + |t'| >= MB_PDU_SIZE_MAX ::
      RespondTo(d, p, t) == RespondTo(d, p, t')
  }

  predicate RegistersAccepted(p: seq<byte>)
  {
    |p| >= 6 && 1 <= Word(p[3], p[4]) <= 120 && p[5] == 2 * Word(p[3], p[4])
  }

  predicate CoilsAccepted(p: seq<byte>)
  {
    |p| >= 6 && 1 <= Word(p[3], p[4]) <= 1968 && p[5] == (Word(p[3], p[4]) + 7) / 8
  }

  predicate ReadWriteAccepted(p: seq<byte>)
  {
    && |p| >= 10 && 1 <= Word(p[3], p[4]) <= 0x7D && 1 <= Word(p[7], p[8]) <= 0x79
    && p[9] == 2 * Word(p[7], p[8])
  }

  /** There is a function code, and a write whose counts are accepted has all the bytes it declares. */
  predicate Covers(p: seq<byte>)
  {
    && |p| > 0
    && (p[0] == WRITE_MULTIPLE_REGISTERS && RegistersAccepted(p) ==> 6 + p[5] <= |p|)
    && (p[0] == WRITE_MULTIPLE_COILS && CoilsAccepted(p) ==> 6 + p[5] <= |p|)
    && (p[0] == READWRITE_MULTIPLE_REGISTERS && ReadWriteAccepted(p) ==> 10 + p[9] <= |p|)
  }

  // ---------- enough has come in ----------

  /** Two buffers with the same bytes received. */
  predicate Alike(b: seq<byte>, c: seq<byte>, len: nat)
  {
    Buffer(b, len) && Buffer(c, len) && forall i :: 0 <= i < len ==> b[i] == c[i]
  }

  lemma SameRegs(b: seq<byte>, c: seq<byte>, at: nat, n: nat, len: nat)
    requires Alike(b, c, len) && at + 2 * n <= len
    ensures Regs(b[at..], n) == Regs(c[at..], n)
  {
    hide Word;
    forall i | 0 <= i < n ensures Regs(b[at..], n)[i] == Regs(c[at..], n)[i] {
      assert b[at..][2 * i] == b[at + 2 * i] && c[at..][2 * i] == c[at + 2 * i];
      assert b[at..][2 * i + 1] == b[at + 2 * i + 1] && c[at..][2 * i + 1] == c[at + 2 * i + 1];
    }
  }

  lemma SameBits(b: seq<byte>, c: seq<byte>, n: nat, len: nat)
    requires Alike(b, c, len) && 6 + (n + 7) / 8 <= len
    ensures Bits(b[6..], n) == Bits(c[6..], n)
  {
    hide BitOf;
    forall i | 0 <= i < n ensures Bits(b[6..], n)[i] == Bits(c[6..], n)[i] {
      var k := i / 8;
      assert b[6..][k] == b[6 + k] && c[6..][k] == c[6 + k];
    }
  }

  lemma SamePrefix(b: seq<byte>, c: seq<byte>, n: nat, len: nat)
    requires Alike(b, c, len) && n <= len
    ensures b[..n] == c[..n]
  {
  }

  lemma RegistersAlike(d: Device, b: seq<byte>, c: seq<byte>, len: nat)
    requires Alike(b, c, len)
    requires RegistersAccepted(b[..len]) ==> 6 + b[5] <= len
    ensures WriteRegisters(d, b, len) == WriteRegisters(d, c, len)
  {
    hide Word, WriteHolding, Regs;
    if RegistersAccepted(b[..len]) {
      SameRegs(b, c, 6, Word(b[3], b[4]), len);
      SamePrefix(b, c, 5, len);
    }
  }

  lemma CoilsAlike(d: Device, b: seq<byte>, c: seq<byte>, len: nat)
    requires Alike(b, c, len)
    requires CoilsAccepted(b[..len]) ==> 6 + b[5] <= len
    ensures WriteMultipleCoils(d, b, len) == WriteMultipleCoils(d, c, len)
  {
    hide Word, WriteCoils, Bits;
    if CoilsAccepted(b[..len]) {
      SameBits(b, c, Word(b[3], b[4]), len);
      SamePrefix(b, c, 5, len);
    }
  }

  lemma ReadWriteAlike(d: Device, b: seq<byte>, c: seq<byte>, len: nat)
    requires Alike(b, c, len)
    requires ReadWriteAccepted(b[..len]) ==> 10 + b[9] <= len
    ensures ReadWriteRegisters(d, b, len) == ReadWriteRegisters(d, c, len)
  {
    hide Word, WriteHolding, Regs, ReadRegisters;
    if len < 10 {
      SamePrefix(b, c, len, len);
    } else if ReadWriteAccepted(b[..len]) {
      SameRegs(b, c, 10, Word(b[7], b[8]), len);
    }
  }

  lemma OneWriteAlike(d: Device, b: seq<byte>, c: seq<byte>, len: nat)
    requires Alike(b, c, len)
    ensures WriteRegister(d, b, len) == WriteRegister(d, c, len)
    ensures WriteCoil(d, b, len) == WriteCoil(d, c, len)
  {
    hide Word, WriteHolding, WriteCoils;
    if len == 5 { SamePrefix(b, c, 5, len); }
  }

  lemma ReadsAlike(d: Device, b: seq<byte>, c: seq<byte>, len: nat)
    requires Alike(b, c, len)
    ensures ReadInput(d, b, len) == ReadInput(d, c, len) && ReadHolding(d, b, len) == ReadHolding(d, c, len)
    ensures ReadCoils(d, b, len) == ReadCoils(d, c, len) && ReadDiscrete(d, b, len) == ReadDiscrete(d, c, len)
  {
    hide Word, ReadRegisters, ReadBits;
  }

  lemma DispatchAlike(d: Device, b: seq<byte>, c: seq<byte>, len: nat)
    requires Alike(b, c, len) && Covers(b[..len])
    ensures Dispatch(d, b, len) == Dispatch(d, c, len)
  {
    hide ReadInput, ReadHolding, ReadCoils, ReadDiscrete, WriteRegister, WriteCoil, WriteRegisters, WriteMultipleCoils, ReadWriteRegisters;
    hide Word;
    var p := b[..len];
    assert p[0] == b[0] == c[0] && (len >= 6 ==> p[5] == b[5]) && (len >= 10 ==> p[9] == b[9]);
    ReadsAlike(d, b, c, len);
    OneWriteAlike(d, b, c, len);
    if b[0] == WRITE_MULTIPLE_REGISTERS { RegistersAlike(d, b, c, len); }
    if b[0] == WRITE_MULTIPLE_COILS { CoilsAlike(d, b, c, len); }
    if b[0] == READWRITE_MULTIPLE_REGISTERS { ReadWriteAlike(d, b, c, len); }
  }

  lemma CoveredAlike(d: Device, p: seq<byte>, t: seq<byte>, t': seq<byte>)
    requires Covers(p) && |p| + |t| >= MB_PDU_SIZE_MAX && |p| + |t'| >= MB_PDU_SIZE_MAX
    ensures RespondTo(d, p, t) == RespondTo(d, p, t')
  {
    hide Dispatch, Covers;
    var b, c := p + t, p + t';
    assert b[..|p|] == p;
    assert b[0] == c[0] by { assert |p| > 0 by { NotEmpty(p); } }
    DispatchAlike(d, b, c, |p|);
  }

  lemma NotEmpty(p: seq<byte>)
    requires Covers(p)
    ensures |p| > 0
  {
  }

  // ---------- too little has come in ----------

  /** A device with so many cells that every access is allowed. */
  function Large(): (d: Device)
    ensures |d.coils| == |d.holding| == 70000 && d.fault == ENOERR
  {
    Device(seq(70000, _ => false), [], seq(70000, _ => 0), [], ENOERR)
  }

  function Fill(b: byte): (t: seq<byte>)
    ensures |t| == MB_PDU_SIZE_MAX && forall i :: 0 <= i < |t| ==> t[i] == b
  {
    seq(MB_PDU_SIZE_MAX, _ => b)
  }

  /** The last register is not the same if its low byte comes from the buffer. */
  lemma LastRegDiffers(p: seq<byte>, at: nat, n: nat)
    requires 1 <= n <= 121 && at <= |p| < at + 2 * n
    ensures Regs((p + Fill(0))[at..], n)[n - 1] != Regs((p + Fill(0xFF))[at..], n)[n - 1]
  {
    var b, c, k := p + Fill(0), p + Fill(0xFF), at + 2 * n - 1;
    assert b[at..][2 * (n - 1) + 1] == b[k] == 0 && c[at..][2 * (n - 1) + 1] == c[k] == 0xFF;
    LowDiffers(b[k - 1], c[k - 1]);
  }

  lemma LowDiffers(h: byte, h': byte)
    ensures Word(h, 0) != Word(h', 0xFF)
  {
    assert Word(h, 0) % 256 == 0 && Word(h', 0xFF) % 256 == 0xFF;
  }

  /** A number of `n` ones. */
  function Ones(n: nat): nat { if n == 0 then 0 else 1 + 2 * Ones(n - 1) }

  lemma OnesNext(n: nat)
    requires n > 0
    ensures Ones(n) % 2 == 1 && Ones(n) / 2 == Ones(n - 1)
  {
    hide Ones;
    var m := Ones(n - 1);
    assert Ones(n) == 1 + 2 * m by { OnesIs(n); }
  }

  lemma OnesIs(n: nat)
    requires n > 0
    ensures Ones(n) == 1 + 2 * Ones(n - 1)
  {
  }

  lemma BitOfNext(b: nat, k: nat)
    ensures BitOf(b, 0) == (b % 2 == 1) && (k > 0 ==> BitOf(b, k) == BitOf(b / 2, k - 1))
  {
  }

  lemma {:induction false} BitOfOnes(n: nat, k: nat)
    requires k < n
    ensures BitOf(Ones(n), k)
  {
    hide Ones, BitOf;
    OnesNext(n);
    BitOfNext(Ones(n), k);
    if k > 0 { BitOfOnes(n - 1, k - 1); }
  }

  lemma {:induction false} BitOfZero(k: nat)
    ensures !BitOf(0, k)
  {
    if k > 0 { BitOfZero(k - 1); }
  }

  lemma BitOfFilled(k: nat)
    requires k < 8
    ensures !BitOf(0, k) && BitOf(0xFF, k)
  {
    BitOfZero(k);
    BitOfOnes(8, k);
    assert Ones(4) == 15 && Ones(8) == 0xFF;
  }

  /** Likewise the last bit. */
  lemma LastBitDiffers(p: seq<byte>, n: nat)
    requires 1 <= n <= 1968 && 6 <= |p| < 6 + (n + 7) / 8
    ensures Bits((p + Fill(0))[6..], n)[n - 1] != Bits((p + Fill(0xFF))[6..], n)[n - 1]
  {
    hide BitOf;
    var b, c, k := p + Fill(0), p + Fill(0xFF), (n - 1) / 8;
    assert k == (n + 7) / 8 - 1;
    assert b[6..][k] == b[6 + k] == 0 && c[6..][k] == c[6 + k] == 0xFF;
    BitOfFilled((n - 1) % 8);
  }

  /** What is written last is found in the device afterwards. */
  lemma OverwriteDiffers<T>(cells: seq<T>, addr: nat, vs: seq<T>, ws: seq<T>)
    requires |vs| == |ws| > 0 && addr + |vs| <= |cells| && vs[|vs| - 1] != ws[|vs| - 1]
    ensures Overwrite(cells, addr, vs) != Overwrite(cells, addr, ws)
  {
    hide Overwrite;
    var i := addr + |vs| - 1;
    assert Overwrite(cells, addr, vs)[i] == vs[i - addr] && Overwrite(cells, addr, ws)[i] == ws[i - addr];
  }

  lemma RegistersWritten(d: Device, b: seq<byte>, len: nat)
    requires Buffer(b, len) && d == Large() && b[0] == WRITE_MULTIPLE_REGISTERS && RegistersAccepted(b[..len])
    ensures |Regs(b[6..], Word(b[3], b[4]))| + Word(b[1], b[2]) <= |d.holding|
    ensures Respond(d, b, len).0 == d.(holding := Overwrite(d.holding, Word(b[1], b[2]), Regs(b[6..], Word(b[3], b[4]))))
  {
    hide Word, Large, Overwrite, Regs;
  }

  lemma CoilsWritten(d: Device, b: seq<byte>, len: nat)
    requires Buffer(b, len) && d == Large() && b[0] == WRITE_MULTIPLE_COILS && CoilsAccepted(b[..len])
    ensures |Bits(b[6..], Word(b[3], b[4]))| + Word(b[1], b[2]) <= |d.coils|
    ensures Respond(d, b, len).0 == d.(coils := Overwrite(d.coils, Word(b[1], b[2]), Bits(b[6..], Word(b[3], b[4]))))
  {
    hide Word, Large, Overwrite, Bits;
  }

  lemma ReadWriteWritten(d: Device, b: seq<byte>, len: nat)
    requires Buffer(b, len) && d == Large() && b[0] == READWRITE_MULTIPLE_REGISTERS && ReadWriteAccepted(b[..len])
    ensures |Regs(b[10..], Word(b[7], b[8]))| + Word(b[5], b[6]) <= |d.holding|
    ensures Respond(d, b, len).0 == d.(holding := Overwrite(d.holding, Word(b[5], b[6]), Regs(b[10..], Word(b[7], b[8]))))
  {
    hide Word, Large, Overwrite, Regs;
  }

  lemma UncoveredRegisters(p: seq<byte>)
    requires |p| > 0 && p[0] == WRITE_MULTIPLE_REGISTERS && RegistersAccepted(p) && 6 + p[5] > |p|
    ensures RespondTo(Large(), p, Fill(0)) != RespondTo(Large(), p, Fill(0xFF))
  {
    hide Large, Respond, Regs, Overwrite;
    var b, c, d := p + Fill(0), p + Fill(0xFF), Large();
    assert b[..|p|] == p && c[..|p|] == p;
    RegistersWritten(d, b, |p|);
    RegistersWritten(d, c, |p|);
    var n := Word(p[3], p[4]);
    LastRegDiffers(p, 6, n);
    OverwriteDiffers(d.holding, Word(p[1], p[2]), Regs(b[6..], n), Regs(c[6..], n));
  }

  lemma UncoveredCoils(p: seq<byte>)
    requires |p| > 0 && p[0] == WRITE_MULTIPLE_COILS && CoilsAccepted(p) && 6 + p[5] > |p|
    ensures RespondTo(Large(), p, Fill(0)) != RespondTo(Large(), p, Fill(0xFF))
  {
    hide Large, Respond, Bits, Overwrite;
    var b, c, d := p + Fill(0), p + Fill(0xFF), Large();
    assert b[..|p|] == p && c[..|p|] == p;
    CoilsWritten(d, b, |p|);
    CoilsWritten(d, c, |p|);
    var n := Word(p[3], p[4]);
    LastBitDiffers(p, n);
    OverwriteDiffers(d.coils, Word(p[1], p[2]), Bits(b[6..], n), Bits(c[6..], n));
  }

  lemma UncoveredReadWrite(p: seq<byte>)
    requires |p| > 0 && p[0] == READWRITE_MULTIPLE_REGISTERS && ReadWriteAccepted(p) && 10 + p[9] > |p|
    ensures RespondTo(Large(), p, Fill(0)) != RespondTo(Large(), p, Fill(0xFF))
  {
    hide Large, Respond, Regs, Overwrite;
    var b, c, d := p + Fill(0), p + Fill(0xFF), Large();
    assert b[..|p|] == p && c[..|p|] == p;
    ReadWriteWritten(d, b, |p|);
    ReadWriteWritten(d, c, |p|);
    var n := Word(p[7], p[8]);
    LastRegDiffers(p, 10, n);
    OverwriteDiffers(d.holding, Word(p[5], p[6]), Regs(b[10..], n), Regs(c[10..], n));
  }

  /** Without a byte, the function code itself comes from the buffer. */
  lemma UncoveredEmpty(d: Device)
    ensures RespondTo(d, [], Fill(0)) != RespondTo(d, [], Fill(0xFF))
  {
    hide Fill;
    assert ([] + Fill(0))[0] == 0 && ([] + Fill(0xFF))[0] == 0xFF;
    assert RespondTo(d, [], Fill(0)).1[0] == ErrorFunction(0);
    assert RespondTo(d, [], Fill(0xFF)).1[0] == ErrorFunction(0xFF);
  }

  lemma UncoveredDiffers(p: seq<byte>)
    requires !Covers(p)
    ensures RespondTo(Large(), p, Fill(0)) != RespondTo(Large(), p, Fill(0xFF))
  {
    hide RegistersAccepted, CoilsAccepted, ReadWriteAccepted, RespondTo, Large, Fill;
    if |p| == 0 { UncoveredEmpty(Large()); }
    else if p[0] == WRITE_MULTIPLE_REGISTERS { UncoveredRegisters(p); }
    else if p[0] == WRITE_MULTIPLE_COILS { UncoveredCoils(p); }
    else { UncoveredReadWrite(p); }
  }

  /** The device and the response depend on nothing but the bytes received exactly if there is a function
      code and the data that an accepted write declares has all come in. */
  lemma OnlyReceivedIff(p: seq<byte>)
    ensures OnlyReceived(p) <==> Covers(p)
  {
    hide RespondTo, Covers;
    if Covers(p) {
      forall d, t, t' | |p| + |t| >= MB_PDU_SIZE_MAX && |p| + |t'| >= MB_PDU_SIZE_MAX
        ensures RespondTo(d, p, t) == RespondTo(d, p, t')
      {
        CoveredAlike(d, p, t, t');
      }
    } else {
      UncoveredDiffers(p);
    }
  }

  /** What the master sends has all its data. */
  lemma EncodedCovered(r: Request)
    requires Encodable(r)
    ensures Covers(Encode(r))
  {
    hide RegBytes, PackBits;
    var p := Encode(r);
    assert Word(p[3], p[4]) == p[3] as int * 256 + p[4] as int;
  }

  // ---------- what is accepted ----------

  /** The function codes that the slave knows. */
  predicate Known(func: byte) { 1 <= func <= 6 || func == 15 || func == 16 || func == 23 }

  /** The bytes `p` are the request `r`; of coils that are written the last byte may have more bits, and behind the data
      of a write of several cells there may be more bytes. */
  predicate Spells(p: seq<byte>, r: Request)
    requires Encodable(r)
  {
    match r
    case CoilsWrite(_, bits) =>
      |p| >= 6 + (|bits| + 7) / 8 && |Encode(r)| >= 6 && p[..6] == Encode(r)[..6] && Bits(p[6..], |bits|) == bits
    case RegistersWrite(_, _) => Encode(r) <= p
    case RegistersReadWrite(_, _, _, _) => Encode(r) <= p
    case _ => p == Encode(r)
  }

  /** The request that some bytes are. */
  function Decode(p: seq<byte>): (r: Request)
    requires Covers(p) && |p| >= 5 && Known(p[0])
    requires p[0] == WRITE_MULTIPLE_REGISTERS ==> RegistersAccepted(p)
    requires p[0] == WRITE_MULTIPLE_COILS ==> CoilsAccepted(p)
    requires p[0] == READWRITE_MULTIPLE_REGISTERS ==> ReadWriteAccepted(p)
  {
    var addr, n := Word(p[1], p[2]), Word(p[3], p[4]);
    if p[0] == READ_COILS then CoilsRead(addr, n)
    else if p[0] == READ_DISCRETE_INPUTS then DiscreteRead(addr, n)
    else if p[0] == READ_HOLDING_REGISTER then HoldingRead(addr, n)
    else if p[0] == READ_INPUT_REGISTER then InputRead(addr, n)
    else if p[0] == WRITE_SINGLE_COIL then CoilWrite(addr, p[3] == 0xFF)
    else if p[0] == WRITE_REGISTER then RegisterWrite(addr, n)
    else if p[0] == WRITE_MULTIPLE_COILS then CoilsWrite(addr, Bits(p[6..], n))
    else if p[0] == WRITE_MULTIPLE_REGISTERS then RegistersWrite(addr, Regs(p[6..], n))
    else RegistersReadWrite(Word(p[5], p[6]), Regs(p[10..], Word(p[7], p[8])), addr, n)
  }

  lemma RegBytesBack(bs: seq<byte>, n: nat)
    requires 2 * n <= |bs|
    ensures RegBytes(Regs(bs, n)) == bs[..2 * n]
  {
    hide RegBytes, Regs;
    var vs := Regs(bs, n);
    forall i | 0 <= i < 2 * n ensures RegBytes(vs)[i] == bs[i] {
      RegBytesAt(vs, i / 2);
      RegHalves(bs, n, i / 2);
    }
  }

  lemma RegHalves(bs: seq<byte>, n: nat, i: nat)
    requires 2 * n <= |bs| && i < n
    ensures Hi(Regs(bs, n)[i]) == bs[2 * i] && Lo(Regs(bs, n)[i]) == bs[2 * i + 1]
  {
  }

  lemma HeadBack(p: seq<byte>)
    requires |p| >= 5
    ensures Head(p[0], Word(p[1], p[2]), Word(p[3], p[4])) == p[..5]
  {
  }

  lemma ReadSpelt(d: Device, b: seq<byte>, p: seq<byte>)
    requires p <= b && Buffer(b, |p|) && Covers(p) && 1 <= p[0] <= 4 && Dispatch(d, b, |p|).status !in {1, 3}
    ensures |p| == 5 && InRange(Seen(Decode(p))) && Spells(p, Decode(p))
  {
    hide Head, ReadRegisters, ReadBits, Encode;
    assert b[0] == p[0] && |p| == 5;
    assert b[1] == p[1] && b[2] == p[2] && b[3] == p[3] && b[4] == p[4] && p[..5] == p;
    HeadBack(p);
    HeadIs(Decode(p));
  }

  lemma OneWriteSpelt(d: Device, b: seq<byte>, p: seq<byte>)
    requires p <= b && Buffer(b, |p|) && Covers(p) && 5 <= p[0] <= 6 && Dispatch(d, b, |p|).status !in {1, 3}
    ensures |p| == 5 && InRange(Decode(p)) && Spells(p, Decode(p))
  {
    hide Head, WriteHolding, WriteCoils;
    assert b[0] == p[0] && |p| == 5;
    assert b[1] == p[1] && b[2] == p[2] && b[3] == p[3] && b[4] == p[4] && p[..5] == p;
    HeadBack(p);
  }

  lemma RegistersSpelt(d: Device, b: seq<byte>, p: seq<byte>)
    requires p <= b && Buffer(b, |p|) && Covers(p) && p[0] == WRITE_MULTIPLE_REGISTERS && Dispatch(d, b, |p|).status !in {1, 3}
    ensures RegistersAccepted(p) && InRange(Decode(p)) && Spells(p, Decode(p))
  {
    hide Word, WriteHolding, Regs, Encode, Head, RegBytes, RegByteCount;
    assert b[0] == p[0] && |p| >= 6;
    assert b[1] == p[1] && b[2] == p[2] && b[3] == p[3] && b[4] == p[4] && b[5] == p[5];
    HeadBack(p);
    var n := Word(p[3], p[4]);
    ByteCounts(n);
    RegBytesBack(p[6..], n);
    RegistersWriteText(Word(p[1], p[2]), Regs(p[6..], n));
    assert p[..5] + [p[5]] + p[6..][..2 * n] == p[..6 + 2 * n];
  }

  lemma ReadWriteSpelt(d: Device, b: seq<byte>, p: seq<byte>)
    requires p <= b && Buffer(b, |p|) && Covers(p) && p[0] == READWRITE_MULTIPLE_REGISTERS && |p| >= 10
    requires Dispatch(d, b, |p|).status !in {1, 3}
    ensures ReadWriteAccepted(p) && InRange(Decode(p)) && Spells(p, Decode(p))
  {
    hide Word, WriteHolding, ReadRegisters, Regs, Encode, Head, RegBytes, RegByteCount, Hi, Lo;
    assert b[0] == p[0];
    assert b[3] == p[3] && b[4] == p[4] && b[7] == p[7] && b[8] == p[8] && b[9] == p[9];
    HeadBack(p);
    var m := Word(p[7], p[8]);
    ByteCounts(m);
    HalvesBack(p[5], p[6]);
    HalvesBack(p[7], p[8]);
    RegBytesBack(p[10..], m);
    var c := [p[5], p[6], p[7], p[8], p[9]];
    ReadWriteText(Word(p[5], p[6]), Regs(p[10..], m), Word(p[1], p[2]), Word(p[3], p[4]), c);
    assert p[..5] + c + p[10..][..2 * m] == p[..10 + 2 * m];
  }

  lemma HalvesBack(hi: byte, lo: byte)
    ensures Hi(Word(hi, lo)) == hi && Lo(Word(hi, lo)) == lo
  {
  }

  lemma CoilsSpelt(d: Device, b: seq<byte>, p: seq<byte>)
    requires p <= b && Buffer(b, |p|) && Covers(p) && p[0] == WRITE_MULTIPLE_COILS && Dispatch(d, b, |p|).status !in {1, 3}
    ensures CoilsAccepted(p) && InRange(Decode(p)) && Spells(p, Decode(p))
  {
    hide Word, WriteCoils, Bits, Encode, Head, PackBits, CoilByteCount;
    assert b[0] == p[0] && |p| >= 6;
    assert b[1] == p[1] && b[2] == p[2] && b[3] == p[3] && b[4] == p[4] && b[5] == p[5];
    HeadBack(p);
    var n := Word(p[3], p[4]);
    ByteCounts(n);
    CoilsWriteText(Word(p[1], p[2]), Bits(p[6..], n));
    assert p[..5] + [p[5]] == p[..6];
  }

  lemma UnknownIff(d: Device, b: seq<byte>, len: nat)
    requires Buffer(b, len)
    ensures Dispatch(d, b, len).status == 1 <==> !Known(b[0])
  {
    hide RegBytes, PackBits, Regs, Bits, Word, Overwrite, RegByteCount, CoilByteCount;
  }

  /** Whatever the slave takes is a request with counts in range; all else it refuses with code 1 or 3.  A combined write
      and read that is too short is sent back. */
  lemma TakenIsRequest(d: Device, p: seq<byte>, t: seq<byte>)
    requires Covers(p) && |p| + |t| >= MB_PDU_SIZE_MAX && !(p[0] == READWRITE_MULTIPLE_REGISTERS && |p| < 10)
    ensures Dispatch(d, p + t, |p|).status == 1 <==> !Known(p[0])
    ensures Dispatch(d, p + t, |p|).status !in {1, 3} ==>
      exists r: Request :: Encodable(r) && InRange(Seen(r)) && Spells(p, r)
  {
    var b := p + t;
    hide Dispatch, Spells, Encode, InRange, RegistersAccepted, CoilsAccepted, ReadWriteAccepted;
    assert b[0] == p[0] && p <= b;
    UnknownIff(d, b, |p|);
    if Dispatch(d, b, |p|).status !in {1, 3} {
      if p[0] <= 4 { ReadSpelt(d, b, p); }
      else if p[0] <= 6 { OneWriteSpelt(d, b, p); }
      else if p[0] == 15 { CoilsSpelt(d, b, p); }
      else if p[0] == 16 { RegistersSpelt(d, b, p); }
      else { ReadWriteSpelt(d, b, p); }
    }
  }
}

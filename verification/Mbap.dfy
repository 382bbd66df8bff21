/** Framing of Modbus over TCP: the reader that cuts a byte stream into frames by the length field of
  the MBAP header (section 3.1.3 of MODBUS Messaging on TCP/IP V1.0b).
*/
module Mbap {
  import Modbus

  type byte = Modbus.byte

  const MB_TCP_PDU_SIZE_MAX: nat := 260
  const HEADER: nat := 7

  function Word(hi: byte, lo: byte): (w: nat)
    ensures w < 65536
  {
    256 * hi + lo
  }

  // ---------- the reader as an automaton ----------

  /** The bytes of the frame read so far, and how many are to come; that can be a number that
      counting down never brings to 0. */
  datatype State = Header(got: seq<byte>) | Pdu(got: seq<byte>, remaining: int)

  predicate Legal(s: State)
  {
    match s
    case Header(got) => |got| < HEADER
    case Pdu(got, remaining) =>
      && HEADER <= |got| <= MB_TCP_PDU_SIZE_MAX
      && remaining == Word(got[4], got[5]) + 6 - |got| && (|got| > HEADER ==> remaining != 0)
  }

  function Start(): State { Header([]) }

  /** One byte: the state after it, and the frame it completes, if any. */
  function Step(s: State, b: byte): (r: (State, seq<seq<byte>>))
    requires Legal(s)
    ensures Legal(r.0)
  {
    var g := s.got + [b];
    match s
    case Header(got) =>
      if |g| == HEADER then (Pdu(g, Word(g[4], g[5]) - 1), []) else (Header(g), [])
    case Pdu(got, remaining) =>
      if |got| >= MB_TCP_PDU_SIZE_MAX then (Start(), [])
      else if remaining - 1 == 0 then (Start(), [g])
      else (Pdu(g, remaining - 1), [])
  }

  /** All bytes, from the first on. */
  function Run(s: State, bs: seq<byte>): (r: (State, seq<seq<byte>>))
    requires Legal(s)
    ensures Legal(r.0)
    decreases |bs|
  {
    if bs == [] then (s, [])
    else
      var one := Step(s, bs[0]);
      var rest := Run(one.0, bs[1..]);
      (rest.0, one.1 + rest.1)
  }

  /** How the bytes are cut into chunks does not matter. */
  lemma {:induction false} RunAppend(s: State, a: seq<byte>, b: seq<byte>)
    requires Legal(s)
    ensures Run(s, a + b).0 == Run(Run(s, a).0, b).0
    ensures Run(s, a + b).1 == Run(s, a).1 + Run(Run(s, a).0, b).1
    decreases |a|
  {
    hide Step, Legal;
    if a == [] {
      assert a + b == b;
    } else {
      assert (a + b)[1..] == a[1..] + b;
      RunAppend(Step(s, a[0]).0, a[1..], b);
      var one, ra := Step(s, a[0]), Run(Step(s, a[0]).0, a[1..]);
      assert one.1 + (ra.1 + Run(ra.0, b).1) == (one.1 + ra.1) + Run(ra.0, b).1;
    }
  }

  lemma RunNothing(s: State)
    requires Legal(s)
    ensures Run(s, []).0 == s && Run(s, []).1 == [] && CallsOf([]) == []
  {
  }

  lemma RunOne(s: State, b: byte)
    requires Legal(s)
    ensures Run(s, [b]).0 == Step(s, b).0 && Run(s, [b]).1 == Step(s, b).1
  {
    assert [b][1..] == [];
    assert Step(s, b).1 + [] == Step(s, b).1;
  }

  // ---------- frames ----------

  /** The length field of a frame, which counts the unit identifier and the PDU. */
  function LengthField(f: seq<byte>): nat
    requires |f| >= HEADER
  {
    Word(f[4], f[5])
  }

  /** A frame whose length field is right. */
  predicate IsFrame(f: seq<byte>) { |f| >= HEADER && |f| == 6 + LengthField(f) }

  lemma StepHeader(got: seq<byte>, b: byte)
    requires |got| + 1 < HEADER
    ensures Step(Header(got), b).0 == Header(got + [b]) && Step(Header(got), b).1 == []
  {
  }

  lemma StepHeaderDone(got: seq<byte>, b: byte)
    requires |got| + 1 == HEADER
    ensures Step(Header(got), b).0 == Pdu(got + [b], Word((got + [b])[4], (got + [b])[5]) - 1) && Step(Header(got), b).1 == []
  {
  }

  /** The header is collected. */
  lemma {:induction false} HeaderRun(got: seq<byte>, bs: seq<byte>)
    requires |got| + |bs| < HEADER
    ensures Run(Header(got), bs).0 == Header(got + bs) && Run(Header(got), bs).1 == []
    decreases |bs|
  {
    hide Step, Word;
    if bs == [] {
      assert got + bs == got;
    } else {
      StepHeader(got, bs[0]);
      HeaderRun(got + [bs[0]], bs[1..]);
      assert (got + [bs[0]]) + bs[1..] == got + bs;
    }
  }

  /** The state in which the header `h` leaves the reader. */
  lemma HeaderDone(h: seq<byte>)
    requires |h| == HEADER
    ensures Run(Start(), h).0 == Pdu(h, LengthField(h) - 1) && Run(Start(), h).1 == []
  {
    hide Run, Step, Word;
    HeaderRun([], h[..6]);
    assert [] + h[..6] == h[..6];
    RunAppend(Start(), h[..6], [h[6]]);
    assert h[..6] + [h[6]] == h;
    RunOne(Header(h[..6]), h[6]);
    StepHeaderDone(h[..6], h[6]);
  }

  lemma StepPdu(got: seq<byte>, remaining: int, b: byte)
    requires Legal(Pdu(got, remaining)) && |got| < MB_TCP_PDU_SIZE_MAX && remaining != 1
    ensures Step(Pdu(got, remaining), b).0 == Pdu(got + [b], remaining - 1) && Step(Pdu(got, remaining), b).1 == []
  {
  }

  /** In the middle of a frame bytes are collected, as long as there is room and the count does not
      reach 0. */
  lemma {:induction false} PduRun(got: seq<byte>, remaining: int, bs: seq<byte>)
    requires Legal(Pdu(got, remaining)) && |got| + |bs| <= MB_TCP_PDU_SIZE_MAX
    requires remaining <= 0 || |bs| < remaining
    ensures Legal(Pdu(got + bs, remaining - |bs|))
    ensures Run(Pdu(got, remaining), bs).0 == Pdu(got + bs, remaining - |bs|) && Run(Pdu(got, remaining), bs).1 == []
    decreases |bs|
  {
    if bs == [] {
      assert got + bs == got;
    } else {
      hide Step, Word;
      StepPdu(got, remaining, bs[0]);
      PduRun(got + [bs[0]], remaining - 1, bs[1..]);
      assert (got + [bs[0]]) + bs[1..] == got + bs;
    }
  }

  /** A frame whose length field is between 2 and 254 is handed on, whole, and the reader is ready for
      the next. */
  lemma FrameRun(f: seq<byte>)
    requires IsFrame(f) && 2 <= LengthField(f) <= 254
    ensures Run(Start(), f).0 == Start() && Run(Start(), f).1 == [f]
  {
    hide Run, Step;
    var h, n := f[..HEADER], |f| - 1;
    var body, last := f[HEADER..n], [f[n]];
    HeaderDone(h);
    PduRun(h, LengthField(h) - 1, body);
    assert h + body == f[..n] && f[..n] + last == f;
    RunAppend(Start(), h, body);
    RunAppend(Start(), f[..n], last);
    LastByte(f[..n], f[n]);
  }

  lemma LastByte(got: seq<byte>, b: byte)
    requires Legal(Pdu(got, 1)) && |got| < MB_TCP_PDU_SIZE_MAX
    ensures Run(Pdu(got, 1), [b]).0 == Start() && Run(Pdu(got, 1), [b]).1 == [got + [b]]
  {
    assert [b][1..] == [];
  }

  function Concat(fs: seq<seq<byte>>): seq<byte> { if fs == [] then [] else fs[0] + Concat(fs[1..]) }

  /** A stream of such frames gives exactly these frames, once each and in order. */
  lemma {:induction false} StreamRun(fs: seq<seq<byte>>)
    requires forall i :: 0 <= i < |fs| ==> IsFrame(fs[i]) && 2 <= LengthField(fs[i]) <= 254
    ensures Run(Start(), Concat(fs)).0 == Start() && Run(Start(), Concat(fs)).1 == fs
    decreases |fs|
  {
    if fs != [] {
      FrameRun(fs[0]);
      StreamRun(fs[1..]);
      RunAppend(Start(), fs[0], Concat(fs[1..]));
      assert [fs[0]] + fs[1..] == fs;
    }
  }

  /** What is handed on is a frame with such a length, whatever comes in. */
  lemma {:induction false} OnlyFrames(s: State, bs: seq<byte>)
    requires Legal(s)
    ensures forall i :: 0 <= i < |Run(s, bs).1| ==>
      IsFrame(Run(s, bs).1[i]) && 2 <= LengthField(Run(s, bs).1[i]) <= 254
    decreases |bs|
  {
    if bs != [] { OnlyFrames(Step(s, bs[0]).0, bs[1..]); }
  }

  /** A frame is handed on exactly when its length field is between 2 and 254. */
  lemma FrameDeliveredIff(f: seq<byte>)
    requires IsFrame(f)
    ensures Run(Start(), f).1 == [f] <==> 2 <= LengthField(f) <= 254
  {
    if 2 <= LengthField(f) <= 254 { FrameRun(f); }
    OnlyFrames(Start(), f);
    if Run(Start(), f).1 == [f] { assert Run(Start(), f).1[0] == f; }
  }

  // ---------- recovery ----------

  /** Whatever comes in, the reader is back at the start of a header within 261 bytes. */
  lemma ReturnsToHeader(bs: seq<byte>) returns (k: nat)
    requires |bs| == MB_TCP_PDU_SIZE_MAX + 1
    ensures 0 < k <= |bs| && Run(Start(), bs[..k]).0 == Start()
  {
    hide Run, Step;
    var h := bs[..HEADER];
    var r := LengthField(h) - 1;
    HeaderDone(h);
    if 1 <= r <= MB_TCP_PDU_SIZE_MAX - HEADER {
      k := HEADER + r;
      FrameRun(bs[..k]);
    } else {
      k := |bs|;
      var body, last := bs[HEADER..k - 1], [bs[k - 1]];
      PduRun(h, r, body);
      assert h + body == bs[..k - 1] && bs[..k - 1] + last == bs[..k];
      RunAppend(Start(), h, body);
      RunAppend(Start(), bs[..k - 1], last);
      OneTooMany(bs[..k - 1], r - |body|, bs[k - 1]);
    }
  }

  lemma OneTooMany(got: seq<byte>, remaining: int, b: byte)
    requires Legal(Pdu(got, remaining)) && |got| == MB_TCP_PDU_SIZE_MAX
    ensures Run(Pdu(got, remaining), [b]).0 == Start()
  {
    assert [b][1..] == [];
  }

  // ---------- the reader ----------

  datatype ReaderState = StateHeader | StatePdu

  class MbapReader {
    const frame: array<byte>
    var state: ReaderState
    var tid: nat
    var pid: nat
    var length: nat
    var uid: nat
    var headerRemaining: int
    var dataRemaining: int
    var ndx: nat
    var calls: seq<Call>       // the invocations of the callback, with what it finds

    ghost predicate Ok()
      reads this, frame
    {
      && frame.Length == MB_TCP_PDU_SIZE_MAX && ndx <= MB_TCP_PDU_SIZE_MAX && Legal(Abstract())
      && (state == StateHeader ==> headerRemaining == HEADER - ndx)
      && (state == StatePdu ==>
           && tid == Word(frame[0], frame[1]) && pid == Word(frame[2], frame[3])
           && length == Word(frame[4], frame[5]) && uid == frame[6])
    }

    /** The state of the automaton. */
    ghost function Abstract(): State
      reads this, frame
      requires ndx <= frame.Length
    {
      if state == StateHeader then Header(frame[..ndx]) else Pdu(frame[..ndx], dataRemaining)
    }

    /** mbap_reader_init */
    constructor ()
      ensures Ok() && Abstract() == Start() && calls == [] && fresh(frame)
    {
      frame := new byte[MB_TCP_PDU_SIZE_MAX];
      calls := [];
      new;
      Reset();
    }

    /** mbap_reader_reset */
    method Reset()
      requires frame.Length == MB_TCP_PDU_SIZE_MAX
      modifies this
      ensures Ok() && Abstract() == Start() && calls == old(calls)
    {
      state := StateHeader;
      tid, pid, length, uid := 0, 0, 0, 0;
      headerRemaining, dataRemaining, ndx := HEADER, 0, 0;
    }

    /** mbap_state_machine in the header. */
    method HeaderByte(data: byte)
      requires Ok() && state == StateHeader
      modifies this, frame
      ensures Ok() && Abstract() == Step(old(Abstract()), data).0 && calls == old(calls)
    {
      hide Word, Step;
      ghost var got := frame[..ndx];
      if |got| + 1 < HEADER { StepHeader(got, data); } else { StepHeaderDone(got, data); }
      frame[ndx] := data;
      ndx := ndx + 1;
      headerRemaining := headerRemaining - 1;
      assert frame[..ndx] == got + [data];
      if headerRemaining == 0 { DecodeHeader(); }
    }

    /** The header is complete. */
    method DecodeHeader()
      requires frame.Length == MB_TCP_PDU_SIZE_MAX && ndx == HEADER
      modifies `tid, `pid, `length, `uid, `dataRemaining, `state
      ensures Ok() && Abstract() == Pdu(frame[..ndx], Word(frame[4], frame[5]) - 1)
    {
      tid := Word(frame[0], frame[1]);
      pid := Word(frame[2], frame[3]);
      length := Word(frame[4], frame[5]);
      uid := frame[6];
      dataRemaining := length - 1;
      state := StatePdu;
    }

    /** mbap_state_machine in the PDU. */
    method PduByte(data: byte)
      requires Ok() && state == StatePdu
      modifies this, frame
      ensures Ok() && Abstract() == Step(old(Abstract()), data).0
      ensures calls == old(calls) + CallsOf(Step(old(Abstract()), data).1)
    {
      ghost var got := frame[..ndx];
      if ndx >= MB_TCP_PDU_SIZE_MAX {
        Reset();
        return;
      }
      frame[ndx] := data;
      ndx := ndx + 1;
      dataRemaining := dataRemaining - 1;
      assert frame[..ndx] == got + [data];
      if dataRemaining == 0 {
        calls := calls + [Call(tid, pid, length, uid, frame[..ndx])];
        Reset();
      }
    }

    /** mbap_state_machine */
    method StateMachine(data: byte)
      requires Ok()
      modifies this, frame
      ensures Ok() && Abstract() == Step(old(Abstract()), data).0
      ensures calls == old(calls) + CallsOf(Step(old(Abstract()), data).1)
    {
      match state
      case StateHeader => HeaderByte(data);
      case StatePdu => PduByte(data);
    }

    /** mbap_reader_feed */
    method Feed(buf: array<byte>, len: nat)
      requires Ok() && len <= buf.Length && buf != frame
      modifies this, frame
      ensures Ok() && Abstract() == Run(old(Abstract()), buf[..len]).0
      ensures calls == old(calls) + CallsOf(Run(old(Abstract()), buf[..len]).1)
    {
      hide Run, Step, CallsOf, Legal;
      ghost var s0 := Abstract();
      RunNothing(s0);
      var i := 0;
      assert buf[..0] == [];
      while i < len
        invariant 0 <= i <= len && Ok() && Abstract() == Run(s0, buf[..i]).0
        invariant calls == old(calls) + CallsOf(Run(s0, buf[..i]).1)
      {
        assert buf[..i + 1] == buf[..i] + [buf[i]];
        RunAppend(s0, buf[..i], [buf[i]]);
        RunOne(Abstract(), buf[i]);
        CallsAppend(Run(s0, buf[..i]).1, Step(Abstract(), buf[i]).1);
        StateMachine(buf[i]);
        i := i + 1;
      }
    }
  }

  /** What the callback finds: the decoded header and the bytes of the frame. */
  datatype Call = Call(tid: nat, pid: nat, length: nat, uid: nat, frame: seq<byte>)

  function CallOf(f: seq<byte>): Call
  {
    if |f| < HEADER then Call(0, 0, 0, 0, f)
    else Call(Word(f[0], f[1]), Word(f[2], f[3]), Word(f[4], f[5]), f[6], f)
  }

  function CallsOf(fs: seq<seq<byte>>): (r: seq<Call>)
    ensures |r| == |fs| && forall i :: 0 <= i < |fs| ==> r[i] == CallOf(fs[i])
  {
    seq(|fs|, i requires 0 <= i < |fs| => CallOf(fs[i]))
  }

  lemma CallsAppend(a: seq<seq<byte>>, b: seq<seq<byte>>)
    ensures CallsOf(a + b) == CallsOf(a) + CallsOf(b)
  {
  }
}
